/** `ChromaDBClient`: writes embedded chunks to a vector-store collection in
    batches and queries it. The store is an append-only list of records; its
    nearest-neighbour search is a parameter. */
module ChromaClient {
  import opened Wrappers
  import opened Text
  import opened Records

  const DefaultCollectionName: string := "appian_documents"

  /** Entries written per `collection.add` call. */
  const BatchSize: nat := 100

  /** One stored entry: the id, vector, text and metadata written at the same
      position of one `add` call. */
  datatype Record = Record(id: string, embedding: seq<real>, document: string, metadata: Metadata)

  /** A query as the store receives it. */
  datatype QueryRequest = QueryRequest(queryEmbeddings: seq<seq<real>>, nResults: int, where: Option<Filter>)

  /** What a query returns: one list per query embedding of ids, texts,
      metadatas and distances, best match first. */
  datatype QueryResult = QueryResult(
    ids: seq<seq<string>>,
    documents: seq<seq<string>>,
    metadatas: seq<seq<Metadata>>,
    distances: seq<seq<real>>)

  /** `{'collection_name', 'document_count'}` */
  datatype Stats = Stats(collectionName: string, documentCount: nat)

  /** The records made from four parallel lists. */
  function Zip(ids: seq<string>, embeddings: seq<seq<real>>, documents: seq<string>, metadatas: seq<Metadata>): (r: seq<Record>)
    requires |ids| == |embeddings| == |documents| == |metadatas|
    ensures |r| == |ids|
    ensures forall j :: 0 <= j < |r| ==> r[j] == Record(ids[j], embeddings[j], documents[j], metadatas[j])
  {
    seq(|ids|, j requires 0 <= j < |ids| => Record(ids[j], embeddings[j], documents[j], metadatas[j]))
  }

  /** A collection of the store. */
  class Collection {
    const name: string
    var records: seq<Record>
    /** The record lists of the `add` calls made so far, in call order. */
    ghost var batches: seq<seq<Record>>

    constructor (name: string, records: seq<Record>)
      ensures this.name == name && this.records == records && batches == []
    {
      this.name := name;
      this.records := records;
      batches := [];
    }

    /** `collection.count()` */
    function Count(): nat
      reads this
    {
      |records|
    }

    /** `collection.add`: append the records of four parallel lists. */
    method Add(ids: seq<string>, embeddings: seq<seq<real>>, documents: seq<string>, metadatas: seq<Metadata>)
      requires |ids| == |embeddings| == |documents| == |metadatas|
      modifies this
      ensures records == old(records) + Zip(ids, embeddings, documents, metadatas)
      ensures batches == old(batches) + [Zip(ids, embeddings, documents, metadatas)]
    {
      records := records + Zip(ids, embeddings, documents, metadatas);
      batches := batches + [Zip(ids, embeddings, documents, metadatas)];
    }
  }

  /** The metadata stored for a chunk: exactly its file, its page and its
      position, the position read with default 0. */
  function MetadataOf(c: EmbeddedChunk): Metadata
  {
    Metadata(Some(c.sourceFile), Some(c.pageNum), Some(c.chunkIndex.GetOr(0)))
  }

  /** The record stored for a chunk. */
  function RecordOf(c: EmbeddedChunk): Record
  {
    Record(c.chunkId, c.embedding, c.text, MetadataOf(c))
  }

  /** The records stored for a list of chunks, one per chunk, in order. */
  function RecordsOf(chunks: seq<EmbeddedChunk>): (r: seq<Record>)
    ensures |r| == |chunks|
    ensures forall j :: 0 <= j < |r| ==> r[j] == RecordOf(chunks[j])
  {
    seq(|chunks|, j requires 0 <= j < |chunks| => RecordOf(chunks[j]))
  }

  /** The number of batches for `n` entries, `ceil(n / 100)`. */
  function NumBatches(n: nat): nat
  {
    (n + BatchSize - 1) / BatchSize
  }

  /** Batch `b` (from 0): entries `b*100` up to `min((b+1)*100, n)`. */
  function BatchAt<T>(xs: seq<T>, b: nat): seq<T>
    requires b < NumBatches(|xs|)
  {
    var start := b * BatchSize;
    var end := if start + BatchSize < |xs| then start + BatchSize else |xs|;
    xs[start..end]
  }

  /** The batches `add_documents` writes, in order. */
  function Batches<T>(xs: seq<T>): (r: seq<seq<T>>)
    ensures |r| == NumBatches(|xs|)
    ensures forall b :: 0 <= b < |r| ==> r[b] == BatchAt(xs, b)
  {
    seq(NumBatches(|xs|), b requires 0 <= b < NumBatches(|xs|) => BatchAt(xs, b))
  }

  /** The `where` argument of a query: the filter when it is a non-empty
      dictionary, `None` otherwise (an empty dictionary is falsy). */
  function WhereClause(filters: Option<Filter>): (r: Option<Filter>)
    ensures r.None? <==> filters.None? || filters.value == map[]
    ensures r.Some? ==> r == filters
  {
    if filters.Some? && filters.value != map[] then filters else None
  }

  /** `ChromaDBClient`: a collection name and the collection it is bound to. */
  class ChromaDBClient {
    const collectionName: string
    var collection: Collection

    /** The client is bound to the collection of its name. */
    predicate Valid()
      reads this, collection
    {
      collection.name == collectionName
    }

    /** Open the collection `collectionName`, or create it empty when the store
        has none (`existing` is what the store already holds under that name). */
    constructor (collectionName: string, existing: Option<seq<Record>>)
      ensures Valid() && this.collectionName == collectionName
      ensures collection.records == existing.GetOr([])
    {
      this.collectionName := collectionName;
      match existing
      case Some(records) =>
        collection := new Collection(collectionName, records);
      case None =>
        collection := new Collection(collectionName, []);
    }

    /** `add_documents`: nothing for no chunks; otherwise the chunks' records
        appended in consecutive batches of at most 100. */
    method AddDocuments(chunks: seq<EmbeddedChunk>)
      requires Valid()
      modifies collection
      ensures Valid()
      ensures collection.records == old(collection.records) + RecordsOf(chunks)
      ensures collection.batches == old(collection.batches) + Batches(RecordsOf(chunks))
    {
      if |chunks| == 0 {
        assert Batches(RecordsOf(chunks)) == [];
        return;
      }
      var ids := seq(|chunks|, j requires 0 <= j < |chunks| => chunks[j].chunkId);
      var embeddings := seq(|chunks|, j requires 0 <= j < |chunks| => chunks[j].embedding);
      var documents := seq(|chunks|, j requires 0 <= j < |chunks| => chunks[j].text);
      var metadatas := seq(|chunks|, j requires 0 <= j < |chunks| =>
        Metadata(Some(chunks[j].sourceFile), Some(chunks[j].pageNum), Some(chunks[j].chunkIndex.GetOr(0))));
      assert Zip(ids, embeddings, documents, metadatas) == RecordsOf(chunks);
      AddInBatches(ids, embeddings, documents, metadatas);
    }

    /** The batch loop of `add_documents`: the parallel lists written in
        consecutive slices of at most 100 entries. */
    method AddInBatches(ids: seq<string>, embeddings: seq<seq<real>>, documents: seq<string>, metadatas: seq<Metadata>)
      requires Valid()
      requires |ids| == |embeddings| == |documents| == |metadatas|
      modifies collection
      ensures Valid()
      ensures collection.records == old(collection.records) + Zip(ids, embeddings, documents, metadatas)
      ensures collection.batches == old(collection.batches) + Batches(Zip(ids, embeddings, documents, metadatas))
    {
      ghost var all := Zip(ids, embeddings, documents, metadatas);
      var batchSize := BatchSize;
      var i := 0;
      ghost var b := 0;
      while i < |ids|
        invariant i == b * BatchSize && b <= NumBatches(|ids|)
        invariant i < |ids| ==> b < NumBatches(|ids|)
        invariant collection.records == old(collection.records) + all[..if i < |ids| then i else |ids|]
        invariant collection.batches == old(collection.batches) + Batches(all)[..b]
        invariant Valid()
        decreases |ids| - i
      {
        var batchEnd := if i + batchSize < |ids| then i + batchSize else |ids|;
        ZipSlice(ids, embeddings, documents, metadatas, i, batchEnd);
        WrittenStep(old(collection.records), old(collection.batches), all, b);
        collection.Add(ids[i..batchEnd], embeddings[i..batchEnd], documents[i..batchEnd], metadatas[i..batchEnd]);
        i := i + batchSize;
        b := b + 1;
      }
      assert all[..|ids|] == all;
      assert Batches(all)[..b] == Batches(all);
    }

    /** `search`: query the collection with one embedding, at most `topK`
        results and the filter only when it is non-empty; `nearest` is the
        store's search over the collection's records. */
    method Search(queryEmbedding: seq<real>, topK: int, filters: Option<Filter>,
                  nearest: (QueryRequest, seq<Record>) -> QueryResult)
      returns (results: QueryResult)
      ensures results == nearest(QueryRequest([queryEmbedding], topK, WhereClause(filters)), collection.records)
    {
      var where := if filters.Some? && filters.value != map[] then filters else None;
      results := nearest(QueryRequest([queryEmbedding], topK, where), collection.records);
    }

    /** `get_collection_stats`: the collection's name and its record count. */
    method GetCollectionStats() returns (stats: Stats)
      ensures stats.collectionName == collectionName
      ensures stats.documentCount == |collection.records|
    {
      var count := collection.Count();
      stats := Stats(collectionName, count);
    }

    /** `reset_collection`: drop the collection and bind a new, empty one of
        the same name. */
    method ResetCollection()
      modifies this
      ensures Valid() && fresh(collection)
      ensures collection.Count() == 0
    {
      collection := new Collection(collectionName, []);
    }
  }

  /** Slicing the parallel lists slices their records. */
  lemma ZipSlice(ids: seq<string>, embeddings: seq<seq<real>>, documents: seq<string>, metadatas: seq<Metadata>, i: nat, e: nat)
    requires |ids| == |embeddings| == |documents| == |metadatas| && i <= e <= |ids|
    ensures Zip(ids[i..e], embeddings[i..e], documents[i..e], metadatas[i..e]) == Zip(ids, embeddings, documents, metadatas)[i..e]
  {
  }

  /** Writing batch `b` extends the written prefix by that batch. */
  lemma BatchStep<T>(xs: seq<T>, b: nat)
    requires b < NumBatches(|xs|)
    ensures var start := b * BatchSize;
      var end := if start + BatchSize < |xs| then start + BatchSize else |xs|;
      start < |xs| && BatchAt(xs, b) == xs[start..end] &&
      xs[..end] == xs[..start] + BatchAt(xs, b) &&
      Batches(xs)[..b + 1] == Batches(xs)[..b] + [BatchAt(xs, b)]
  {
    var start := b * BatchSize;
    var end := if start + BatchSize < |xs| then start + BatchSize else |xs|;
    assert xs[..end] == xs[..start] + xs[start..end];
    assert Batches(xs)[..b + 1] == Batches(xs)[..b] + [Batches(xs)[b]];
  }

  /** Writing batch `b` after the first `b` batches gives the first `b + 1`
      batches, both as records and as the log of batches. */
  lemma WrittenStep<T>(records: seq<T>, batches: seq<seq<T>>, xs: seq<T>, b: nat)
    requires b < NumBatches(|xs|)
    ensures var start := b * BatchSize;
      var end := if start + BatchSize < |xs| then start + BatchSize else |xs|;
      start < |xs| && 0 <= start <= end <= |xs| && BatchAt(xs, b) == xs[start..end] &&
      records + xs[..start] + xs[start..end] == records + xs[..end] &&
      batches + Batches(xs)[..b] + [xs[start..end]] == batches + Batches(xs)[..b + 1]
  {
    BatchStep(xs, b);
    var start := b * BatchSize;
    var end := if start + BatchSize < |xs| then start + BatchSize else |xs|;
    assert records + xs[..start] + xs[start..end] == records + (xs[..start] + xs[start..end]);
    assert batches + Batches(xs)[..b] + [xs[start..end]] == batches + (Batches(xs)[..b] + [BatchAt(xs, b)]);
  }

  /** The batches concatenate back to the input: nothing lost, duplicated or
      reordered. */
  lemma BatchesConcat<T>(xs: seq<T>)
    ensures Concat(Batches(xs)) == xs
  {
    BatchesPrefix(xs, NumBatches(|xs|));
    assert Batches(xs)[..NumBatches(|xs|)] == Batches(xs);
  }

  /** The first `k` batches concatenate to the input up to `k * 100`. */
  lemma {:induction false} BatchesPrefix<T>(xs: seq<T>, k: nat)
    requires k <= NumBatches(|xs|)
    ensures Concat(Batches(xs)[..k]) == xs[..if k * BatchSize < |xs| then k * BatchSize else |xs|]
  {
    if k > 0 {
      BatchesPrefix(xs, k - 1);
      assert Batches(xs)[..k][..k - 1] == Batches(xs)[..k - 1];
    }
  }

  /** Every batch holds between 1 and 100 entries, and there are
      `ceil(n / 100)` of them; no entries, no batch. */
  lemma BatchSizes<T>(xs: seq<T>)
    ensures |Batches(xs)| == (|xs| + 99) / 100
    ensures forall b :: 0 <= b < |Batches(xs)| ==> 1 <= |Batches(xs)[b]| <= BatchSize
    ensures |xs| == 0 <==> Batches(xs) == []
  {
  }

  /** Position `j` of the stored records comes from chunk `j`: id, vector,
      text and metadata of the same chunk, and the metadata holds exactly the
      file, the page and the position (0 when the chunk has none). */
  lemma RecordsAligned(chunks: seq<EmbeddedChunk>, j: nat)
    requires j < |chunks|
    ensures var r := RecordsOf(chunks)[j];
      r.id == chunks[j].chunkId && r.embedding == chunks[j].embedding &&
      r.document == chunks[j].text &&
      r.metadata.sourceFile == Some(chunks[j].sourceFile) &&
      r.metadata.pageNum == Some(chunks[j].pageNum) &&
      r.metadata.chunkIndex.Some? &&
      (chunks[j].chunkIndex.None? ==> r.metadata.chunkIndex == Some(0)) &&
      (chunks[j].chunkIndex.Some? ==> r.metadata.chunkIndex == chunks[j].chunkIndex)
  {
  }
}
