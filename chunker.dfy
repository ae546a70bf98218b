/** `TextChunker`: splits every page with a character splitter, drops short
    pieces and labels the survivors with their page, position and id. */
module Chunker {
  import opened Text
  import opened Records
  import Utils

  /** The LangChain recursive character splitter, configured with a chunk size
      and an overlap; how it splits is not modelled. */
  datatype Splitter = Splitter(chunkSize: nat, chunkOverlap: nat, splitText: string -> seq<string>)

  const DefaultChunkSize: nat := 800
  const DefaultChunkOverlap: nat := 100

  /** Pieces whose stripped text is shorter than this are dropped. */
  const MinChunkChars: nat := 50

  /** The chunk id `f"{source_file}_page{page_num}_chunk{idx}"`. */
  function ChunkId(sourceFile: string, pageNum: int, idx: nat): string
  {
    Utils.PageChunkLabel(sourceFile, pageNum, idx)
  }

  /** A piece is kept when its stripped text has at least `MinChunkChars` characters. */
  predicate Keep(isSpace: char -> bool, piece: string)
  {
    |Strip(isSpace, piece)| >= MinChunkChars
  }

  /** The chunk made from the piece at position `idx` of a page's split. */
  function MakeChunk(page: Page, piece: string, idx: nat): Chunk
  {
    Chunk(ChunkId(page.sourceFile, page.pageNum, idx), piece, page.pageNum, page.sourceFile, idx, |piece|)
  }

  /** The chunks of the first `n` pieces of a page, in splitter order. */
  function PieceChunks(isSpace: char -> bool, page: Page, pieces: seq<string>, n: nat): seq<Chunk>
    requires n <= |pieces|
  {
    if n == 0 then []
    else PieceChunks(isSpace, page, pieces, n - 1)
         + (if Keep(isSpace, pieces[n - 1]) then [MakeChunk(page, pieces[n - 1], n - 1)] else [])
  }

  /** The chunks of one page. */
  function PageChunks(sp: Splitter, isSpace: char -> bool, page: Page): seq<Chunk>
  {
    var pieces := sp.splitText(page.text);
    PieceChunks(isSpace, page, pieces, |pieces|)
  }

  /** The chunks of a page list: each page's chunks, pages in input order. */
  function DocumentChunks(sp: Splitter, isSpace: char -> bool, pages: seq<Page>): seq<Chunk>
  {
    if |pages| == 0 then []
    else DocumentChunks(sp, isSpace, pages[..|pages| - 1]) + PageChunks(sp, isSpace, pages[|pages| - 1])
  }

  /** `chunk_document`: for each page, split its text and keep, in order,
      every piece that is long enough once stripped. */
  method ChunkDocument(sp: Splitter, isSpace: char -> bool, pages: seq<Page>) returns (allChunks: seq<Chunk>)
    ensures allChunks == DocumentChunks(sp, isSpace, pages)
  {
    allChunks := [];
    for i := 0 to |pages|
      invariant allChunks == DocumentChunks(sp, isSpace, pages[..i])
    {
      var page := pages[i];
      var chunks := sp.splitText(page.text);
      ghost var before := allChunks;
      for idx := 0 to |chunks|
        invariant allChunks == before + PieceChunks(isSpace, page, chunks, idx)
      {
        var chunkText := chunks[idx];
        if |Strip(isSpace, chunkText)| < MinChunkChars {
          continue;
        }
        var chunkObj := Chunk(
          ChunkId(page.sourceFile, page.pageNum, idx), chunkText, page.pageNum,
          page.sourceFile, idx, |chunkText|);
        allChunks := allChunks + [chunkObj];
      }
      assert pages[..i + 1][..i] == pages[..i];
    }
    assert pages[..|pages|] == pages;
  }

  /** `chunk_all_documents`: the chunks of every document, documents in order. */
  function AllChunks(sp: Splitter, isSpace: char -> bool, documents: seq<Document>): seq<Chunk>
  {
    if |documents| == 0 then []
    else AllChunks(sp, isSpace, documents[..|documents| - 1])
         + DocumentChunks(sp, isSpace, documents[|documents| - 1].pages)
  }

  /** `chunk_all_documents`, extending one list with each document's chunks. */
  method ChunkAllDocuments(sp: Splitter, isSpace: char -> bool, documents: seq<Document>)
    returns (allChunks: seq<Chunk>)
    ensures allChunks == AllChunks(sp, isSpace, documents)
  {
    allChunks := [];
    for i := 0 to |documents|
      invariant allChunks == AllChunks(sp, isSpace, documents[..i])
    {
      var chunks := ChunkDocument(sp, isSpace, documents[i].pages);
      allChunks := allChunks + chunks;
      assert documents[..i + 1][..i] == documents[..i];
    }
    assert documents[..|documents|] == documents;
  }

  // ---------------------------------------------------------------------------
  // Properties of the chunks of one page

  /** Every chunk of the first `n` pieces is a kept piece at its own splitter
      position, labelled with the page's number and file. */
  lemma {:induction false} PieceChunksSound(isSpace: char -> bool, page: Page, pieces: seq<string>, n: nat, k: nat)
    requires n <= |pieces| && k < |PieceChunks(isSpace, page, pieces, n)|
    ensures var c := PieceChunks(isSpace, page, pieces, n)[k];
      c.chunkIndex < n && c == MakeChunk(page, pieces[c.chunkIndex], c.chunkIndex) &&
      Keep(isSpace, pieces[c.chunkIndex])
  {
    var prev := PieceChunks(isSpace, page, pieces, n - 1);
    if k < |prev| {
      PieceChunksSound(isSpace, page, pieces, n - 1, k);
    }
  }

  /** The chunks of the first `n` pieces have positions below `n`. */
  lemma {:induction false} PieceChunksIndexBound(isSpace: char -> bool, page: Page, pieces: seq<string>, n: nat)
    requires n <= |pieces|
    ensures forall c :: c in PieceChunks(isSpace, page, pieces, n) ==> c.chunkIndex < n
  {
    if n > 0 {
      PieceChunksIndexBound(isSpace, page, pieces, n - 1);
    }
  }

  /** Every kept piece among the first `n` yields a chunk. */
  lemma {:induction false} PieceChunksComplete(isSpace: char -> bool, page: Page, pieces: seq<string>, n: nat, j: nat)
    requires j < n <= |pieces| && Keep(isSpace, pieces[j])
    ensures MakeChunk(page, pieces[j], j) in PieceChunks(isSpace, page, pieces, n)
  {
    if j < n - 1 {
      PieceChunksComplete(isSpace, page, pieces, n - 1, j);
    }
  }

  /** Chunk positions strictly increase along `cs`. */
  predicate IndicesIncreasing(cs: seq<Chunk>)
  {
    forall a, b :: 0 <= a < b < |cs| ==> cs[a].chunkIndex < cs[b].chunkIndex
  }

  /** Appending a chunk whose position exceeds every earlier one keeps the
      positions increasing. */
  lemma AppendIncreasing(prev: seq<Chunk>, c: Chunk)
    requires IndicesIncreasing(prev)
    requires forall d :: d in prev ==> d.chunkIndex < c.chunkIndex
    ensures IndicesIncreasing(prev + [c])
  {
    var cs := prev + [c];
    forall a, b | 0 <= a < b < |cs|
      ensures cs[a].chunkIndex < cs[b].chunkIndex
    {
      assert cs[a] == prev[a] && prev[a] in prev;
    }
  }

  /** Within a page the chunk indices strictly increase; dropped pieces leave gaps. */
  lemma {:induction false} PieceChunksIncreasing(isSpace: char -> bool, page: Page, pieces: seq<string>, n: nat)
    requires n <= |pieces|
    ensures IndicesIncreasing(PieceChunks(isSpace, page, pieces, n))
  {
    if n > 0 {
      var prev := PieceChunks(isSpace, page, pieces, n - 1);
      PieceChunksIncreasing(isSpace, page, pieces, n - 1);
      if Keep(isSpace, pieces[n - 1]) {
        PieceChunksIndexBound(isSpace, page, pieces, n - 1);
        AppendIncreasing(prev, MakeChunk(page, pieces[n - 1], n - 1));
      } else {
        assert PieceChunks(isSpace, page, pieces, n) == prev;
      }
    }
  }

  // ---------------------------------------------------------------------------
  // Properties of the chunks of a document

  /** Chunking splits over concatenated page lists: the chunks of
      `pages1 + pages2` are those of `pages1` followed by those of `pages2`. */
  lemma {:induction false} DocumentChunksAppend(sp: Splitter, isSpace: char -> bool, pages1: seq<Page>, pages2: seq<Page>)
    ensures DocumentChunks(sp, isSpace, pages1 + pages2)
         == DocumentChunks(sp, isSpace, pages1) + DocumentChunks(sp, isSpace, pages2)
    decreases |pages2|
  {
    if |pages2| > 0 {
      var last := |pages2| - 1;
      assert (pages1 + pages2)[..|pages1 + pages2| - 1] == pages1 + pages2[..last];
      DocumentChunksAppend(sp, isSpace, pages1, pages2[..last]);
    } else {
      assert pages1 + pages2 == pages1;
    }
  }

  /** Every chunk of a document comes from one page: it is the piece at
      position `chunkIndex` of that page's split, its stripped text has at
      least 50 characters, its length is its text's length, its page number
      and file are the page's, and its id is built from them. */
  lemma {:induction false} DocumentChunksSound(sp: Splitter, isSpace: char -> bool, pages: seq<Page>, k: nat)
    requires k < |DocumentChunks(sp, isSpace, pages)|
    ensures var c := DocumentChunks(sp, isSpace, pages)[k];
      exists p :: 0 <= p < |pages| &&
        var pieces := sp.splitText(pages[p].text);
        c.chunkIndex < |pieces| && c.text == pieces[c.chunkIndex] &&
        |Strip(isSpace, c.text)| >= MinChunkChars && c.chunkLength == |c.text| &&
        c.pageNum == pages[p].pageNum && c.sourceFile == pages[p].sourceFile &&
        c.chunkId == ChunkId(pages[p].sourceFile, pages[p].pageNum, c.chunkIndex)
  {
    var n := |pages| - 1;
    var prev := DocumentChunks(sp, isSpace, pages[..n]);
    if k < |prev| {
      DocumentChunksSound(sp, isSpace, pages[..n], k);
      var p :| 0 <= p < n &&
        var pieces := sp.splitText(pages[..n][p].text);
        var c := prev[k];
        c.chunkIndex < |pieces| && c.text == pieces[c.chunkIndex] &&
        |Strip(isSpace, c.text)| >= MinChunkChars && c.chunkLength == |c.text| &&
        c.pageNum == pages[..n][p].pageNum && c.sourceFile == pages[..n][p].sourceFile &&
        c.chunkId == ChunkId(pages[..n][p].sourceFile, pages[..n][p].pageNum, c.chunkIndex);
      assert pages[..n][p] == pages[p];
    } else {
      var pieces := sp.splitText(pages[n].text);
      PieceChunksSound(isSpace, pages[n], pieces, |pieces|, k - |prev|);
    }
  }

  /** Every piece of every page that is long enough once stripped is chunked. */
  lemma {:induction false} DocumentChunksComplete(sp: Splitter, isSpace: char -> bool, pages: seq<Page>, p: nat, j: nat)
    requires p < |pages| && j < |sp.splitText(pages[p].text)|
    requires Keep(isSpace, sp.splitText(pages[p].text)[j])
    ensures MakeChunk(pages[p], sp.splitText(pages[p].text)[j], j) in DocumentChunks(sp, isSpace, pages)
  {
    var n := |pages| - 1;
    if p < n {
      assert pages[..n][p] == pages[p];
      DocumentChunksComplete(sp, isSpace, pages[..n], p, j);
    } else {
      var pieces := sp.splitText(pages[n].text);
      PieceChunksComplete(isSpace, pages[n], pieces, |pieces|, j);
    }
  }

  /** A chunk id determines the source file, the page number and the
      position: ids differ whenever any of the three differ, across files too. */
  lemma ChunkIdInjective(f1: string, p1: int, i1: nat, f2: string, p2: int, i2: nat)
    requires ChunkId(f1, p1, i1) == ChunkId(f2, p2, i2)
    ensures f1 == f2 && p1 == p2 && i1 == i2
  {
    Utils.PageChunkLabelInjective(f1, p1, i1, f2, p2, i2);
  }

  /** No two chunks of `cs` share an id. */
  predicate IdsDistinct(cs: seq<Chunk>)
  {
    forall x, y :: 0 <= x < y < |cs| ==> cs[x].chunkId != cs[y].chunkId
  }

  /** No two pages share both source file and page number. */
  predicate PagesDistinct(pages: seq<Page>)
  {
    forall a, b :: 0 <= a < b < |pages| ==>
      pages[a].sourceFile != pages[b].sourceFile || pages[a].pageNum != pages[b].pageNum
  }

  /** The ids of the chunks of a page list are pairwise distinct when no two
      pages share file and page number (within one document both loaders
      number pages distinctly). */
  lemma {:induction false} DocumentChunkIdsDistinct(sp: Splitter, isSpace: char -> bool, pages: seq<Page>)
    requires PagesDistinct(pages)
    ensures IdsDistinct(DocumentChunks(sp, isSpace, pages))
  {
    if |pages| > 0 {
      var n := |pages| - 1;
      var prev := DocumentChunks(sp, isSpace, pages[..n]);
      var pieces := sp.splitText(pages[n].text);
      var last := PieceChunks(isSpace, pages[n], pieces, |pieces|);
      assert DocumentChunks(sp, isSpace, pages) == prev + last;
      DocumentChunkIdsDistinct(sp, isSpace, pages[..n]);
      PageChunkIdsDistinct(isSpace, pages[n], pieces);
      forall x, y | 0 <= x < |prev| && 0 <= y < |last|
        ensures prev[x].chunkId != last[y].chunkId
      {
        PieceChunksSound(isSpace, pages[n], pieces, |pieces|, y);
        EarlierPageIdDiffers(sp, isSpace, pages, x, last[y].chunkIndex);
      }
      AppendIdsDistinct(prev, last);
    }
  }

  /** The chunks of one page have distinct ids: their indices increase. */
  lemma PageChunkIdsDistinct(isSpace: char -> bool, page: Page, pieces: seq<string>)
    ensures IdsDistinct(PieceChunks(isSpace, page, pieces, |pieces|))
  {
    var cs := PieceChunks(isSpace, page, pieces, |pieces|);
    PieceChunksIncreasing(isSpace, page, pieces, |pieces|);
    forall x, y | 0 <= x < y < |cs|
      ensures cs[x].chunkId != cs[y].chunkId
    {
      PieceChunksSound(isSpace, page, pieces, |pieces|, x);
      PieceChunksSound(isSpace, page, pieces, |pieces|, y);
      if cs[x].chunkId == cs[y].chunkId {
        ChunkIdInjective(page.sourceFile, page.pageNum, cs[x].chunkIndex, page.sourceFile, page.pageNum, cs[y].chunkIndex);
      }
    }
  }

  /** A chunk of an earlier page has a different id from any id the last
      page can produce. */
  lemma EarlierPageIdDiffers(sp: Splitter, isSpace: char -> bool, pages: seq<Page>, x: nat, i: nat)
    requires |pages| > 0 && PagesDistinct(pages)
    requires x < |DocumentChunks(sp, isSpace, pages[..|pages| - 1])|
    ensures var n := |pages| - 1;
      DocumentChunks(sp, isSpace, pages[..n])[x].chunkId != ChunkId(pages[n].sourceFile, pages[n].pageNum, i)
  {
    var n := |pages| - 1;
    var c := DocumentChunks(sp, isSpace, pages[..n])[x];
    DocumentChunksSound(sp, isSpace, pages[..n], x);
    var p :| 0 <= p < n && c.chunkId == ChunkId(pages[..n][p].sourceFile, pages[..n][p].pageNum, c.chunkIndex);
    assert pages[..n][p] == pages[p];
    if c.chunkId == ChunkId(pages[n].sourceFile, pages[n].pageNum, i) {
      ChunkIdInjective(pages[p].sourceFile, pages[p].pageNum, c.chunkIndex, pages[n].sourceFile, pages[n].pageNum, i);
    }
  }

  /** Two id-distinct lists with no id in common concatenate to an
      id-distinct list. */
  lemma AppendIdsDistinct(xs: seq<Chunk>, ys: seq<Chunk>)
    requires IdsDistinct(xs) && IdsDistinct(ys)
    requires forall x, y :: 0 <= x < |xs| && 0 <= y < |ys| ==> xs[x].chunkId != ys[y].chunkId
    ensures IdsDistinct(xs + ys)
  {
    var zs := xs + ys;
    forall x, y | 0 <= x < y < |zs|
      ensures zs[x].chunkId != zs[y].chunkId
    {
      if y < |xs| {
        assert zs[x] == xs[x] && zs[y] == xs[y];
      } else if x < |xs| {
        assert zs[x] == xs[x] && zs[y] == ys[y - |xs|];
      } else {
        assert zs[x] == ys[x - |xs|] && zs[y] == ys[y - |xs|];
      }
    }
  }

  /** The chunker's ids agree with `generate_chunk_id` exactly when the file
      name needs no sanitising: a name of word characters only. */
  lemma ChunkIdMatchesGenerated(isWord: char -> bool, sourceFile: string, pageNum: int, idx: nat)
    requires forall i :: 0 <= i < |sourceFile| ==> isWord(sourceFile[i])
    ensures ChunkId(sourceFile, pageNum, idx) == Utils.GenerateChunkId(isWord, sourceFile, pageNum, idx)
  {
    assert Utils.SanitizeName(isWord, sourceFile) == sourceFile;
  }

  /** `chunk_all_documents` is the in-order concatenation of the documents' chunks. */
  lemma {:induction false} AllChunksAppend(sp: Splitter, isSpace: char -> bool, docs1: seq<Document>, docs2: seq<Document>)
    ensures AllChunks(sp, isSpace, docs1 + docs2) == AllChunks(sp, isSpace, docs1) + AllChunks(sp, isSpace, docs2)
    decreases |docs2|
  {
    if |docs2| > 0 {
      var last := |docs2| - 1;
      assert (docs1 + docs2)[..|docs1 + docs2| - 1] == docs1 + docs2[..last];
      AllChunksAppend(sp, isSpace, docs1, docs2[..last]);
    } else {
      assert docs1 + docs2 == docs1;
    }
  }

  /** The pages of all documents, in document order. */
  function AllPages(documents: seq<Document>): seq<Page>
  {
    if |documents| == 0 then []
    else AllPages(documents[..|documents| - 1]) + documents[|documents| - 1].pages
  }

  /** Chunking every document is chunking all their pages as one list. */
  lemma {:induction false} AllChunksOfAllPages(sp: Splitter, isSpace: char -> bool, documents: seq<Document>)
    ensures AllChunks(sp, isSpace, documents) == DocumentChunks(sp, isSpace, AllPages(documents))
  {
    if |documents| > 0 {
      var n := |documents| - 1;
      AllChunksOfAllPages(sp, isSpace, documents[..n]);
      DocumentChunksAppend(sp, isSpace, AllPages(documents[..n]), documents[n].pages);
    }
  }

  /** The ids of all chunks of all documents are pairwise distinct when no
      two pages, in any documents, share file and page number. */
  lemma AllChunkIdsDistinct(sp: Splitter, isSpace: char -> bool, documents: seq<Document>)
    requires PagesDistinct(AllPages(documents))
    ensures IdsDistinct(AllChunks(sp, isSpace, documents))
  {
    AllChunksOfAllPages(sp, isSpace, documents);
    DocumentChunkIdsDistinct(sp, isSpace, AllPages(documents));
  }
}
