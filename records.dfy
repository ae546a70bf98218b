/** The dictionaries that flow between the loaders, the chunker, the store and
    the retrieval engine, as records. */
module Records {
  import opened Wrappers

  /** One physical (PDF) or simulated (DOCX) page: `{'page_num', 'text', 'source_file'}`. */
  datatype Page = Page(pageNum: int, text: string, sourceFile: string)

  /** A loaded document: the file name and its non-blank pages, one entry of
      the name-to-pages dictionary, which keeps insertion order. */
  datatype Document = Document(name: string, pages: seq<Page>)

  /** A chunk as the chunker emits it. */
  datatype Chunk = Chunk(
    chunkId: string,
    text: string,
    pageNum: int,
    sourceFile: string,
    chunkIndex: nat,
    chunkLength: nat)

  /** A chunk dictionary handed to the store: the chunk's fields plus the
      `'embedding'` the embedder adds; `'chunk_index'` is read with a default,
      so it may be absent. */
  datatype EmbeddedChunk = EmbeddedChunk(
    chunkId: string,
    text: string,
    pageNum: int,
    sourceFile: string,
    chunkIndex: Option<int>,
    embedding: seq<real>)

  /** Metadata stored with, and returned for, each record of the store;
      every key is read with `.get`, so each may be absent. */
  datatype Metadata = Metadata(
    sourceFile: Option<string>,
    pageNum: Option<int>,
    chunkIndex: Option<int>)

  /** A metadata `where` filter of the store. */
  type Filter = map<string, string>
}
