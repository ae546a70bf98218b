# Insurance knowledge retrieval: a Dafny model of the ingestion and ranking core

This project models the retrieval core of a small insurance-claims knowledge
retrieval system in Dafny and proves properties of it. Ingestion runs in four
steps:

- Policy documents (PDF and Word files in a folder) are loaded into pages.
- Pages are split into chunks with page-aware ids.
- Each chunk is named `<file>_page<n>_chunk<i>` by the chunker itself. The helpers of `src/utils.py` (`clean_text`, `generate_chunk_id`, `extract_filename`, `truncate_text`) are modelled too, although nothing in the core calls them.
- Chunks are written to a vector collection in batches of 100.

A query runs in three steps:

- A structured claim (`claim_type`, `state`, `property_type`, `claim_amount`) becomes a natural-language query and a list of boost fields.
- The query's embedding is searched in the collection.
- The raw hits are re-ranked. Each hit's similarity (`1 - distance`) is weighted by 0.7, and 0.15 is added for each metadata match, capped at 1.0. Each hit gets a confidence label, a citation and an excerpt. The hits are then sorted by rounded relevance.

Files:

| file | module | models |
|---|---|---|
| `wrappers.dfy` | `Wrappers` | `Option`, standing in for Python's `None` and `dict.get(key, default)` |
| `text.dfy` | `Text` | the `str` operations used: `join`, `strip`, `lower`, `rfind`, `in`, `str(int)` |
| `records.dfy` | `Records` | pages, documents, chunks, embedded chunks, chunk metadata |
| `utils.dfy` | `Utils` | `src/utils.py` |
| `context_analyzer.dfy` | `ContextAnalyzer` | `context_analyzer.py` |
| `chunker.dfy` | `Chunker` | `src/ingest/chunker.py` |
| `document_loader.dfy` | `DocumentLoader` | `src/ingest/document_loader.py` |
| `chroma_client.dfy` | `ChromaClient` | `src/database/chroma_client.py` |
| `search.dfy` | `Search` | `search.py` |

Where the source works by loops, the model has a method with a loop. Each such method is proved equal to a specification function, and the lemmas state what that function promises:

- `ChunkDocument`, `ChunkAllDocuments`
- `LoadPdf`, `AssembleDocxText`, `LoadDocx`, `LoadFiles`
- `AddDocuments`, `FormatResults`

The database client and its collection are classes whose methods update their fields.

External collaborators are parameters:

- `isSpace` and `isWord` are the regular-expression classes `\s` and `\w`.
- The text splitter is `Splitter.splitText`.
- The PDF and Word parsers are the functions of a `Folder`.
- The embedder is `embed`.
- The collection's nearest-neighbour query is `nearest`.
- Python's `round(x, 3)` is `round3`.

A claim is a `Case` record. Each known key is an `Option`: `None` means the key is absent from the dictionary. Keys the source never reads are kept in `otherFields`.

## Model

| member | source | states |
|---|---|---|
| `ContextAnalyzer.SizeBucket` | context_analyzer.py:52-59 | "small claim" exactly below 50000, "medium claim" exactly in [50000, 200000), "large claim" exactly from 200000 |
| `ContextAnalyzer.QueryParts` | context_analyzer.py:41-59 | one part per present field, in the fixed order claim type, "in <state>", "for <type> property", size bucket |
| `ContextAnalyzer.BuildQuery` | context_analyzer.py:39-62 | the method returns the query of the specification `Query` |
| `ContextAnalyzer.QueryMentionsPresentFields` | context_analyzer.py:43-61 | every present field's phrase occurs in the query |
| `ContextAnalyzer.QueryWithoutFields` | context_analyzer.py:61 | with none of the four fields the query is "general insurance claim" |
| `ContextAnalyzer.QueryIgnoresOtherFields` | context_analyzer.py:39-62 | keys other than the four (such as `case_id`) do not change the query |
| `ContextAnalyzer.QueryEmptyIff` | context_analyzer.py:61 | the query is empty exactly when `claim_type` is "" and no other field is present |
| `ContextAnalyzer.QueryExample` | context_analyzer.py:87-95 | the sample claim, `case_id` included, gives "Flood in Florida for Residential property medium claim" |
| `ContextAnalyzer.BuildFilters` | context_analyzer.py:64-71 | no filter is ever built |
| `ContextAnalyzer.BoostFields` | context_analyzer.py:73-82 | "claim_type" is listed iff the claim has a claim type, "state" iff it has a state, in that order |
| `ContextAnalyzer.IdentifyBoostFields` | context_analyzer.py:73-82 | the method returns `BoostFields` |
| `ContextAnalyzer.ExtractContext` | context_analyzer.py:19-37 | the context carries the claim itself, its query, no filters and its boost fields |
| `Utils.CollapseWhitespace` | src/utils.py:9 | the collapsed text is no longer than the input, empty only for empty input, has no two adjacent whitespace characters, only ' ' as whitespace, and otherwise only characters of the input |
| `Utils.CollapseAppend` | src/utils.py:9 | read left to right, a non-whitespace character is copied, a whitespace character that starts a run adds one ' ', and one that continues a run adds nothing: each maximal run becomes exactly one ' ' in its place |
| `Utils.CollapseKeepsNonSpace` | src/utils.py:9 | collapsing keeps the non-whitespace characters, in order |
| `Utils.KeepAllowed` | src/utils.py:11 | the symbol filter keeps only word characters, whitespace and the listed punctuation, and is no longer than its input |
| `Utils.KeepAllowedMembers` | src/utils.py:11 | a character is in the filtered text exactly when it is in the input and allowed |
| `Utils.CleanText` | src/utils.py:6-12 | the cleaned text is never longer than the input |
| `Utils.CleanTextCharacters` | src/utils.py:6-12 | the cleaned text neither starts nor ends with whitespace, its only whitespace is ' ', every character is a word character, a space or kept punctuation, and its non-whitespace characters are exactly the input's allowed non-whitespace characters, in order |
| `Utils.CleanTextKeepsText` | src/utils.py:6-12 | cleaning loses no allowed non-whitespace character and adds none: the non-whitespace characters of the result are those of the input that pass the filter |
| `Utils.StripKeepsNonSpace` | src/utils.py:12 | `strip()` removes whitespace only |
| `Utils.CleanTextKeepsDoubleSpace` | src/utils.py:9-11 | "a @ b" cleans to "a  b": removing a symbol after collapsing leaves two adjacent spaces |
| `Utils.CleanTextCollapsedNormalized` | src/utils.py:6-12 | the corrected cleaner also leaves no two adjacent whitespace characters |
| `Utils.SanitizeName` | src/utils.py:16 | the sanitized name has the name's length; each word character stays in place and every other character becomes '_' |
| `Utils.SanitizeNameProperties` | src/utils.py:16 | the sanitized name has the same length, only word characters, keeps the word characters in place, turns every other character into '_', and is idempotent |
| `Utils.GenerateChunkId` | src/utils.py:14-17 | the id starts with the sanitized name and ends with "_chunk" and the index |
| `Utils.PageChunkLabelInjective` | src/utils.py:17 | an id `<prefix>_page<n>_chunk<i>` determines its prefix, page and index: it is read back from the right, where both numbers are numerals |
| `Utils.GenerateChunkIdInjective` | src/utils.py:14-17 | equal ids have equal page numbers, equal indices and names that sanitize alike |
| `Utils.LastSegment` | src/utils.py:21 | `split('/')[-1]` is the suffix of the path that holds no '/' and is either the whole path or follows a '/' |
| `Utils.RemoveAll` | src/utils.py:21 | `replace(pat, '')` never lengthens the string and adds no character |
| `Utils.RemoveAllAbsent` | src/utils.py:21 | without an occurrence of the pattern the string is unchanged |
| `Utils.RemoveAllShortens` | src/utils.py:21 | with an occurrence, at least one copy of the pattern is removed |
| `Utils.RemoveAllAppended` | src/utils.py:21 | a stem without the pattern, followed by the pattern, gives back the stem, when the pattern's first character does not recur (as in ".pdf") |
| `Utils.RemoveAllSinglePass` | src/utils.py:21 | `replace` makes one pass: "..pdfpdf" gives ".pdf", because a removal can join a new occurrence that stays |
| `Utils.ExtractFilename` | src/utils.py:19-21 | the file name has no '/', is no longer than the last segment, and equals it when the segment has no ".pdf" |
| `Utils.ExtractFilenameOfPdfPath` | src/utils.py:19-21 | for every path `dir/stem.pdf` whose stem has no '/' and no ".pdf", the file name is the stem, and the corrected `FilenameStem` agrees |
| `Utils.ExtractFilenameRemovesInnerPdf` | src/utils.py:21 | "a.pdf.b.pdf" gives "a.b": every ".pdf" is removed, not only the extension |
| `Utils.FilenameStem` | src/utils.py:19-21 | the corrected version removes exactly one trailing ".pdf" from the last segment |
| `Utils.TruncateText` | src/utils.py:27-31 | text that fits is returned unchanged; otherwise the first `max_length` characters followed by "..." |
| `Chunker.ChunkDocument` | src/ingest/chunker.py:21-57 | the nested loop returns `DocumentChunks` of the pages |
| `Chunker.ChunkAllDocuments` | src/ingest/chunker.py:59-77 | the loop returns the chunks of every document in order (`AllChunks`) |
| `Chunker.PieceChunksSound` | src/ingest/chunker.py:42-53 | every chunk of a page comes from a split piece at its own index; it keeps at least 50 non-blank characters after stripping |
| `Chunker.PieceChunksComplete` | src/ingest/chunker.py:42-53 | every piece that survives the 50-character test becomes a chunk |
| `Chunker.PieceChunksIndexBound` | src/ingest/chunker.py:42 | chunk indices stay below the number of pieces |
| `Chunker.PieceChunksIncreasing` | src/ingest/chunker.py:42-54 | chunk indices within a page increase strictly; dropped pieces leave gaps, not renumbering |
| `Chunker.DocumentChunksAppend` | src/ingest/chunker.py:33-54 | chunking pages `a + b` gives the chunks of `a` followed by those of `b` |
| `Chunker.DocumentChunksSound` | src/ingest/chunker.py:33-54 | every chunk has a page whose split piece at its index is its text; its length is its text's length; its page number, source file and id are that page's |
| `Chunker.DocumentChunksComplete` | src/ingest/chunker.py:33-54 | every kept piece of every page appears as a chunk |
| `Chunker.ChunkIdInjective` | src/ingest/chunker.py:47 | a chunk id determines source file, page number and index, across files too |
| `Chunker.DocumentChunkIdsDistinct` | src/ingest/chunker.py:33-54 | the chunks of a page list have pairwise distinct ids when no two pages share both file and page number |
| `Chunker.AllChunksOfAllPages` | src/ingest/chunker.py:59-77 | chunking every document gives the chunks of all their pages taken as one list |
| `Chunker.AllChunkIdsDistinct` | src/ingest/chunker.py:59-77 | the chunks of all documents have pairwise distinct ids when no two pages, in any documents, share both file and page number |
| `Chunker.PageChunkIdsDistinct` | src/ingest/chunker.py:42-47 | the chunks of one page have pairwise distinct ids |
| `Chunker.ChunkIdMatchesGenerated` | src/ingest/chunker.py:47 | for a file name of word characters, the chunk id equals `generate_chunk_id` of src/utils.py |
| `Chunker.AllChunksAppend` | src/ingest/chunker.py:59-77 | chunking documents `a + b` gives the chunks of `a` followed by those of `b` |
| `DocumentLoader.LoadPdf` | src/ingest/document_loader.py:17-56 | the loop returns `PdfPagesOf` the file |
| `DocumentLoader.PdfPageListSound` | src/ingest/document_loader.py:36-49 | every page is a 1-based page of the file with extractable, non-blank text, named after the file |
| `DocumentLoader.PdfPageListComplete` | src/ingest/document_loader.py:36-49 | every page with non-blank extracted text is kept |
| `DocumentLoader.PdfPageListIncreasing` | src/ingest/document_loader.py:36-49 | page numbers increase strictly |
| `DocumentLoader.AssembleDocxText` | src/ingest/document_loader.py:74-91 | the four loops build `DocxText`: non-blank paragraphs, then table rows of stripped non-empty cells joined by " \| ", all separated by blank lines |
| `DocumentLoader.TableRowLines` | src/ingest/document_loader.py:82-88 | the row loop of one table returns its `RowLines`: one " \| "-joined line per row with a non-blank cell |
| `DocumentLoader.RowText` | src/ingest/document_loader.py:83-86 | the cell loop of one row returns its `RowCells`: the stripped non-blank cells, in order |
| `DocumentLoader.KeptParagraphsNonBlank` | src/ingest/document_loader.py:75-78 | kept paragraphs are paragraphs of the file and are not blank |
| `DocumentLoader.RowCellsStripped` | src/ingest/document_loader.py:81-88 | kept cells are non-empty and neither start nor end with whitespace |
| `DocumentLoader.NumPages` | src/ingest/document_loader.py:99-101 | at least one page; enough 2000-character pages to hold the text and no more |
| `DocumentLoader.PageSlice` | src/ingest/document_loader.py:103-106 | a page holds at most 2000 characters |
| `DocumentLoader.SlicesCoverText` | src/ingest/document_loader.py:99-113 | the pages, concatenated, are the document text |
| `DocumentLoader.CharOnSlice` | src/ingest/document_loader.py:103-106 | character `k` of the text is character `k % 2000` of page `k / 2000` |
| `DocumentLoader.LoadDocx` | src/ingest/document_loader.py:58-124 | the method returns `DocxPagesOf` the file |
| `DocumentLoader.DocxPageListSound` | src/ingest/document_loader.py:99-113 | every page is a non-blank slice of at most 2000 characters at its own 1-based page number |
| `DocumentLoader.DocxPageListComplete` | src/ingest/document_loader.py:99-113 | every non-blank slice is kept as a page |
| `DocumentLoader.DocxPageListIncreasing` | src/ingest/document_loader.py:99-113 | page numbers increase strictly |
| `DocumentLoader.DocxEmptyIffBlank` | src/ingest/document_loader.py:91-95 | a readable Word file gives no pages exactly when its assembled text is blank |
| `DocumentLoader.Suffix` | src/ingest/document_loader.py:136 | the extension is empty or a final ".x" that the name ends with and that is not the whole name |
| `DocumentLoader.SuffixOfExtension` | src/ingest/document_loader.py:136 | "stem.ext" has extension ".ext" |
| `DocumentLoader.KindOfExtension` | src/ingest/document_loader.py:136-144 | ".pdf" in any letter case goes to the PDF loader, ".docx" and ".doc" to the Word loader, anything else is unsupported |
| `DocumentLoader.DotPdfUnsupported` | src/ingest/document_loader.py:136-144 | a file named just ".pdf" matches the "*.pdf" glob but has no suffix, so it is unsupported |
| `DocumentLoader.LoadDocument` | src/ingest/document_loader.py:126-144 | the method dispatches as `DocumentPages` |
| `DocumentLoader.Glob` | src/ingest/document_loader.py:156-160 | a name is globbed exactly when it is listed and ends with the extension |
| `DocumentLoader.LoadAllDocuments` | src/ingest/document_loader.py:146-187 | the method returns the loaded documents of the globbed files, in glob order |
| `DocumentLoader.LoadFiles` | src/ingest/document_loader.py:170-179 | the loop returns `LoadedDocuments` of its files |
| `DocumentLoader.LoadedDocumentsSound` | src/ingest/document_loader.py:170-179 | every document has pages, is named after one of the files, and holds that file's pages |
| `DocumentLoader.LoadedDocumentsComplete` | src/ingest/document_loader.py:170-179 | every file that yields pages becomes a document |
| `DocumentLoader.LoadedDocumentNamesDistinct` | src/ingest/document_loader.py:170-179 | distinct file names give documents with distinct names |
| `DocumentLoader.SupportedFilesDistinct` | src/ingest/document_loader.py:156-160 | a listing without repeats globs to files without repeats |
| `DocumentLoader.GlobDistinct` | src/ingest/document_loader.py:156-160 | one glob of a listing without repeats has no repeats |
| `DocumentLoader.LoadedPagesWellFormed` | src/ingest/document_loader.py:126-144 | pages of any file have increasing page numbers, non-blank text and the file's name |
| `ChromaClient.Zip` | src/database/chroma_client.py:62-67 | record `j` holds the `j`-th id, embedding, document and metadata |
| `ChromaClient.Collection.constructor` | src/database/chroma_client.py:24-31 | a collection with the given name and records, and no batches yet |
| `ChromaClient.Collection.Add` | src/database/chroma_client.py:62-67 | one `add` call appends its records and is logged as one batch |
| `ChromaClient.RecordsOf` | src/database/chroma_client.py:45-55 | record `j` is the projection of chunk `j` |
| `ChromaClient.RecordsAligned` | src/database/chroma_client.py:45-55 | each record's id, embedding, text, source file and page come from its chunk; a missing chunk index is stored as 0 |
| `ChromaClient.Batches` | src/database/chroma_client.py:58-67 | there are ceil(n/100) batches, and batch `b` is the slice starting at `b*100` |
| `ChromaClient.BatchesConcat` | src/database/chroma_client.py:58-67 | the batches, concatenated, are all the records in order |
| `ChromaClient.BatchSizes` | src/database/chroma_client.py:58-67 | every batch has between 1 and 100 records; there are no batches exactly when there are no records |
| `ChromaClient.WhereClause` | src/database/chroma_client.py:89 | no filter is passed exactly when the filters are absent or empty; otherwise they are passed unchanged |
| `ChromaClient.ChromaDBClient.constructor` | src/database/chroma_client.py:13-32 | the client opens the named collection, which holds the existing records, or none when it is created |
| `ChromaClient.ChromaDBClient.AddDocuments` | src/database/chroma_client.py:34-70 | the collection gains the chunk records in order, added in batches of at most 100; nothing is added for no chunks |
| `ChromaClient.ChromaDBClient.AddInBatches` | src/database/chroma_client.py:58-67 | the batch loop appends the zipped records in order and logs exactly the batches of 100 |
| `ChromaClient.ChromaDBClient.Search` | src/database/chroma_client.py:72-97 | the result is the nearest-neighbour answer for one query embedding, `top_k` and the where clause |
| `ChromaClient.ChromaDBClient.GetCollectionStats` | src/database/chroma_client.py:99-105 | the collection name and its number of records |
| `ChromaClient.ChromaDBClient.ResetCollection` | src/database/chroma_client.py:107-114 | the client holds a fresh, empty collection under its name |
| `Search.ConfidenceOf` | search.py:120-127 | "High" exactly from 0.8, "Medium" exactly in [0.6, 0.8), "Low" exactly below 0.6 |
| `Search.ConfidenceMonotone` | search.py:120-127 | a higher relevance never gets a lower confidence |
| `Search.BoostCount` | search.py:108-116 | at most two boosts apply |
| `Search.Relevance` | search.py:99-118 | the relevance is the weighted similarity plus boosts, or 1.0 when that is larger |
| `Search.CalculateRelevance` | search.py:99-118 | the method returns `Relevance` |
| `Search.RelevanceBounds` | search.py:70-118 | relevance is at most 1.0, and at least 0 when the distance is at most 1 |
| `Search.RelevanceCanBeNegative` | search.py:70-118 | a distance of 2 with no boost gives relevance -0.7 |
| `Search.BoostMonotone` | search.py:108-118 | more metadata matches never lower the relevance; one more match below the cap adds exactly 0.15 |
| `Search.FloridaFloodBoosts` | search.py:108-116 | for the sample claim and "Florida_Flood_Guidelines.pdf", the claim-type boost fires and the state boost does not |
| `Search.OneBoostRelevance` | search.py:106-118 | with only the claim-type boost, the relevance is the weighted similarity plus 0.15, capped at 1.0 |
| `Search.FloridaFloodExample` | search.py:152-156 | the sample claim against "Florida_Flood_Guidelines.pdf" at distance 0.2 scores 0.71, "Medium" |
| `Search.TruncateAtWord` | search.py:138-142 | text that fits is unchanged; otherwise the result ends in "..." after a prefix of the text. The prefix is the cut text up to its last space, or the whole cut when it has no space |
| `Search.GenerateCitation` | search.py:129-136 | source and page come from the metadata with defaults "Unknown" and 0; the location is "Page " and the page; the preview is the text cut at a word within 150 characters, so at most 153 characters |
| `Search.CitationLocationNamesPage` | search.py:134 | the location's digits read back as the page, and equal locations mean equal pages |
| `Search.Candidate` | search.py:63-90 | hit `i` gets rank `i + 1`, its id and document; similarity `round(1 - distance, 3)`; relevance rounded while the label comes from the unrounded relevance; the excerpt cut at a word within 300 characters; file and page with defaults "Unknown" and 0; its citation |
| `Search.Candidates` | search.py:63-92 | one result per hit, in the store's order |
| `Search.FormatResults` | search.py:56-97 | the method returns `Formatted` |
| `Search.FormatEntry` | search.py:64-90 | the loop body builds exactly the candidate of answer `i` |
| `Search.InsertPermutes` | search.py:95 | insertion adds exactly the one element |
| `Search.InsertSorted` | search.py:95 | insertion keeps the order by descending rounded relevance |
| `Search.InsertKeepsTies` | search.py:95 | inserting an earlier-ranked element keeps ties in rank order |
| `Search.SortPermutes` | search.py:95 | the sort is a permutation |
| `Search.SortSorted` | search.py:95 | the sorted list is in descending rounded relevance |
| `Search.SortStable` | search.py:95 | equal scores stay in their original rank order (Python's sort is stable) |
| `Search.CandidateRanksIncreasing` | search.py:80 | candidates carry ranks 1, 2, ... in store order |
| `Search.FormattedEntry` | search.py:63-95 | each output entry is the candidate built from the hit its rank names, with that hit's rounded similarity and relevance and the label of its unrounded relevance |
| `Search.FormattedProperties` | search.py:56-97 | one output per hit; empty without hits; sorted by rounded relevance with ties in rank order; every entry is its hit's candidate with the location "Page <n>" and a bounded preview |
| `Search.RanksFollowStoreOrder` | search.py:80-95 | ranks are assigned before the sort, so the first result after sorting can carry rank 2 |
| `Search.RetrieveDocuments` | search.py:18-54 | the results are the formatted answer of the collection for the embedded query of the claim, with `top_k` and no filter |
| `Text.StripEmptyIffBlank` | src/ingest/document_loader.py:41-46 | `strip()` gives the empty string exactly when the text is all whitespace |
| `Text.IntToStringInjective` | src/utils.py:17 | distinct integers print differently |

Points where the code behaves otherwise than a reader might expect; the model follows the code:

- Rank. The code assigns `rank` before the sort (search.py:80). It is the position in the store's answer, not the position after re-ranking.
- State boost. The code tests whether the literal word "state" occurs in the file name (search.py:109). It does not test the claim's state value.
- No final cut to `top_k`. The code cuts only through the store's `n_results`.
- Similarity is `1 - distance`, unclamped, and no lower bound is applied. With no boost, relevance is negative for distances above 1; with one boost above about 1.214 (`1 + 0.15/0.7`); with two above about 1.429.
- The test claim at search.py:152-156 (Flood, Florida) against a file "Florida_Flood_Guidelines.pdf" at distance 0.2 triggers only the claim-type boost, because the state test looks for the word "state": it scores 0.71, "Medium".
- Empty query. The query is the empty string when `claim_type` is "" and no other field is present. The fallback text applies only when no field is present.

## Left out

- File I/O, logging, exception messages and the `main.py`, `app.py`, `pdf_loader.py` and `config.py` scripts are not modelled. `src/ingest/embedder.py` is not part of this model: embedding is the parameter `embed`.
- Parsing PDF and Word files is a parameter. A file's content is given as `PdfFile` or `DocxFile`, and an unreadable file (`PdfUnreadable`, `DocxUnreadable`) stands for the exception path, which yields no pages.
- The directory listing is a parameter `listing` in a fixed order. `glob` is modelled as a case-sensitive suffix test on the listed names.
- The text splitter (`RecursiveCharacterTextSplitter`, size 800, overlap 100) is a parameter. Its own splitting policy is not modelled.
- Nearest-neighbour search, cosine distance, embedding dimensions and the store's handling of duplicate ids are the parameter `nearest`. `Collection.Add` appends; upsert and deduplication are not modelled.
- The `PersistentClient` and `get_or_create_collection` are the constructor's `existing` records.
- Floating point: scores are exact reals, and `round(x, 3)` is the parameter `round3`.
- `\w`, `\s`, `isspace` and `lower()` are parameters or ASCII-only. Unicode classes and case folding are not modelled.
- `format_confidence` (src/utils.py:23-25) is not modelled: it formats a float as text and nothing in the core calls it.
- A claim's dictionary is the `Case` record. The Python `dict`s of search results are `SearchResult` and `Citation` values.
- `Search.RetrieveDocuments`: requires the store's answer to be well-formed (four aligned lists for one query). The source would raise on a malformed answer; that path is not modelled.
- `ChromaClient.ChromaDBClient.AddDocuments`: a failing batch (a network or store error) is not modelled. Every batch succeeds.
- CollapseWhitespace: its own contract gives the shape of the result only; that each run of whitespace becomes exactly one ' ' in its place is stated by `CollapseAppend`.
- CleanText: its own contract bounds the length only; what the cleaned text holds is stated by `CleanTextCharacters` and `CleanTextKeepsText`.
- RemoveAll: its own contract bounds the length and the characters only; what is removed is stated by `RemoveAllAbsent`, `RemoveAllShortens`, `RemoveAllAppended` and `RemoveAllSinglePass`.
- `ChromaClient.Collection.Add`: requires the four lists to have equal length, which the caller's projections always meet.

## Findings

| source | as written | input that shows it | evidently intended | confidence | as-written member | corrected member |
|---|---|---|---|---|---|---|
| src/utils.py:9-12 | whitespace is collapsed before symbols are removed, so removing a symbol between two spaces leaves a double space | `clean_text("a @ b")` gives `"a  b"` | normalized text with single spaces between words | not executed | `Utils.CleanTextKeepsDoubleSpace` | `Utils.CleanTextCollapsedNormalized` |
| src/utils.py:21 | `replace('.pdf', '')` removes every ".pdf" in the name, not only the extension | `extract_filename("a.pdf.b.pdf")` gives `"a.b"` | the file name without its ".pdf" extension, `"a.pdf.b"` | not executed | `Utils.ExtractFilenameRemovesInnerPdf` | `Utils.FilenameStem` |
