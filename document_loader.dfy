/** `DocumentLoader`: turns the PDF and DOCX files of a folder into lists of
    non-blank pages. The parsers (PyPDF2, python-docx) are not modelled: a
    file is given by what its parser extracts from it. */
module DocumentLoader {
  import opened Wrappers
  import opened Text
  import opened Records

  /** What PyPDF2 yields for a file: nothing (the file cannot be opened or
      parsed) or, per physical page, the extracted text or `None` when that
      page's extraction fails. */
  datatype PdfFile = PdfUnreadable | PdfReadable(pageTexts: seq<Option<string>>)

  /** A DOCX table: rows of cell texts. */
  type Table = seq<seq<string>>

  /** What python-docx yields for a file: nothing (the file cannot be opened)
      or its paragraph texts and tables, in document order. */
  datatype DocxFile = DocxUnreadable | DocxReadable(paragraphs: seq<string>, tables: seq<Table>)

  /** The documents directory: its file names in listing order, and what each
      parser would extract from each file. */
  datatype Folder = Folder(listing: seq<string>, asPdf: string -> PdfFile, asDocx: string -> DocxFile)

  /** Size of a simulated DOCX page. */
  const CharsPerPage: nat := 2000

  // ---------------------------------------------------------------------------
  // PDF

  /** The kept pages among the first `n` extracted page texts: non-blank
      texts, numbered from 1 by physical page. */
  function PdfPageList(isSpace: char -> bool, name: string, texts: seq<Option<string>>, n: nat): seq<Page>
    requires n <= |texts|
  {
    if n == 0 then []
    else PdfPageList(isSpace, name, texts, n - 1)
         + (if texts[n - 1].Some? && !IsBlank(isSpace, texts[n - 1].value)
            then [Page(n, texts[n - 1].value, name)] else [])
  }

  /** The pages `load_pdf` returns for a file. */
  function PdfPagesOf(isSpace: char -> bool, name: string, f: PdfFile): seq<Page>
  {
    match f
    case PdfUnreadable => []
    case PdfReadable(texts) => PdfPageList(isSpace, name, texts, |texts|)
  }

  /** `load_pdf`: each page whose text extracts and is not blank, in order. */
  method LoadPdf(isSpace: char -> bool, name: string, f: PdfFile) returns (pages: seq<Page>)
    ensures pages == PdfPagesOf(isSpace, name, f)
  {
    pages := [];
    if f.PdfUnreadable? {
      return [];
    }
    var numPages := |f.pageTexts|;
    for pageNum := 0 to numPages
      invariant pages == PdfPageList(isSpace, name, f.pageTexts, pageNum)
    {
      var text := f.pageTexts[pageNum];
      if text.None? {
        continue;
      }
      StripEmptyIffBlank(isSpace, text.value);
      if Strip(isSpace, text.value) != [] {
        pages := pages + [Page(pageNum + 1, text.value, name)];
      }
    }
  }

  /** Page numbers strictly increase along `pages`. */
  predicate PageNumbersIncreasing(pages: seq<Page>)
  {
    forall a, b :: 0 <= a < b < |pages| ==> pages[a].pageNum < pages[b].pageNum
  }

  /** Every kept PDF page is the non-blank text of the physical page it is
      numbered after, and belongs to the file. */
  lemma {:induction false} PdfPageListSound(isSpace: char -> bool, name: string, texts: seq<Option<string>>, n: nat, k: nat)
    requires n <= |texts| && k < |PdfPageList(isSpace, name, texts, n)|
    ensures var p := PdfPageList(isSpace, name, texts, n)[k];
      1 <= p.pageNum <= n && texts[p.pageNum - 1] == Some(p.text) &&
      !IsBlank(isSpace, p.text) && p.sourceFile == name
  {
    if k < |PdfPageList(isSpace, name, texts, n - 1)| {
      PdfPageListSound(isSpace, name, texts, n - 1, k);
    }
  }

  /** Every physical page whose text extracts and is not blank is kept. */
  lemma {:induction false} PdfPageListComplete(isSpace: char -> bool, name: string, texts: seq<Option<string>>, n: nat, i: nat)
    requires i < n <= |texts| && texts[i].Some? && !IsBlank(isSpace, texts[i].value)
    ensures Page(i + 1, texts[i].value, name) in PdfPageList(isSpace, name, texts, n)
  {
    if i < n - 1 {
      PdfPageListComplete(isSpace, name, texts, n - 1, i);
    }
  }

  /** The kept PDF pages are in physical order. */
  lemma {:induction false} PdfPageListIncreasing(isSpace: char -> bool, name: string, texts: seq<Option<string>>, n: nat)
    requires n <= |texts|
    ensures PageNumbersIncreasing(PdfPageList(isSpace, name, texts, n))
  {
    if n > 0 {
      var prev := PdfPageList(isSpace, name, texts, n - 1);
      PdfPageListIncreasing(isSpace, name, texts, n - 1);
      if texts[n - 1].Some? && !IsBlank(isSpace, texts[n - 1].value) {
        forall k | 0 <= k < |prev|
          ensures prev[k].pageNum < n
        {
          PdfPageListSound(isSpace, name, texts, n - 1, k);
        }
        AppendIncreasing(prev, Page(n, texts[n - 1].value, name));
      }
    }
  }

  /** Appending a page numbered after every earlier one keeps the numbers increasing. */
  lemma AppendIncreasing(prev: seq<Page>, p: Page)
    requires PageNumbersIncreasing(prev)
    requires forall k :: 0 <= k < |prev| ==> prev[k].pageNum < p.pageNum
    ensures PageNumbersIncreasing(prev + [p])
  {
    var ps := prev + [p];
    forall a, b | 0 <= a < b < |ps|
      ensures ps[a].pageNum < ps[b].pageNum
    {
      assert ps[a] == prev[a];
    }
  }

  // ---------------------------------------------------------------------------
  // DOCX text assembly

  /** The paragraphs whose stripped text is not empty. */
  function KeptParagraphs(isSpace: char -> bool, paragraphs: seq<string>): seq<string>
  {
    if |paragraphs| == 0 then []
    else KeptParagraphs(isSpace, paragraphs[..|paragraphs| - 1])
         + (if IsBlank(isSpace, paragraphs[|paragraphs| - 1]) then [] else [paragraphs[|paragraphs| - 1]])
  }

  /** The stripped texts of a row's non-blank cells. */
  function RowCells(isSpace: char -> bool, row: seq<string>): seq<string>
  {
    if |row| == 0 then []
    else RowCells(isSpace, row[..|row| - 1])
         + (if IsBlank(isSpace, row[|row| - 1]) then [] else [Strip(isSpace, row[|row| - 1])])
  }

  /** One line per row that has a non-blank cell: its cells joined by `" | "`. */
  function RowLines(isSpace: char -> bool, rows: seq<seq<string>>): seq<string>
  {
    if |rows| == 0 then []
    else
      var cells := RowCells(isSpace, rows[|rows| - 1]);
      RowLines(isSpace, rows[..|rows| - 1]) + (if cells == [] then [] else [Join(cells, " | ")])
  }

  /** The row lines of every table, tables in order. */
  function TableLines(isSpace: char -> bool, tables: seq<Table>): seq<string>
  {
    if |tables| == 0 then []
    else TableLines(isSpace, tables[..|tables| - 1]) + RowLines(isSpace, tables[|tables| - 1])
  }

  /** The combined text of a DOCX file: the kept paragraphs, then the table
      lines, separated by blank lines. */
  function DocxText(isSpace: char -> bool, paragraphs: seq<string>, tables: seq<Table>): string
  {
    Join(KeptParagraphs(isSpace, paragraphs) + TableLines(isSpace, tables), "\n\n")
  }

  /** The text assembly of `load_docx`: paragraphs first, then every table
      row with a non-blank cell. */
  method AssembleDocxText(isSpace: char -> bool, paragraphs: seq<string>, tables: seq<Table>)
    returns (documentText: string)
    ensures documentText == DocxText(isSpace, paragraphs, tables)
  {
    var fullText: seq<string> := [];
    for p := 0 to |paragraphs|
      invariant fullText == KeptParagraphs(isSpace, paragraphs[..p])
    {
      StripEmptyIffBlank(isSpace, paragraphs[p]);
      if Strip(isSpace, paragraphs[p]) != [] {
        fullText := fullText + [paragraphs[p]];
      }
      assert paragraphs[..p + 1][..p] == paragraphs[..p];
    }
    assert paragraphs[..|paragraphs|] == paragraphs;
    ghost var kept := fullText;
    for t := 0 to |tables|
      invariant fullText == kept + TableLines(isSpace, tables[..t])
    {
      var lines := TableRowLines(isSpace, tables[t]);
      fullText := fullText + lines;
      assert tables[..t + 1][..t] == tables[..t];
    }
    assert tables[..|tables|] == tables;
    documentText := Join(fullText, "\n\n");
  }

  /** The row loop of `load_docx` for one table. */
  method TableRowLines(isSpace: char -> bool, table: Table) returns (lines: seq<string>)
    ensures lines == RowLines(isSpace, table)
  {
    lines := [];
    for r := 0 to |table|
      invariant lines == RowLines(isSpace, table[..r])
    {
      var rowText := RowText(isSpace, table[r]);
      if rowText != [] {
        lines := lines + [Join(rowText, " | ")];
      }
      assert table[..r + 1][..r] == table[..r];
    }
    assert table[..|table|] == table;
  }

  /** The cell loop of `load_docx` for one row. */
  method RowText(isSpace: char -> bool, row: seq<string>) returns (rowText: seq<string>)
    ensures rowText == RowCells(isSpace, row)
  {
    rowText := [];
    for c := 0 to |row|
      invariant rowText == RowCells(isSpace, row[..c])
    {
      StripEmptyIffBlank(isSpace, row[c]);
      if Strip(isSpace, row[c]) != [] {
        rowText := rowText + [Strip(isSpace, row[c])];
      }
      assert row[..c + 1][..c] == row[..c];
    }
    assert row[..|row|] == row;
  }

  /** No line of the assembled text is blank: blank paragraphs and rows
      without a non-blank cell are dropped. */
  lemma {:induction false} KeptParagraphsNonBlank(isSpace: char -> bool, paragraphs: seq<string>)
    ensures forall s :: s in KeptParagraphs(isSpace, paragraphs) ==> s in paragraphs && !IsBlank(isSpace, s)
  {
    if |paragraphs| > 0 {
      KeptParagraphsNonBlank(isSpace, paragraphs[..|paragraphs| - 1]);
    }
  }

  /** Row cells are stripped: none starts or ends with whitespace, and none is empty. */
  lemma {:induction false} RowCellsStripped(isSpace: char -> bool, row: seq<string>)
    ensures forall s :: s in RowCells(isSpace, row) ==>
      s != [] && !isSpace(s[0]) && !isSpace(s[|s| - 1])
  {
    if |row| > 0 {
      var last := row[|row| - 1];
      RowCellsStripped(isSpace, row[..|row| - 1]);
      StripInner(isSpace, last);
      StripEmptyIffBlank(isSpace, last);
    }
  }

  // ---------------------------------------------------------------------------
  // DOCX simulated pages

  /** `max(1, ceil(len / 2000))` */
  function NumPages(textLength: nat): (r: nat)
    ensures r >= 1
    ensures (r - 1) * CharsPerPage < textLength || (textLength == 0 && r == 1)
    ensures textLength <= r * CharsPerPage
  {
    var q := (textLength + CharsPerPage - 1) / CharsPerPage;
    if q < 1 then 1 else q
  }

  /** Simulated page `i` (from 0): `text[i*2000 : min((i+1)*2000, len)]`. */
  function PageSlice(text: string, i: nat): (r: string)
    requires i < NumPages(|text|)
    ensures |r| <= CharsPerPage
  {
    var start := i * CharsPerPage;
    var end := if (i + 1) * CharsPerPage < |text| then (i + 1) * CharsPerPage else |text|;
    text[start..end]
  }

  /** The first `n` simulated pages. */
  function Slices(text: string, n: nat): seq<string>
    requires n <= NumPages(|text|)
  {
    if n == 0 then [] else Slices(text, n - 1) + [PageSlice(text, n - 1)]
  }

  /** The kept pages among the first `n` slices: non-blank slices, numbered from 1. */
  function DocxPageList(isSpace: char -> bool, name: string, text: string, n: nat): seq<Page>
    requires n <= NumPages(|text|)
  {
    if n == 0 then []
    else DocxPageList(isSpace, name, text, n - 1)
         + (if IsBlank(isSpace, PageSlice(text, n - 1)) then [] else [Page(n, PageSlice(text, n - 1), name)])
  }

  /** The pages `load_docx` returns for a file. */
  function DocxPagesOf(isSpace: char -> bool, name: string, f: DocxFile): seq<Page>
  {
    match f
    case DocxUnreadable => []
    case DocxReadable(paragraphs, tables) =>
      var text := DocxText(isSpace, paragraphs, tables);
      if IsBlank(isSpace, text) then [] else DocxPageList(isSpace, name, text, NumPages(|text|))
  }

  /** `load_docx`: assemble the text, then cut it into 2000-character pages
      and keep the non-blank ones. */
  method LoadDocx(isSpace: char -> bool, name: string, f: DocxFile) returns (pages: seq<Page>)
    ensures pages == DocxPagesOf(isSpace, name, f)
  {
    pages := [];
    if f.DocxUnreadable? {
      return [];
    }
    var documentText := AssembleDocxText(isSpace, f.paragraphs, f.tables);
    StripEmptyIffBlank(isSpace, documentText);
    if Strip(isSpace, documentText) == [] {
      return [];
    }
    var textLength := |documentText|;
    var numPages := (textLength + CharsPerPage - 1) / CharsPerPage;
    if numPages < 1 {
      numPages := 1;
    }
    for pageNum := 0 to numPages
      invariant pages == DocxPageList(isSpace, name, documentText, pageNum)
    {
      var startIdx := pageNum * CharsPerPage;
      var endIdx := if (pageNum + 1) * CharsPerPage < textLength then (pageNum + 1) * CharsPerPage else textLength;
      var pageText := documentText[startIdx..endIdx];
      StripEmptyIffBlank(isSpace, pageText);
      if Strip(isSpace, pageText) != [] {
        pages := pages + [Page(pageNum + 1, pageText, name)];
      }
    }
  }

  /** The first `n` slices are the text up to `n * 2000`. */
  lemma {:induction false} SlicesPrefix(text: string, n: nat)
    requires n <= NumPages(|text|)
    ensures Concat(Slices(text, n)) == text[..if n * CharsPerPage < |text| then n * CharsPerPage else |text|]
  {
    if n > 0 {
      SlicesPrefix(text, n - 1);
    }
  }

  /** Paging loses and duplicates nothing: the slices concatenate back to the text. */
  lemma SlicesCoverText(text: string)
    ensures Concat(Slices(text, NumPages(|text|))) == text
  {
    SlicesPrefix(text, NumPages(|text|));
  }

  /** Character `k` of the text lies on slice `k / 2000`. */
  lemma CharOnSlice(text: string, k: nat)
    requires k < |text|
    ensures k / CharsPerPage < NumPages(|text|)
    ensures PageSlice(text, k / CharsPerPage)[k % CharsPerPage] == text[k]
  {
  }

  /** Every kept DOCX page is the non-blank slice it is numbered after. */
  lemma {:induction false} DocxPageListSound(isSpace: char -> bool, name: string, text: string, n: nat, k: nat)
    requires n <= NumPages(|text|) && k < |DocxPageList(isSpace, name, text, n)|
    ensures var p := DocxPageList(isSpace, name, text, n)[k];
      1 <= p.pageNum <= n && p.text == PageSlice(text, p.pageNum - 1) &&
      |p.text| <= CharsPerPage && !IsBlank(isSpace, p.text) && p.sourceFile == name
  {
    if k < |DocxPageList(isSpace, name, text, n - 1)| {
      DocxPageListSound(isSpace, name, text, n - 1, k);
    }
  }

  /** Every non-blank slice is kept. */
  lemma {:induction false} DocxPageListComplete(isSpace: char -> bool, name: string, text: string, n: nat, i: nat)
    requires i < n <= NumPages(|text|) && !IsBlank(isSpace, PageSlice(text, i))
    ensures Page(i + 1, PageSlice(text, i), name) in DocxPageList(isSpace, name, text, n)
  {
    if i < n - 1 {
      DocxPageListComplete(isSpace, name, text, n - 1, i);
    }
  }

  /** The kept DOCX pages are in text order. */
  lemma {:induction false} DocxPageListIncreasing(isSpace: char -> bool, name: string, text: string, n: nat)
    requires n <= NumPages(|text|)
    ensures PageNumbersIncreasing(DocxPageList(isSpace, name, text, n))
  {
    if n > 0 {
      var prev := DocxPageList(isSpace, name, text, n - 1);
      DocxPageListIncreasing(isSpace, name, text, n - 1);
      if !IsBlank(isSpace, PageSlice(text, n - 1)) {
        forall k | 0 <= k < |prev|
          ensures prev[k].pageNum < n
        {
          DocxPageListSound(isSpace, name, text, n - 1, k);
        }
        AppendIncreasing(prev, Page(n, PageSlice(text, n - 1), name));
      }
    }
  }

  /** A readable DOCX file yields no page exactly when its combined text is
      blank: a non-blank character lies on some slice, which is kept. */
  lemma DocxEmptyIffBlank(isSpace: char -> bool, name: string, paragraphs: seq<string>, tables: seq<Table>)
    ensures var text := DocxText(isSpace, paragraphs, tables);
      DocxPagesOf(isSpace, name, DocxReadable(paragraphs, tables)) == [] <==> IsBlank(isSpace, text)
  {
    var text := DocxText(isSpace, paragraphs, tables);
    if !IsBlank(isSpace, text) {
      var k :| 0 <= k < |text| && !isSpace(text[k]);
      CharOnSlice(text, k);
      var i := k / CharsPerPage;
      assert !IsBlank(isSpace, PageSlice(text, i));
      DocxPageListComplete(isSpace, name, text, NumPages(|text|), i);
    }
  }

  // ---------------------------------------------------------------------------
  // Dispatch on the file extension

  /** `Path(name).suffix`: from the last '.', when that dot is neither the
      first nor the last character of the name; otherwise empty. */
  function Suffix(name: string): (r: string)
    ensures r == [] || (2 <= |r| < |name| && r[0] == '.' && EndsWith(name, r))
  {
    var i := LastIndexOf(name, '.');
    if 0 < i < |name| - 1 then name[i..] else ""
  }

  /** A name `stem + "." + ext` with a non-empty stem and a non-empty,
      dot-free extension has suffix `"." + ext`. */
  lemma SuffixOfExtension(stem: string, ext: string)
    requires stem != [] && ext != [] && '.' !in ext
    ensures Suffix(stem + "." + ext) == "." + ext
  {
    var name := stem + "." + ext;
    assert name[|stem|] == '.';
    assert forall j :: |stem| < j < |name| ==> name[j] == ext[j - |stem| - 1];
    assert LastIndexOf(name, '.') == |stem|;
    assert name[|stem|..] == "." + ext;
  }

  /** Which loader a file goes to. */
  datatype FileKind = PdfKind | DocxKind | Unsupported

  /** The loader chosen by the lower-cased suffix. */
  function KindOf(name: string): FileKind
  {
    var ext := Lower(Suffix(name));
    if ext == ".pdf" then PdfKind
    else if ext == ".docx" || ext == ".doc" then DocxKind
    else Unsupported
  }

  /** The pages `load_document` returns: by lower-cased suffix, PDF or DOCX
      loading, and nothing for any other suffix. */
  function DocumentPages(isSpace: char -> bool, folder: Folder, name: string): seq<Page>
  {
    match KindOf(name)
    case PdfKind => PdfPagesOf(isSpace, name, folder.asPdf(name))
    case DocxKind => DocxPagesOf(isSpace, name, folder.asDocx(name))
    case Unsupported => []
  }

  /** `load_document` */
  method LoadDocument(isSpace: char -> bool, folder: Folder, name: string) returns (pages: seq<Page>)
    ensures pages == DocumentPages(isSpace, folder, name)
  {
    var fileExt := Lower(Suffix(name));
    if fileExt == ".pdf" {
      pages := LoadPdf(isSpace, name, folder.asPdf(name));
    } else if fileExt == ".docx" || fileExt == ".doc" {
      pages := LoadDocx(isSpace, name, folder.asDocx(name));
    } else {
      pages := [];
    }
  }

  /** For a name `stem + "." + ext` with a non-empty stem and a non-empty,
      dot-free extension, the loader is chosen by the lower-cased extension
      alone: `pdf` (any case) to the PDF loader, `docx` and `doc` to the DOCX
      loader, anything else to none. */
  lemma KindOfExtension(stem: string, ext: string)
    requires stem != [] && ext != [] && '.' !in ext
    ensures KindOf(stem + "." + ext) ==
      if Lower(ext) == "pdf" then PdfKind
      else if Lower(ext) == "docx" || Lower(ext) == "doc" then DocxKind
      else Unsupported
  {
    SuffixOfExtension(stem, ext);
    var lowered := Lower("." + ext);
    assert lowered == "." + Lower(ext);
    assert lowered == ".pdf" <==> Lower(ext) == "pdf" by {
      if lowered == ".pdf" { assert Lower(ext) == lowered[1..]; }
    }
    assert lowered == ".docx" <==> Lower(ext) == "docx" by {
      if lowered == ".docx" { assert Lower(ext) == lowered[1..]; }
    }
    assert lowered == ".doc" <==> Lower(ext) == "doc" by {
      if lowered == ".doc" { assert Lower(ext) == lowered[1..]; }
    }
  }

  /** A file named just `.pdf` matches the `*.pdf` pattern but has no suffix,
      so it is not loaded. */
  lemma DotPdfUnsupported()
    ensures EndsWith(".pdf", ".pdf")
    ensures KindOf(".pdf") == Unsupported
  {
    assert LastIndexOf(".pdf", '.') == 0;
  }

  // ---------------------------------------------------------------------------
  // The whole folder

  /** `Path.glob("*" + ext)` over the listing: the names ending in `ext`,
      compared case-sensitively, in listing order. */
  function Glob(listing: seq<string>, ext: string): (r: seq<string>)
    ensures forall n :: n in r <==> n in listing && EndsWith(n, ext)
  {
    if |listing| == 0 then []
    else
      var last := listing[|listing| - 1];
      Glob(listing[..|listing| - 1], ext) + (if EndsWith(last, ext) then [last] else [])
  }

  /** PDF files, then DOCX files, then DOC files. */
  function SupportedFiles(listing: seq<string>): seq<string>
  {
    Glob(listing, ".pdf") + Glob(listing, ".docx") + Glob(listing, ".doc")
  }

  /** The documents made from the first `n` files, where `pagesOf` gives a
      file's pages: the files with at least one page, in order. */
  function LoadedDocuments(files: seq<string>, pagesOf: string -> seq<Page>, n: nat): seq<Document>
    requires n <= |files|
  {
    if n == 0 then []
    else
      var pages := pagesOf(files[n - 1]);
      LoadedDocuments(files, pagesOf, n - 1) + (if pages == [] then [] else [Document(files[n - 1], pages)])
  }

  /** `load_document` for every file of the folder. */
  function FolderPages(isSpace: char -> bool, folder: Folder): string -> seq<Page>
  {
    name => DocumentPages(isSpace, folder, name)
  }

  /** `load_all_documents`: load every supported file and keep those that
      yield pages, as an insertion-ordered name-to-pages dictionary. */
  method LoadAllDocuments(isSpace: char -> bool, folder: Folder) returns (allDocuments: seq<Document>)
    ensures var files := SupportedFiles(folder.listing);
      allDocuments == LoadedDocuments(files, FolderPages(isSpace, folder), |files|)
  {
    var pdfFiles := Glob(folder.listing, ".pdf");
    var docxFiles := Glob(folder.listing, ".docx");
    var docFiles := Glob(folder.listing, ".doc");
    var allFiles := pdfFiles + docxFiles + docFiles;
    if |allFiles| == 0 {
      return [];
    }
    allDocuments := LoadFiles(isSpace, folder, allFiles);
  }

  /** The loop of `load_all_documents` over the found files. */
  method LoadFiles(isSpace: char -> bool, folder: Folder, allFiles: seq<string>) returns (allDocuments: seq<Document>)
    ensures allDocuments == LoadedDocuments(allFiles, FolderPages(isSpace, folder), |allFiles|)
  {
    allDocuments := [];
    ghost var pagesOf := FolderPages(isSpace, folder);
    for i := 0 to |allFiles|
      invariant allDocuments == LoadedDocuments(allFiles, pagesOf, i)
    {
      var pages := LoadDocument(isSpace, folder, allFiles[i]);
      assert pages == pagesOf(allFiles[i]);
      if pages != [] {
        allDocuments := allDocuments + [Document(allFiles[i], pages)];
      }
    }
  }

  /** Every kept document has pages, comes from one of the files, and holds
      exactly that file's pages. */
  lemma {:induction false} LoadedDocumentsSound(files: seq<string>, pagesOf: string -> seq<Page>, n: nat, k: nat)
    requires n <= |files| && k < |LoadedDocuments(files, pagesOf, n)|
    ensures var d := LoadedDocuments(files, pagesOf, n)[k];
      d.pages != [] && d.name in files[..n] && d.pages == pagesOf(d.name)
  {
    if k < |LoadedDocuments(files, pagesOf, n - 1)| {
      LoadedDocumentsSound(files, pagesOf, n - 1, k);
      assert files[..n - 1] <= files[..n];
    }
  }

  /** Every file that yields pages is kept. */
  lemma {:induction false} LoadedDocumentsComplete(files: seq<string>, pagesOf: string -> seq<Page>, n: nat, i: nat)
    requires i < n <= |files| && pagesOf(files[i]) != []
    ensures Document(files[i], pagesOf(files[i])) in LoadedDocuments(files, pagesOf, n)
  {
    if i < n - 1 {
      LoadedDocumentsComplete(files, pagesOf, n - 1, i);
    }
  }

  /** No two documents share a name. */
  predicate NamesDistinct(ds: seq<Document>)
  {
    forall a, b :: 0 <= a < b < |ds| ==> ds[a].name != ds[b].name
  }

  /** Distinct file names give distinct document names. */
  lemma {:induction false} LoadedDocumentNamesDistinct(files: seq<string>, pagesOf: string -> seq<Page>, n: nat)
    requires n <= |files|
    requires Distinct(files)
    ensures NamesDistinct(LoadedDocuments(files, pagesOf, n))
  {
    if n > 0 {
      var prev := LoadedDocuments(files, pagesOf, n - 1);
      LoadedDocumentNamesDistinct(files, pagesOf, n - 1);
      if pagesOf(files[n - 1]) != [] {
        var ds := prev + [Document(files[n - 1], pagesOf(files[n - 1]))];
        forall a, b | 0 <= a < b < |ds|
          ensures ds[a].name != ds[b].name
        {
          if b == |prev| {
            LoadedDocumentsSound(files, pagesOf, n - 1, a);
            assert ds[a] == prev[a];
            var j :| 0 <= j < n - 1 && files[..n - 1][j] == prev[a].name;
          } else {
            assert ds[a] == prev[a] && ds[b] == prev[b];
          }
        }
      }
    }
  }

  /** The three patterns select disjoint names, so a listing without
      repeated names gives a file list without repeated names. */
  lemma SupportedFilesDistinct(listing: seq<string>)
    requires Distinct(listing)
    ensures Distinct(SupportedFiles(listing))
  {
    var p, x, d := Glob(listing, ".pdf"), Glob(listing, ".docx"), Glob(listing, ".doc");
    GlobDistinct(listing, ".pdf");
    GlobDistinct(listing, ".docx");
    GlobDistinct(listing, ".doc");
    GlobLastChar(listing, ".pdf");
    GlobLastChar(listing, ".docx");
    GlobLastChar(listing, ".doc");
    AppendDistinct(p, x);
    AppendDistinct(p + x, d);
  }

  /** Every globbed name ends with the last character of the pattern. */
  lemma GlobLastChar(listing: seq<string>, ext: string)
    requires ext != []
    ensures forall n :: n in Glob(listing, ext) ==> n != [] && n[|n| - 1] == ext[|ext| - 1]
  {
    forall n | n in Glob(listing, ext)
      ensures n != [] && n[|n| - 1] == ext[|ext| - 1]
    {
      assert EndsWith(n, ext);
      assert n[|n| - |ext|..][|ext| - 1] == ext[|ext| - 1];
    }
  }

  /** Two repeat-free sequences whose last characters differ element by
      element concatenate to a repeat-free sequence. */
  lemma AppendDistinct(xs: seq<string>, ys: seq<string>)
    requires Distinct(xs) && Distinct(ys)
    requires forall n :: n in xs ==> n != []
    requires forall n :: n in ys ==> n != [] && forall m :: m in xs ==> m[|m| - 1] != n[|n| - 1]
    ensures Distinct(xs + ys)
  {
    var zs := xs + ys;
    forall a, b | 0 <= a < b < |zs|
      ensures zs[a] != zs[b]
    {
      if a < |xs| && b >= |xs| {
        assert zs[a] in xs && zs[b] in ys;
      }
    }
  }

  /** A glob of a listing without repeated names has no repeated names. */
  lemma {:induction false} GlobDistinct(listing: seq<string>, ext: string)
    requires Distinct(listing)
    ensures Distinct(Glob(listing, ext))
  {
    if |listing| > 0 {
      var init := listing[..|listing| - 1];
      var last := listing[|listing| - 1];
      GlobDistinct(init, ext);
      assert last !in init;
    }
  }

  /** Every page of a loaded document is non-blank and names its file; a
      document's page numbers strictly increase. */
  lemma LoadedPagesWellFormed(isSpace: char -> bool, folder: Folder, name: string)
    ensures var pages := DocumentPages(isSpace, folder, name);
      PageNumbersIncreasing(pages) &&
      forall k :: 0 <= k < |pages| ==> !IsBlank(isSpace, pages[k].text) && pages[k].sourceFile == name
  {
    var pages := DocumentPages(isSpace, folder, name);
    match KindOf(name)
    case PdfKind => {
      match folder.asPdf(name)
      case PdfUnreadable => {}
      case PdfReadable(texts) =>
        PdfPageListIncreasing(isSpace, name, texts, |texts|);
        forall k | 0 <= k < |pages|
          ensures !IsBlank(isSpace, pages[k].text) && pages[k].sourceFile == name
        {
          PdfPageListSound(isSpace, name, texts, |texts|, k);
        }
    }
    case DocxKind => {
      match folder.asDocx(name)
      case DocxUnreadable => {}
      case DocxReadable(paragraphs, tables) =>
        var text := DocxText(isSpace, paragraphs, tables);
        if !IsBlank(isSpace, text) {
          DocxPageListIncreasing(isSpace, name, text, NumPages(|text|));
          forall k | 0 <= k < |pages|
            ensures !IsBlank(isSpace, pages[k].text) && pages[k].sourceFile == name
          {
            DocxPageListSound(isSpace, name, text, NumPages(|text|), k);
          }
        }
    }
    case Unsupported => {}
  }
}
