/** Document preparation for the medical knowledge base: loading PDF files page by page and cutting the
    documents into chunks with bookkeeping metadata. The text splitter and the PDF reader are library
    code; the splitter is a function parameter and a PDF file arrives as its per-page extraction outcomes. */
module DocumentHelper {
  import opened Wrappers
  import opened Strings

  /** A metadata value: the code stores strings and integers. */
  datatype MetaValue = Str(s: string) | Int(i: int)

  type Metadata = map<string, MetaValue>

  /** A LangChain document: text and metadata. */
  datatype Document = Document(pageContent: string, metadata: Metadata)

  /** The splitter configured with a chunk size and an overlap, applied to one document: its chunks, or
      `None` when it raises. */
  type Splitter = (int, int, Document) -> Option<seq<Document>>

  const DefaultChunkSize := 500
  const DefaultChunkOverlap := 50

  /** Where the loader looks when no directory is given. */
  const DefaultDataDirectory := "Documents/"

  const ChunkSizeNotPositive := "chunk_size must be positive"
  const OverlapNegative := "chunk_overlap cannot be negative"
  const OverlapTooLarge := "chunk_overlap must be less than chunk_size"

  /** The parameter checks, in the order the code makes them; `None` when the parameters are valid. */
  function ValidateChunkParameters(chunkSize: int, chunkOverlap: int): (r: Option<string>)
    ensures r == None <==> 0 <= chunkOverlap < chunkSize
    ensures chunkSize <= 0 ==> r == Some(ChunkSizeNotPositive)
    ensures chunkSize > 0 && chunkOverlap < 0 ==> r == Some(OverlapNegative)
    ensures chunkSize > 0 && chunkOverlap >= 0 && chunkOverlap >= chunkSize ==> r == Some(OverlapTooLarge)
  {
    if chunkSize <= 0 then Some(ChunkSizeNotPositive)
    else if chunkOverlap < 0 then Some(OverlapNegative)
    else if chunkOverlap >= chunkSize then Some(OverlapTooLarge)
    else None
  }

  /** The four keys the chunker adds. */
  predicate IsChunkKey(k: string) {
    k == "chunk_index" || k == "total_chunks" || k == "chunk_size" || k == "parent_document_index"
  }

  /** A copy of the parent's metadata updated with the chunk's position, its document's chunk count, its
      length and its document's position. */
  function EnrichedMetadata(parent: Metadata, chunkIndex: nat, totalChunks: nat, chunkLength: nat, documentIndex: nat)
    : (m: Metadata)
    ensures forall k :: k in m <==> k in parent || IsChunkKey(k)
    ensures forall k :: k in parent && !IsChunkKey(k) ==> m[k] == parent[k]
    ensures "chunk_index" in m && "total_chunks" in m && "chunk_size" in m && "parent_document_index" in m
    ensures m["chunk_index"] == Int(chunkIndex) && m["total_chunks"] == Int(totalChunks)
    ensures m["chunk_size"] == Int(chunkLength) && m["parent_document_index"] == Int(documentIndex)
  {
    parent["chunk_index" := Int(chunkIndex)]["total_chunks" := Int(totalChunks)]
          ["chunk_size" := Int(chunkLength)]["parent_document_index" := Int(documentIndex)]
  }

  /** A document's chunks after the metadata pass: the text the splitter produced, metadata rebuilt from the parent. */
  function EnrichChunks(parent: Document, documentIndex: nat, chunks: seq<Document>): (r: seq<Document>)
    ensures |r| == |chunks|
  {
    seq(|chunks|, j requires 0 <= j < |chunks| =>
      Document(chunks[j].pageContent,
               EnrichedMetadata(parent.metadata, j, |chunks|, |chunks[j].pageContent|, documentIndex)))
  }

  /** The chunks of the first `n` documents, in document order; a document whose split fails adds nothing. */
  function ChunksOf(documents: seq<Document>, chunkSize: int, chunkOverlap: int, split: Splitter, n: nat)
    : seq<Document>
    requires n <= |documents|
  {
    if n == 0 then []
    else
      ChunksOf(documents, chunkSize, chunkOverlap, split, n - 1)
      + DocumentChunks(documents[n - 1], n - 1, chunkSize, chunkOverlap, split)
  }

  /** What one document adds: its enriched chunks, or nothing when its split fails. */
  function DocumentChunks(document: Document, documentIndex: nat, chunkSize: int, chunkOverlap: int,
                          split: Splitter): seq<Document>
  {
    match split(chunkSize, chunkOverlap, document)
    case None => []
    case Some(chunks) => EnrichChunks(document, documentIndex, chunks)
  }

  /** `split_documents_into_semantic_chunks` as a function of its inputs. */
  function SplitDocuments(documents: seq<Document>, split: Splitter, chunkSize: int := DefaultChunkSize,
                          chunkOverlap: int := DefaultChunkOverlap)
    : (r: Result<seq<Document>, string>)
    ensures r.Failure? <==> ValidateChunkParameters(chunkSize, chunkOverlap).Some?
    ensures r.Failure? ==> r.error == ValidateChunkParameters(chunkSize, chunkOverlap).value
    ensures r.Success? && documents == [] ==> r.value == []
  {
    match ValidateChunkParameters(chunkSize, chunkOverlap)
    case Some(message) => Failure(message)
    case None =>
      if documents == [] then Success([])
      else Success(ChunksOf(documents, chunkSize, chunkOverlap, split, |documents|))
  }

  /** The metadata pass over one document's chunks, overwriting each chunk's metadata in place. */
  method EnrichChunkMetadata(chunks: array<Document>, parent: Document, documentIndex: nat)
    modifies chunks
    ensures chunks[..] == EnrichChunks(parent, documentIndex, old(chunks[..]))
  {
    ghost var original := chunks[..];
    var j := 0;
    while j < chunks.Length
      invariant 0 <= j <= chunks.Length
      invariant forall k :: 0 <= k < j ==> chunks[k] == EnrichChunks(parent, documentIndex, original)[k]
      invariant forall k :: j <= k < chunks.Length ==> chunks[k] == original[k]
    {
      var enhanced := EnrichedMetadata(parent.metadata, j, chunks.Length, |chunks[j].pageContent|, documentIndex);
      chunks[j] := Document(chunks[j].pageContent, enhanced);
      j := j + 1;
    }
  }

  /** One iteration of the document loop: split the document and, when the split succeeds, enrich its
      chunks' metadata; a failing split contributes nothing. */
  method ChunkOneDocument(document: Document, documentIndex: nat, chunkSize: int, chunkOverlap: int,
                          split: Splitter)
    returns (added: seq<Document>)
    ensures added == DocumentChunks(document, documentIndex, chunkSize, chunkOverlap, split)
  {
    var outcome := split(chunkSize, chunkOverlap, document);
    if outcome.None? {
      return [];
    }
    var pieces := outcome.value;
    var chunks := new Document[|pieces|](j requires 0 <= j < |pieces| => pieces[j]);
    assert chunks[..] == pieces;
    EnrichChunkMetadata(chunks, document, documentIndex);
    added := chunks[..];
  }

  /** `split_documents_into_semantic_chunks`: validate, then split each document and extend the result list. */
  method SplitDocumentsIntoSemanticChunks(documents: seq<Document>, split: Splitter,
                                          chunkSize: int := DefaultChunkSize,
                                          chunkOverlap: int := DefaultChunkOverlap)
    returns (r: Result<seq<Document>, string>)
    ensures r == SplitDocuments(documents, split, chunkSize, chunkOverlap)
  {
    var invalid := ValidateChunkParameters(chunkSize, chunkOverlap);
    if invalid.Some? {
      return Failure(invalid.value);
    }
    if documents == [] {
      return Success([]);
    }
    var allChunks: seq<Document> := [];
    var i := 0;
    while i < |documents|
      invariant 0 <= i <= |documents|
      invariant allChunks == ChunksOf(documents, chunkSize, chunkOverlap, split, i)
    {
      var added := ChunkOneDocument(documents[i], i, chunkSize, chunkOverlap, split);
      allChunks := allChunks + added;
      i := i + 1;
    }
    return Success(allChunks);
  }

  /** `c` is piece `j` of `document`'s successful split, carrying that document's metadata enriched with the
      piece's bookkeeping, for a document at position `d`. */
  ghost predicate ChunkOfDocument(c: Document, document: Document, d: nat, chunkSize: int, chunkOverlap: int,
                                  split: Splitter)
  {
    && split(chunkSize, chunkOverlap, document).Some?
    && var pieces := split(chunkSize, chunkOverlap, document).value;
       exists j :: 0 <= j < |pieces| && c.pageContent == pieces[j].pageContent
         && c.metadata == EnrichedMetadata(document.metadata, j, |pieces|, |c.pageContent|, d)
  }

  /** `c` comes from one of the first `n` documents. */
  ghost predicate FromSomeDocument(c: Document, documents: seq<Document>, n: nat, chunkSize: int,
                                   chunkOverlap: int, split: Splitter)
    requires n <= |documents|
  {
    exists d :: 0 <= d < n && ChunkOfDocument(c, documents[d], d, chunkSize, chunkOverlap, split)
  }

  /** Every chunk of `cs` comes from one of the first `n` documents. */
  ghost predicate FromDocuments(cs: seq<Document>, documents: seq<Document>, n: nat, chunkSize: int,
                                chunkOverlap: int, split: Splitter)
    requires n <= |documents|
  {
    forall p :: 0 <= p < |cs| ==> FromSomeDocument(cs[p], documents, n, chunkSize, chunkOverlap, split)
  }

  /** Every chunk a document adds is one of its split's pieces with the enriched metadata. */
  lemma EnrichedChunks(document: Document, d: nat, chunkSize: int, chunkOverlap: int, split: Splitter)
    ensures var added := DocumentChunks(document, d, chunkSize, chunkOverlap, split);
      forall j :: 0 <= j < |added| ==> ChunkOfDocument(added[j], document, d, chunkSize, chunkOverlap, split)
  {
    var added := DocumentChunks(document, d, chunkSize, chunkOverlap, split);
    forall j | 0 <= j < |added|
      ensures ChunkOfDocument(added[j], document, d, chunkSize, chunkOverlap, split)
    {
      var pieces := split(chunkSize, chunkOverlap, document).value;
      assert added[j].pageContent == pieces[j].pageContent;
    }
  }

  /** Appending chunks of document `n - 1` to chunks of the first `n - 1` documents. */
  lemma FromDocumentsAppend(a: seq<Document>, b: seq<Document>, documents: seq<Document>, n: nat,
                            chunkSize: int, chunkOverlap: int, split: Splitter)
    requires 0 < n <= |documents|
    requires FromDocuments(a, documents, n - 1, chunkSize, chunkOverlap, split)
    requires forall j :: 0 <= j < |b| ==>
      ChunkOfDocument(b[j], documents[n - 1], n - 1, chunkSize, chunkOverlap, split)
    ensures FromDocuments(a + b, documents, n, chunkSize, chunkOverlap, split)
  {
    forall p | 0 <= p < |a + b|
      ensures FromSomeDocument((a + b)[p], documents, n, chunkSize, chunkOverlap, split)
    {
      var d: nat;
      if p < |a| {
        assert (a + b)[p] == a[p];
        assert FromSomeDocument(a[p], documents, n - 1, chunkSize, chunkOverlap, split);
        d :| 0 <= d < n - 1 && ChunkOfDocument(a[p], documents[d], d, chunkSize, chunkOverlap, split);
      } else {
        assert (a + b)[p] == b[p - |a|];
        d := n - 1;
      }
      assert ChunkOfDocument((a + b)[p], documents[d], d, chunkSize, chunkOverlap, split);
    }
  }

  /** Every output chunk comes from one document's successful split: its text is a piece's text and its
      metadata is that document's metadata enriched with the piece's bookkeeping. */
  lemma {:induction false} ChunkProvenance(documents: seq<Document>, chunkSize: int, chunkOverlap: int,
                                           split: Splitter, n: nat)
    requires n <= |documents|
    ensures FromDocuments(ChunksOf(documents, chunkSize, chunkOverlap, split, n), documents, n,
                          chunkSize, chunkOverlap, split)
  {
    if n > 0 {
      var before := ChunksOf(documents, chunkSize, chunkOverlap, split, n - 1);
      var added := DocumentChunks(documents[n - 1], n - 1, chunkSize, chunkOverlap, split);
      assert ChunksOf(documents, chunkSize, chunkOverlap, split, n) == before + added;
      ChunkProvenance(documents, chunkSize, chunkOverlap, split, n - 1);
      EnrichedChunks(documents[n - 1], n - 1, chunkSize, chunkOverlap, split);
      FromDocumentsAppend(before, added, documents, n, chunkSize, chunkOverlap, split);
    }
  }

  /** The position of a chunk's document, as recorded in its metadata. */
  function ParentIndex(c: Document): int {
    if "parent_document_index" in c.metadata && c.metadata["parent_document_index"].Int?
    then c.metadata["parent_document_index"].i else -1
  }

  /** Every chunk a document adds records that document's position. */
  lemma EnrichedParentIndex(document: Document, documentIndex: nat, chunkSize: int, chunkOverlap: int,
                            split: Splitter)
    ensures var added := DocumentChunks(document, documentIndex, chunkSize, chunkOverlap, split);
      forall j :: 0 <= j < |added| ==> ParentIndex(added[j]) == documentIndex
  {
  }

  /** The recorded parent positions of `cs` never decrease and all lie in `[0, n)`. */
  ghost predicate ParentsInOrder(cs: seq<Document>, n: int) {
    forall p, q :: 0 <= p <= q < |cs| ==> 0 <= ParentIndex(cs[p]) <= ParentIndex(cs[q]) < n
  }

  /** Appending chunks that all record position `n - 1` to chunks ordered below `n - 1` keeps the order. */
  lemma ParentsInOrderAppend(a: seq<Document>, b: seq<Document>, n: int)
    requires ParentsInOrder(a, n - 1)
    requires forall j :: 0 <= j < |b| ==> ParentIndex(b[j]) == n - 1
    requires n > 0
    ensures ParentsInOrder(a + b, n)
  {
    forall p, q | 0 <= p <= q < |a + b|
      ensures 0 <= ParentIndex((a + b)[p]) <= ParentIndex((a + b)[q]) < n
    {
      if q < |a| {
        assert (a + b)[p] == a[p] && (a + b)[q] == a[q];
      } else if p < |a| {
        assert (a + b)[p] == a[p] && (a + b)[q] == b[q - |a|];
      } else {
        assert (a + b)[p] == b[p - |a|] && (a + b)[q] == b[q - |a|];
      }
    }
  }

  /** Chunks appear in document order: the recorded parent positions never decrease along the output, and
      all of them are positions of input documents. */
  lemma {:induction false} ChunksInDocumentOrder(documents: seq<Document>, chunkSize: int, chunkOverlap: int,
                                                 split: Splitter, n: nat)
    requires n <= |documents|
    ensures ParentsInOrder(ChunksOf(documents, chunkSize, chunkOverlap, split, n), n)
  {
    if n > 0 {
      var before := ChunksOf(documents, chunkSize, chunkOverlap, split, n - 1);
      var added := DocumentChunks(documents[n - 1], n - 1, chunkSize, chunkOverlap, split);
      ChunksInDocumentOrder(documents, chunkSize, chunkOverlap, split, n - 1);
      EnrichedParentIndex(documents[n - 1], n - 1, chunkSize, chunkOverlap, split);
      ParentsInOrderAppend(before, added, n);
      assert ChunksOf(documents, chunkSize, chunkOverlap, split, n) == before + added;
    }
  }

  /** Two splits of a document that agree on success and on the pieces' texts. */
  predicate SameTexts(o1: Option<seq<Document>>, o2: Option<seq<Document>>) {
    && o1.Some? == o2.Some?
    && (o1.Some? ==>
          && |o1.value| == |o2.value|
          && forall j :: 0 <= j < |o1.value| ==> o1.value[j].pageContent == o2.value[j].pageContent)
  }

  /** A document whose two splits agree on the texts adds the same chunks under either splitter. */
  lemma SameTextsSameChunks(document: Document, d: nat, chunkSize: int, chunkOverlap: int,
                            split1: Splitter, split2: Splitter)
    requires SameTexts(split1(chunkSize, chunkOverlap, document), split2(chunkSize, chunkOverlap, document))
    ensures DocumentChunks(document, d, chunkSize, chunkOverlap, split1)
         == DocumentChunks(document, d, chunkSize, chunkOverlap, split2)
  {
  }

  /** Only the text of the splitter's chunks matters: whatever metadata the splitter attaches (its start
      index, say) is discarded, so two splitters that cut the same texts give the same output. */
  lemma {:induction false} SplitterMetadataDiscarded(documents: seq<Document>, chunkSize: int, chunkOverlap: int,
                                                     split1: Splitter, split2: Splitter, n: nat)
    requires n <= |documents|
    requires forall d :: 0 <= d < n ==>
      SameTexts(split1(chunkSize, chunkOverlap, documents[d]), split2(chunkSize, chunkOverlap, documents[d]))
    ensures ChunksOf(documents, chunkSize, chunkOverlap, split1, n)
         == ChunksOf(documents, chunkSize, chunkOverlap, split2, n)
  {
    if n > 0 {
      var before := ChunksOf(documents, chunkSize, chunkOverlap, split1, n - 1);
      var added := DocumentChunks(documents[n - 1], n - 1, chunkSize, chunkOverlap, split1);
      SplitterMetadataDiscarded(documents, chunkSize, chunkOverlap, split1, split2, n - 1);
      SameTextsSameChunks(documents[n - 1], n - 1, chunkSize, chunkOverlap, split1, split2);
      assert ChunksOf(documents, chunkSize, chunkOverlap, split2, n) == before + added;
    }
  }

  /** The library's default chunk parameters pass validation. */
  lemma DefaultParametersValid()
    ensures ValidateChunkParameters(DefaultChunkSize, DefaultChunkOverlap) == None
  {
  }

  /** What extracting one page gave: its text, or an exception. */
  datatype PageOutcome = Extracted(text: string) | ExtractionFailed

  /** A page contributes to the document when its text is not blank. */
  predicate KeptPage(page: PageOutcome) {
    page.Extracted? && Strip(page.text) != []
  }

  /** The text assembled from the pages: each kept page's text followed by a blank line, in page order. */
  function AssembledText(pages: seq<PageOutcome>): string {
    if pages == [] then ""
    else
      var last := pages[|pages| - 1];
      AssembledText(pages[..|pages| - 1]) + (if KeptPage(last) then last.text + "\n\n" else "")
  }

  /** The page loop of `load_medical_documents_from_directory`. */
  method AssemblePageText(pages: seq<PageOutcome>) returns (text: string)
    ensures text == AssembledText(pages)
  {
    text := "";
    for n := 0 to |pages|
      invariant text == AssembledText(pages[..n])
    {
      assert pages[..n + 1][..n] == pages[..n];
      var page := pages[n];
      if page.Extracted? && Strip(page.text) != [] {
        text := text + page.text + "\n\n";
      }
    }
    assert pages[..|pages|] == pages;
  }

  /** No page of `pages` is kept. */
  predicate NoKeptPage(pages: seq<PageOutcome>) {
    forall i :: 0 <= i < |pages| ==> !KeptPage(pages[i])
  }

  /** The assembled text is blank exactly when no page was kept. */
  lemma AssembledTextBlankIffNoKeptPage(pages: seq<PageOutcome>)
    ensures Strip(AssembledText(pages)) == [] <==> NoKeptPage(pages)
  {
    StripShape(AssembledText(pages));
    AssembledAllSpaceIffNoKeptPage(pages);
  }

  lemma {:induction false} AssembledAllSpaceIffNoKeptPage(pages: seq<PageOutcome>)
    ensures AllSpace(AssembledText(pages)) <==> NoKeptPage(pages)
  {
    if pages != [] {
      var init, last := pages[..|pages| - 1], pages[|pages| - 1];
      AssembledAllSpaceIffNoKeptPage(init);
      var tail := if KeptPage(last) then last.text + "\n\n" else "";
      assert AssembledText(pages) == AssembledText(init) + tail;
      AllSpaceConcat(AssembledText(init), tail);
      assert AllSpace(tail) <==> !KeptPage(last) by {
        if KeptPage(last) {
          StripShape(last.text);
          AllSpaceConcat(last.text, "\n\n");
        }
      }
      NoKeptPageSnoc(pages);
    }
  }

  lemma NoKeptPageSnoc(pages: seq<PageOutcome>)
    requires pages != []
    ensures NoKeptPage(pages) <==> NoKeptPage(pages[..|pages| - 1]) && !KeptPage(pages[|pages| - 1])
  {
    var init, last := pages[..|pages| - 1], pages[|pages| - 1];
    if NoKeptPage(init) && !KeptPage(last) {
      forall i | 0 <= i < |pages| ensures !KeptPage(pages[i]) {
        if i < |init| { assert pages[i] == init[i]; }
      }
    }
    if NoKeptPage(pages) {
      forall i | 0 <= i < |init| ensures !KeptPage(init[i]) { assert pages[i] == init[i]; }
    }
  }

  /** A PDF file as the loader sees it: its path, its file name and, when it can be opened and read, the
      extraction outcome of each page. */
  datatype PdfFile = PdfFile(source: string, filename: string, pages: Option<seq<PageOutcome>>)

  /** What the path names: nothing, something other than a directory, or a directory with these `*.pdf` files. */
  datatype DirectoryListing = Missing | NotADirectory | Directory(pdfFiles: seq<PdfFile>)

  /** The two exceptions the loader raises for a bad path. */
  datatype LoadError = FileNotFoundError(message: string) | ValueError(message: string)

  /** The metadata of a loaded PDF document. */
  function PdfMetadata(source: string, filename: string, pageCount: nat): Metadata {
    map["source" := Str(source), "filename" := Str(filename), "document_type" := Str("medical_pdf"),
        "page_count" := Int(pageCount)]
  }

  /** The document made from one file, if its stripped text is not blank; the page count counts every page. */
  function PdfToDocument(file: PdfFile): (r: Option<Document>)
    ensures r.Some? <==> file.pages.Some? && !NoKeptPage(file.pages.value)
    ensures r.Some? ==> r.value.pageContent != [] && Trimmed(r.value.pageContent)
    ensures r.Some? ==> r.value.metadata == PdfMetadata(file.source, file.filename, |file.pages.value|)
  {
    match file.pages
    case None => None
    case Some(pages) =>
      var text := AssembledText(pages);
      AssembledTextBlankIffNoKeptPage(pages);
      StripShape(text);
      if Strip(text) == [] then None
      else Some(Document(Strip(text), PdfMetadata(file.source, file.filename, |pages|)))
  }

  /** The documents made from the files, in file order; a file that cannot be read or has no text adds nothing. */
  function DocumentsOf(files: seq<PdfFile>): (r: seq<Document>)
    ensures |r| <= |files|
  {
    if files == [] then []
    else
      var last := PdfToDocument(files[|files| - 1]);
      DocumentsOf(files[..|files| - 1]) + (if last.Some? then [last.value] else [])
  }

  /** `load_medical_documents_from_directory` as a function of the directory listing. */
  function LoadedDocuments(listing: DirectoryListing, dataDirectory: string := DefaultDataDirectory): (r: Result<seq<Document>, LoadError>)
    ensures listing.Missing? ==> r == Failure(FileNotFoundError("Directory not found: " + dataDirectory))
    ensures listing.NotADirectory? ==> r == Failure(ValueError("Path is not a directory: " + dataDirectory))
    ensures listing.Directory? && listing.pdfFiles == [] ==> r == Success([])
    ensures listing.Directory? ==> r == Success(DocumentsOf(listing.pdfFiles))
  {
    match listing
    case Missing => Failure(FileNotFoundError("Directory not found: " + dataDirectory))
    case NotADirectory => Failure(ValueError("Path is not a directory: " + dataDirectory))
    case Directory(files) => if files == [] then Success([]) else Success(DocumentsOf(files))
  }

  /** `load_medical_documents_from_directory`: check the path, then read the PDF files one by one. */
  method LoadMedicalDocumentsFromDirectory(listing: DirectoryListing, dataDirectory: string := DefaultDataDirectory)
    returns (r: Result<seq<Document>, LoadError>)
    ensures r == LoadedDocuments(listing, dataDirectory)
  {
    if listing.Missing? {
      return Failure(FileNotFoundError("Directory not found: " + dataDirectory));
    }
    if listing.NotADirectory? {
      return Failure(ValueError("Path is not a directory: " + dataDirectory));
    }
    var files := listing.pdfFiles;
    if files == [] {
      return Success([]);
    }
    var extracted: seq<Document> := [];
    for n := 0 to |files|
      invariant extracted == DocumentsOf(files[..n])
    {
      assert files[..n + 1][..n] == files[..n];
      var file := files[n];
      if file.pages.Some? {
        var text := AssemblePageText(file.pages.value);
        if Strip(text) != [] {
          var metadata := PdfMetadata(file.source, file.filename, |file.pages.value|);
          extracted := extracted + [Document(Strip(text), metadata)];
        }
      }
    }
    assert files[..|files|] == files;
    return Success(extracted);
  }

  /** Every loaded document comes from one readable file with a kept page, has trimmed non-blank content and
      carries that file's metadata, with the page count of all its pages. */
  lemma {:induction false} LoadedDocumentProvenance(files: seq<PdfFile>, p: nat)
    requires p < |DocumentsOf(files)|
    ensures var doc := DocumentsOf(files)[p];
      && doc.pageContent != [] && Trimmed(doc.pageContent)
      && exists f ::
           && 0 <= f < |files| && files[f].pages.Some? && PdfToDocument(files[f]) == Some(doc)
           && doc.metadata == PdfMetadata(files[f].source, files[f].filename, |files[f].pages.value|)
  {
    var init := files[..|files| - 1];
    var before := DocumentsOf(init);
    var doc := DocumentsOf(files)[p];
    if p < |before| {
      assert doc == before[p];
      LoadedDocumentProvenance(init, p);
      var f :| 0 <= f < |init| && init[f].pages.Some? && PdfToDocument(init[f]) == Some(doc)
               && doc.metadata == PdfMetadata(init[f].source, init[f].filename, |init[f].pages.value|);
      assert files[f] == init[f];
    } else {
      assert PdfToDocument(files[|files| - 1]) == Some(doc);
    }
  }

  /** Loading two runs of files one after the other yields the documents of the first run, then those of the
      second. */
  lemma {:induction false} DocumentsOfAppend(a: seq<PdfFile>, b: seq<PdfFile>)
    ensures DocumentsOf(a + b) == DocumentsOf(a) + DocumentsOf(b)
    decreases |b|
  {
    if b == [] {
      assert a + b == a;
    } else {
      var init := b[..|b| - 1];
      assert (a + b)[..|a + b| - 1] == a + init;
      assert (a + b)[|a + b| - 1] == b[|b| - 1];
      DocumentsOfAppend(a, init);
    }
  }

  /** Every readable file with a kept page contributes its document, right after the documents of the files
      listed before it. */
  lemma EveryKeptFileLoaded(files: seq<PdfFile>, f: nat)
    requires f < |files| && PdfToDocument(files[f]).Some?
    ensures |DocumentsOf(files[..f])| < |DocumentsOf(files)|
    ensures DocumentsOf(files)[|DocumentsOf(files[..f])|] == PdfToDocument(files[f]).value
  {
    var upTo, after := files[..f + 1], files[f + 1..];
    assert files == upTo + after;
    DocumentsOfAppend(upTo, after);
    assert upTo[..|upTo| - 1] == files[..f];
  }

  /** A file that cannot be read, or whose text is blank, adds no document. */
  lemma SkippedFileAddsNothing(files: seq<PdfFile>, f: nat)
    requires f < |files| && PdfToDocument(files[f]).None?
    ensures DocumentsOf(files[..f + 1]) == DocumentsOf(files[..f])
  {
    assert files[..f + 1][..f] == files[..f];
  }

  /** The documents keep the order of their files: a kept file's document comes before every document of
      a later file. */
  lemma DocumentsInFileOrder(files: seq<PdfFile>, f: nat, g: nat)
    requires f < g <= |files| && PdfToDocument(files[f]).Some?
    ensures |DocumentsOf(files[..f])| < |DocumentsOf(files[..g])|
    ensures DocumentsOf(files[..g])[|DocumentsOf(files[..f])|] == PdfToDocument(files[f]).value
  {
    EveryKeptFileLoaded(files[..g], f);
    assert files[..g][..f] == files[..f];
    assert files[..g][f] == files[f];
  }
}
