/**
 * `PDFProcessor`'s dispatch and chunk numbering. The per-format readers (PyPDF2,
 * python-docx, OCR, plain file reads) and the langchain splitter are library code:
 * they are parameters here. Each reader ends by cleaning its text; that last
 * cleaning is part of the model.
 */
module DocProcessor {
  import opened Common
  import opened TextClean

  /**
   * A reader per supported file type, from a file path to the text it has gathered
   * before its final `clean_extracted_text` call (lines 92, 118, 127), or an error message.
   */
  datatype Extractors = Extractors(
    pdf: string -> Result<string, string>,
    docx: string -> Result<string, string>,
    txt: string -> Result<string, string>)

  datatype ExtractError =
    | UnsupportedType(fileType: string)  // the ValueError of line 140
    | ReadFailed(message: string)        // an exception raised by a reader

  datatype ChunkRecord = ChunkRecord(text: string, chunkId: nat, totalChunks: nat)

  datatype Processed = Processed(text: string, chunks: seq<ChunkRecord>, totalChunks: nat, totalCharacters: nat)

  /** Raised by `process_document` around any failure of extraction (line 169). */
  datatype ProcessError = ProcessingFailed(cause: ExtractError)

  predicate Supported(fileType: string) {
    fileType == "pdf" || fileType == "docx" || fileType == "txt"
  }

  /** One `extract_text_from_*` method: the reader's text, cleaned, or its error. */
  function Read(reader: string -> Result<string, string>, path: string): Result<string, ExtractError> {
    match reader(path)
    case Success(t) => Success(Clean(t))
    case Failure(m) => Failure(ReadFailed(m))
  }

  /** `extract_text` (lines 132-140): the type picks the reader; any other type is refused. */
  function ExtractText(x: Extractors, path: string, fileType: string): (r: Result<string, ExtractError>)
    ensures r == Failure(UnsupportedType(fileType)) <==> !Supported(fileType)
    ensures fileType == "pdf" ==> r == Read(x.pdf, path)
    ensures fileType == "docx" ==> r == Read(x.docx, path)
    ensures fileType == "txt" ==> r == Read(x.txt, path)
  {
    if fileType == "pdf" then Read(x.pdf, path)
    else if fileType == "docx" then Read(x.docx, path)
    else if fileType == "txt" then Read(x.txt, path)
    else Failure(UnsupportedType(fileType))
  }

  /** Extracted text is always clean, so `total_characters` counts cleaned text. */
  lemma ExtractedIsClean(x: Extractors, path: string, fileType: string)
    requires ExtractText(x, path, fileType).Success?
    ensures Cleaned(ExtractText(x, path, fileType).value)
  {
    var raw := if fileType == "pdf" then x.pdf(path) else if fileType == "docx" then x.docx(path) else x.txt(path);
    CleanOutput(raw.value);
  }

  /** The list comprehension of line 145. */
  function CleanEach(windows: seq<string>): (r: seq<string>)
    ensures |r| == |windows|
  {
    if windows == [] then [] else [Clean(windows[0])] + CleanEach(windows[1..])
  }

  /** `chunk_text` (lines 142-146): the splitter's windows, each cleaned again. */
  function ChunkText(text: string, split: string -> seq<string>): (r: seq<string>)
    ensures |r| == |split(text)|
  {
    CleanEach(split(text))
  }

  lemma {:induction false} CleanEachAt(windows: seq<string>, i: nat)
    requires i < |windows|
    ensures CleanEach(windows)[i] == Clean(windows[i])
  {
    if i > 0 {
      CleanEachAt(windows[1..], i - 1);
    }
  }

  /** Every chunk handed to the vector store is clean text. */
  lemma ChunksAreClean(text: string, split: string -> seq<string>, i: nat)
    requires i < |ChunkText(text, split)|
    ensures Cleaned(ChunkText(text, split)[i])
  {
    CleanEachAt(split(text), i);
    CleanOutput(split(text)[i]);
  }

  /** The loop of lines 153-159: chunk `i` of `n` is tagged with `chunk_id == i` and `total_chunks == n`. */
  method Number(chunks: seq<string>) returns (records: seq<ChunkRecord>)
    ensures |records| == |chunks|
    ensures forall i :: 0 <= i < |chunks| ==> records[i] == ChunkRecord(chunks[i], i, |chunks|)
  {
    records := [];
    var i := 0;
    while i < |chunks|
      invariant 0 <= i <= |chunks|
      invariant |records| == i
      invariant forall j :: 0 <= j < i ==> records[j] == ChunkRecord(chunks[j], j, |chunks|)
    {
      records := records + [ChunkRecord(chunks[i], i, |chunks|)];
      i := i + 1;
    }
  }

  /**
   * `process_document` (lines 148-169): chunk `i` of `n` carries `chunk_id == i` and
   * `total_chunks == n`; the totals are the chunk count and the extracted text's length.
   */
  method ProcessDocument(x: Extractors, split: string -> seq<string>, path: string, fileType: string)
    returns (r: Result<Processed, ProcessError>)
    ensures r.Failure? <==> ExtractText(x, path, fileType).Failure?
    ensures r.Failure? ==> r.error == ProcessingFailed(ExtractText(x, path, fileType).error)
    ensures r.Success? ==>
      var text := ExtractText(x, path, fileType).value;
      var chunks := ChunkText(text, split);
      && r.value.text == text
      && r.value.totalChunks == |chunks| == |r.value.chunks|
      && r.value.totalCharacters == |text|
      && forall i :: 0 <= i < |chunks| ==> r.value.chunks[i] == ChunkRecord(chunks[i], i, |chunks|)
  {
    var extracted := ExtractText(x, path, fileType);
    if extracted.Failure? {
      return Failure(ProcessingFailed(extracted.error));
    }
    var text := extracted.value;
    var chunks := ChunkText(text, split);
    var withMetadata := Number(chunks);
    r := Success(Processed(text, withMetadata, |chunks|, |text|));
  }
}
