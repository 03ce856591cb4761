/** The document payload sent to the OCR endpoint: whatever the input kind,
    a `document_url` record holding either the caller's URL or a base64
    `data:` URI of the document's bytes. */
module Payload {
  import opened Wrappers
  import opened Text
  import opened LoaderConfig
  import Base64
  import DataUri

  const DocumentUrlType: string := "document_url"
  const DefaultMime: string := "application/pdf"

  datatype DocumentPayload = DocumentPayload(kind: string, documentUrl: string)

  datatype PayloadError = FileNotFound(path: string) | NoInputSource

  /** The regular files that exist, with their contents. */
  type FileSystem = map<string, seq<Base64.byte>>

  /** Media-type guess from a file name (an opaque collaborator); `None` when unknown. */
  type MimeGuesser = string -> Option<string>

  /** The guessed media type, or PDF when the guess is missing or empty. */
  function MimeFor(path: string, guess: MimeGuesser): (m: string)
    ensures guess(path).Some? && |guess(path).value| > 0 ==> m == guess(path).value
    ensures !NonEmpty(guess(path)) ==> m == DefaultMime
  {
    var g := guess(path);
    if g.Some? && |g.value| > 0 then g.value else DefaultMime
  }

  /** Builds the payload from the first non-empty source, in the order
      URL, file, base64 text, bytes. */
  function Prepare(l: Loader, files: FileSystem, guess: MimeGuesser): (r: Result<DocumentPayload, PayloadError>)
    ensures r.Success? ==> r.value.kind == "document_url"
    ensures r.Success? && !NonEmpty(l.urlPath) ==> HasPrefix(r.value.documentUrl, "data:")
  {
    if NonEmpty(l.urlPath) then
      Success(DocumentPayload(DocumentUrlType, l.urlPath.value))
    else if NonEmpty(l.filePath) then
      var path := l.filePath.value;
      if path !in files then Failure(FileNotFound(path))
      else Success(DocumentPayload(DocumentUrlType, DataUri.Make(MimeFor(path, guess), Base64.Encode(files[path]))))
    else if NonEmpty(l.base64Content) then
      var text := l.base64Content.value;
      Success(DocumentPayload(DocumentUrlType, if HasPrefix(text, "data:") then text else DataUri.Make(DefaultMime, text)))
    else if NonEmpty(l.bytesContent) then
      Success(DocumentPayload(DocumentUrlType, DataUri.Make(DefaultMime, Base64.Encode(l.bytesContent.value))))
    else
      Failure(NoInputSource)
  }

  /** Reads back the media type and the bytes a `data:` URI carries. */
  function Unpack(uri: string): Option<(string, seq<Base64.byte>)> {
    var (mime, text) :- DataUri.Parse(uri);
    var bytes :- Base64.Decode(text);
    Some((mime, bytes))
  }

  lemma UnpackMake(mime: string, b: seq<Base64.byte>)
    ensures Unpack(DataUri.Make(mime, Base64.Encode(b))) == Some((mime, b))
  {
    DataUri.NoCommaInBase64(b);
    DataUri.ParseMake(mime, Base64.Encode(b));
    Base64.DecodeEncode(b);
  }

  /** A URL source is sent verbatim, whatever the other fields hold. */
  lemma UrlSentVerbatim(l: Loader, files: FileSystem, guess: MimeGuesser)
    requires NonEmpty(l.urlPath)
    ensures Prepare(l, files, guess) == Success(DocumentPayload("document_url", l.urlPath.value))
  {
  }

  /** An existing file is sent as a data URI that carries exactly its
      contents, under the guessed media type (PDF by default). */
  lemma FilePayloadCarriesContents(l: Loader, files: FileSystem, guess: MimeGuesser)
    requires !NonEmpty(l.urlPath) && NonEmpty(l.filePath) && l.filePath.value in files
    ensures Prepare(l, files, guess).Success?
    ensures Unpack(Prepare(l, files, guess).value.documentUrl)
      == Some((MimeFor(l.filePath.value, guess), files[l.filePath.value]))
  {
    UnpackMake(MimeFor(l.filePath.value, guess), files[l.filePath.value]);
  }

  /** A file that does not exist is reported by name. */
  lemma MissingFileReported(l: Loader, files: FileSystem, guess: MimeGuesser)
    requires !NonEmpty(l.urlPath) && NonEmpty(l.filePath) && l.filePath.value !in files
    ensures Prepare(l, files, guess) == Failure(FileNotFound(l.filePath.value))
  {
  }

  /** Base64 text already in `data:` form passes through unchanged; other
      text is wrapped as PDF and can be read back as given. */
  lemma Base64TextWrapped(l: Loader, files: FileSystem, guess: MimeGuesser)
    requires !NonEmpty(l.urlPath) && !NonEmpty(l.filePath) && NonEmpty(l.base64Content)
    ensures var text := l.base64Content.value; var r := Prepare(l, files, guess);
      && r.Success?
      && (HasPrefix(text, "data:") ==> r.value.documentUrl == text)
      && (!HasPrefix(text, "data:") ==> r.value.documentUrl == "data:application/pdf;base64," + text)
      && (!HasPrefix(text, "data:") && DataUri.NoComma(text) ==>
            DataUri.Parse(r.value.documentUrl) == Some((DefaultMime, text)))
  {
    var text := l.base64Content.value;
    if !HasPrefix(text, "data:") {
      var u := DataUri.Make(DefaultMime, text);
      assert u == "data:application/pdf;base64," + text;
      if DataUri.NoComma(text) {
        DataUri.ParseMake(DefaultMime, text);
      }
    }
  }

  /** Raw bytes are sent as a PDF data URI that carries exactly those bytes. */
  lemma BytesPayloadCarriesContents(l: Loader, files: FileSystem, guess: MimeGuesser)
    requires !NonEmpty(l.urlPath) && !NonEmpty(l.filePath) && !NonEmpty(l.base64Content) && NonEmpty(l.bytesContent)
    ensures Prepare(l, files, guess).Success?
    ensures Unpack(Prepare(l, files, guess).value.documentUrl) == Some((DefaultMime, l.bytesContent.value))
  {
    UnpackMake(DefaultMime, l.bytesContent.value);
  }

  /** For a constructed loader, dispatch fails with "no input source"
      exactly when its one source field holds an empty value: the
      constructor counts fields that are not `None`, dispatch tests truthiness. */
  lemma EmptySourceFailsAtDispatch(l: Loader, files: FileSystem, guess: MimeGuesser)
    requires Valid(l)
    ensures Prepare(l, files, guess) == Failure(NoInputSource) <==>
      (l.urlPath.Some? ==> l.urlPath.value == [])
      && (l.filePath.Some? ==> l.filePath.value == [])
      && (l.base64Content.Some? ==> l.base64Content.value == [])
      && (l.bytesContent.Some? ==> l.bytesContent.value == [])
  {
  }

  /** The constructor accepts an empty URL, which then fails at dispatch. */
  lemma EmptyUrlAcceptedThenRejected(files: FileSystem, guess: MimeGuesser)
    ensures var r := New(DefaultArgs().(urlPath := Some("")));
      r.Success? && Prepare(r.value, files, guess) == Failure(NoInputSource)
  {
  }
}
