/** The extraction client: the per-mode prompt and response schema, the
    request sent to the multimodal model, and the normalisation of every
    failure into an `{ error }` record. The remote call, the file reader and
    `JSON.parse` are oracles handed in as parameters. */
module GeminiService {

  import opened Types
  import opened Strings

  // ---------------------------------------------------------------------
  // Prompts
  // ---------------------------------------------------------------------

  /** The indentation that the multi-line template literals carry on each
      continuation line (18 spaces). */
  const Indent := "                  "

  /** The fixed part of each mode's prompt, exactly the template's text,
      line breaks and indentation included. It is written in short pieces
      because the marker lemmas below check each piece character by
      character, and the verifier's cost for that grows quickly with the
      length of a literal. */
  function Instruction(mode: ExtractionMode): string {
    match mode
    case Text =>
      "Extract all " + "legible text " + "from this " + "image. "
      + "Preserve " + "original " + "line breaks " + "where " + "possible. \n" + Indent
    case Forms =>
      "Analyze this " + "document " + "as a form. " + "Identify all " + "key-value pairs "
      + "(fields and " + "their entries). \n" + Indent
      + "Return a list " + "of fields. \n" + Indent
    case Tables =>
      "Analyze this " + "document " + "for tables. " + "Extract all " + "tables found. \n" + Indent
      + "Represent " + "each table " + "as a grid " + "of strings.\n" + Indent
  }

  /** The sentence each mode appends when a summary is requested. */
  function SummarySentence(mode: ExtractionMode): string {
    match mode
    case Text => "Also provide a brief summary of the content."
    case Forms => "Also provide a brief summary of the document's purpose."
    case Tables => "Also provide a brief summary of the tabular data."
  }

  /** The prompt of `extractDocumentData`: the mode's instruction, then its
      summary sentence when `summarize` is set and the empty string when not. */
  function Prompt(mode: ExtractionMode, summarize: bool): (p: string)
    ensures StartsWith(p, Instruction(mode))
    ensures summarize ==> EndsWith(p, SummarySentence(mode))
    ensures !summarize ==> p == Instruction(mode)
  {
    var p := Instruction(mode) + (if summarize then SummarySentence(mode) else "");
    assert p[..|Instruction(mode)|] == Instruction(mode);
    assert summarize ==> p[|p| - |SummarySentence(mode)|..] == SummarySentence(mode);
    p
  }

  /** A character that occurs in the mode's summary sentence and nowhere in
      its instruction; it shows the instruction cannot contain the sentence. */
  function Marker(mode: ExtractionMode): char {
    match mode
    case Text => 'u'
    case Forms => '\''
    case Tables => 'v'
  }

  lemma MarkerSeparates(mode: ExtractionMode)
    ensures Marker(mode) in SummarySentence(mode)
    ensures Marker(mode) !in Instruction(mode)
  {
    match mode
    case Text => TextMarker();
    case Forms => FormsMarker();
    case Tables => TablesMarker();
  }

  /** The indentation is all spaces, so it holds no other character. */
  lemma IndentIsSpaces(c: char)
    requires c != ' '
    ensures c !in Indent
  {
  }

  lemma TextMarker()
    ensures 'u' in SummarySentence(Text) && 'u' !in Instruction(Text)
  {
    assert SummarySentence(Text)[22] == 'u';
    assert 'u' !in "Extract all ";
    assert 'u' !in "legible text ";
    assert 'u' !in "from this ";
    assert 'u' !in "image. ";
    assert 'u' !in "Preserve ";
    assert 'u' !in "original ";
    assert 'u' !in "line breaks ";
    assert 'u' !in "where ";
    assert 'u' !in "possible. \n";
    IndentIsSpaces('u');
  }

  lemma FormsMarker()
    ensures '\'' in SummarySentence(Forms) && '\'' !in Instruction(Forms)
  {
    assert SummarySentence(Forms)[44] == '\'';
    assert '\'' !in "Analyze this ";
    assert '\'' !in "document ";
    assert '\'' !in "as a form. ";
    assert '\'' !in "Identify all ";
    assert '\'' !in "key-value pairs ";
    assert '\'' !in "(fields and ";
    assert '\'' !in "their entries). \n";
    assert '\'' !in "Return a list ";
    assert '\'' !in "of fields. \n";
    IndentIsSpaces('\'');
  }

  lemma TablesMarker()
    ensures 'v' in SummarySentence(Tables) && 'v' !in Instruction(Tables)
  {
    assert SummarySentence(Tables)[8] == 'v';
    assert 'v' !in "Analyze this ";
    assert 'v' !in "document ";
    assert 'v' !in "for tables. ";
    assert 'v' !in "Extract all ";
    assert 'v' !in "tables found. \n";
    assert 'v' !in "Represent ";
    assert 'v' !in "each table ";
    assert 'v' !in "as a grid ";
    assert 'v' !in "of strings.\n";
    IndentIsSpaces('v');
  }

  /** For every mode, the prompt asks for a summary exactly when
      `summarize` is set. */
  lemma SummaryRequestedIff(mode: ExtractionMode, summarize: bool)
    ensures Contains(Prompt(mode, summarize), SummarySentence(mode)) <==> summarize
  {
    if summarize {
      EndsWithContains(Prompt(mode, summarize), SummarySentence(mode));
    } else {
      MarkerSeparates(mode);
      AbsentCharExcludes(Instruction(mode), SummarySentence(mode), Marker(mode));
    }
  }

  // ---------------------------------------------------------------------
  // Response schemas
  // ---------------------------------------------------------------------

  /** The structured-output schema language used by the request. */
  datatype Schema =
    | StringSchema(description: Option<string>)
    | ArraySchema(items: Schema, description: Option<string>)
    | ObjectSchema(properties: seq<Property>, required: seq<string>)

  datatype Property = Property(name: string, schema: Schema)

  function PropertyNames(ps: seq<Property>): (names: seq<string>)
    ensures |names| == |ps|
    ensures forall k :: 0 <= k < |ps| ==> names[k] == ps[k].name
  {
    seq(|ps|, k requires 0 <= k < |ps| => ps[k].name)
  }

  /** The field of the extracted record that a mode's schema makes mandatory. */
  function ResultField(mode: ExtractionMode): string {
    match mode
    case Text => "rawText"
    case Forms => "forms"
    case Tables => "tables"
  }

  /** A string property with a description. */
  function Described(name: string, description: string): Property {
    Property(name, StringSchema(Some(description)))
  }

  /** The schema of one form field: an object with string `key` and `value`,
      both required. */
  const FieldSchema: Schema :=
    ObjectSchema(
      [Described("key", "The field label or name."),
       Described("value", "The field value or entry.")],
      ["key", "value"])

  /** The schema of the table list: tables of rows of string cells. */
  const TablesSchema: Schema :=
    ArraySchema(
      ArraySchema(
        ArraySchema(StringSchema(None), Some("A single row, represented as a list of cell text.")),
        Some("A single table, represented as a list of rows.")),
      Some("List of tables found in the document."))

  /** An array of arrays of arrays of plain strings: a list of tables. */
  predicate IsGridList(s: Schema) {
    s.ArraySchema? && s.items.ArraySchema? && s.items.items.ArraySchema?
    && s.items.items.items == StringSchema(None)
  }

  /** The response schema of each mode. It does not depend on `summarize`:
      `summary` is always an optional property. */
  function SchemaFor(mode: ExtractionMode): (s: Schema)
    ensures s.ObjectSchema?
    ensures s.required == [ResultField(mode)]
    ensures PropertyNames(s.properties) == [ResultField(mode), "summary"]
    ensures s.properties[1].schema.StringSchema?
    ensures mode == Forms ==> s.properties[0].schema == ArraySchema(FieldSchema, None)
    ensures mode == Forms ==> FieldSchema.required == ["key", "value"]
    ensures mode == Tables ==> IsGridList(s.properties[0].schema)
  {
    match mode
    case Text =>
      ObjectSchema(
        [Described("rawText", "The full extracted text from the document."),
         Described("summary", "A concise summary of the document content (optional).")],
        ["rawText"])
    case Forms =>
      ObjectSchema(
        [Property("forms", ArraySchema(FieldSchema, None)),
         Described("summary", "A concise summary of the form.")],
        ["forms"])
    case Tables =>
      ObjectSchema(
        [Property("tables", TablesSchema),
         Described("summary", "A concise summary of the table data.")],
        ["tables"])
  }

  /** Distinct modes require distinct fields, so the required field
      identifies the mode. */
  lemma ResultFieldInjective(m1: ExtractionMode, m2: ExtractionMode)
    ensures SchemaFor(m1).required == SchemaFor(m2).required <==> m1 == m2
  {
    if m1 != m2 {
      assert SchemaFor(m1).required[0] != SchemaFor(m2).required[0];
    }
  }

  /** Whether a record carries the field its mode's schema requires. */
  predicate HasRequiredField(d: ExtractedData, mode: ExtractionMode) {
    match mode
    case Text => d.rawText.Some?
    case Forms => d.forms.Some?
    case Tables => d.tables.Some?
  }

  // ---------------------------------------------------------------------
  // The request
  // ---------------------------------------------------------------------

  const ModelId := "gemini-2.5-flash"
  const JsonMimeType := "application/json"

  /** A request part: inline base64 image data (possibly `undefined`) with its
      MIME type, or prompt text. */
  datatype Part = InlineData(data: Option<string>, mimeType: string) | TextPart(text: string)

  datatype GenerationConfig = GenerationConfig(responseMimeType: string, responseSchema: Schema)

  datatype Request = Request(model: string, parts: seq<Part>, config: GenerationConfig)

  /** The `data:` URL a file reader produces for a file. */
  function DataUrl(mimeType: string, base64: string): string {
    "data:" + mimeType + ";base64," + base64
  }

  /** `fileToGenerativePart` once the reader has produced `dataUrl`: the
      segment after the first comma, and the file's type unchanged. */
  function FileToGenerativePart(file: File, dataUrl: string): (p: Part)
    ensures p.InlineData? && p.mimeType == file.fileType
    ensures p.data.Some? <==> ',' in dataUrl
    ensures p.data.Some? ==> ',' !in p.data.value
  {
    InlineData(SecondSegment(dataUrl, ','), file.fileType)
  }

  /** The image part carries exactly the base64 payload of a well-formed
      data URL whose MIME type holds no comma. */
  lemma ImagePartIsPayload(file: File, base64: string)
    requires ',' !in file.fileType && ',' !in base64
    ensures FileToGenerativePart(file, DataUrl(file.fileType, base64)).data == Some(base64)
  {
    var header := "data:" + file.fileType + ";base64";
    assert ',' !in header by {
      assert ',' !in "data:";
      assert ',' !in ";base64";
    }
    assert DataUrl(file.fileType, base64) == header + [','] + base64;
    SecondSegmentOfPair(header, base64, ',');
  }

  /** The request of `extractDocumentData`: two parts, the image first and
      the prompt second, JSON output constrained by the mode's schema. */
  function BuildRequest(image: Part, mode: ExtractionMode, summarize: bool): (r: Request)
    ensures r.model == ModelId
    ensures |r.parts| == 2 && r.parts[0] == image
    ensures r.parts[1] == TextPart(Prompt(mode, summarize))
    ensures r.config.responseMimeType == JsonMimeType
    ensures r.config.responseSchema == SchemaFor(mode)
  {
    Request(ModelId, [image, TextPart(Prompt(mode, summarize))],
            GenerationConfig(JsonMimeType, SchemaFor(mode)))
  }

  // ---------------------------------------------------------------------
  // Oracles and failure normalisation
  // ---------------------------------------------------------------------

  /** A thrown value: an `Error` object with its message, or anything else. */
  datatype Thrown = ErrorObject(message: string) | OtherValue

  /** What the file reader does: load a data URL, or fail. Its error handler
      rejects with the reader's event, which is not an `Error`. */
  datatype ReadOutcome = Loaded(dataUrl: string) | ReadFailed

  /** The remote model's response; `text` may be absent. */
  datatype Response = Response(text: Option<string>)

  /** What the remote call does: respond, or throw. */
  datatype CallOutcome = Responded(response: Response) | CallFailed(thrown: Thrown)

  /** What `JSON.parse` does: return a value (cast to the record type without
      any check), or throw a `SyntaxError`, which is an `Error`. */
  datatype Parsed = Parsed(value: ExtractedData) | SyntaxError(message: string)

  const NoResponseMessage := "No response generated from AI model."
  const UnknownErrorMessage := "An unknown error occurred during extraction."

  /** The catch clause's message: an `Error`'s own message, or the fixed
      fallback for any other thrown value. */
  function CaughtMessage(t: Thrown): string {
    match t
    case ErrorObject(m) => m
    case OtherValue => UnknownErrorMessage
  }

  /** The text of a response, when present and non-empty (JavaScript truthy). */
  function ResponseText(r: Response): Option<string> {
    if r.text.Some? && r.text.value != "" then r.text else None
  }

  /** What `extractDocumentData` resolves to: a failed read ends in the
      fallback message; otherwise the request built from the image part, the
      mode and the flag is sent, and the outcome is what that call settles to. */
  function ExtractionOutcome(file: File, mode: ExtractionMode, summarize: bool,
                             read: ReadOutcome, generate: Request -> CallOutcome,
                             parse: string -> Parsed): (d: ExtractedData)
    ensures read.ReadFailed? ==> d == ErrorResult(UnknownErrorMessage)
    ensures read.Loaded? ==>
              d == CallResult(generate(BuildRequest(FileToGenerativePart(file, read.dataUrl),
                                                    mode, summarize)), parse)
  {
    match read
    case ReadFailed => ErrorResult(CaughtMessage(OtherValue))
    case Loaded(url) =>
      CallResult(generate(BuildRequest(FileToGenerativePart(file, url), mode, summarize)), parse)
  }

  /** What the service resolves to once the remote call has settled: a
      throw keeps an `Error`'s message, an empty reply is the fixed "no
      response" error, and otherwise the parser decides, a parse error
      becoming its message. Either way the outcome is an error-only record
      or a value the parser returned for a non-empty reply. */
  function CallResult(out: CallOutcome, parse: string -> Parsed): (d: ExtractedData)
    ensures out.CallFailed? ==> d == ErrorResult(CaughtMessage(out.thrown))
    ensures out.Responded? && ResponseText(out.response).None? ==> d == ErrorResult(NoResponseMessage)
    ensures out.Responded? && ResponseText(out.response).Some? ==>
              var p := parse(ResponseText(out.response).value);
              d == if p.Parsed? then p.value else ErrorResult(p.message)
    ensures IsErrorOnly(d) || exists t :: t != "" && parse(t) == Parsed(d)
  {
    match out
    case CallFailed(t) => ErrorResult(CaughtMessage(t))
    case Responded(response) =>
      match ResponseText(response)
      case None => ErrorResult(NoResponseMessage)
      case Some(text) =>
        match parse(text)
        case SyntaxError(m) => ErrorResult(m)
        case Parsed(v) => v
  }

  /** No failure escapes: the outcome is either an error-only record or a
      value the parser returned for a non-empty reply. */
  lemma NoFailureEscapes(file: File, mode: ExtractionMode, summarize: bool,
                         read: ReadOutcome, generate: Request -> CallOutcome, parse: string -> Parsed)
    ensures var d := ExtractionOutcome(file, mode, summarize, read, generate, parse);
            IsErrorOnly(d) || exists t :: t != "" && parse(t) == Parsed(d)
  {
  }

  /** A failed file read ends in the fixed "unknown error" message. */
  lemma ReadFailureIsUnknownError(file: File, mode: ExtractionMode, summarize: bool,
                                  generate: Request -> CallOutcome, parse: string -> Parsed)
    ensures ExtractionOutcome(file, mode, summarize, ReadFailed, generate, parse)
            == ErrorResult(UnknownErrorMessage)
  {
  }

  /** A thrown `Error` keeps its message; any other thrown value becomes the
      fixed "unknown error" message. */
  lemma ThrownIsNormalised(file: File, mode: ExtractionMode, summarize: bool, url: string,
                           generate: Request -> CallOutcome, parse: string -> Parsed)
    requires generate(BuildRequest(FileToGenerativePart(file, url), mode, summarize)).CallFailed?
    ensures var t := generate(BuildRequest(FileToGenerativePart(file, url), mode, summarize)).thrown;
            ExtractionOutcome(file, mode, summarize, Loaded(url), generate, parse)
            == ErrorResult(if t.ErrorObject? then t.message else UnknownErrorMessage)
  {
  }

  /** An absent or empty response text ends in the fixed "no response"
      message, whatever the parser would do. */
  lemma EmptyResponseIsNoResponse(file: File, mode: ExtractionMode, summarize: bool, url: string,
                                  generate: Request -> CallOutcome, parse: string -> Parsed)
    requires var out := generate(BuildRequest(FileToGenerativePart(file, url), mode, summarize));
             out.Responded? && (out.response.text.None? || out.response.text == Some(""))
    ensures ExtractionOutcome(file, mode, summarize, Loaded(url), generate, parse)
            == ErrorResult(NoResponseMessage)
  {
  }

  /** On success the result is the parsed payload itself. */
  lemma SuccessIsParsedPayload(file: File, mode: ExtractionMode, summarize: bool, url: string,
                               generate: Request -> CallOutcome, parse: string -> Parsed, text: string)
    requires generate(BuildRequest(FileToGenerativePart(file, url), mode, summarize))
             == Responded(Response(Some(text)))
    requires text != "" && parse(text).Parsed?
    ensures ExtractionOutcome(file, mode, summarize, Loaded(url), generate, parse) == parse(text).value
  {
  }

  /** The payload is not checked against the mode: a forms request whose
      reply carries only `rawText` succeeds with that reply, without `forms`
      and without an error. */
  lemma ShapeIsNotValidated(file: File, summarize: bool, url: string)
    ensures var reply := ExtractedData(Some("text"), None, None, None, None);
            var d := ExtractionOutcome(file, Forms, summarize, Loaded(url),
                                       _ => Responded(Response(Some("{}"))), _ => Parsed(reply));
            d == reply && !HasRequiredField(d, Forms) && d.error.None?
  {
  }

  // ---------------------------------------------------------------------
  // The client, as the source writes it: a try block that may throw at each
  // await, and a catch that turns whatever was thrown into `{ error }`.
  // ---------------------------------------------------------------------

  function ReadAsPart(file: File, read: ReadOutcome): Result<Part, Thrown> {
    match read
    case Loaded(url) => Success(FileToGenerativePart(file, url))
    case ReadFailed => Failure(OtherValue)
  }

  function Call(generate: Request -> CallOutcome, request: Request): Result<Response, Thrown> {
    match generate(request)
    case Responded(r) => Success(r)
    case CallFailed(t) => Failure(t)
  }

  function JsonParse(parse: string -> Parsed, text: string): Result<ExtractedData, Thrown> {
    match parse(text)
    case Parsed(v) => Success(v)
    case SyntaxError(m) => Failure(ErrorObject(m))
  }

  /** The body of the try block. */
  method TryExtract(file: File, mode: ExtractionMode, summarize: bool,
                    read: ReadOutcome, generate: Request -> CallOutcome, parse: string -> Parsed)
    returns (r: Result<ExtractedData, Thrown>)
    ensures r.Success? ==> r.value == ExtractionOutcome(file, mode, summarize, read, generate, parse)
    ensures r.Failure? ==> ErrorResult(CaughtMessage(r.error))
                           == ExtractionOutcome(file, mode, summarize, read, generate, parse)
  {
    var imagePart :- ReadAsPart(file, read);
    var request := BuildRequest(imagePart, mode, summarize);
    assert ExtractionOutcome(file, mode, summarize, read, generate, parse)
           == CallResult(generate(request), parse);
    var response :- Call(generate, request);
    var textResponse := response.text;
    if textResponse.None? || textResponse.value == "" {
      return Failure(ErrorObject(NoResponseMessage));
    }
    var jsonResponse :- JsonParse(parse, textResponse.value);
    return Success(jsonResponse);
  }

  /** `extractDocumentData`: never throws; every failure becomes `{ error }`. */
  method ExtractDocumentData(file: File, mode: ExtractionMode, summarize: bool,
                             read: ReadOutcome, generate: Request -> CallOutcome,
                             parse: string -> Parsed)
    returns (data: ExtractedData)
    ensures data == ExtractionOutcome(file, mode, summarize, read, generate, parse)
  {
    var attempt := TryExtract(file, mode, summarize, read, generate, parse);
    match attempt {
      case Success(d) => data := d;
      case Failure(error) => data := ErrorResult(CaughtMessage(error));
    }
  }
}
