/** The shared data model of the extractor: extraction modes, the extracted
    record whose fields are all optional, uploaded files and their previews. */
module Types {

  /** An optional value (a TypeScript `T | undefined` field). */
  datatype Option<+T> = None | Some(value: T) {
    function GetOr(default: T): T {
      match this
      case Some(v) => v
      case None => default
    }
  }

  /** The outcome of a block that may throw: a value, or the thrown value.
      The three members make it usable with `:-`. */
  datatype Result<+R, +E> = Success(value: R) | Failure(error: E) {
    predicate IsFailure() {
      Failure?
    }
    function PropagateFailure<U>(): Result<U, E>
      requires Failure?
    {
      Failure(error)
    }
    function Extract(): R
      requires Success?
    {
      value
    }
  }

  /** The three extraction modes; the enum's string values are the names. */
  datatype ExtractionMode = Text | Forms | Tables

  /** One detected form field. */
  datatype FormField = FormField(key: string, value: string)

  /** A table is a list of rows, a row a list of cell texts; rows need not
      have the same length. */
  type Row = seq<string>
  type Table = seq<Row>

  /** The extraction record. Every field is optional; nothing ties the
      populated fields to the mode that produced them. */
  datatype ExtractedData = ExtractedData(
    rawText: Option<string>,
    forms: Option<seq<FormField>>,
    tables: Option<seq<Table>>,
    summary: Option<string>,
    error: Option<string>)

  /** The record `{ error: message }` with every other field absent. */
  function ErrorResult(message: string): (d: ExtractedData)
    ensures d.error == Some(message)
    ensures IsErrorOnly(d)
  {
    ExtractedData(None, None, None, None, Some(message))
  }

  /** Only `error` is present. */
  predicate IsErrorOnly(d: ExtractedData) {
    d.error.Some? && d.rawText.None? && d.forms.None? && d.tables.None? && d.summary.None?
  }

  /** A browser file: its name, its declared MIME type and its size in bytes.
      Its contents are only reachable through a file reader. */
  datatype File = File(name: string, fileType: string, size: nat)

  /** An object URL handed out by the browser for a file preview; the
      browser never hands out the same one twice, represented by `id`. */
  datatype Url = BlobUrl(id: nat)

  /** The selected file together with its preview URL. */
  datatype FileData = FileData(file: File, previewUrl: Url)
}
