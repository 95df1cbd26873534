/** The page's session state: the selected file, the mode, the summary flag,
    whether an extraction is in progress and the last result, and the
    handlers that change them. The `await` of the extraction call is split
    into two steps, `BeginExtract` (up to the call) and `CompleteExtract`
    (after it settles); nothing runs between them except what the caller
    chooses to interleave. */
module App {

  import opened Types
  import FileUploader
  import GeminiService

  /** The preview URLs that should be live for a selection. */
  ghost function Previews(f: Option<FileData>): set<Url> {
    if f.Some? then {f.value.previewUrl} else {}
  }

  /** The arguments the pending extraction call was started with. */
  datatype Call = Call(file: File, mode: ExtractionMode, summarize: bool)

  /** How an awaited extraction call settled: with a value, or by throwing. */
  datatype Settlement = Resolved(data: ExtractedData) | Rejected

  const FailureMessage := "Failed to process document. See console for details."

  /** The shared button's rule: it is disabled while loading or when its
      caller disables it. */
  function ButtonDisabled(isLoading: bool, disabled: bool): bool {
    isLoading || disabled
  }

  class Session {
    var fileData: Option<FileData>
    var mode: ExtractionMode
    var summarize: bool
    var isProcessing: bool
    var result: Option<ExtractedData>
    /** The uploader component and its own state. */
    const uploader: FileUploader.Uploader
    /** The call the current extraction awaits, if one is in flight. */
    ghost var inFlight: Option<Call>

    /** The session and the uploader agree; the only live preview URL is
        the selected file's, so none leaks. */
    ghost predicate Valid()
      reads this, uploader
    {
      && uploader.Valid()
      && uploader.live == Previews(fileData)
      && (isProcessing <==> inFlight.Some?)
      && (isProcessing ==> result.None?)
    }

    /** The initial state: no file, text mode, no summary, idle, no result. */
    constructor ()
      ensures Valid() && fresh(uploader)
      ensures fileData == None && mode == Text && !summarize
      ensures !isProcessing && result == None
    {
      fileData := None;
      mode := Text;
      summarize := false;
      isProcessing := false;
      result := None;
      inFlight := None;
      uploader := new FileUploader.Uploader();
    }

    /** The enable condition of the "Start Extraction" button. */
    function StartEnabled(): (enabled: bool)
      reads this
      ensures enabled <==> fileData.Some? && !isProcessing
    {
      !ButtonDisabled(isProcessing, fileData.None? || isProcessing)
    }

    /** The uploader's `onFileSelect` handler: replace the file (or clear it)
        and drop the result. */
    method OnFileSelect(f: Option<FileData>)
      requires uploader.Valid() && uploader.live == Previews(f)
      requires isProcessing <==> inFlight.Some?
      modifies this
      ensures Valid()
      ensures fileData == f && result == None
      ensures mode == old(mode) && summarize == old(summarize)
      ensures isProcessing == old(isProcessing) && inFlight == old(inFlight)
    {
      fileData := f;
      result := None;
    }

    /** Runs the handler the uploader called, if it called one. The session
        may be out of step with the uploader when the call comes (a revoked
        URL still selected, a new URL not yet selected); the handler puts it
        back in step. */
    method Deliver(cb: FileUploader.Callback)
      requires uploader.Valid() && (isProcessing <==> inFlight.Some?)
      requires cb.NoCall? ==> Valid()
      requires cb.OnFileSelect? ==> uploader.live == Previews(cb.selection)
      modifies this
      ensures Valid()
      ensures cb.NoCall? ==> unchanged(this)
      ensures cb.OnFileSelect? ==> fileData == cb.selection && result == None
      ensures mode == old(mode) && summarize == old(summarize)
      ensures isProcessing == old(isProcessing) && inFlight == old(inFlight)
    {
      if cb.OnFileSelect? {
        OnFileSelect(cb.selection);
      }
    }

    /** What an upload did when it reached the uploader's handler: the error
        shown is the first file's verdict; a rejected file leaves the session
        as it was, and an accepted one becomes the selection with a URL never
        handed out before, which is then the only live one. */
    twostate predicate Uploaded(files: seq<File>)
      requires files != []
      reads this, uploader
    {
      && uploader.error == FileUploader.Validate(files[0])
      && (uploader.error.Some? ==>
            fileData == old(fileData) && result == old(result)
            && uploader.live == old(uploader.live))
      && (uploader.error.None? ==>
            && fileData.Some? && fileData.value.file == files[0]
            && fileData.value.previewUrl !in old(uploader.issued)
            && uploader.live == {fileData.value.previewUrl}
            && result == None)
    }

    /** A drop on the uploader. The drop zone is only rendered while no file
        is selected, and it ignores drops while processing. */
    method DropFiles(files: seq<File>)
      requires Valid()
      modifies this, uploader
      ensures Valid()
      ensures isProcessing == old(isProcessing) && inFlight == old(inFlight)
      ensures mode == old(mode) && summarize == old(summarize)
      ensures old(fileData).Some? || old(isProcessing) || files == [] ==> unchanged(this, uploader)
      ensures old(fileData).None? && !old(isProcessing) && files != [] ==> Uploaded(files)
    {
      if fileData.Some? {
        return;
      }
      var cb := uploader.OnDrop(files, isProcessing);
      Deliver(cb);
    }

    /** Files chosen through the uploader's hidden file input. It is opened
        only by a click on the drop zone, which is rendered only while no
        file is selected and does nothing while processing; the input itself
        is disabled while processing. */
    method ChooseFiles(files: seq<File>)
      requires Valid()
      modifies this, uploader
      ensures Valid()
      ensures isProcessing == old(isProcessing) && inFlight == old(inFlight)
      ensures mode == old(mode) && summarize == old(summarize)
      ensures old(fileData).Some? || old(isProcessing) || files == [] ==> unchanged(this, uploader)
      ensures old(fileData).None? && !old(isProcessing) && files != [] ==> Uploaded(files)
    {
      if fileData.Some? || isProcessing {
        return;
      }
      var cb := uploader.OnInputChange(files);
      Deliver(cb);
    }

    /** The remove button, rendered only while a file is selected and not
        disabled while processing: revoke the preview URL, then clear the
        file and the result. */
    method ClearFile()
      requires Valid()
      modifies this, uploader
      ensures Valid()
      ensures old(fileData).None? ==> unchanged(this, uploader)
      ensures old(fileData).Some? ==>
                && fileData == None && result == None
                && uploader.live == {} && old(fileData).value.previewUrl !in uploader.live
                && uploader.error == old(uploader.error) && uploader.issued == old(uploader.issued)
      ensures mode == old(mode) && summarize == old(summarize)
      ensures isProcessing == old(isProcessing) && inFlight == old(inFlight)
    {
      if fileData.None? {
        return;
      }
      var cb := uploader.ClearFile(fileData);
      Deliver(cb);
    }

    /** A mode button: only the mode changes. */
    method SetMode(m: ExtractionMode)
      requires Valid()
      modifies this
      ensures Valid()
      ensures mode == m
      ensures fileData == old(fileData) && summarize == old(summarize)
      ensures isProcessing == old(isProcessing) && result == old(result) && inFlight == old(inFlight)
    {
      mode := m;
    }

    /** The summary switch: only the flag changes, to its negation. */
    method ToggleSummarize()
      requires Valid()
      modifies this
      ensures Valid()
      ensures summarize == !old(summarize)
      ensures fileData == old(fileData) && mode == old(mode)
      ensures isProcessing == old(isProcessing) && result == old(result) && inFlight == old(inFlight)
    {
      summarize := !summarize;
    }

    /** `handleExtract` up to its `await`: with no file nothing happens;
        otherwise processing starts and the result is cleared. The handler
        itself does not look at `isProcessing`. */
    method BeginExtract() returns (call: Option<Call>)
      requires Valid()
      modifies this
      ensures Valid()
      ensures old(fileData).None? ==> call == None && unchanged(this)
      ensures old(fileData).Some? ==>
                && call == Some(Call(old(fileData).value.file, old(mode), old(summarize)))
                && isProcessing && result == None && inFlight == call
      ensures fileData == old(fileData) && mode == old(mode) && summarize == old(summarize)
    {
      if fileData.None? {
        return None;
      }
      isProcessing := true;
      result := None;
      call := Some(Call(fileData.value.file, mode, summarize));
      inFlight := call;
    }

    /** `handleExtract` after its `await` settles: store the returned value,
        or the fixed failure record if the call threw; processing ends on
        both paths. */
    method CompleteExtract(outcome: Settlement)
      requires Valid()
      modifies this
      ensures Valid()
      ensures result == Some(if outcome.Resolved? then outcome.data else ErrorResult(FailureMessage))
      ensures !isProcessing && inFlight == None
      ensures fileData == old(fileData) && mode == old(mode) && summarize == old(summarize)
    {
      match outcome {
        case Resolved(data) => result := Some(data);
        case Rejected => result := Some(ErrorResult(FailureMessage));
      }
      isProcessing := false;
      inFlight := None;
    }

    /** A click on "Start Extraction": it only reaches `handleExtract` when
        the button is enabled. */
    method ClickStart() returns (call: Option<Call>)
      requires Valid()
      modifies this
      ensures Valid()
      ensures !old(StartEnabled()) ==> call == None && unchanged(this)
      ensures old(StartEnabled()) ==>
                && call == Some(Call(old(fileData).value.file, old(mode), old(summarize)))
                && isProcessing && result == None
      ensures fileData == old(fileData) && mode == old(mode) && summarize == old(summarize)
    {
      if !StartEnabled() {
        return None;
      }
      call := BeginExtract();
    }

    /** `handleExtract` run to completion with the extraction client: the
        result is exactly what the client resolved to, and processing has
        ended. */
    method HandleExtract(read: GeminiService.ReadOutcome,
                         generate: GeminiService.Request -> GeminiService.CallOutcome,
                         parse: string -> GeminiService.Parsed)
      requires Valid()
      modifies this
      ensures Valid()
      ensures old(fileData).None? ==> unchanged(this)
      ensures old(fileData).Some? ==>
                && result == Some(GeminiService.ExtractionOutcome(
                     old(fileData).value.file, old(mode), old(summarize), read, generate, parse))
                && !isProcessing
      ensures fileData == old(fileData) && mode == old(mode) && summarize == old(summarize)
    {
      var call := BeginExtract();
      if call.Some? {
        var data := GeminiService.ExtractDocumentData(
          call.value.file, call.value.mode, call.value.summarize, read, generate, parse);
        CompleteExtract(Resolved(data));
      }
    }

    /** What the results column shows: the stored result, rendered with the
        mode selected NOW, which need not be the mode the result was
        requested with. */
    function Shown(): (shown: Option<(ExtractedData, ExtractionMode)>)
      reads this
      ensures shown.Some? <==> result.Some?
      ensures shown.Some? ==> shown.value == (result.value, mode)
    {
      if result.Some? then Some((result.value, mode)) else None
    }
  }

  /** A client of the session: toggling the summary flag twice restores it
      and leaves everything else as it was. */
  method ToggleTwice(s: Session)
    requires s.Valid()
    modifies s
    ensures s.Valid()
    ensures s.summarize == old(s.summarize)
    ensures s.fileData == old(s.fileData) && s.mode == old(s.mode)
    ensures s.isProcessing == old(s.isProcessing) && s.result == old(s.result)
  {
    s.ToggleSummarize();
    s.ToggleSummarize();
  }

  /** A client: while an extraction is in flight the start button does
      nothing, so a second click leaves the state alone. */
  method SecondClickIgnored(s: Session) returns (second: Option<Call>)
    requires s.Valid() && s.fileData.Some? && !s.isProcessing
    modifies s
    ensures s.isProcessing && s.result == None
    ensures second == None
  {
    var first := s.ClickStart();
    second := s.ClickStart();
  }

  /** A client: a result that lands after the mode changed is shown with the
      new mode. */
  method LateResultUsesCurrentMode(s: Session, data: ExtractedData, m: ExtractionMode)
    requires s.Valid() && s.fileData.Some? && !s.isProcessing
    modifies s
    ensures s.Shown() == Some((data, m))
  {
    var call := s.ClickStart();
    s.SetMode(m);
    s.CompleteExtract(Resolved(data));
  }

  /** A client: replacing the selected file means removing it first, which
      revokes its preview URL; the new file's URL is then the only live one. */
  method ReplaceFile(s: Session, files: seq<File>)
    requires s.Valid() && s.fileData.Some? && !s.isProcessing && files != []
    modifies s, s.uploader
    ensures s.Valid()
    ensures old(s.fileData).value.previewUrl !in s.uploader.live
    ensures FileUploader.Validate(files[0]).None? ==>
              s.fileData.Some? && s.fileData.value.file == files[0]
              && s.uploader.live == {s.fileData.value.previewUrl}
    ensures FileUploader.Validate(files[0]).Some? ==> s.fileData == None && s.uploader.live == {}
  {
    s.ClearFile();
    s.DropFiles(files);
  }
}
