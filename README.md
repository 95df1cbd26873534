# Document extractor front end, modelled in Dafny

The system is a browser page around one call to a multimodal AI model. The
user uploads an image and picks an extraction mode: raw text, form key/value
pairs or tables. The user can also ask for a summary. The page sends the image
with a mode-specific prompt and a JSON response schema, then shows the reply,
either formatted or as raw JSON.

This project models the logic around that call:

- `types.dfy` (module `Types`): the extraction modes, the extracted record
  (every field optional), files and preview URLs, and `Option`/`Result`.
- `strings.dfy` (module `Strings`): `startsWith`, substring search, and
  `split` on one character, with its inverse `join`.
- `gemini_service.dfy` (module `GeminiService`): the mode registry (the exact
  prompt text and the response schema for each mode), the two-part request,
  and the service method. The method turns every failure into an
  `{ error }` record.
- `file_uploader.dfy` (module `FileUploader`): type-then-size validation, the
  displayed error, preview-URL minting and revocation, and the drop and input
  handlers. The class `Uploader` holds the component's state. A ghost set
  tracks the live preview URLs.
- `app.dfy` (module `App`): the page session as the class `Session`, with
  fields `fileData`, `mode`, `summarize`, `isProcessing` and `result`. The
  extraction handler is split at its `await` into `BeginExtract` and
  `CompleteExtract`. `HandleExtract` runs both steps around the service.
- `results_viewer.dfy` (module `ResultsViewer`): copy-text selection, the
  mode-dispatched visual view (with its placeholders and header rows), the
  summary callout, and the viewer's tab state.

The model takes a few things as parameters. The remote model call is a
function from the request to "responded with optional text" or "threw". The
file reader is a given outcome: "loaded a data URL" or "failed". `JSON.parse`
and `JSON.stringify` are given functions. The browser's object-URL registry
is a counter of URLs minted so far, with ghost sets of the URLs handed out
and of those still live.

Where the code is looser than one might expect, the model follows the code:

- The reply is not checked against the mode. A forms request whose reply has
  no `forms` field is still a success (`GeminiService.ShapeIsNotValidated`).
- The visual view never shows `error`. An error record shows the mode's
  placeholder (`ResultsViewer.ErrorShowsPlaceholder`).
- `handleExtract` does not check `isProcessing` itself. Only the button's
  disabled rule stops a second start (`App.Session.ClickStart`).
- The results panel renders the stored result with the mode selected now.
  That may not be the mode the request used (`App.LateResultUsesCurrentMode`).

The preview URLs do not leak. The uploader shows its drop zone, which is
also the only way to open the file input, only while no file is selected.
So a new file always follows a removal, and the removal revokes the old URL.
The session invariant `App.Session.Valid` states that the selected file's
URL is the only live one (`App.ReplaceFile`).

## Model

| member | source | states |
|---|---|---|
| `GeminiService.Prompt` | services/geminiService.ts:40-81 | the prompt starts with the mode's fixed instruction; it ends with the mode's summary sentence when a summary is asked for, and is exactly the instruction otherwise |
| `GeminiService.SummaryRequestedIff` | services/geminiService.ts:41-81 | for every mode, the prompt contains the mode's "Also provide a brief summary…" sentence if and only if `summarize` is true |
| `GeminiService.SchemaFor` | services/geminiService.ts:44-101 | each mode's schema is an object whose only required field is `rawText`, `forms` or `tables`, with an optional string `summary`; form items require both `key` and `value`; tables are arrays of arrays of arrays of strings |
| `GeminiService.ResultFieldInjective` | services/geminiService.ts:50-100 | two modes share a required field only if they are the same mode |
| `GeminiService.FileToGenerativePart` | services/geminiService.ts:14-18 | the image part's MIME type is the file's type unchanged; its data is present exactly when the data URL has a comma, and it holds no comma |
| `GeminiService.ImagePartIsPayload` | services/geminiService.ts:12-18 | for a `data:<type>;base64,<payload>` URL without other commas, the image data is exactly the payload |
| `GeminiService.BuildRequest` | services/geminiService.ts:105-118 | the request has the fixed model id, exactly two parts (image first, then the prompt text), response MIME type `application/json`, and the mode's schema |
| `GeminiService.NoFailureEscapes` | services/geminiService.ts:128-133 | the service's outcome is always either an error-only record or a value that the parser returned for a non-empty reply |
| `GeminiService.ReadFailureIsUnknownError` | services/geminiService.ts:22-133 | a failed file read, which rejects with a non-`Error` value, ends in "An unknown error occurred during extraction." |
| `GeminiService.ThrownIsNormalised` | services/geminiService.ts:128-133 | a thrown `Error` becomes `{error: message}`; any other thrown value becomes the fixed unknown-error message |
| `GeminiService.EmptyResponseIsNoResponse` | services/geminiService.ts:120-123 | an absent or empty reply text ends in `{error: "No response generated from AI model."}`, whatever the parser would do |
| `GeminiService.SuccessIsParsedPayload` | services/geminiService.ts:125-126 | on success, the result is exactly the parsed payload |
| `GeminiService.ShapeIsNotValidated` | services/geminiService.ts:125-126 | a forms request whose reply carries only `rawText` succeeds with that reply: no `forms` field and no error |
| `GeminiService.CallResult` | services/geminiService.ts:105-133 | once the call settles: a throw keeps an `Error`'s message or becomes the fixed unknown-error message; an empty reply is the fixed "no response" error; otherwise a parse error becomes its message and a parsed value is returned; so the outcome is always an error-only record or a parser value for a non-empty reply |
| `GeminiService.ExtractionOutcome` | services/geminiService.ts:12-134 | a failed file read ends in the unknown-error message; a loaded file sends the request built from its image part, the mode and the flag, and ends in what that call settles to |
| `GeminiService.TryExtract` | services/geminiService.ts:32-127 | the try block either returns the service's success value or throws a value that the catch clause maps to the service's error record |
| `GeminiService.ExtractDocumentData` | services/geminiService.ts:27-134 | the service method resolves to the outcome described case by case above, and it never throws |
| `Strings.Split` | services/geminiService.ts:14 | `split(',')` returns at least one segment, and no segment contains the separator |
| `Strings.JoinSplit` | services/geminiService.ts:14 | joining the segments with the separator gives back the original string |
| `Strings.SplitJoin` | services/geminiService.ts:14 | splitting a join of separator-free segments gives back the segments |
| `Strings.SecondSegment` | services/geminiService.ts:14 | `[1]` of the split exists exactly when the string has a separator, and it holds no separator |
| `Strings.SecondSegmentOfPair` | services/geminiService.ts:12-14 | for `header,payload` with no other separator, `[1]` is exactly the payload |
| `Types.ErrorResult` | services/geminiService.ts:130-132 | the error record carries the message in `error` and nothing else |
| `FileUploader.Validate` | components/FileUploader.tsx:17-26 | a file is accepted if and only if its type starts with `image/` and its size is at most 10485760 bytes; a non-image gets the type message whatever its size; an oversized image gets the size message |
| `FileUploader.SizeBoundary` | components/FileUploader.tsx:23-26 | an image of exactly 10485760 bytes passes, and one of 10485761 bytes gets "File size too large. Maximum size is 10MB." |
| `FileUploader.TypeCheckedFirst` | components/FileUploader.tsx:19-26 | a non-image oversized file reports the type error, because the type check runs first |
| `FileUploader.PlainTextRejected` | components/FileUploader.tsx:19-22 | a `text/plain` file gets "Please upload an image file (JPG, PNG, WEBP)." |
| `FileUploader.Uploader.constructor` | components/FileUploader.tsx:15 | the uploader starts with no error and no live preview URL |
| `FileUploader.Uploader.CreateObjectUrl` | components/FileUploader.tsx:28 | a minted preview URL was never handed out before (it is not among the URLs issued so far, revoked ones included), and becomes live |
| `FileUploader.Uploader.RevokeObjectUrl` | components/FileUploader.tsx:54 | a revoked URL is no longer live |
| `FileUploader.Uploader.HandleFile` | components/FileUploader.tsx:17-30 | the displayed error afterwards depends only on the file, so the old error is always cleared; a rejected file calls nothing and mints nothing; an accepted file mints exactly one URL never issued before and reports `{file, previewUrl}` |
| `FileUploader.Uploader.OnDrop` | components/FileUploader.tsx:42-50 | a drop while disabled, or with no files, changes nothing and calls nothing; otherwise only the first dropped file is handled |
| `FileUploader.Uploader.OnInputChange` | components/FileUploader.tsx:116 | the input handler handles only the first chosen file, and does nothing when no file was chosen |
| `FileUploader.Uploader.ClearFile` | components/FileUploader.tsx:52-58 | revokes the selected file's URL only when a file is selected, then always reports "no file"; with no selection it revokes nothing |
| `FileUploader.RevokedUrlNotReissued` | components/FileUploader.tsx:28 | a URL minted after another was revoked differs from it |
| `App.Session.constructor` | App.tsx:19-23 | the session starts with no file, mode TEXT, summarize false, not processing, and no result |
| `App.Session.StartEnabled` | App.tsx:187-190 | the start button is enabled if and only if a file is selected and no extraction is running |
| `App.Session.OnFileSelect` | App.tsx:93-96 | selecting a file, or none, replaces `fileData` and clears `result`; nothing else changes |
| `App.Session.DropFiles` | components/FileUploader.tsx:42-83 | a drop with a file selected (no drop zone is rendered), while processing, or with no files changes nothing; otherwise the first file's verdict is shown, and an accepted file becomes the selection with a never-issued URL that is then the only live one, the result being cleared, while a rejected file leaves selection and result alone; the session invariant keeps the selected file's URL the only live one |
| `App.Session.ChooseFiles` | components/FileUploader.tsx:62-67 | the file input acts as a drop does; it delivers nothing with a file selected, because only the drop zone opens it, and nothing while processing, because the zone's click and the input are disabled then |
| `App.Session.ClearFile` | components/FileUploader.tsx:52-58 | with no file selected nothing happens (the remove button is not rendered); otherwise the selected preview URL is revoked, no URL remains live, and no file and no result remain |
| `App.Session.SetMode` | App.tsx:118-153 | a mode button changes the mode only |
| `App.Session.ToggleSummarize` | App.tsx:169-170 | the summary switch negates the flag and changes nothing else |
| `App.Session.BeginExtract` | App.tsx:25-29 | with no file nothing changes; otherwise `isProcessing` becomes true and `result` is cleared before the call, which captures the current file, mode and flag |
| `App.Session.CompleteExtract` | App.tsx:31-39 | `result` becomes the returned value, or `{error: "Failed to process document. See console for details."}` if the call threw; `isProcessing` becomes false on both paths |
| `App.Session.ClickStart` | App.tsx:187-190 | a click on the disabled button changes nothing; an enabled click starts the extraction |
| `App.Session.HandleExtract` | App.tsx:25-40 | with a file, the stored result is exactly the service's outcome for the file, mode and flag at the start, and processing has ended |
| `App.Session.Shown` | App.tsx:212-218 | the results column shows the stored result with the current mode, and shows nothing when there is no result |
| `App.ToggleTwice` | App.tsx:170 | toggling summarize twice restores the flag |
| `App.SecondClickIgnored` | App.tsx:187-190 | a second start click while the first extraction is in flight is ignored |
| `App.ReplaceFile` | components/FileUploader.tsx:52-102 | replacing a file means removing it first: the old preview URL is no longer live, and an accepted new file's URL is the only live one |
| `App.LateResultUsesCurrentMode` | App.tsx:216-218 | a result that arrives after a mode change is shown with the new mode |
| `ResultsViewer.TextOrPlaceholder` | components/ResultsViewer.tsx:29 | the text block shows `rawText`, or "No text extracted." when it is absent or empty |
| `ResultsViewer.RenderTable` | components/ResultsViewer.tsx:62-76 | a table's grid keeps every row in order with its cells; row 0 has header style and every other row has data style |
| `ResultsViewer.RenderVisual` | components/ResultsViewer.tsx:25-88 | text mode shows the text block; forms mode shows the fields in order, or "No form fields detected."; tables mode shows one grid per table in order, or "No tables detected." |
| `ResultsViewer.VisualIgnoresError` | components/ResultsViewer.tsx:25-88 | the visual view is the same whatever the `error` field holds |
| `ResultsViewer.ErrorShowsPlaceholder` | components/ResultsViewer.tsx:25-88 | an error-only record shows the mode's placeholder |
| `ResultsViewer.CellsShownInPlace` | components/ResultsViewer.tsx:56-83 | every cell appears at its own table, row and column, and only row 0 is a header |
| `ResultsViewer.SummaryCallout` | components/ResultsViewer.tsx:128-138 | the callout appears if and only if `summary` is present and non-empty, and it shows that summary |
| `ResultsViewer.Render` | components/ResultsViewer.tsx:126-147 | the panel shows the summary callout, then the mode's visual view on the visual tab or the serialised record on the JSON tab |
| `ResultsViewer.CalloutIndependentOfView` | components/ResultsViewer.tsx:126-147 | the callout is the same for every tab and every mode |
| `ResultsViewer.CopyText` | components/ResultsViewer.tsx:15-18 | copy gives the serialised record on the JSON tab, `rawText` (or `''`) on the visual tab in text mode, and the serialised record on the visual tab in the other modes |
| `ResultsViewer.CopyMatchesShown` | components/ResultsViewer.tsx:16-29 | the copy is what the JSON tab shows, or the text shown in text mode; when the text-mode placeholder is shown, the copy is the empty string |
| `ResultsViewer.Viewer.constructor` | components/ResultsViewer.tsx:12-13 | the visual tab is active at first, and nothing is marked as copied |
| `ResultsViewer.Viewer.SelectTab` | components/ResultsViewer.tsx:95-113 | a tab button changes only the active tab |
| `ResultsViewer.Viewer.Copy` | components/ResultsViewer.tsx:15-22 | the clipboard receives the copy text for the active tab, and the copied indicator is set; on the JSON tab it is the text the panel shows, and on the visual tab in text mode it is the text block shown, or empty when the placeholder is shown |

## Left out

- The remote call itself (`ai.models.generateContent`), the client
  construction and the API key: a library call over the network. It is a
  function parameter from the request to an outcome.
- The generation temperature (`0.1`, a float) is not part of the modelled
  request.
- `FileReader.readAsDataURL`, `URL.createObjectURL`/`revokeObjectURL` and
  `navigator.clipboard`: browser I/O. The reader is a given outcome. The URL
  registry is a counter plus ghost sets of issued and live URLs. The clipboard write is
  the copy method's return value.
- `JSON.parse` and `JSON.stringify`: foreign. They are function parameters.
  The parser's result type is the extracted record itself, so a reply that
  parses to a non-object value (`null`, a number) is not modelled.
- The reader's own callback plumbing (`resolve`/`reject` of the promise),
  `console.error`, and the `finally` as a language construct. The model has
  no exceptions: the service's try block returns a `Result`, and the App's
  catch is the `Rejected` settlement. That path is unreachable from the
  modelled service, because the service never throws.
- Asynchrony. The two halves at the `await` are separate methods, and nothing
  is modelled as concurrent. Client methods show a late result landing after
  a mode change. The model does not cover a second `handleExtract` call
  overlapping the first, which the button prevents.
- The `setTimeout` that clears `copied`, drag-hover state (`isDragging`),
  clearing the input element's value, the file-size display (`toFixed(2)`,
  float formatting), icons, styling and navigation chrome.
- Conditional rendering is modelled by explicit checks. The drop zone, with
  its drop handler and the click that opens the file input, exists only
  while no file is selected. The remove button exists only while one is
  selected. The browser blocks a disabled file input. `App.Session.DropFiles`,
  `App.Session.ChooseFiles` and `App.Session.ClearFile` test `fileData` and
  `isProcessing` for these.
- Mounting and unmounting of the viewer: the App renders the viewer only
  while a result exists. The viewer's tab state is modelled on its own.
- `components/Button.tsx` beyond its disabled rule (`isLoading || disabled`),
  which is `App.ButtonDisabled`.
- The unused `ProcessingState` type in `types.ts`.
- Behaviour the code does not have is not modelled: shape validation of the
  reply, prominent rendering of `error`, and cancelling or discarding a stale
  in-flight result.
