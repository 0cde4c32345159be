# Upload wizard and page-processing stream of the bid-subs front end

This project is a Dafny model of two parts of the bid-subs web client, with
proofs about them.

- **The page-processing stream** of `ApiService.processPageWithProgress`.
  The client POSTs a page-processing request and reads the response body as
  text chunks. It buffers them, cuts the text into frames at every blank line
  (`"\n\n"`), and recognises in each frame an `event: <word>` header line and
  a `data: <payload>` line. It then dispatches on the event type:
  - `progress` calls `onProgress`;
  - `result` resolves the returned promise;
  - `error` calls `onError` and rejects the promise;
  - `done` and unknown types do nothing.

  A payload that is not JSON, a failed `fetch`, a non-OK status, a missing
  body or a failed read all go to the `.catch` handler. It calls `onError`,
  rejects the promise and stops the loop.
- **The error messages** thrown by `uploadPDF` and `processPage` for a
  non-OK response.
- **The upload wizard** `ProjectUploadModalTwo`, in three steps:
  1. Files and a trade are chosen, and the first PDF is uploaded.
  2. A page is chosen and processed over the stream.
  3. The result is shown, and another page can be processed without changing
     step.

  The wizard also covers going back, jumping to an earlier step, and the
  reset when the modal closes.

## Modules

- `SseFrames` (`sse_frames.dfy`) covers the framing, as pure functions:
  - `SplitOnDelim` is JavaScript's `split("\n\n")`;
  - `Cut` is `split` followed by `pop`;
  - `MatchEvent` is the regex `^event: (\w+)\n`;
  - `MatchData` is the regex `data: (.+)$` in multiline mode;
  - `ParseFrame` decides the whole recognition of a frame.

  The lemmas prove that joining the pieces of a split gives the text back,
  that splitting gives back any pieces of the shape a split has (no
  delimiter inside, and no line feed ending a piece before the last), and
  that splitting is compatible with appending text.
- `ApiService` (`api_service.dfy`) holds the request type, the error-message
  choice, and the stream itself.
  - Each stream step is a pure function: connect, feed a chunk, end of stream
    and read failure.
  - The class `ProcessStream` holds the loop's mutable `buffer`, the promise
    and the callback logs.
  - Its methods are proved equal to those step functions. `FeedChunk` is the
    read loop's body with its inner `for` loop over frames.
  - The ghost invariant `Valid` says the buffer is always the unterminated
    tail of everything read.
- `StreamProperties` (`stream_properties.dfy`) holds the stream's properties.
  - Chunk boundaries do not matter.
  - The first settlement wins.
  - When no frame throws (every payload parses and every `error` payload's `data.error` can be read),
    the reports are those of the frames of the concatenated text, in order.
  - A frame that throws (a payload that does not parse, or an `error`
    payload whose `data.error` cannot be read) aborts the loop.
  - End of stream drops the residual buffer and leaves a promise with no
    terminal frame pending.
  - A failed start never reports progress.
- `UploadWizard` (`upload_wizard.dfy`) holds the wizard.
  - Its state hooks are grouped into one `WizardState` record, held by the
    class `Wizard`.
  - Each `async` handler is split at its `await`:
    - a `Begin…` method runs the guards and the synchronous updates, and
      returns the job it awaits (upload, processing stream or page
      extraction);
    - a `Complete…` method runs the continuation with the job's outcome.
  - Ghost tickets record the outstanding jobs and the session (the count of
    closes) each began in. The lemmas `IssueTicket`, `RetireTicket` and
    `NewSession` are proof helpers for that bookkeeping and model no code.
  - Page extraction (`extractPDFPages`) is a method with the source's loop.
    The page renderer is a parameter.
- `WizardProperties` (`wizard_properties.dfy`) holds properties of the wizard:
  - the trade table;
  - the filter;
  - case-insensitivity of the PDF check;
  - how the Next button's enablement relates to what `handleNext` does;
  - three scenarios, two of which close the modal while a job is running.

Three behaviours of the code are worth noting:

- A completion that outlives a close is not a no-op. `setUploadedFileId`,
  `setCurrentStep` and `setProcessingResults` still run and write into the
  fresh session. A stale upload moves a reset wizard to step 2
  (`StaleUploadAfterClose`). A stale processing run moves it to step 3 with no
  file id, which breaks "file id set at step 2 and later"
  (`StaleProcessingAfterClose`). The ghost flag `tainted` records this.
  `CompleteNextProcessing` proves that a completion begun in the current
  session keeps the invariant.
- A payload that fails `JSON.parse` is not skipped. The exception leaves the
  read loop, calls `onError` and rejects the promise (`ThrowAborts`). The same
  happens to an `error` frame whose payload is JSON `null`: reading
  `data.error` throws a TypeError, and no later frame is dispatched.
- The file id is set at step 2 and later, but not only then. Going back to
  step 1 keeps it, and only the selected page is cleared (`Back`).

## Model

| member | source | states |
|---|---|---|
| `SseFrames.FirstDelim` | src/services/api.service.ts:151 | the position found is a blank-line delimiter with none before it; none is found exactly when the text has no delimiter |
| `SseFrames.SplitOnDelim` | src/services/api.service.ts:151 | `split("\n\n")` always yields at least one piece |
| `SseFrames.SplitJoin` | src/services/api.service.ts:151 | joining the pieces of a split with `"\n\n"` gives back the original text |
| `SseFrames.SplitPiecesDelimFree` | src/services/api.service.ts:151 | no piece of a split contains the delimiter |
| `SseFrames.SplitIsShaped` | src/services/api.service.ts:151 | a split has at least one piece, no piece holds `"\n\n"`, and no piece before the last ends in a line feed (the leftmost scan) |
| `SseFrames.JoinSplit` | src/services/api.service.ts:151 | splitting the join of pieces of that shape gives back the pieces, so the split of a text is the only such sequence joining back to it |
| `SseFrames.Cut` | src/services/api.service.ts:151-152 | the kept tail has no delimiter; with no frames the tail is the whole text; otherwise frames, delimiters and tail rejoin to the text; frames plus tail are the split |
| `SseFrames.SplitAppend` | src/services/api.service.ts:150-152 | appending text only re-splits the last piece: `split(s + c)` is all pieces of `s` but the last, followed by `split(last + c)` |
| `SseFrames.WordRun` | src/services/api.service.ts:157 | the `\w+` run is maximal: every character in it is a word character and the next one is not |
| `SseFrames.LineEnd` | src/services/api.service.ts:158 | `.+` stops at the first line terminator (`\n`, `\r`, U+2028, U+2029) or at the end |
| `SseFrames.IsBlank` | src/services/api.service.ts:155 | `!line.trim()`: every character is JavaScript whitespace (pinned down with `BlankHasNoEvent` and `ParseFrameMeaning`) |
| `SseFrames.MatchEvent` | src/services/api.service.ts:157 | `/^event: (\w+)\n/` (its meaning is `MatchEventMeaning`) |
| `SseFrames.MatchData` | src/services/api.service.ts:158 | `/data: (.+)$/m` (its meaning is `MatchDataMeaning`) |
| `SseFrames.MatchEventMeaning` | src/services/api.service.ts:157 | a match exists exactly when the frame starts with `event: `, one or more word characters and a newline; the captured type is that whole word run |
| `SseFrames.MatchDataMeaning` | src/services/api.service.ts:158 | a match exists exactly when some `data: ` is followed by a non-terminator; the capture is the rest of the line after the leftmost such occurrence |
| `SseFrames.BlankHasNoEvent` | src/services/api.service.ts:155 | a frame that trims to empty has no event header, so the `trim` skip agrees with the regex |
| `SseFrames.ParseFrame` | src/services/api.service.ts:155-161 | the recognition of one frame (its meaning is `ParseFrameMeaning`) |
| `SseFrames.ParseFrameMeaning` | src/services/api.service.ts:155-162 | blank frames are skipped; a frame is dispatched exactly when it has both an event header and a data line; the type is the header's word and the payload is non-empty and runs from the leftmost `data: ` that is followed by a character of its line to the end of that line |
| `ApiService.UploadErrorMessage` | src/services/api.service.ts:84-86 | a non-JSON body gives 'Upload failed', a non-empty `detail` is used as is, and a missing or empty one gives 'Failed to upload PDF'; the message is never empty |
| `ApiService.ProcessPageErrorMessage` | src/services/api.service.ts:104-106 | a non-JSON body gives 'Processing failed', a non-empty `detail` is used as is, and a missing or empty one gives 'Failed to process page'; the message is never empty |
| `ApiService.ThrownDetail` | src/services/api.service.ts:84-86 | the body's `detail`, the substitute for a body that is not JSON, or the generic message when the detail is falsy (pinned down by the two error-message contracts) |
| `ApiService.Settle` | src/services/api.service.ts:166-170 | one-shot `resolve`/`reject` (associative by `Settle3`; later settlements ignored by `DispatchKeepsSettlement`) |
| `ApiService.Abort` | src/services/api.service.ts:178-181 | the `.catch` handler (its effect is stated by `ThrowAborts` and `FailedStartNeverProgresses`) |
| `ApiService.DispatchFrame` | src/services/api.service.ts:155-173 | one pass of the frame loop (the method `ProcessStream.Dispatch` is proved equal to it; `DispatchFrameReports` states its effect) |
| `ApiService.DispatchAll` | src/services/api.service.ts:154-175 | the frame loop of one chunk (`DispatchReports`, `ThrowAborts` and `DispatchAllSplit` state its effect) |
| `ApiService.ConnectStep` | src/services/api.service.ts:129-139 | the response checks (the method `ProcessStream.Connect` is proved equal to it; `FailedStartNeverProgresses` states its failures) |
| `ApiService.FeedStep` | src/services/api.service.ts:143-176 | one pass of the read loop (the method `ProcessStream.FeedChunk` is proved equal to it; `FeedTwice` and `ChunkingInvariance` state its properties) |
| `ApiService.EndStep` | src/services/api.service.ts:144-148 | `done` leaves the loop (`EndOfStreamDropsBuffer` states its effect) |
| `ApiService.ReadFailStep` | src/services/api.service.ts:178-181 | a rejected read reaches `.catch` (`SettledStaysSettled` states that it keeps a settlement) |
| `ApiService.ProcessStream.constructor` | src/services/api.service.ts:120-141 | a call starts connecting, with an empty buffer, a pending promise and no callbacks made |
| `ApiService.ProcessStream.Connect` | src/services/api.service.ts:129-139 | a failed fetch, a non-OK status ('Failed to start processing') or a missing body ('No response body') calls `onError` and rejects with that message; otherwise reading starts |
| `ApiService.ProcessStream.Fail` | src/services/api.service.ts:178-181 | `.catch` appends the message to the `onError` calls, rejects unless already settled, and stops the loop |
| `ApiService.ProcessStream.FeedChunk` | src/services/api.service.ts:143-176 | one pass of the read loop equals `FeedStep`: the buffer becomes the split's last piece and the complete frames are dispatched in order until one throws; the buffer stays the unterminated tail of all text read |
| `ApiService.ProcessStream.Dispatch` | src/services/api.service.ts:154-174 | one frame: skipped without a match; a payload that does not parse aborts; `progress` calls `onProgress`, `result` resolves, `error` calls `onError` and rejects (first settlement wins) unless reading `data.error` throws, which aborts; `done` or any other type does nothing |
| `ApiService.ProcessStream.EndOfStream` | src/services/api.service.ts:144-148 | `done` leaves the loop without touching the buffer, the promise or the callbacks |
| `ApiService.ProcessStream.ReadFailure` | src/services/api.service.ts:178-181 | a rejected read goes to `.catch` |
| `ApiService.SplitExtend` | src/services/api.service.ts:150-152 | after reading a chunk, the frames split off so far plus the new buffer are the split of everything read |
| `ApiService.DispatchAllAppend` | src/services/api.service.ts:154-175 | dispatching two runs of frames one after the other is dispatching their concatenation |
| `ApiService.DispatchAllInert` | src/services/api.service.ts:143-181 | once the loop has been left, no frame has any effect |
| `ApiService.DispatchAllSplit` | src/services/api.service.ts:154-175 | leaving the frame loop at the first frame that throws is the same as dispatching every frame |
| `StreamProperties.CutDelimFree` | src/services/api.service.ts:151-152 | text without a delimiter yields no frames and is kept whole |
| `StreamProperties.FeedAll` | src/services/api.service.ts:141-176 | the `while (true)` read loop over the chunks (`ChunkingInvariance`, `StreamReports` and `FeedAllInert` state its properties) |
| `StreamProperties.CutTwice` | src/services/api.service.ts:150-152 | cutting `x`, then cutting its tail plus `c`, gives the same frames and tail as cutting `x + c` |
| `StreamProperties.FramingInvariance` | src/services/api.service.ts:141-153 | the frames and buffer after any sequence of chunks are those of the split of their concatenation |
| `StreamProperties.ReassembleUnfold` | src/services/api.service.ts:150-152 | the frames after one more chunk are the earlier frames plus those cut from the old tail and the new chunk |
| `StreamProperties.OneChunkSuffices` | src/services/api.service.ts:141-153 | any chunking of a text frames it as the single chunk holding all of it |
| `StreamProperties.FeedStepCongruent` | src/services/api.service.ts:143-176 | two decoders with the same buffer and observations stay alike after the same chunk |
| `StreamProperties.FeedTwice` | src/services/api.service.ts:143-176 | feeding `x` then `c` behaves as feeding `x + c` |
| `StreamProperties.ChunkingInvariance` | src/services/api.service.ts:141-176 | where the chunk boundaries fall does not change the callbacks, the settlement and, while the loop is still reading, the buffer |
| `StreamProperties.DispatchKeepsSettlement` | src/services/api.service.ts:164-173 | after the promise settles, no frame changes the settlement |
| `StreamProperties.SettledStaysSettled` | src/services/api.service.ts:143-181 | after the promise settles, no chunk, end of stream or read failure changes it |
| `StreamProperties.FirstSettlementIsFirst` | src/services/api.service.ts:166-170 | the stream stays pending exactly when no frame settles; otherwise it settles as the first frame that settles |
| `StreamProperties.Settle3` | src/services/api.service.ts:166-170 | first-settlement-wins is associative |
| `StreamProperties.ProgressSnoc` | src/services/api.service.ts:164-165 | the progress reports of `frames + [f]` are those of `frames` then those of `f` |
| `StreamProperties.ErrorSnoc` | src/services/api.service.ts:168-170 | the error reports of `frames + [f]` are those of `frames` then those of `f` |
| `StreamProperties.SettlementSnoc` | src/services/api.service.ts:166-170 | one more frame settles the stream only if nothing earlier did |
| `StreamProperties.DispatchFrameReports` | src/services/api.service.ts:157-174 | a frame that does not throw (its payload parses and, for an `error` frame, its `data.error` can be read) adds its own progress and error reports and may settle a pending promise |
| `StreamProperties.DispatchReports` | src/services/api.service.ts:154-175 | when no frame throws (every payload parses and every `error` payload's `data.error` can be read), the frame loop keeps reading, settles as the first settling frame, and appends every frame's progress and error reports in order |
| `StreamProperties.DispatchReportsStep` | src/services/api.service.ts:154-175 | one more frame that does not throw (its payload parses and, for an `error` frame, its `data.error` can be read) extends the settlement and both report logs exactly by that frame's contribution |
| `StreamProperties.ThrowOf` | src/services/api.service.ts:160-170 | a frame throws exactly when it has an event and its payload fails `JSON.parse`, or it is an `error` event whose `data.error` cannot be read; the other three report functions give such a frame no report (pinned down by `ThrowAborts` and `DispatchFrameReports`) |
| `StreamProperties.ThrowAborts` | src/services/api.service.ts:160-181 | after frames that do not throw, a frame that throws goes to `.catch` with its message: `onError` gets it, the promise rejects unless settled, the loop is left, and no later frame is dispatched, so `onProgress` is not called again |
| `StreamProperties.StreamReports` | src/services/api.service.ts:141-176 | from a successful response, whatever the chunking, the callbacks and settlement are those of the frames of the concatenated text, provided no frame throws (every payload parses and every `error` payload's `data.error` can be read); the unterminated tail reports nothing |
| `StreamProperties.FeedAllInert` | src/services/api.service.ts:143-181 | a loop that has stopped takes no more chunks |
| `StreamProperties.EndOfStreamDropsBuffer` | src/services/api.service.ts:144-148 | at `done` the residual buffer is dropped unparsed and nothing is reported, so a promise without a terminal frame stays pending whatever comes after |
| `StreamProperties.FailedStartNeverProgresses` | src/services/api.service.ts:129-181 | a failed start calls `onError` once and rejects with the thrown message, and never calls `onProgress` |
| `UploadWizard.FirstPdf` | src/common/Model/UploadFileTwo.tsx:140-142 | `find` returns the first file whose MIME type is `application/pdf` or whose lower-cased name ends in `.pdf`, or none when no file qualifies |
| `UploadWizard.IsPdf` | src/common/Model/UploadFileTwo.tsx:140-142 | the MIME type is `application/pdf` or the lower-cased name ends in `.pdf`; the same test marks PDFs in the file list at :602 (`ExtensionIgnoresCase`, `FirstPdf`) |
| `UploadWizard.CaughtMessage` | src/common/Model/UploadFileTwo.tsx:204 | `err instanceof Error ? err.message : fallback`, as at :258 and :331 (stated by `CompleteUpload`, `CompleteNextProcessing` and `CompleteReselect`) |
| `UploadWizard.ModelTypeFor` | src/common/Model/UploadFileTwo.tsx:217-223 | the `modelTypeMap` lookup, repeated at :291-297 (`ModelTypeCoversTrades`, `ModelTokensDistinct`) |
| `UploadWizard.NextButtonEnabled` | src/common/Model/UploadFileTwo.tsx:267-274 | `isNextButtonEnabled` (its truth table is stated by `StepOneEnabledIffGuard`, `StepTwoGuardEnables`, `EnabledWithoutAdvance` and `ResultsStepDisabled`) |
| `UploadWizard.WithStep` | src/common/Model/UploadFileTwo.tsx:398-403 | setting the step; reaching step 1 clears the selected page and nothing else, any other step keeps it |
| `UploadWizard.Includes` | src/common/Model/UploadFileTwo.tsx:346 | `includes` holds exactly when the query occurs at some position of the name |
| `UploadWizard.FilterTrades` | src/common/Model/UploadFileTwo.tsx:345-347 | a trade is listed exactly when it is offered and its lower-cased name contains the lower-cased query |
| `UploadWizard.ExtractPages` | src/common/Model/UploadFileTwo.tsx:75-126 | a load failure or any page that throws gives []; otherwise the pages come in increasing page order, each carries its own rendered image, and every page that renders is present (pages without a canvas context are skipped) |
| `UploadWizard.Wizard.constructor` | src/common/Model/UploadFileTwo.tsx:53-71 | the state hooks start at step 1, with everything empty, null or false |
| `UploadWizard.Wizard.BeginFileIntake` | src/common/Model/UploadFileTwo.tsx:128-181 | new files are appended; the first PDF among them is sent to extraction, and with none the pages are emptied at once |
| `UploadWizard.Wizard.CompleteFileIntake` | src/common/Model/UploadFileTwo.tsx:145-147 | the extracted pages replace the page list and nothing else changes |
| `UploadWizard.Wizard.TradeSelect` | src/common/Model/UploadFileTwo.tsx:338-343 | sets the trade id and name, clears the search, and changes nothing else |
| `UploadWizard.Wizard.SetSearchQuery` | src/common/Model/UploadFileTwo.tsx:514 | only the search query changes |
| `UploadWizard.Wizard.SelectPage` | src/common/Model/UploadFileTwo.tsx:702 | only the selected page changes |
| `UploadWizard.Wizard.BeginNext` | src/common/Model/UploadFileTwo.tsx:183-265 | the error is cleared. On step 1 with a trade and files, the first PDF is uploaded, or 'Please upload a PDF file' is shown with uploading off. On step 2 with a truthy page and file id, the page is processed with the trade's model type, or 'Invalid model type selected' is shown with processing off. Otherwise nothing else happens |
| `UploadWizard.Wizard.StartUpload` | src/common/Model/UploadFileTwo.tsx:188-200 | the upload branch: uploading is on and the first PDF is the job, or the error is set and uploading is off |
| `UploadWizard.Wizard.StartProcessing` | src/common/Model/UploadFileTwo.tsx:212-252 | the processing branch: processing is on and the request carries the file id, the page, the mapped model type and no raw detections, or the error is set and processing is off |
| `UploadWizard.Wizard.CompleteUpload` | src/common/Model/UploadFileTwo.tsx:200-208 | success stores the file id and moves to step 2; a throw shows its message or 'Failed to upload file'; uploading is off either way; the step invariant is kept |
| `UploadWizard.Wizard.ReceiveProgress` | src/common/Model/UploadFileTwo.tsx:239-246 | only the shown progress changes |
| `UploadWizard.Wizard.ReceiveStreamError` | src/common/Model/UploadFileTwo.tsx:247-251 | only the shown error changes |
| `UploadWizard.Wizard.CompleteNextProcessing` | src/common/Model/UploadFileTwo.tsx:254-262 | success stores the result, clears progress and moves to step 3; a throw shows its message or 'Failed to process page'; processing is off; a completion from the current session keeps the step invariant |
| `UploadWizard.Wizard.BeginReselect` | src/common/Model/UploadFileTwo.tsx:282-312 | without a truthy file id nothing happens. Otherwise the clicked page is selected, the error cleared and the page processed, or 'Invalid model type selected' is shown |
| `UploadWizard.Wizard.CompleteReselect` | src/common/Model/UploadFileTwo.tsx:328-335 | success replaces the result and clears progress without changing the step; a throw shows its message or 'Failed to process page'; processing is off |
| `UploadWizard.Wizard.Back` | src/common/Model/UploadFileTwo.tsx:276-280 | step 3 goes to 2, and step 2 goes to 1 and clears the selected page only; the file id and the pages are kept; step 1 is unchanged |
| `UploadWizard.Wizard.JumpToStep` | src/common/Model/UploadFileTwo.tsx:439 | only a strictly earlier step is taken; reaching step 1 clears the selected page |
| `UploadWizard.Wizard.Close` | src/common/Model/UploadFileTwo.tsx:376-391 | everything is reset except the progress and the two busy flags; no job is cancelled; a new session begins |
| `WizardProperties.ModelTypeCoversTrades` | src/common/Model/UploadFileTwo.tsx:217-223 | a trade id has a model type exactly when it is one of the offered trades |
| `WizardProperties.ModelTokensDistinct` | src/common/Model/UploadFileTwo.tsx:217-223 | different offered trades send different `model_type` tokens |
| `WizardProperties.FilterEmptyQuery` | src/common/Model/UploadFileTwo.tsx:345-347 | an empty query keeps every option |
| `WizardProperties.EmptyQueryShowsAll` | src/common/Model/UploadFileTwo.tsx:345-347 | with an empty search every trade is listed, in order |
| `WizardProperties.FilterKeepsOrder` | src/common/Model/UploadFileTwo.tsx:345-347 | the filtered options are a subsequence of the options |
| `WizardProperties.FilteredTradesInOrder` | src/common/Model/UploadFileTwo.tsx:345-347 | the dropdown lists matching trades in their offered order |
| `WizardProperties.ToLowerAppend` | src/common/Model/UploadFileTwo.tsx:141 | lower-casing distributes over concatenation |
| `WizardProperties.ExtensionIgnoresCase` | src/common/Model/UploadFileTwo.tsx:140-142 | a name ending in any casing of `.pdf` counts as a PDF, whatever its MIME type |
| `WizardProperties.StepOneEnabledIffGuard` | src/common/Model/UploadFileTwo.tsx:267-269 | on step 1 the Next button is enabled exactly when `handleNext` would act and no upload is running |
| `WizardProperties.StepTwoGuardEnables` | src/common/Model/UploadFileTwo.tsx:270-271 | on step 2, when `handleNext` would act, the button is enabled exactly when no processing is running |
| `WizardProperties.EnabledWithoutAdvance` | src/common/Model/UploadFileTwo.tsx:212 | on step 2 the button can be enabled while `handleNext` does nothing: page number 0, or a missing or empty file id |
| `WizardProperties.ResultsStepDisabled` | src/common/Model/UploadFileTwo.tsx:267-274 | on step 3 the button is never enabled |
| `WizardProperties.UploadThenSelectPage` | src/common/Model/UploadFileTwo.tsx:183-208 | a PDF, a trade and Next give exactly one upload, then step 2 with the returned file id and no error |
| `WizardProperties.StaleUploadAfterClose` | src/common/Model/UploadFileTwo.tsx:200-202 | an upload that completes after a close moves the reset wizard to step 2 with the old file id and no files |
| `WizardProperties.StaleProcessingAfterClose` | src/common/Model/UploadFileTwo.tsx:254-256 | a processing run that completes after a close moves the reset wizard to step 3 with a result but no file id |

## Left out

- Byte decoding is left out: `TextDecoder` with `stream: true` is not modelled. Chunks are already text, so a multi-byte character split across reads is not represented.
- JSON is not interpreted. `JSON.parse` and reading `data.error` are an uninterpreted oracle (`JsonOracle`). Reading `data.error` gives a string or throws a TypeError (a `null` payload); a missing field, which JavaScript would pass to `onError` as `undefined`, is taken to read as some string.
- `onProgress` and `onError` are taken to be given and not to throw.
- HTTP is left out: `fetch`, `FormData`, headers, URLs and the upload response body. A connection outcome and the chunks read are inputs.
- `uploadPDF` and `processPage` are modelled only for the message they throw on a non-OK response. A `detail` that is not a string, or a JSON `null` body, is not represented.
- `getFileInfo`, `deleteFile`, `getModels` and `healthCheck` are not part of the core and are not modelled.
- PDF.js is left out: loading, `getPage`, viewport scaling, canvas sizing and `toDataURL`. A document is its page count and a per-page render outcome; `loadPdfJs` and `getDocument` failures are a missing document.
- The `isLoadingPdf` flag, the `alert` and the console logging are left out.
- UI behaviour is left out: the visibility and animation flags, their timers, the dropdown's open flag and its click-outside listener, scrolling, and rendering.
- The modal's close handler (`onClose`) belongs to the parent and is modelled only by the reset it triggers.
- Numbers: the result's timing and confidence fields are not modelled, and progress percent, page numbers and file sizes are integers.
- Lower-casing covers ASCII letters only (`toLowerCase` also maps other scripts).
- Only the five own keys of `modelTypeMap` are looked up. Keys inherited from `Object.prototype` are not.
- A null `FileList` in the file handlers is not represented. The handlers always receive a list, possibly empty.
- Concurrency is modelled as interleaving. A `Begin…` call, then later the matching `Complete…` call, stands for one handler. React's batching of state updates within one handler, and stale closures over state within a render, are not represented.
- UploadWizard.Wizard.BeginNext: one processing stream at a time is enforced only by the disabled button. The model does not forbid a second `Begin…` while a job is outstanding, and neither does the code.
- UploadWizard.Wizard.CompleteNextProcessing: the step invariant is promised only for completions begun in the current session. A completion begun before a close can break it, as `StaleProcessingAfterClose` shows.
- The stream's callbacks in the wizard are separate methods (`ReceiveProgress`, `ReceiveStreamError`). The wizard model does not itself run `ProcessStream`; the outcome of a processing job is an input.
