# Open-HDR-Merger staging-and-merge controller in Dafny

The page lets a user stage 3 to 7 exposures by file picker or drag-and-drop,
remove staged images from their thumbnails, and merge them into one HDR image.
The merge runs in a Python routine inside an in-browser Python runtime, and the
result is offered as a download. The page's own logic is the controller in
`app.js`. It holds the working set of staged images and the busy flag
`isProcessing`. It also decides whether the merge button is disabled and
whether the download link, the new-batch button and the spinner are visible.
This project models that controller as pure transitions on an immutable state
record, one per event handler, and proves the controller's rules about them.

Modules:

- `Files` (files.dfy): staged files (`name`, binary `contents`), the buffers
  handed to the merge routine, and `Option`.
- `Reading` (reading.dfy): `ReadAll`, which gathers the concurrent binary reads
  into staging order whatever order they complete in (`Promise.all` over
  `map`). It also has how the combined read settles when a read fails, as
  written and as corrected (see Findings).
- `Engine` (engine.dfy): the runtime's lifecycle. It has three stages: null
  handle, handle without the merge routine, and ready. It has the as-written
  and the corrected initialisation (see Findings).
- `Controller` (controller.dfy): the state record, the event handlers
  `Intake` / `HandleFiles`, `RemoveAt`, `StartNewBatch`, `Request` (the start of
  `processMerge`) and `Finish` (its success or catch branch, then its finally
  block), plus `Settle` (how the attempt continues once its reads settle),
  `Step`, `Run`, the as-written `RequestAsWritten`, `FinishAsWritten`, `StepAsWritten`,
  `RunAsWritten`, and the invariants `UiConsistent` and `Consistent`.
- `ControllerFacts` (controller_facts.dfy): lemmas about guards, frames, the
  attempt lifecycle and reachable states.
- `Thumbnails` (thumbnails.dfy): the delete controls of the thumbnail pass,
  which indices they carry and whether they listen (see Findings).

The engine's result is nondeterministic. It is an input to `Finish`: either
`Merged(bytes)` or `Threw`. How an initialisation ends is also an input: the
runtime fails to load, a later setup step fails, or every step succeeds.

The model follows `app.js` as written; in particular:

- Intake replaces the working set. It does not append to it.
- A successful merge does not disable the merge button.
- A failed merge does not reset the runtime.
- There is no timeout.

Three defects of `app.js` are modelled both as written and as corrected (see
Findings). The controller's main transition system (`Step`, `Run`) uses the
corrected behaviour. `StepAsWritten` and `RunAsWritten` use the page's own
initialisation and its finish (`FinishAsWritten`), and the flag relations are
proved for both.

The page's markup is not part of this model. `Controller.Initial` assumes the
markup starts with the merge button disabled and the new-batch button hidden.
`app.js:1-6` itself hides the spinner and the download link.

## Model

| member | source | states |
|---|---|---|
| Reading.ReadAll | app.js:51-54 | Reads may complete in any order. Each is stored at its own index, and the buffers come out in staging order: buffer k is the contents of staged image k |
| Engine.InitAsWritten | app.js:23-41 | Initialisation runs only while the handle is null. The runtime ends ready exactly when every step succeeds, and the handle stays null exactly when the runtime itself failed to load |
| Engine.ReadyStaysReadyAsWritten | app.js:41 | Once the runtime is loaded, no later request initialises it again |
| Engine.SetupFailureIsPermanent | app.js:26-41 | As written, a setup failure after the runtime loaded is never retried. Whatever later requests would do, the routine never becomes callable |
| Engine.SetupFailureThenSuccessStaysBroken | app.js:26-41 | Counterexample: one setup failure and then a fully successful load still leaves the runtime without the merge routine |
| Engine.InitsAsWrittenReady | app.js:23-41 | As written, the runtime is ready iff some initialisation succeeds and every earlier one failed before the runtime loaded |
| Engine.Init | app.js:23-41 | Corrected initialisation: it never leaves a half-initialised handle, it keeps a ready runtime, and otherwise it ends ready exactly when the load succeeds |
| Engine.InitsReady | app.js:23-41 | Corrected: after a series of requests the runtime is ready iff it was ready or any load in the series succeeded |
| Engine.SetupFailureThenSuccessRecovers | app.js:23-41 | Corrected: a setup failure followed by a successful load ends ready |
| Controller.RequestAsWritten | app.js:40-54 | The request with the page's own initialisation. A failed initialisation ends the request only when the handle was null. After a setup failure the handle is kept, later requests skip initialisation, and the guard accepts them. An accepted request makes the same start-of-attempt updates as Request |
| Controller.Settle | app.js:49-78 | How the attempt continues once its combined read settles. A pending read leaves the state untouched, because neither the catch nor the finally block runs. A rejected read clears busy and the spinner and hides the download link, keeping images and the old payload. Resolved buffers go to the page's own finish: busy and spinner are cleared and images kept. A merged result is shown behind the link only on a ready runtime. On a half-loaded runtime the link stays hidden with its old payload |
| Controller.FinishAsWritten | app.js:56-78 | The end of an attempt as the page performs it. With no attempt in flight nothing changes. On a runtime without the merge routine the call raises whatever the routine would have returned: busy and spinner are cleared, the attempt's buffers dropped, the link hidden with its old payload, and the new-batch button left as it was. On a ready runtime it is Finish. Neither case touches images, merge button or runtime stage |
| Reading.GatherAsWritten | app.js:86-92 | As written, the combined read never rejects. It stays pending exactly when some file's read fails, and otherwise resolves with the buffers |
| Reading.Gather | app.js:86-92 | Corrected: the combined read never stays pending. It rejects exactly when some file's read fails, and otherwise resolves with the buffers |
| Controller.HandleFiles | app.js:123-128 | The selection becomes the working set, in the given order. The merge button is disabled iff the count is outside 3..7. Nothing else changes |
| Controller.Intake | app.js:107-120 | A drop or picker change with no files changes nothing. Otherwise it stages the selection as HandleFiles does |
| Controller.RemoveAt | app.js:156-161 | An in-range index removes that one image. Images before it keep their positions and images after it shift down by one. A past-the-end index removes nothing. The merge button is recomputed from the new count, and nothing else changes |
| Controller.StartNewBatch | app.js:171-178 | The working set is emptied, the merge button disabled, and the download link and new-batch button hidden. Nothing else changes |
| Controller.Request | app.js:40-54 | The runtime is initialised before the guard. A failed initialisation or a rejecting guard (busy, or count outside 3..7) changes only the runtime's stage. An accepted request sets busy, hides the download link and new-batch button, and shows the spinner. It hands the engine the staged buffers in order and leaves images, merge button and payload alone |
| Controller.Finish | app.js:58-78 | Either outcome clears the busy flag and hides the spinner. Success puts the result behind a visible download link and shows new-batch. Failure hides the link. Neither touches images, merge button or runtime stage |
| ControllerFacts.StepKeepsConsistent | app.js:40-178 | Every handler preserves the flag relations: button disabled iff count outside the window, spinner iff busy, busy iff an attempt is in flight and then engine ready with link and new-batch hidden, new-batch shown iff link shown, shown link has a payload |
| ControllerFacts.RunKeepsConsistent | app.js:40-178 | Any event sequence from a consistent state ends in a consistent state |
| ControllerFacts.Reachable | app.js:122-178 | With the corrected initialisation, in every reachable state the merge button is disabled iff the image-count check (3 to 7 images, lines 166-168) fails, and the spinner shows iff busy. A visible link has a payload and sits beside the new-batch button. While busy, the new-batch button is hidden, so no new batch can start. Busy implies a ready runtime, which holds only for the corrected initialisation |
| ControllerFacts.StepAsWrittenKeepsUiConsistent | app.js:40-178 | With the page's own initialisation, every handler preserves the flag relations of Consistent other than those about the runtime |
| ControllerFacts.RunAsWrittenKeepsUiConsistent | app.js:40-178 | With the page's own initialisation, any event sequence keeps those flag relations |
| ControllerFacts.ReachableAsWritten | app.js:40-178 | With the page's own initialisation, in every reachable state the merge button is disabled iff the image-count check fails, and the spinner shows iff busy. A visible link has a payload and sits beside the new-batch button. While busy, the new-batch button is hidden |
| ControllerFacts.AsWrittenBusyOnHalfLoadedRuntime | app.js:26-47 | As written, staging three images, failing setup once and requesting again leaves an attempt in flight on a runtime without the merge routine |
| ControllerFacts.HalfLoadedMergeThrows | app.js:26-78 | As written, after that trace the attempt ends as a failure whatever the routine would have returned. Busy and spinner are cleared, the link stays hidden, and the runtime stays half-loaded |
| ControllerFacts.ReadErrorHangsAsWritten | app.js:51-53 | As written, when a file's read fails the attempt never finishes. The page stays busy with the spinner showing, and the guard rejects every later request |
| ControllerFacts.ReadErrorEndsAttempt | app.js:51-53 | Corrected: a failed read ends the attempt as a failure. Busy and spinner are cleared, the link and new-batch button hidden, and images kept. A later request with 3..7 images is accepted again |
| ControllerFacts.IntakeReplaces | app.js:123-126 | The result of intake does not depend on the previously staged images: replacement, not append |
| ControllerFacts.RemoveTakesOneOut | app.js:157-158 | Removal takes exactly one occurrence of the removed image out of the working set's multiset |
| ControllerFacts.RemoveThenReinsert | app.js:157-158 | Reinserting the removed image at its index restores the working set |
| ControllerFacts.NewBatchIdempotent | app.js:171-178 | Starting a new batch twice equals starting it once |
| ControllerFacts.GuardRejects | app.js:42 | A request while busy or with the count outside 3..7 changes nothing but the runtime's stage |
| ControllerFacts.SecondRequestRejected | app.js:42-47 | A second request during an accepted attempt leaves the state exactly as the first left it |
| ControllerFacts.RequestAccepted | app.js:41-47 | From a consistent idle state, a request is accepted iff the count is in 3..7 and the runtime is ready or loads |
| ControllerFacts.AttemptLifecycle | app.js:44-78 | Request then finish leaves images and merge button as before, busy and spinner cleared, and the runtime ready. Success shows the result and the new-batch button. Failure hides both and keeps the old payload |
| ControllerFacts.SnapshotSurvivesEdits | app.js:51-53 | Staging or removing images during an attempt changes neither the buffers in flight nor the busy flag nor the spinner. The same holds for the new-batch handler, which the page cannot reach then because its button is hidden |
| ControllerFacts.TwoThenThreeThenRemove | app.js:123-168 | With the corrected delete binding: staging two images leaves merging disabled. Staging three enables it, and removing one disables it again |
| ControllerFacts.ThreeImagesMerged | app.js:40-74 | Staging three images and merging successfully shows the download link with the result and the new-batch button, and the merge button stays enabled |
| Thumbnails.RenderAsWritten | app.js:131-162 | The thumbnail pass as written: one control per completed preview read, in completion order, each carrying its image's index, and none with a listener |
| Thumbnails.Render | app.js:131-162 | The thumbnail pass with the listeners attached after the controls are appended: one control per completed preview read, in completion order, each carrying its image's index and listening |
| Thumbnails.AsWrittenDeleteIsInert | app.js:131-162 | As written, no delete control ever has a listener, so clicking any of them changes nothing |
| Thumbnails.AsWrittenDeleteCounterexample | app.js:131-162 | Counterexample: three staged images. Clicking the middle image's delete control keeps all three |
| Thumbnails.RenderedDeleteRemoves | app.js:131-162 | Corrected, for one thumbnail pass whose previews all load before the next pass: every staged image has a listening control, and every control's index is in range. Clicking a control removes exactly that image |

## Left out

- The runtime's internals are left out because they are foreign calls. This covers `loadPyodide`, `loadPackage`, the routine fetch, `FS.writeFile` and the import, which are abstracted to how an initialisation ends. It also covers `freeAllocatedMemory` and `sys.modules.clear()` in the finally block, including the case where they throw.
- The merge routine (`hdr_processor.py`) is an opaque outcome because its content is OpenCV and floating point.
- The initialisation spinner (`initLoading`) is left out because it is only shown and hidden around the initialisation.
- `FileReader`, `Blob`, the object URL, the download filename built from `Date.now()`, `alert` and `console` are left out because they are browser I/O or a clock. Only the payload behind the link is kept.
- Thumbnail images, `innerHTML`, the upload-zone click and the drag-over CSS classes are left out because they are DOM only. Clearing `fileInput.value` is left out too: it changes no controller state.
- Controller.Request: uses the corrected `Engine.Init`, so the ready-runtime clauses of `Consistent` and `ControllerFacts.Reachable` hold only for the corrected page. The page's own initialisation is `Controller.RequestAsWritten`, for which only the flag relations are proved (`ControllerFacts.ReachableAsWritten`).
- Controller.Request: treated as one step. The source awaits the initialisation before its guard, so other events can interleave there, and two clicks during the first initialisation both start one. Neither is modelled. The check and set of `isProcessing` have no suspension between them, so the guard itself is modelled exactly.
- Controller.RemoveAt: the index is a `nat`. `parseInt` of the data attribute always yields a non-negative integer there, so `splice` with negative or NaN indices is not modelled.
- Reading.ReadAll: requires every read to complete. As written, a read that fails never settles, so the attempt never finishes and the page stays busy. This is modelled separately by `Reading.GatherAsWritten` and `ControllerFacts.ReadErrorHangsAsWritten` (see Findings).
- Thumbnails.RenderedDeleteRemoves: models one thumbnail pass on its own. Preview reads of a superseded pass are never cancelled. If they load after a later pass has cleared the container, they append stale controls whose indices may be out of range or point at other images. Under the corrected binding those controls would listen too. Overlapping passes are not modelled.
- Controller.Step: events are not gated on whether their control is visible or enabled. `NewBatch` is accepted while the new-batch button is hidden, and `MergeRequest` while the merge button is disabled. Lemmas about such events describe the handlers, not clicks the page can receive. `ControllerFacts.Reachable` shows the new-batch button is hidden throughout an attempt.
- Controller.Finish: a finish with no attempt in flight is a no-op. The source has no such event, because only the suspended `processMerge` call can finish.

## Findings

| source | as written | input that shows it | evidently intended | confidence | as-written member | corrected member |
|---|---|---|---|---|---|---|
| app.js:26-41 | The runtime handle is stored as soon as the runtime loads, before the packages and the merge routine are installed, and later requests initialise only while the handle is null | the package load (or routine fetch) fails once; every later request skips initialisation and its merge throws because the routine was never imported | a failed initialisation leaves the handle null so the next request initialises again | high (not executed) | Engine.SetupFailureThenSuccessStaysBroken | Engine.SetupFailureThenSuccessRecovers |
| app.js:86-92 | A file's read resolves only when it loads; there is no error path, so one failed read (a file deleted after selection, say) leaves the combined read at line 51 pending, and neither the catch nor the finally block runs | stage three images, delete one from disk, click merge: the spinner stays and every later click is rejected until reload | a failed read rejects the combined read, so the attempt ends as a failure and the busy flag is cleared | medium (not executed) | ControllerFacts.ReadErrorHangsAsWritten | ControllerFacts.ReadErrorEndsAttempt |
| app.js:131-162 | Delete listeners are attached by a document query right after the container is cleared and before the asynchronous preview reads append the controls, so the query finds none | stage three images; click any delete control; nothing is removed | attach the listeners after each control is appended, so a click removes that image | high (not executed) | Thumbnails.AsWrittenDeleteCounterexample | Thumbnails.RenderedDeleteRemoves |

The rest of the model uses the corrected behaviour. `Controller.Request`
initialises with `Engine.Init`. A rejected combined read finishes the attempt
as `MergeFinish(Threw)` does (`Controller.Settle` with `Reading.Gather`). The
`Remove(i)` event is a click on a listening control of `Thumbnails.Render`,
whose index is in range within one thumbnail pass.
