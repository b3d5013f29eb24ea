/** The staging-and-merge controller of the page (app.js): the working set of
    staged images, the busy flag, and the visibility of the merge button, the
    download link, the new-batch button and the spinner, each event handler
    being one pure transition on an immutable state record. */
module Controller {
  import opened Files
  import opened Engine
  import opened Reading

  /** The controller's state. `download` is the payload behind the download
      link (its href), which stays set when the link is hidden. `pending` holds
      the buffers handed to the merge routine by the attempt in flight, which
      the source keeps only in the suspended `processMerge` call. */
  datatype State = State(
    images: seq<File>,
    isProcessing: bool,
    processDisabled: bool,
    downloadHidden: bool,
    newBatchVisible: bool,
    spinnerVisible: bool,
    engine: Stage,
    download: Option<seq<byte>>,
    pending: Option<seq<seq<byte>>>)

  /** What the merge routine did with one attempt's buffers. */
  datatype Outcome = Merged(result: seq<byte>) | Threw

  datatype Event =
    | Files(fs: seq<File>)           // picker change or drop
    | Remove(index: nat)             // delete-thumbnail click
    | NewBatch
    | MergeRequest(init: InitOutcome)
    | MergeFinish(outcome: Outcome)

  /** The page after loading: nothing staged, the runtime not loaded, the
      spinner and the download link hidden (app.js:1-10); the markup is taken
      to start with the merge button disabled and the new-batch button hidden. */
  const Initial := State([], false, true, true, false, false, Unloaded, None, None)

  /** The merge window: a merge needs between three and seven images. */
  predicate ValidImageCount(images: seq<File>)
  {
    3 <= |images| <= 7
  }

  /** Staging a non-empty selection: the selection replaces the working set,
      and the merge button is re-enabled exactly when the new set is in the
      window. */
  function HandleFiles(s: State, fs: seq<File>): (r: State)
    ensures r.images == fs
    ensures r.processDisabled <==> |fs| < 3 || |fs| > 7
    ensures r.(images := s.images, processDisabled := s.processDisabled) == s
  {
    s.(images := fs, processDisabled := !ValidImageCount(fs))
  }

  /** The drop and picker-change handlers: an empty selection is ignored. */
  function Intake(s: State, fs: seq<File>): (r: State)
    ensures |fs| == 0 ==> r == s
    ensures |fs| > 0 ==> r.images == fs && (r.processDisabled <==> !(3 <= |fs| <= 7))
    ensures |fs| > 0 ==> r.(images := s.images, processDisabled := s.processDisabled) == s
  {
    if |fs| > 0 then HandleFiles(s, fs) else s
  }

  /** The delete-thumbnail handler: the image at `i` is spliced out, the rest
      keep their order, and the merge button is recomputed. An index past the
      end removes nothing, as a splice there does. */
  function RemoveAt(s: State, i: nat): (r: State)
    ensures i < |s.images| ==> |r.images| == |s.images| - 1
    ensures i < |s.images| ==> forall k :: 0 <= k < i ==> r.images[k] == s.images[k]
    ensures i < |s.images| ==> forall k :: i <= k < |r.images| ==> r.images[k] == s.images[k + 1]
    ensures i >= |s.images| ==> r.images == s.images
    ensures r.processDisabled <==> |r.images| < 3 || |r.images| > 7
    ensures r.(images := s.images, processDisabled := s.processDisabled) == s
  {
    var images := if i < |s.images| then s.images[..i] + s.images[i + 1..] else s.images;
    s.(images := images, processDisabled := !ValidImageCount(images))
  }

  /** The new-batch handler: the working set is emptied, the merge button
      disabled, and the download link and the new-batch button hidden. */
  function StartNewBatch(s: State): (r: State)
    ensures r.images == [] && r.processDisabled && r.downloadHidden && !r.newBatchVisible
    ensures r.(images := s.images, processDisabled := s.processDisabled,
               downloadHidden := s.downloadHidden, newBatchVisible := s.newBatchVisible) == s
  {
    s.(images := [], processDisabled := true, downloadHidden := true, newBatchVisible := false)
  }

  /** A merge request up to the first suspension: the runtime is initialised if
      it is not loaded (before the guard, so even a rejected request loads it);
      a failed initialisation ends the request; the guard rejects a request
      while an attempt is in flight or while the count is outside the window;
      an accepted request marks the controller busy, hides the download link
      and the new-batch button, shows the spinner, and hands the engine the
      buffers of the working set in staging order. */
  function Request(s: State, init: InitOutcome): (r: State)
    ensures r.engine == Init(s.engine, init)
    ensures r.engine != Ready || s.isProcessing || !ValidImageCount(s.images) ==> r == s.(engine := r.engine)
    ensures r.engine == Ready && !s.isProcessing && ValidImageCount(s.images) ==>
      && r.isProcessing && r.downloadHidden && !r.newBatchVisible && r.spinnerVisible
      && r.pending == Some(Buffers(s.images))
      && r.images == s.images && r.processDisabled == s.processDisabled && r.download == s.download
  {
    var engine := Init(s.engine, init);
    if engine != Ready then
      s.(engine := engine)
    else if s.isProcessing || !ValidImageCount(s.images) then
      s.(engine := engine)
    else
      s.(engine := engine, isProcessing := true, downloadHidden := true, newBatchVisible := false,
         spinnerVisible := true, pending := Some(Buffers(s.images)))
  }

  /** The end of an attempt: on success the result backs a visible download
      link and the new-batch button is shown; on failure the link is hidden;
      either way the finally block clears the busy flag and hides the spinner.
      With no attempt in flight there is nothing to finish. */
  function Finish(s: State, o: Outcome): (r: State)
    ensures !s.isProcessing ==> r == s
    ensures s.isProcessing ==> !r.isProcessing && !r.spinnerVisible && r.pending == None
    ensures s.isProcessing && o.Merged? ==>
      r.download == Some(o.result) && !r.downloadHidden && r.newBatchVisible
    ensures s.isProcessing && o.Threw? ==>
      r.downloadHidden && r.download == s.download && r.newBatchVisible == s.newBatchVisible
    ensures r.images == s.images && r.processDisabled == s.processDisabled && r.engine == s.engine
  {
    if !s.isProcessing then s
    else
      var settled := match o
        case Merged(result) => s.(download := Some(result), downloadHidden := false, newBatchVisible := true)
        case Threw => s.(downloadHidden := true);
      settled.(isProcessing := false, spinnerVisible := false, pending := None)
  }

  function Step(s: State, e: Event): State
  {
    match e
    case Files(fs) => Intake(s, fs)
    case Remove(i) => RemoveAt(s, i)
    case NewBatch => StartNewBatch(s)
    case MergeRequest(init) => Request(s, init)
    case MergeFinish(o) => Finish(s, o)
  }

  function Run(s: State, es: seq<Event>): State
    decreases |es|
  {
    if |es| == 0 then s else Run(Step(s, es[0]), es[1..])
  }

  /** A merge request as the page performs it, with its own initialisation:
      a failure after the runtime loaded leaves a handle without the merge
      routine, and later requests skip initialisation and pass the guard. */
  function RequestAsWritten(s: State, init: InitOutcome): (r: State)
    ensures r.engine == InitAsWritten(s.engine, init)
    ensures (s.engine == Unloaded && init != Loaded) || s.isProcessing || !ValidImageCount(s.images) ==>
      r == s.(engine := r.engine)
    ensures (s.engine != Unloaded || init == Loaded) && !s.isProcessing && ValidImageCount(s.images) ==>
      && r.isProcessing && r.downloadHidden && !r.newBatchVisible && r.spinnerVisible
      && r.pending == Some(Buffers(s.images))
      && r.images == s.images && r.processDisabled == s.processDisabled && r.download == s.download
  {
    var engine := InitAsWritten(s.engine, init);
    if s.engine == Unloaded && init != Loaded then
      s.(engine := engine)
    else if s.isProcessing || !ValidImageCount(s.images) then
      s.(engine := engine)
    else
      s.(engine := engine, isProcessing := true, downloadHidden := true, newBatchVisible := false,
         spinnerVisible := true, pending := Some(Buffers(s.images)))
  }

  /** How the attempt in flight continues once its combined read settles: a
      pending read never reaches the engine nor the finally block; a rejected
      read ends the attempt as an error; resolved buffers go to the engine,
      whose outcome is `o`. */
  function Settle(s: State, g: Settlement, o: Outcome): (r: State)
    ensures g.Pending? ==> r == s
    ensures g.Rejected? ==> r == Finish(s, Threw)
    ensures g.Resolved? ==> r == FinishAsWritten(s, o)
    ensures g.Rejected? && s.isProcessing ==>
      && !r.isProcessing && !r.spinnerVisible && r.downloadHidden
      && r.images == s.images && r.download == s.download
    ensures g.Resolved? && s.isProcessing ==>
      && !r.isProcessing && !r.spinnerVisible && r.images == s.images
      && (s.engine == Ready && o.Merged? ==> !r.downloadHidden && r.download == Some(o.result))
      && (s.engine != Ready ==> r.downloadHidden && r.download == s.download)
  {
    match g
    case Pending => s
    case Rejected => Finish(s, Threw)
    case Resolved(_) => FinishAsWritten(s, o)
  }

  /** The end of an attempt as the page performs it: on a runtime without the
      merge routine the call at app.js:58 raises, whatever the routine would
      have returned, so the catch branch runs. */
  function FinishAsWritten(s: State, o: Outcome): (r: State)
    ensures !s.isProcessing ==> r == s
    ensures s.isProcessing && s.engine != Ready ==>
      && !r.isProcessing && !r.spinnerVisible && r.downloadHidden && r.download == s.download
      && r.newBatchVisible == s.newBatchVisible && r.pending == None
    ensures s.engine == Ready ==> r == Finish(s, o)
    ensures r.images == s.images && r.processDisabled == s.processDisabled && r.engine == s.engine
  {
    Finish(s, if s.engine == Ready then o else Threw)
  }

  function StepAsWritten(s: State, e: Event): State
  {
    match e
    case MergeRequest(init) => RequestAsWritten(s, init)
    case MergeFinish(o) => FinishAsWritten(s, o)
    case _ => Step(s, e)
  }

  function RunAsWritten(s: State, es: seq<Event>): State
    decreases |es|
  {
    if |es| == 0 then s else RunAsWritten(StepAsWritten(s, es[0]), es[1..])
  }

  /** The relations between the page's flags, whatever the runtime does. */
  predicate UiConsistent(s: State)
  {
    && (s.processDisabled <==> !ValidImageCount(s.images))
    && s.spinnerVisible == s.isProcessing
    && (s.isProcessing <==> s.pending.Some?)
    && (s.isProcessing ==> s.downloadHidden && !s.newBatchVisible)
    && s.newBatchVisible == !s.downloadHidden
    && (!s.downloadHidden ==> s.download.Some?)
  }

  /** The flag relations plus the runtime's, which hold with the corrected
      initialisation: never a half-initialised runtime, and a ready one
      whenever an attempt is in flight. */
  predicate Consistent(s: State)
  {
    && UiConsistent(s)
    && (s.isProcessing ==> s.engine == Ready)
    && s.engine != HandleOnly
  }
}
