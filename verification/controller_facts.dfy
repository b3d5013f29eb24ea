/** Properties of the controller: the invariant every reachable state keeps,
    the guard, the lifecycle of one merge attempt, and the intake rules. */
module ControllerFacts {
  import opened Files
  import opened Engine
  import opened Reading
  import opened Controller

  /** Two states that agree on everything the page shows and on the attempt in
      flight; only the runtime's stage may differ. */
  predicate SameUi(a: State, b: State)
  {
    a.(engine := b.engine) == b
  }

  lemma StepKeepsConsistent(s: State, e: Event)
    requires Consistent(s)
    ensures Consistent(Step(s, e))
  {
  }

  /** Every event sequence from any consistent state ends in a consistent state. */
  lemma {:induction false} RunKeepsConsistent(s: State, es: seq<Event>)
    requires Consistent(s)
    ensures Consistent(Run(s, es))
    decreases |es|
  {
    if |es| > 0 {
      StepKeepsConsistent(s, es[0]);
      RunKeepsConsistent(Step(s, es[0]), es[1..]);
    }
  }

  /** In every state the page can reach, the merge button is disabled exactly
      when the image-count check fails, the spinner shows exactly while an
      attempt is in flight, a visible download link always has a payload, and
      the new-batch button is hidden while an attempt is in flight, so a new
      batch cannot be started then. */
  lemma Reachable(es: seq<Event>)
    ensures var s := Run(Initial, es);
      && (s.processDisabled <==> !ValidImageCount(s.images))
      && (s.spinnerVisible <==> s.isProcessing)
      && (!s.downloadHidden ==> s.download.Some? && s.newBatchVisible)
      && (s.isProcessing ==> !s.newBatchVisible)
      && (s.isProcessing ==> s.engine == Ready)
  {
    RunKeepsConsistent(Initial, es);
  }

  lemma StepAsWrittenKeepsUiConsistent(s: State, e: Event)
    requires UiConsistent(s)
    ensures UiConsistent(StepAsWritten(s, e))
  {
  }

  /** With the page's own initialisation, every event sequence keeps the flag
      relations. */
  lemma {:induction false} RunAsWrittenKeepsUiConsistent(s: State, es: seq<Event>)
    requires UiConsistent(s)
    ensures UiConsistent(RunAsWritten(s, es))
    decreases |es|
  {
    if |es| > 0 {
      StepAsWrittenKeepsUiConsistent(s, es[0]);
      RunAsWrittenKeepsUiConsistent(StepAsWritten(s, es[0]), es[1..]);
    }
  }

  /** The page as written, including its initialisation: in every reachable
      state the merge button is enabled exactly when three to seven images are
      staged, the spinner shows exactly while an attempt is in flight, and a
      visible download link has a payload and sits beside the new-batch
      button. */
  lemma ReachableAsWritten(es: seq<Event>)
    ensures var s := RunAsWritten(Initial, es);
      && (s.processDisabled <==> !ValidImageCount(s.images))
      && (s.spinnerVisible <==> s.isProcessing)
      && (!s.downloadHidden ==> s.download.Some? && s.newBatchVisible)
      && (s.isProcessing ==> !s.newBatchVisible)
  {
    RunAsWrittenKeepsUiConsistent(Initial, es);
  }

  /** As written, a request after a setup failure skips initialisation and is
      accepted: an attempt is in flight on a runtime without the merge
      routine. */
  lemma AsWrittenBusyOnHalfLoadedRuntime(a: File, b: File, c: File)
    ensures var s := RunAsWritten(Initial, [Files([a, b, c]), MergeRequest(SetupFailed), MergeRequest(Loaded)]);
      s.isProcessing && s.spinnerVisible && s.engine == HandleOnly && !Consistent(s)
  {
    var s1 := Intake(Initial, [a, b, c]);
    var s2 := RequestAsWritten(s1, SetupFailed);
    var s3 := RequestAsWritten(s2, Loaded);
    assert RunAsWritten(Initial, [Files([a, b, c]), MergeRequest(SetupFailed), MergeRequest(Loaded)])
        == RunAsWritten(s1, [MergeRequest(SetupFailed), MergeRequest(Loaded)])
        == RunAsWritten(s2, [MergeRequest(Loaded)]) == RunAsWritten(s3, []);
  }

  /** As written, an attempt in flight on a runtime without the merge routine
      ends as a failure whatever the routine would have returned: the busy
      flag and the spinner are cleared and the download link stays hidden. */
  lemma HalfLoadedMergeThrows(a: File, b: File, c: File, o: Outcome)
    ensures var s := RunAsWritten(Initial, [Files([a, b, c]), MergeRequest(SetupFailed), MergeRequest(Loaded), MergeFinish(o)]);
      !s.isProcessing && !s.spinnerVisible && s.downloadHidden && s.download == None && s.engine == HandleOnly
  {
    var s1 := Intake(Initial, [a, b, c]);
    var s2 := RequestAsWritten(s1, SetupFailed);
    var s3 := RequestAsWritten(s2, Loaded);
    var s4 := FinishAsWritten(s3, o);
    assert RunAsWritten(Initial, [Files([a, b, c]), MergeRequest(SetupFailed), MergeRequest(Loaded), MergeFinish(o)])
        == RunAsWritten(s1, [MergeRequest(SetupFailed), MergeRequest(Loaded), MergeFinish(o)])
        == RunAsWritten(s2, [MergeRequest(Loaded), MergeFinish(o)])
        == RunAsWritten(s3, [MergeFinish(o)]) == RunAsWritten(s4, []);
  }

  /** As written, a read that fails leaves the combined read pending: the
      attempt never finishes, the page stays busy with the spinner showing,
      and the guard rejects every later request, with either initialisation. */
  lemma ReadErrorHangsAsWritten(s: State, failed: set<nat>, o: Outcome, init: InitOutcome)
    requires UiConsistent(s) && s.isProcessing
    requires SomeReadFails(|s.pending.value|, failed)
    ensures var r := Settle(s, GatherAsWritten(s.pending.value, failed), o);
      && r == s && r.isProcessing && r.spinnerVisible
      && SameUi(Request(r, init), r) && SameUi(RequestAsWritten(r, init), r)
  {
  }

  /** Corrected: a read that fails ends the attempt as an error: the busy flag
      and the spinner are cleared, the download link and the new-batch button
      are hidden, the working set is kept, and a new request is accepted again
      while the count is in the window. */
  lemma ReadErrorEndsAttempt(s: State, failed: set<nat>, o: Outcome, init: InitOutcome)
    requires Consistent(s) && s.isProcessing
    requires SomeReadFails(|s.pending.value|, failed)
    ensures var r := Settle(s, Gather(s.pending.value, failed), o);
      && !r.isProcessing && !r.spinnerVisible && r.downloadHidden && !r.newBatchVisible
      && r.images == s.images && Consistent(r)
      && (3 <= |r.images| <= 7 ==> Request(r, init).isProcessing)
  {
  }

  /** Intake replaces the working set rather than appending to it: the
      previously staged images have no influence on the result. */
  lemma IntakeReplaces(s1: State, s2: State, fs: seq<File>)
    requires |fs| > 0
    requires s1.(images := s2.images, processDisabled := s2.processDisabled) == s2
    ensures Intake(s1, fs) == Intake(s2, fs)
  {
  }

  /** Removing an in-range image takes exactly that one occurrence out of the
      working set. */
  lemma RemoveTakesOneOut(s: State, i: nat)
    requires i < |s.images|
    ensures multiset(RemoveAt(s, i).images) + multiset{s.images[i]} == multiset(s.images)
  {
    var r := RemoveAt(s, i).images;
    assert s.images == s.images[..i] + [s.images[i]] + s.images[i + 1..];
    assert r == s.images[..i] + s.images[i + 1..];
  }

  /** Removing an image and staging it back at the same place restores the
      working set. */
  lemma RemoveThenReinsert(s: State, i: nat)
    requires i < |s.images|
    ensures var r := RemoveAt(s, i).images; r[..i] + [s.images[i]] + r[i..] == s.images
  {
    var r := RemoveAt(s, i).images;
    assert r[..i] == s.images[..i];
    assert r[i..] == s.images[i + 1..];
    assert s.images == s.images[..i] + [s.images[i]] + s.images[i + 1..];
  }

  /** Starting a new batch twice is the same as starting it once. */
  lemma NewBatchIdempotent(s: State)
    ensures StartNewBatch(StartNewBatch(s)) == StartNewBatch(s)
  {
  }

  /** The guard: while an attempt is in flight, or while the count is outside
      the window, a merge request changes nothing the page shows. */
  lemma GuardRejects(s: State, init: InitOutcome)
    requires s.isProcessing || !(3 <= |s.images| <= 7)
    ensures SameUi(Request(s, init), s)
  {
  }

  /** A second request while the first attempt is in flight is rejected: the
      first attempt's buffers stay the ones in flight. */
  lemma SecondRequestRejected(s: State, i1: InitOutcome, i2: InitOutcome)
    requires Consistent(s)
    requires Request(s, i1).isProcessing
    ensures Request(Request(s, i1), i2) == Request(s, i1)
  {
  }

  /** A request is accepted exactly when the runtime is (or becomes) ready, no
      attempt is in flight and the count is in the window. */
  lemma RequestAccepted(s: State, init: InitOutcome)
    requires Consistent(s)
    ensures Request(s, init).isProcessing && !s.isProcessing <==>
      !s.isProcessing && 3 <= |s.images| <= 7 && (s.engine == Ready || init == Loaded)
  {
  }

  /** One whole attempt with no other event in between: the working set and the
      merge button are as before, the busy flag and the spinner are cleared,
      a success leaves its result behind a visible download link next to the
      new-batch button, and a failure leaves both hidden. */
  lemma AttemptLifecycle(s: State, init: InitOutcome, o: Outcome)
    requires Consistent(s)
    requires !s.isProcessing && 3 <= |s.images| <= 7 && (s.engine == Ready || init == Loaded)
    ensures var r := Finish(Request(s, init), o);
      && r.images == s.images && r.processDisabled == s.processDisabled
      && !r.isProcessing && !r.spinnerVisible && r.engine == Ready
      && (o.Merged? ==> r.download == Some(o.result) && !r.downloadHidden && r.newBatchVisible)
      && (o.Threw? ==> r.downloadHidden && !r.newBatchVisible && r.download == s.download)
  {
  }

  /** Staging and removing images while an attempt is in flight (and the
      new-batch handler, although the page hides its button then) do not touch
      the buffers already handed to the engine, the busy flag or the spinner. */
  lemma {:induction false} SnapshotSurvivesEdits(s: State, es: seq<Event>)
    requires forall k :: 0 <= k < |es| ==> !es[k].MergeFinish?
    ensures s.isProcessing ==>
      Run(s, es).isProcessing && Run(s, es).spinnerVisible == s.spinnerVisible && Run(s, es).pending == s.pending
    decreases |es|
  {
    if |es| > 0 {
      assert !es[0].MergeFinish?;
      SnapshotSurvivesEdits(Step(s, es[0]), es[1..]);
    }
  }

  /** Staging two images leaves merging disabled; staging three enables it;
      removing one disables it again. */
  lemma TwoThenThreeThenRemove(a: File, b: File, c: File)
    ensures Run(Initial, [Files([a, b])]).processDisabled
    ensures !Run(Initial, [Files([a, b]), Files([a, b, c])]).processDisabled
    ensures Run(Initial, [Files([a, b]), Files([a, b, c]), Remove(0)]).processDisabled
  {
    var s1 := Intake(Initial, [a, b]);
    var s2 := Intake(s1, [a, b, c]);
    var s3 := RemoveAt(s2, 0);
    assert Run(Initial, [Files([a, b])]) == Run(s1, []);
    assert Run(Initial, [Files([a, b]), Files([a, b, c])]) == Run(s1, [Files([a, b, c])]) == Run(s2, []);
    assert Run(Initial, [Files([a, b]), Files([a, b, c]), Remove(0)])
        == Run(s1, [Files([a, b, c]), Remove(0)]) == Run(s2, [Remove(0)]) == Run(s3, []);
  }

  /** Staging three images, merging successfully: the download link and the
      new-batch button are shown and the merge button stays enabled. */
  lemma ThreeImagesMerged(a: File, b: File, c: File, result: seq<byte>)
    ensures var r := Run(Initial, [Files([a, b, c]), MergeRequest(Loaded), MergeFinish(Merged(result))]);
      !r.downloadHidden && r.download == Some(result) && r.newBatchVisible && !r.isProcessing
      && !r.processDisabled
  {
    var s1 := Intake(Initial, [a, b, c]);
    var s2 := Request(s1, Loaded);
    var s3 := Finish(s2, Merged(result));
    assert Run(Initial, [Files([a, b, c]), MergeRequest(Loaded), MergeFinish(Merged(result))])
        == Run(s1, [MergeRequest(Loaded), MergeFinish(Merged(result))])
        == Run(s2, [MergeFinish(Merged(result))]) == Run(s3, []);
  }
}
