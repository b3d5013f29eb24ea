/** Lifecycle of the in-page Python runtime that hosts the merge routine
    (app.js:8, app.js:22-37, app.js:41). The runtime is loaded lazily by the
    first merge request; the loading steps themselves are opaque and are
    abstracted to how far they got. */
module Engine {

  /** `Unloaded`: the runtime handle is null. `HandleOnly`: the runtime loaded
      but installing the packages or the merge routine failed. `Ready`: the
      merge routine is imported and callable. */
  datatype Stage = Unloaded | HandleOnly | Ready

  /** How one initialisation attempt ended: the runtime itself failed to load,
      a later step (packages, routine fetch, routine import) failed, or every
      step succeeded. */
  datatype InitOutcome = RuntimeFailed | SetupFailed | Loaded

  /** Initialisation as the page performs it: it runs only while the handle is
      null, and the handle is stored as soon as the runtime loads, before the
      packages and the routine are installed. */
  function InitAsWritten(st: Stage, o: InitOutcome): (r: Stage)
    ensures st != Unloaded ==> r == st
    ensures st == Unloaded ==> (r == Ready <==> o == Loaded)
    ensures st == Unloaded ==> (r == Unloaded <==> o == RuntimeFailed)
  {
    if st != Unloaded then st
    else match o
      case RuntimeFailed => Unloaded
      case SetupFailed => HandleOnly
      case Loaded => Ready
  }

  /** Initialisation as evidently intended: any failure leaves the handle
      null, so the next merge request initialises again. */
  function Init(st: Stage, o: InitOutcome): (r: Stage)
    ensures r != HandleOnly
    ensures st == Ready ==> r == Ready
    ensures st != Ready ==> (r == Ready <==> o == Loaded)
  {
    if st == Ready then Ready
    else if o == Loaded then Ready
    else Unloaded
  }

  /** The stage after a series of merge requests whose initialisations, when
      they run, end as `os` says. */
  function InitsAsWritten(st: Stage, os: seq<InitOutcome>): Stage
    decreases |os|
  {
    if |os| == 0 then st else InitsAsWritten(InitAsWritten(st, os[0]), os[1..])
  }

  function Inits(st: Stage, os: seq<InitOutcome>): Stage
    decreases |os|
  {
    if |os| == 0 then st else Inits(Init(st, os[0]), os[1..])
  }

  /** As written, a failure after the runtime loaded is permanent: no later
      request initialises again, so the merge routine never becomes callable. */
  lemma {:induction false} SetupFailureIsPermanent(os: seq<InitOutcome>)
    ensures InitsAsWritten(HandleOnly, os) == HandleOnly
    decreases |os|
  {
    if |os| > 0 {
      SetupFailureIsPermanent(os[1..]);
    }
  }

  /** The concrete input that shows it: the packages fail to load once (a
      network error, say), and a later, fully successful load never happens. */
  lemma SetupFailureThenSuccessStaysBroken()
    ensures InitsAsWritten(Unloaded, [SetupFailed, Loaded]) == HandleOnly
  {
    SetupFailureIsPermanent([Loaded]);
  }

  /** As written, the runtime is ready exactly when some initialisation
      succeeds and every earlier one failed before the runtime loaded. */
  lemma {:induction false} InitsAsWrittenReady(os: seq<InitOutcome>)
    ensures InitsAsWritten(Unloaded, os) == Ready <==>
      exists k :: 0 <= k < |os| && os[k] == Loaded && forall m :: 0 <= m < k ==> os[m] == RuntimeFailed
    decreases |os|
  {
    if |os| > 0 {
      if os[0] == RuntimeFailed {
        InitsAsWrittenReady(os[1..]);
        if InitsAsWritten(Unloaded, os) == Ready {
          var k :| 0 <= k < |os[1..]| && os[1..][k] == Loaded && forall m :: 0 <= m < k ==> os[1..][m] == RuntimeFailed;
          assert os[k + 1] == Loaded;
          assert forall m :: 0 <= m < k + 1 ==> os[m] == RuntimeFailed by {
            forall m | 0 <= m < k + 1 ensures os[m] == RuntimeFailed {
              if m > 0 { assert os[m] == os[1..][m - 1]; }
            }
          }
        } else {
          forall k | 0 <= k < |os| && os[k] == Loaded
            ensures !forall m :: 0 <= m < k ==> os[m] == RuntimeFailed
          {
            assert k > 0;
            assert os[1..][k - 1] == Loaded;
            assert !forall m :: 0 <= m < k - 1 ==> os[1..][m] == RuntimeFailed;
            var m :| 0 <= m < k - 1 && os[1..][m] != RuntimeFailed;
            assert os[m + 1] != RuntimeFailed;
          }
        }
      } else if os[0] == SetupFailed {
        SetupFailureIsPermanent(os[1..]);
        assert forall k :: 0 <= k < |os| && os[k] == Loaded ==> k > 0 && os[0] != RuntimeFailed;
      } else {
        assert InitsAsWritten(Ready, os[1..]) == Ready by { ReadyStaysReadyAsWritten(os[1..]); }
      }
    }
  }

  lemma {:induction false} ReadyStaysReadyAsWritten(os: seq<InitOutcome>)
    ensures InitsAsWritten(Ready, os) == Ready
    decreases |os|
  {
    if |os| > 0 {
      ReadyStaysReadyAsWritten(os[1..]);
    }
  }

  /** Corrected: the runtime is ready exactly when some initialisation in the
      series succeeded, whatever failed before it. */
  lemma {:induction false} InitsReady(st: Stage, os: seq<InitOutcome>)
    requires st != HandleOnly
    ensures Inits(st, os) != HandleOnly
    ensures Inits(st, os) == Ready <==> st == Ready || Loaded in os
    decreases |os|
  {
    if |os| > 0 {
      InitsReady(Init(st, os[0]), os[1..]);
      assert os == [os[0]] + os[1..];
      assert Loaded in os <==> os[0] == Loaded || Loaded in os[1..];
    }
  }

  /** Corrected: the failure that is permanent as written is recovered from by
      the next successful load. */
  lemma SetupFailureThenSuccessRecovers()
    ensures Inits(Unloaded, [SetupFailed, Loaded]) == Ready
  {
    InitsReady(Unloaded, [SetupFailed, Loaded]);
    assert Loaded in [SetupFailed, Loaded];
  }
}
