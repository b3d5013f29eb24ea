/** The thumbnail pass (app.js:131-163): the container is cleared, one preview
    read per staged image is started, each completed read appends a preview
    with a delete control carrying its image's index, and click listeners are
    attached to the delete controls. Only the controls matter here: which
    ones exist, which index each carries, and whether it listens. */
module Thumbnails {
  import opened Files
  import opened Reading
  import opened Controller

  /** A delete control: the index in its data attribute, and whether a click
      listener is attached to it. */
  datatype DeleteButton = DeleteButton(index: nat, listening: bool)

  /** Attaching the delete listener to every control the container holds. */
  function BindAll(c: seq<DeleteButton>): (r: seq<DeleteButton>)
    ensures |r| == |c|
    ensures forall k :: 0 <= k < |c| ==> r[k].index == c[k].index && r[k].listening
  {
    seq(|c|, k requires 0 <= k < |c| => c[k].(listening := true))
  }

  /** The controls the preview reads append, one per completed read, in the
      order the reads complete; a freshly appended control has no listener. */
  function Appended(completion: seq<nat>): (r: seq<DeleteButton>)
    ensures |r| == |completion|
    ensures forall k :: 0 <= k < |completion| ==> r[k] == DeleteButton(completion[k], false)
  {
    seq(|completion|, k requires 0 <= k < |completion| => DeleteButton(completion[k], false))
  }

  /** The pass as written: the listeners are attached right after the
      container is cleared, when it holds no control, and the preview reads
      complete only afterwards. */
  function RenderAsWritten(completion: seq<nat>): (r: seq<DeleteButton>)
    ensures |r| == |completion|
    ensures forall k :: 0 <= k < |r| ==> r[k].index == completion[k] && !r[k].listening
  {
    var cleared: seq<DeleteButton> := [];
    BindAll(cleared) + Appended(completion)
  }

  /** The pass as evidently intended: the listeners are attached once every
      preview has been appended. This is one pass on its own: previews of an
      earlier pass that load after this pass cleared the container are not
      part of it. */
  function Render(completion: seq<nat>): (r: seq<DeleteButton>)
    ensures |r| == |completion|
    ensures forall k :: 0 <= k < |r| ==> r[k] == DeleteButton(completion[k], true)
  {
    var cleared: seq<DeleteButton> := [];
    BindAll(cleared + Appended(completion))
  }

  /** Some control of the container listens for clicks on image `i`. */
  predicate Deletable(c: seq<DeleteButton>, i: nat)
  {
    exists m :: 0 <= m < |c| && c[m].index == i && c[m].listening
  }

  /** Clicking the `k`-th control of the container: a listening control runs
      the delete handler with its own index; any other does nothing. */
  function Click(s: State, c: seq<DeleteButton>, k: nat): State
    requires k < |c|
  {
    if c[k].listening then RemoveAt(s, c[k].index) else s
  }

  /** As written, no delete control ever listens, so a click on any of them
      leaves the state as it was. */
  lemma AsWrittenDeleteIsInert(s: State, completion: seq<nat>, k: nat)
    requires k < |RenderAsWritten(completion)|
    ensures !RenderAsWritten(completion)[k].listening
    ensures Click(s, RenderAsWritten(completion), k) == s
  {
    assert RenderAsWritten(completion) == Appended(completion);
  }

  /** The concrete input that shows it: three staged images whose previews load
      in order; clicking the middle image's control keeps all three. */
  lemma AsWrittenDeleteCounterexample(a: File, b: File, c: File)
    ensures var s := Intake(Initial, [a, b, c]);
      Click(s, RenderAsWritten([0, 1, 2]), 1).images == [a, b, c]
  {
    AsWrittenDeleteIsInert(Intake(Initial, [a, b, c]), [0, 1, 2], 1);
  }

  /** Corrected, for one pass whose preview reads all complete before the
      next pass clears the container: each staged image has a listening
      control, every control carries an index of the current working set, and
      clicking it removes exactly that image. */
  lemma RenderedDeleteRemoves(s: State, completion: seq<nat>, k: nat)
    requires EveryReadCompletes(|s.images|, completion)
    requires k < |Render(completion)|
    ensures forall i: nat :: i < |s.images| ==> Deletable(Render(completion), i)
    ensures var i := Render(completion)[k].index;
      && i < |s.images|
      && Click(s, Render(completion), k) == RemoveAt(s, i)
      && |Click(s, Render(completion), k).images| == |s.images| - 1
  {
    var c := Render(completion);
    assert [] + Appended(completion) == Appended(completion);
    forall i: nat | i < |s.images|
      ensures Deletable(c, i)
    {
      assert i in completion;
      var m :| 0 <= m < |completion| && completion[m] == i;
      assert c[m].index == i && c[m].listening;
    }
  }
}
