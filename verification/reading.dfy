/** Reading the staged files before a merge: one binary read per file, all
    started together, gathered by index as each completes (app.js:51-54). */
module Reading {
  import opened Files

  /** `completion` lists the file indices in the order their reads finish. */
  predicate EveryReadCompletes(n: nat, completion: seq<nat>)
  {
    && (forall j :: 0 <= j < |completion| ==> completion[j] < n)
    && (forall i :: 0 <= i < n ==> i in completion)
  }

  /** Gathers the read results in whatever order the reads complete: each
      completed read fills the slot of its own index, and the result is read
      off the slots once every read has completed. Whatever the completion
      order, the buffers come out in staging order. */
  method ReadAll(images: seq<File>, completion: seq<nat>) returns (buffers: seq<seq<byte>>)
    requires EveryReadCompletes(|images|, completion)
    ensures buffers == Buffers(images)
  {
    var slots: seq<Option<seq<byte>>> := seq(|images|, _ => None);
    var j := 0;
    while j < |completion|
      invariant 0 <= j <= |completion|
      invariant |slots| == |images|
      invariant forall i :: 0 <= i < |slots| && slots[i].Some? ==> slots[i].value == images[i].contents
      invariant forall m :: 0 <= m < j ==> slots[completion[m]].Some?
    {
      var i := completion[j];
      slots := slots[i := Some(images[i].contents)];
      j := j + 1;
    }
    forall i | 0 <= i < |images|
      ensures slots[i].Some?
    {
      assert i in completion;
      var m :| 0 <= m < |completion| && completion[m] == i;
    }
    buffers := seq(|images|, k requires 0 <= k < |images| && slots[k].Some? => slots[k].value);
  }

  /** How the combined read of one attempt settles: with the buffers, with a
      rejection, or never. */
  datatype Settlement = Resolved(buffers: seq<seq<byte>>) | Rejected | Pending

  /** Some read among `n` fails: `failed` holds the indices whose reads
      raise an error instead of loading. */
  predicate SomeReadFails(n: nat, failed: set<nat>)
  {
    exists i :: i in failed && i < n
  }

  /** The combined read as written: each file's read resolves only when it
      loads and has no error path, so one failed read leaves the combined
      read pending for ever. */
  function GatherAsWritten(buffers: seq<seq<byte>>, failed: set<nat>): (r: Settlement)
    ensures r != Rejected
    ensures r == Pending <==> SomeReadFails(|buffers|, failed)
    ensures r.Resolved? ==> r.buffers == buffers
  {
    if SomeReadFails(|buffers|, failed) then Pending else Resolved(buffers)
  }

  /** The combined read as evidently intended: a failed read rejects it, so
      the attempt's error handling runs. */
  function Gather(buffers: seq<seq<byte>>, failed: set<nat>): (r: Settlement)
    ensures r != Pending
    ensures r == Rejected <==> SomeReadFails(|buffers|, failed)
    ensures r.Resolved? ==> r.buffers == buffers
  {
    if SomeReadFails(|buffers|, failed) then Rejected else Resolved(buffers)
  }
}
