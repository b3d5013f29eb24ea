/** The values the page handles: staged image files and the byte buffers read from them. */
module Files {

  type byte = bv8

  /** A staged file handle: what the page shows (its name) and what a binary read yields. */
  datatype File = File(name: string, contents: seq<byte>)

  datatype Option<T> = None | Some(value: T)

  /** The buffers handed to the merge routine: one per staged file, in staging order. */
  function Buffers(images: seq<File>): (r: seq<seq<byte>>)
    ensures |r| == |images|
    ensures forall k :: 0 <= k < |images| ==> r[k] == images[k].contents
  {
    seq(|images|, k requires 0 <= k < |images| => images[k].contents)
  }
}
