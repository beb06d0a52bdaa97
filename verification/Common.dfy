/** What several of the modules need. */
module Common {

  datatype Option<T> = None | Some(value: T)

  /** A stream put together again from the chunks it came in. */
  function Concat<T>(chunks: seq<seq<T>>): (s: seq<T>) {
    if chunks == [] then [] else Concat(chunks[..|chunks| - 1]) + chunks[|chunks| - 1]
  }

  lemma {:induction false} ConcatPrefix<T>(chunks: seq<seq<T>>, i: nat)
    requires i <= |chunks|
    ensures Concat(chunks[..i]) <= Concat(chunks)
    decreases |chunks|
  {
    if i < |chunks| {
      ConcatPrefix(chunks[..|chunks| - 1], i);
      assert chunks[..|chunks| - 1][..i] == chunks[..i];
    } else {
      assert chunks[..i] == chunks;
    }
  }
}
