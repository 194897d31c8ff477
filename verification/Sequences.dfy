/** Sizes of sequences of chunks, shared by the terminal models. */
module Sequences {

  /** Number of elements in all chunks together. */
  function TotalSize<T>(chunks: seq<seq<T>>): nat
  {
    if chunks == [] then 0 else TotalSize(chunks[..|chunks| - 1]) + |chunks[|chunks| - 1]|
  }

  lemma {:induction false} TotalSizeAppend<T>(chunks: seq<seq<T>>, chunk: seq<T>)
    ensures TotalSize(chunks + [chunk]) == TotalSize(chunks) + |chunk|
  {
    assert (chunks + [chunk])[..|chunks|] == chunks;
  }

  lemma {:induction false} TotalSizeConcat<T>(a: seq<seq<T>>, b: seq<seq<T>>)
    ensures TotalSize(a + b) == TotalSize(a) + TotalSize(b)
  {
    if b == [] {
      assert a + b == a;
    } else {
      var init := b[..|b| - 1];
      TotalSizeConcat(a, init);
      assert (a + b)[..|a + b| - 1] == a + init;
    }
  }
}
