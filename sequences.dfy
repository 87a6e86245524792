/** Order-keeping sublists, shared by the target list and the message list. */
module Sequences {

  /** `xs` can be obtained from `ys` by deleting elements, keeping the order. */
  predicate Subsequence<T(==)>(xs: seq<T>, ys: seq<T>)
    decreases |ys|
  {
    if xs == [] then true
    else if ys == [] then false
    else if xs[0] == ys[0] then Subsequence(xs[1..], ys[1..])
    else Subsequence(xs, ys[1..])
  }

  /** Deleting the head of the longer sequence keeps a subsequence a subsequence. */
  lemma {:induction false} SubsequenceDrop<T>(xs: seq<T>, ys: seq<T>)
    requires ys != [] && Subsequence(xs, ys[1..])
    ensures Subsequence(xs, ys)
    decreases |ys|, 0
  {
    if xs != [] && xs[0] == ys[0] {
      var ys' := ys[1..];
      assert ys' != [];
      if xs[0] == ys'[0] {
        SubsequenceDrop(xs[1..], ys');
      } else {
        SubsequenceTail(xs, ys'[1..]);
        SubsequenceDrop(xs[1..], ys');
      }
    }
  }

  /** Deleting the head of a subsequence keeps it a subsequence. */
  lemma {:induction false} SubsequenceTail<T>(xs: seq<T>, ys: seq<T>)
    requires xs != [] && Subsequence(xs, ys)
    ensures Subsequence(xs[1..], ys)
    decreases |ys|, 1
  {
    if xs[0] == ys[0] {
      if xs[1..] != [] {
        SubsequenceDrop(xs[1..], ys);
      }
    } else {
      SubsequenceTail(xs, ys[1..]);
      if xs[1..] != [] {
        SubsequenceDrop(xs[1..], ys);
      }
    }
  }
}
