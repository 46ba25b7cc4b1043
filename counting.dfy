/** Counting the elements of a sequence that have a property. */
module Counting {
  /** How many elements of `t` satisfy `p`. */
  function CountIf<T>(t: seq<T>, p: T -> bool): nat
    decreases |t|
  {
    if |t| == 0 then 0 else CountIf(t[..|t| - 1], p) + (if p(t[|t| - 1]) then 1 else 0)
  }

  /** Counting over two pieces adds up. */
  lemma {:induction false} CountIfAppend<T>(a: seq<T>, b: seq<T>, p: T -> bool)
    ensures CountIf(a + b, p) == CountIf(a, p) + CountIf(b, p)
    decreases |b|
  {
    if |b| > 0 {
      assert (a + b)[..|a + b| - 1] == a + b[..|b| - 1];
      CountIfAppend(a, b[..|b| - 1], p);
    } else {
      assert a + b == a;
    }
  }
}
