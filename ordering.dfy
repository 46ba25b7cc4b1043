/**
 * What the two investment tables share: the value a sort key reads from a
 * row, a three-way comparison of such values, a stable insertion sort of a
 * copy of the rows (the engine's `Array.prototype.sort` is stable, and for
 * a consistent comparator every stable sort gives the same result), and a
 * sum over the rows.
 */
module Ordering {

  datatype Direction = Asc | Desc

  /** A row's value under a sort key: a number, a string, or anything else (an object). */
  datatype SortValue = Num(n: real) | Str(s: string) | Opaque

  predicate SameKind(a: SortValue, b: SortValue) {
    (a.Num? && b.Num?) || (a.Str? && b.Str?) || (a.Opaque? && b.Opaque?)
  }

  /** Code-point lexicographic order: -1, 0 or 1. */
  function LexCompare(a: string, b: string): (c: int)
    ensures -1 <= c <= 1
    ensures c == 0 <==> a == b
    decreases |a|
  {
    if |a| == 0 && |b| == 0 then 0
    else if |a| == 0 then -1
    else if |b| == 0 then 1
    else if a[0] < b[0] then -1
    else if a[0] > b[0] then 1
    else
      var rest := LexCompare(a[1..], b[1..]);
      assert rest == 0 ==> a == [a[0]] + a[1..] == [b[0]] + b[1..] == b;
      assert a == b ==> a[1..] == b[1..];
      rest
  }

  lemma {:induction false} LexAntisymmetric(a: string, b: string)
    ensures LexCompare(a, b) == -LexCompare(b, a)
    decreases |a|
  {
    if |a| > 0 && |b| > 0 && a[0] == b[0] {
      LexAntisymmetric(a[1..], b[1..]);
    }
  }

  lemma {:induction false} LexTransitive(a: string, b: string, c: string)
    requires LexCompare(a, b) <= 0 && LexCompare(b, c) <= 0
    ensures LexCompare(a, c) <= 0
    decreases |a|
  {
    if |a| > 0 && |b| > 0 && |c| > 0 && a[0] == b[0] && b[0] == c[0] {
      LexTransitive(a[1..], b[1..], c[1..]);
    }
  }

  /** Three-way comparison of two sort values; values of different kinds compare equal. */
  function Compare(a: SortValue, b: SortValue): (c: int)
    ensures -1 <= c <= 1
    ensures !SameKind(a, b) || a.Opaque? ==> c == 0
    ensures a.Num? && b.Num? ==> (c < 0 <==> a.n < b.n) && (c > 0 <==> a.n > b.n)
  {
    match (a, b)
    case (Num(x), Num(y)) => if x < y then -1 else if x > y then 1 else 0
    case (Str(x), Str(y)) => LexCompare(x, y)
    case _ => 0
  }

  /** The comparison under a direction: descending swaps the operands. */
  function Directed(c: int, dir: Direction): int {
    if dir == Asc then c else -c
  }

  function Cmp(a: SortValue, b: SortValue, dir: Direction): int {
    Directed(Compare(a, b), dir)
  }

  lemma CmpAntisymmetric(a: SortValue, b: SortValue, dir: Direction)
    ensures Cmp(a, b, dir) == -Cmp(b, a, dir)
  {
    if a.Str? && b.Str? {
      LexAntisymmetric(a.s, b.s);
    }
  }

  lemma CmpTransitive(a: SortValue, b: SortValue, c: SortValue, dir: Direction)
    requires SameKind(a, b) && SameKind(b, c)
    requires Cmp(a, b, dir) <= 0 && Cmp(b, c, dir) <= 0
    ensures Cmp(a, c, dir) <= 0
  {
    if a.Str? {
      if dir == Asc {
        LexTransitive(a.s, b.s, c.s);
      } else {
        LexAntisymmetric(a.s, c.s);
        LexAntisymmetric(a.s, b.s);
        LexAntisymmetric(b.s, c.s);
        LexTransitive(c.s, b.s, a.s);
      }
    }
  }

  /** Place `x` before the first element that compares greater, after all that compare less or equal. */
  function Insert<T>(x: T, s: seq<T>, key: T -> SortValue, dir: Direction): (r: seq<T>)
    ensures multiset(r) == multiset(s) + multiset{x}
    ensures |r| == |s| + 1
    decreases |s|
  {
    if |s| == 0 then [x]
    else if Cmp(key(s[0]), key(x), dir) > 0 then [x] + s
    else
      var rest := Insert(x, s[1..], key, dir);
      assert s == [s[0]] + s[1..];
      [s[0]] + rest
  }

  /** `[...rows].sort(comparator)`: a new sequence; the input is a value and is left as it was. */
  function SortBy<T>(xs: seq<T>, key: T -> SortValue, dir: Direction): (r: seq<T>)
    ensures multiset(r) == multiset(xs)
    ensures |r| == |xs|
    decreases |xs|
  {
    if |xs| == 0 then []
    else
      var init := xs[..|xs| - 1];
      assert xs == init + [xs[|xs| - 1]];
      Insert(xs[|xs| - 1], SortBy(init, key, dir), key, dir)
  }

  /** Every key read from the rows is of the same kind as `v`. */
  ghost predicate OfKind<T>(xs: seq<T>, key: T -> SortValue, v: SortValue) {
    forall y :: y in xs ==> SameKind(key(y), v)
  }

  predicate Sorted<T>(s: seq<T>, key: T -> SortValue, dir: Direction) {
    forall i, j :: 0 <= i < j < |s| ==> Cmp(key(s[i]), key(s[j]), dir) <= 0
  }

  lemma CmpReflexive(a: SortValue, dir: Direction)
    ensures Cmp(a, a, dir) == 0
  {
    CmpAntisymmetric(a, a, dir);
  }

  /** The head of a sorted sequence compares less or equal to every element. */
  lemma HeadLeast<T>(s: seq<T>, key: T -> SortValue, dir: Direction, y: T)
    requires Sorted(s, key, dir) && |s| > 0 && y in s
    ensures Cmp(key(s[0]), key(y), dir) <= 0
  {
    var j :| 0 <= j < |s| && s[j] == y;
    if j == 0 {
      CmpReflexive(key(y), dir);
    }
  }

  lemma ConsSorted<T>(h: T, t: seq<T>, key: T -> SortValue, dir: Direction)
    requires Sorted(t, key, dir)
    requires forall y :: y in t ==> Cmp(key(h), key(y), dir) <= 0
    ensures Sorted([h] + t, key, dir)
  {
    var r := [h] + t;
    forall i, j | 0 <= i < j < |r| ensures Cmp(key(r[i]), key(r[j]), dir) <= 0 {
      assert r[j] == t[j - 1];
      if i > 0 {
        assert r[i] == t[i - 1];
      } else {
        assert t[j - 1] in t;
      }
    }
  }

  /** `x` in front of a sorted sequence whose head compares greater. */
  lemma InsertFront<T>(x: T, s: seq<T>, key: T -> SortValue, dir: Direction, v: SortValue)
    requires Sorted(s, key, dir) && |s| > 0 && OfKind(s, key, v) && SameKind(key(x), v)
    requires Cmp(key(s[0]), key(x), dir) > 0
    ensures Sorted([x] + s, key, dir)
  {
    CmpAntisymmetric(key(s[0]), key(x), dir);
    forall y | y in s ensures Cmp(key(x), key(y), dir) <= 0 {
      HeadLeast(s, key, dir, y);
      assert s[0] in s;
      CmpTransitive(key(x), key(s[0]), key(y), dir);
    }
    ConsSorted(x, s, key, dir);
  }

  lemma SortedTail<T>(s: seq<T>, key: T -> SortValue, dir: Direction)
    requires Sorted(s, key, dir) && |s| > 0
    ensures Sorted(s[1..], key, dir)
  {
    var t := s[1..];
    forall i, j | 0 <= i < j < |t| ensures Cmp(key(t[i]), key(t[j]), dir) <= 0 {
      assert t[i] == s[i + 1] && t[j] == s[j + 1];
    }
  }

  lemma {:induction false} InsertSorted<T>(x: T, s: seq<T>, key: T -> SortValue, dir: Direction, v: SortValue)
    requires Sorted(s, key, dir) && OfKind(s, key, v) && SameKind(key(x), v)
    ensures Sorted(Insert(x, s, key, dir), key, dir)
    decreases |s|
  {
    if |s| > 0 {
      if Cmp(key(s[0]), key(x), dir) > 0 {
        InsertFront(x, s, key, dir, v);
      } else {
        var tail := s[1..];
        SortedTail(s, key, dir);
        assert OfKind(tail, key, v) by {
          forall y | y in tail ensures SameKind(key(y), v) {
            assert y in s;
          }
        }
        InsertSorted(x, tail, key, dir, v);
        var rest := Insert(x, tail, key, dir);
        forall y | y in rest ensures Cmp(key(s[0]), key(y), dir) <= 0 {
          assert y in multiset(tail) + multiset{x};
          if y != x {
            assert y in s;
            HeadLeast(s, key, dir, y);
          }
        }
        ConsSorted(s[0], rest, key, dir);
      }
    }
  }

  /** When every key is of one kind, the comparator is consistent and the result is in order. */
  lemma {:induction false} SortBySorted<T>(xs: seq<T>, key: T -> SortValue, dir: Direction, v: SortValue)
    requires OfKind(xs, key, v)
    ensures Sorted(SortBy(xs, key, dir), key, dir)
    decreases |xs|
  {
    if |xs| > 0 {
      var init := xs[..|xs| - 1];
      var x := xs[|xs| - 1];
      assert OfKind(init, key, v) by {
        forall y | y in init ensures SameKind(key(y), v) {
          assert y in xs;
        }
      }
      SortBySorted(init, key, dir, v);
      var sorted := SortBy(init, key, dir);
      assert OfKind(sorted, key, v) by {
        forall y | y in sorted ensures SameKind(key(y), v) {
          assert y in multiset(init);
          assert y in init;
        }
      }
      InsertSorted(x, sorted, key, dir, v);
    }
  }

  /** `reduce((total, row) => total + f(row), 0)`. */
  function Sum<T>(xs: seq<T>, f: T -> real): real
    decreases |xs|
  {
    if |xs| == 0 then 0.0 else f(xs[0]) + Sum(xs[1..], f)
  }

  lemma {:induction false} SumAppend<T>(a: seq<T>, b: seq<T>, f: T -> real)
    ensures Sum(a + b, f) == Sum(a, f) + Sum(b, f)
    decreases |a|
  {
    if |a| == 0 {
      assert a + b == b;
    } else {
      assert (a + b)[1..] == a[1..] + b;
      SumAppend(a[1..], b, f);
    }
  }

  /** The sum does not depend on the order of the rows. */
  lemma {:induction false} SumPermutation<T>(a: seq<T>, b: seq<T>, f: T -> real)
    requires multiset(a) == multiset(b)
    ensures Sum(a, f) == Sum(b, f)
    decreases |a|
  {
    if |a| > 0 {
      var x := a[0];
      assert x in multiset(b);
      var k :| 0 <= k < |b| && b[k] == x;
      var rest := b[..k] + b[k + 1..];
      assert b == b[..k] + [x] + b[k + 1..];
      SumAppend(b[..k] + [x], b[k + 1..], f);
      SumAppend(b[..k], [x], f);
      SumAppend(b[..k], b[k + 1..], f);
      assert Sum([x], f) == f(x) + Sum([], f);
      assert a == [x] + a[1..];
      assert multiset(a[1..]) == multiset(rest) by {
        assert multiset(rest) == multiset(b[..k]) + multiset(b[k + 1..]);
        assert multiset(a) == multiset{x} + multiset(a[1..]);
        assert multiset(b) == multiset(b[..k]) + multiset{x} + multiset(b[k + 1..]);
        assert multiset(a[1..]) == multiset(a) - multiset{x};
        assert multiset(rest) == multiset(b) - multiset{x};
      }
      SumPermutation(a[1..], rest, f);
    } else {
      assert b == [];
    }
  }
}
