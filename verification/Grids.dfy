/** Rising sequences of instants, unbounded both ways, and a function that steps from
    any instant to the next of them. */
module Grids {
  ghost predicate Rising(b: int -> int) {
    forall i, j :: i < j ==> b(i) < b(j)
  }

  /** `t` lies between number `i` and the next. */
  predicate Between(b: int -> int, i: int, t: int) { b(i) <= t < b(i + 1) }

  /** `next` goes to the end of the interval that `index` finds. */
  predicate FitsAt(next: int -> int, b: int -> int, index: int -> int, t: int) {
    Between(b, index(t), t) && next(t) == b(index(t) + 1)
  }

  lemma FitsIf(next: int -> int, b: int -> int, index: int -> int, t: int, i: int, low: int, high: int)
    requires index(t) == i && b(i) == low && b(i + 1) == high && low <= t < high && next(t) == high
    ensures FitsAt(next, b, index, t)
  {}

  ghost predicate Fits(next: int -> int, b: int -> int, index: int -> int) {
    Rising(b) && forall t :: FitsAt(next, b, index, t)
  }

  /** `n` is the least member after `t`. */
  ghost predicate LeastAfter(b: int -> int, t: int, n: int) {
    n > t && (exists k :: n == b(k)) && forall k :: b(k) > t ==> b(k) >= n
  }

  function Repeat(next: int -> int, t: int, n: nat): int {
    if n == 0 then t else next(Repeat(next, t, n - 1))
  }

  /** Repeating `next` from `t` visits every later member, rising all the time. */
  ghost predicate VisitsAll(next: int -> int, b: int -> int, t: int) {
    && (forall k :: b(k) > t ==> exists n: nat :: n > 0 && Repeat(next, t, n) == b(k))
    && (forall n: nat, m: nat :: 0 < n < m ==> Repeat(next, t, n) < Repeat(next, t, m))
  }

  lemma NextIsLeast(next: int -> int, b: int -> int, index: int -> int, t: int)
    requires Fits(next, b, index)
    ensures LeastAfter(b, t, next(t))
  {
    var i := index(t);
    assert FitsAt(next, b, index, t);
    forall k | b(k) > t ensures b(k) >= b(i + 1) {
      assert k < i + 1 ==> k == i || k < i;
    }
  }

  lemma IndexOf(next: int -> int, b: int -> int, index: int -> int, k: int)
    requires Fits(next, b, index)
    ensures index(b(k)) == k
  {
    var i := index(b(k));
    assert FitsAt(next, b, index, b(k));
    assert k < i + 1 && i <= k;
  }

  lemma {:induction false} RepeatIs(next: int -> int, b: int -> int, index: int -> int, t: int, n: nat)
    requires Fits(next, b, index) && n > 0
    ensures Repeat(next, t, n) == b(index(t) + n)
  {
    if n == 1 {
      assert FitsAt(next, b, index, t);
      assert Repeat(next, t, 1) == next(Repeat(next, t, 0));
    } else {
      RepeatIs(next, b, index, t, n - 1);
      var k := index(t) + n - 1;
      IndexOf(next, b, index, k);
      assert FitsAt(next, b, index, b(k));
    }
  }

  lemma Visited(next: int -> int, b: int -> int, index: int -> int, t: int, k: int)
    requires Fits(next, b, index) && b(k) > t
    ensures exists n: nat :: n > 0 && Repeat(next, t, n) == b(k)
  {
    var i := index(t);
    assert FitsAt(next, b, index, t);
    assert k > i;
    RepeatIs(next, b, index, t, k - i);
  }

  lemma Advances(next: int -> int, b: int -> int, index: int -> int, t: int, n: nat, m: nat)
    requires Fits(next, b, index) && 0 < n < m
    ensures Repeat(next, t, n) < Repeat(next, t, m)
  {
    RepeatIs(next, b, index, t, n);
    RepeatIs(next, b, index, t, m);
    assert index(t) + n < index(t) + m;
  }

  lemma RepeatVisitsAll(next: int -> int, b: int -> int, index: int -> int, t: int)
    requires Fits(next, b, index)
    ensures VisitsAll(next, b, t)
  {
    forall k | b(k) > t ensures exists n: nat :: n > 0 && Repeat(next, t, n) == b(k) {
      Visited(next, b, index, t, k);
    }
    forall n: nat, m: nat | 0 < n < m ensures Repeat(next, t, n) < Repeat(next, t, m) {
      Advances(next, b, index, t, n, m);
    }
  }

  /** The sum of `d` from 0 up to `k`, or down to `k`. */
  function Sum(d: int -> int, k: int): int
    decreases if k >= 0 then k else -k
  {
    if k == 0 then 0
    else if k > 0 then Sum(d, k - 1) + d(k - 1)
    else Sum(d, k + 1) - d(k)
  }

  /** A function whose differences are `d` is its sum. */
  lemma {:induction false} SumIs(d: int -> int, g: int -> int, k: int)
    requires g(0) == 0 && forall m :: Difference(g, m) == d(m)
    ensures Sum(d, k) == g(k)
    decreases if k >= 0 then k else -k
  {
    if k > 0 {
      SumIs(d, g, k - 1);
      assert Difference(g, k - 1) == d(k - 1);
    } else if k < 0 {
      SumIs(d, g, k + 1);
      assert Difference(g, k) == d(k);
    }
  }

  function Difference(g: int -> int, m: int): int { g(m + 1) - g(m) }

  lemma {:induction false} SumRises(d: int -> int, least: nat, a: int, b: int)
    requires a <= b && forall m :: d(m) >= least
    ensures Sum(d, b) - Sum(d, a) >= least * (b - a)
    decreases b - a
  {
    if a < b {
      SumRises(d, least, a, b - 1);
      assert d(b - 1) >= least;
      assert least * (b - a) == least * (b - 1 - a) + least;
    }
  }
}
