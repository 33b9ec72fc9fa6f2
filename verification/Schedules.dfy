/** Endless schedules: a measure that only falls settles. */
module Schedules {
  ghost predicate NoRise(a: nat -> nat, b: nat -> nat, n: nat) {
    a(n + 1) < a(n) || (a(n + 1) == a(n) && b(n + 1) <= b(n))
  }

  ghost predicate Falls(a: nat -> nat, b: nat -> nat, n: nat) {
    a(n + 1) < a(n) || (a(n + 1) == a(n) && b(n + 1) < b(n))
  }

  lemma {:induction false} NoRiseUpTo(a: nat -> nat, b: nat -> nat, n: nat, m: nat)
    requires n <= m && forall k :: NoRise(a, b, k)
    ensures a(m) < a(n) || (a(m) == a(n) && b(m) <= b(n))
    decreases m - n
  {
    if n < m {
      NoRiseUpTo(a, b, n, m - 1);
      assert NoRise(a, b, m - 1);
    }
  }

  /** From some moment on a pair that never rises does not fall either. */
  lemma {:induction false} Settles(a: nat -> nat, b: nat -> nat, n: nat) returns (end: nat)
    requires forall k :: NoRise(a, b, k)
    ensures end >= n && forall k :: k >= end ==> !Falls(a, b, k)
    decreases a(n), b(n)
  {
    if m: nat :| m >= n && Falls(a, b, m) {
      NoRiseUpTo(a, b, n, m);
      end := Settles(a, b, m + 1);
    } else {
      end := n;
    }
  }
}
