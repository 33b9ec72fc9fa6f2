/** ASCII case, and the documented semantics of strings.Replacer: left to right,
    without overlaps, the first old string in argument order winning. */
module Replacer {
  predicate IsUpper(c: char) { 'A' <= c <= 'Z' }
  predicate IsLower(c: char) { 'a' <= c <= 'z' }
  predicate IsDigit(c: char) { '0' <= c <= '9' }

  function Low(c: char): (r: char)
    ensures !IsUpper(r) && IsDigit(r) == IsDigit(c)
  {
    if IsUpper(c) then ((c as int) + 32) as char else c
  }

  function Up(c: char): (r: char)
    ensures !IsLower(r) && IsDigit(r) == IsDigit(c)
    ensures Low(r) == Low(c)
  {
    if IsLower(c) then ((c as int) - 32) as char else c
  }

  function Lower(s: string): (r: string)
    ensures |r| == |s| && forall i :: 0 <= i < |s| ==> r[i] == Low(s[i])
  {
    seq(|s|, i requires 0 <= i < |s| => Low(s[i]))
  }

  function Capitalize(s: string): (r: string)
    requires s != ""
    ensures |r| == |s|
  {
    [Up(s[0])] + s[1..]
  }

  /** `w` stands in `s` at position `j`. */
  predicate Reads(w: string, s: string, j: nat) {
    j + |w| <= |s| && forall p :: 0 <= p < |w| ==> s[j + p] == w[p]
  }

  lemma ReadsBehind(w: string, a: string, s: string, j: nat)
    ensures Reads(w, a + s, |a| + j) <==> Reads(w, s, j)
  {
    var i, t := |a| + j, a + s;
    if Reads(w, s, j) {
      forall p | 0 <= p < |w| ensures t[i + p] == w[p] {
        assert t[|a| + (j + p)] == s[j + p];
      }
    }
    if Reads(w, t, i) {
      forall p | 0 <= p < |w| ensures s[j + p] == w[p] {
        assert t[i + p] == s[j + p];
      }
    }
  }

  lemma NotFirst(w: string, s: string, j: nat)
    requires w != "" && j < |s| && s[j] != w[0]
    ensures !Reads(w, s, j)
  {
    assert s[j + 0] == s[j];
  }

  /** Old strings and their replacements, index by index. */
  datatype Table = Table(olds: seq<string>, news: seq<string>) {
    /** A replacement is as long as what it replaces. */
    ghost predicate Even() {
      |olds| == |news| && forall k :: 0 <= k < |olds| ==> |olds[k]| == |news[k]| > 0
    }

    /** The first old string, in argument order, that stands in `s` at `j`; or |olds|. */
    function Match(s: string, j: nat, from: nat := 0): (k: nat)
      requires from <= |olds|
      ensures from <= k <= |olds|
      ensures k < |olds| ==> Reads(olds[k], s, j)
      decreases |olds| - from
    {
      if from == |olds| || Reads(olds[from], s, j) then from else Match(s, j, from + 1)
    }

    lemma {:induction false} MatchIsFirst(s: string, j: nat, m: nat, from: nat := 0)
      requires from <= m < |olds| && Reads(olds[m], s, j)
      ensures Match(s, j, from) <= m
      decreases |olds| - from
    {
      if from < m && !Reads(olds[from], s, j) {
        MatchIsFirst(s, j, m, from + 1);
      }
    }

    /** How much the replacer consumes in one go at `j`. */
    function Token(s: string, j: nat): (n: nat)
      requires Even() && j < |s|
      ensures n > 0 && j + n <= |s|
    {
      var k := Match(s, j);
      if k < |olds| then |olds[k]| else 1
    }

    /** What it writes for that. */
    function Written(s: string, j: nat): (w: string)
      requires Even() && j < |s|
      ensures |w| == Token(s, j)
    {
      var k := Match(s, j);
      if k < |olds| then news[k] else [s[j]]
    }

    /** The replacement of what follows from `j` on. */
    function Rest(s: string, j: nat): (r: string)
      requires Even() && j <= |s|
      ensures |r| == |s| - j
      decreases |s| - j
    {
      if j == |s| then "" else Written(s, j) + Rest(s, j + Token(s, j))
    }

    function Replace(s: string): (r: string)
      requires Even()
      ensures |r| == |s|
    {
      Rest(s, 0)
    }

    /** A left-to-right reading that stands at `j` comes to stand at `i`. */
    ghost predicate Reaches(s: string, j: nat, i: nat)
      requires Even() && j <= |s| && i <= |s|
      decreases |s| - j
    {
      j == i || (j < i && Reaches(s, j + Token(s, j), i))
    }

    ghost predicate Start(s: string, i: nat)
      requires Even() && i <= |s|
    {
      Reaches(s, 0, i)
    }

    /** From a position the reading comes to stand at, it does not look back. */
    lemma {:induction false} RestFrom(s: string, j: nat, i: nat, p: nat)
      requires Even() && j <= i <= p < |s| && Reaches(s, j, i)
      ensures Rest(s, j)[p - j] == Rest(s, i)[p - i]
      decreases |s| - j
    {
      if j < i {
        var next := ReachesOn(s, j, i);
        RestBehind(s, j, next, p);
        RestFrom(s, next, i, p);
      }
    }

    lemma ReachesOn(s: string, j: nat, i: nat) returns (next: nat)
      requires Even() && j < i <= |s| && Reaches(s, j, i)
      ensures next == j + Token(s, j) <= i && Reaches(s, next, i)
    {
      next := j + Token(s, j);
    }

    lemma RestBehind(s: string, j: nat, next: nat, p: nat)
      requires Even() && j < |s| && next == j + Token(s, j) <= p < |s|
      ensures Rest(s, j)[p - j] == Rest(s, next)[p - next]
    {
      var w, r := Written(s, j), Rest(s, next);
      assert Rest(s, j) == w + r;
    }

    lemma RestHere(s: string, j: nat, p: nat)
      requires Even() && j <= p < |s| && p < j + Token(s, j)
      ensures Rest(s, j)[p - j] == Written(s, j)[p - j]
    {
      assert Rest(s, j) == Written(s, j) + Rest(s, j + Token(s, j));
    }

    /** What the replacer writes at the token that starts at `j`. */
    lemma TokenAt(s: string, j: nat, p: nat)
      requires Even() && j <= p < |s| && Start(s, j) && p < j + Token(s, j)
      ensures var k := Match(s, j);
              if k < |olds| then s[p] == olds[k][p - j] && Replace(s)[p] == news[k][p - j]
              else p == j && Replace(s)[p] == s[p]
    {
      RestFrom(s, 0, j, p);
      RestHere(s, j, p);
      var k := Match(s, j);
      if k < |olds| {
        assert s[j + (p - j)] == olds[k][p - j];
      }
    }

    /** Every position lies in the token of some start. */
    lemma Covered(s: string, p: nat) returns (j: nat)
      requires Even() && p < |s|
      ensures j <= p && Start(s, j) && p < j + Token(s, j)
    {
      j := CoveredFrom(s, 0, p);
    }

    lemma {:induction false} CoveredFrom(s: string, i: nat, p: nat) returns (j: nat)
      requires Even() && i <= p < |s|
      ensures i <= j <= p && Reaches(s, i, j) && p < j + Token(s, j)
      decreases |s| - i
    {
      var n := Token(s, i);
      if p < i + n {
        j := i;
      } else {
        j := CoveredFrom(s, i + n, p);
      }
    }

    lemma {:induction false} ReachesNext(s: string, j: nat, i: nat)
      requires Even() && j <= |s| && i < |s| && Reaches(s, j, i)
      ensures Reaches(s, j, i + Token(s, i))
      decreases |s| - j
    {
      if j < i {
        ReachesNext(s, j + Token(s, j), i);
      } else {
        assert Reaches(s, i + Token(s, i), i + Token(s, i));
      }
    }

    /** The reading that stands at `j` next stands behind the token at `j`. */
    lemma NextStart(s: string, j: nat)
      requires Even() && j < |s| && Start(s, j)
      ensures Start(s, j + Token(s, j))
    {
      ReachesNext(s, 0, j);
    }

    lemma {:induction false} ReachesApart(s: string, a: nat, i: nat, j: nat)
      requires Even() && a <= i < j <= |s| && Reaches(s, a, i) && Reaches(s, a, j)
      ensures i + Token(s, i) <= j
      decreases |s| - a
    {
      var next := ReachesOn(s, a, j);
      if a < i {
        var _ := ReachesOn(s, a, i);
        ReachesApart(s, next, i, j);
      }
    }

    /** No reading starts inside a token. */
    lemma StartsApart(s: string, i: nat, j: nat)
      requires Even() && i < j <= |s| && Start(s, i) && Start(s, j)
      ensures i + Token(s, i) <= j
    {
      ReachesApart(s, 0, i, j);
    }

    /** The token that ends where another starts. */
    lemma TokenBefore(s: string, j: nat) returns (i: nat)
      requires Even() && 0 < j <= |s| && Start(s, j)
      ensures i < j && Start(s, i) && j == i + Token(s, i)
    {
      i := Covered(s, j - 1);
      StartsApart(s, i, j);
    }

    /** What stands further left does not matter. */
    lemma {:induction false} MatchBehind(a: string, s: string, j: nat, from: nat)
      requires from <= |olds|
      ensures Match(a + s, |a| + j, from) == Match(s, j, from)
      decreases |olds| - from
    {
      if from < |olds| {
        ReadsBehind(olds[from], a, s, j);
        MatchBehind(a, s, j, from + 1);
      }
    }

    lemma WrittenBehind(a: string, s: string, j: nat)
      requires Even() && j < |s|
      ensures Token(a + s, |a| + j) == Token(s, j) && Written(a + s, |a| + j) == Written(s, j)
    {
      MatchBehind(a, s, j, 0);
      assert (a + s)[|a| + j] == s[j];
    }

    lemma SameRest(t: string, i: nat, s: string, j: nat, n: nat)
      requires Even() && i < |t| && j < |s| && n == Token(t, i) == Token(s, j)
      requires Written(t, i) == Written(s, j) && Rest(t, i + n) == Rest(s, j + n)
      ensures Rest(t, i) == Rest(s, j)
    {}

    lemma {:induction false} ReplacesBehind(a: string, s: string, i: nat, j: nat)
      requires Even() && j <= |s| && i == |a| + j
      ensures Rest(a + s, i) == Rest(s, j)
      decreases |s| - j
    {
      if j < |s| {
        var n := Token(s, j);
        WrittenBehind(a, s, j);
        ReplacesBehind(a, s, i + n, j + n);
        SameRest(a + s, i, s, j, n);
      }
    }

    /** No old string begins with `c`. */
    ghost predicate NoneBegins(c: char)
      requires Even()
    {
      forall k :: 0 <= k < |olds| ==> olds[k][0] != c
    }

    lemma StandsAlone(s: string, j: nat)
      requires Even() && j < |s| && NoneBegins(s[j])
      ensures Match(s, j) == |olds|
    {
      forall k | 0 <= k < |olds| ensures !Reads(olds[k], s, j) {
        NotFirst(olds[k], s, j);
      }
    }

    /** A beginning in which no old string begins is left alone, and behind it the replacer
        starts afresh. */
    lemma {:induction false} LeavesAlone(a: string, s: string, j: nat := 0)
      requires Even() && j <= |a| && forall p :: j <= p < |a| ==> NoneBegins(a[p])
      ensures Rest(a + s, j) == a[j..] + Replace(s)
      decreases |a| - j
    {
      if j == |a| {
        ReplacesBehind(a, s, j, 0);
        assert a[j..] + Replace(s) == Replace(s);
      } else {
        assert (a + s)[j] == a[j];
        StandsAlone(a + s, j);
        LeavesAlone(a, s, j + 1);
        assert a[j..] == [a[j]] + a[j + 1..];
      }
    }

    lemma NextStartAt(s: string, j: nat, i: nat)
      requires Even() && j < |s| && Start(s, j) && i == j + Token(s, j)
      ensures i <= |s| && Start(s, i)
    {
      NextStart(s, j);
    }
  }
}
