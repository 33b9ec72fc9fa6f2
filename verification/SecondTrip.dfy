/** On which inputs going to camel case a second time changes nothing: text that is cased
    without neighbouring capitals keeps its initialisms unless "UiDns" stands in it,
    where "UI" and "DNS" are read back as "UID" and "NS". */
module SecondTrip {
  import opened Replacer
  import opened Casing
  import opened TwinTables

  /** What is used of the table beyond the general facts: where four entries stand, and
      that "DNS" is the only entry in D and none is in N. */
  datatype Marks = Marks(ui: nat, uid: nat, id: nat, dns: nat)

  ghost predicate HeadAt(t: Twins, k: nat) {
    k < |t.abbrs| ==>
      t.abbrs[k] != "" && (t.abbrs[k][0] == 'D' ==> t.abbrs[k] == "DNS") && t.abbrs[k][0] != 'N'
  }

  ghost predicate Marked(t: Twins, m: Marks) {
    && t.Facts() && t.raise.Even() && t.fold.Even()
    && m.ui < |t.abbrs| && t.abbrs[m.ui] == "UI" && m.uid < |t.abbrs| && t.abbrs[m.uid] == "UID"
    && m.id < |t.abbrs| && t.abbrs[m.id] == "ID" && m.dns < |t.abbrs| && t.abbrs[m.dns] == "DNS"
    && forall k: nat :: HeadAt(t, k)
  }

  ghost predicate NoUiDnsBefore(s: string, j: nat) {
    forall i: nat :: i < j ==> !UiDnsAt(s, i)
  }

  /** `j` stands on the D of some "UiD". */
  predicate OnUiD(s: string, j: nat) { j >= 2 && UiDAt(s, j - 2) }

  lemma RunsApart(s: string)
    requires NoRun(s)
    ensures CapitalsApart(s)
  {
    forall i: nat ensures !BothUpper(s, i) {
      assert !RunAt(s, i + 1);
    }
  }

  /** At "UiD" raising writes "UID". */
  lemma UidWritten(t: Twins, m: Marks, s: string, j: nat)
    requires Marked(t, m) && UiDAt(s, j)
    ensures Reads(t.abbrs[m.uid], t.Raised(s), j)
  {
    var x := t.Raised(s);
    t.CapitalStartsRaise(s, j);
    t.CapitalStartsRaise(s, j + 2);
    t.UiRaised(s, j, m.ui);
    assert x[j] == 'U' && x[j + 1] == 'I' && x[j + 2] == 'D';
    ReadsThree(t.abbrs[m.uid], x, j);
  }

  lemma ReadsThree(w: string, x: string, j: nat)
    requires |w| == 3 && j + 2 < |x| && x[j] == w[0] && x[j + 1] == w[1] && x[j + 2] == w[2]
    ensures Reads(w, x, j)
  {}

  /** And folding, if it starts there, reads just that. */
  lemma UidFolded(t: Twins, m: Marks, s: string, j: nat)
    requires Marked(t, m) && UiDAt(s, j) && t.fold.Start(t.Raised(s), j)
    ensures t.fold.Start(t.Raised(s), j + 3)
  {
    UidWritten(t, m, s, j);
    t.FoldsExactly(t.Raised(s), j, m.uid);
  }

  /** A token that begins with D is "Dns". */
  lemma DTokens(t: Twins, m: Marks, s: string, j: nat)
    requires Marked(t, m) && j < |s| && s[j] == 'D' && t.raise.Match(s, j) < |t.camels|
    ensures j + 2 < |s| && s[j + 1] == 'n' && s[j + 2] == 's'
  {
    var k := t.raise.Match(s, j);
    assert s[j + 0] == t.camels[k][0] == t.abbrs[k][0];
    assert HeadAt(t, k);
    assert s[j + 1] == t.camels[k][1] == Low(t.abbrs[k][1]) && s[j + 2] == t.camels[k][2] == Low(t.abbrs[k][2]);
  }

  /** From a start of both readings on to the next start of the first. */
  lemma StepFromBoth(t: Twins, m: Marks, s: string, i: nat)
    requires Marked(t, m) && CapitalsApart(s) && i < |s| && t.raise.Start(s, i) && t.fold.Start(t.Raised(s), i)
    ensures var j := i + t.raise.Token(s, i); t.fold.Start(t.Raised(s), j) || OnUiD(s, j)
  {
    var x, k := t.Raised(s), t.raise.Match(s, i);
    if k == |t.camels| {
      t.NothingToFold(s, i);
      t.fold.NextStart(x, i);
    } else {
      var f := FoldAtRaised(t, s, i);
      if f == k {
        t.fold.NextStart(x, i);
      } else {
        UidReadForUi(t, s, i, f, k);
      }
    }
  }

  /** Where raising read an initialism folding reads the same, or "UID" for "UI". */
  lemma FoldAtRaised(t: Twins, s: string, i: nat) returns (f: nat)
    requires t.Facts() && t.raise.Even() && t.fold.Even() && i < |s| && t.raise.Match(s, i) < |t.camels|
    requires t.raise.Start(s, i) && t.fold.Start(t.Raised(s), i)
    ensures f == t.fold.Match(t.Raised(s), i) < |t.abbrs|
    ensures f == t.raise.Match(s, i) || (t.abbrs[t.raise.Match(s, i)] == "UI" && t.abbrs[f] == "UID")
    ensures Reads(t.abbrs[f], t.Raised(s), i)
  {
    var x, k := t.Raised(s), t.raise.Match(s, i);
    t.RaisedToken(s, i);
    t.FoldConsumes(x, i, k);
    f := t.fold.Match(x, i);
    if f != k {
      t.EarlierIsUid(x, i, f, k);
    }
  }

  lemma UidReadForUi(t: Twins, s: string, i: nat, f: nat, k: nat)
    requires t.Facts() && t.raise.Even() && t.fold.Even() && i < |s| && t.raise.Start(s, i)
    requires k == t.raise.Match(s, i) < |t.camels| && t.abbrs[k] == "UI"
    requires f < |t.abbrs| && t.abbrs[f] == "UID" && Reads(t.abbrs[f], t.Raised(s), i)
    ensures OnUiD(s, i + 2) && t.raise.Token(s, i) == 2
  {
    assert t.Raised(s)[i + 2] == t.abbrs[f][2];
    t.raise.NextStart(s, i);
    t.HeadsKept(s, i + 2);
    assert s[i + 0] == t.camels[k][0] && s[i + 1] == t.camels[k][1];
  }

  /** From the D of a "UiD" that does not go on with "ns", both readings go on behind it. */
  lemma StepFromD(t: Twins, m: Marks, s: string, i: nat)
    requires Marked(t, m) && OnUiD(s, i) && !UiDnsAt(s, i - 2) && t.fold.Start(t.Raised(s), i - 2)
    ensures t.raise.Token(s, i) == 1 && t.fold.Start(t.Raised(s), i + 1)
  {
    UidFolded(t, m, s, i - 2);
    LoneD(t, m, s, i);
  }

  /** A D that does not go on with "ns" is read as no initialism. */
  lemma LoneD(t: Twins, m: Marks, s: string, j: nat)
    requires Marked(t, m) && j < |s| && s[j] == 'D' && !(j + 2 < |s| && s[j + 1] == 'n' && s[j + 2] == 's')
    ensures t.raise.Token(s, j) == 1
  {
    if t.raise.Match(s, j) < |t.camels| {
      DTokens(t, m, s, j);
    }
  }

  /** Folding starts at `j`, or `j` is the D of "UiD". */
  ghost predicate Together(t: Twins, s: string, j: nat)
    requires t.raise.Even() && t.fold.Even() && j <= |s|
  {
    t.fold.Start(t.Raised(s), j) || OnUiD(s, j)
  }

  /** As long as no "UiDns" has begun, folding starts wherever raising does, but on the
      D of "UiD". */
  lemma {:induction false} InStep(t: Twins, m: Marks, s: string, j: nat)
    requires Marked(t, m) && CapitalsApart(s) && j <= |s| && t.raise.Start(s, j) && NoUiDnsBefore(s, j)
    ensures Together(t, s, j)
    decreases j
  {
    if j > 0 {
      var i := t.raise.TokenBefore(s, j);
      InStep(t, m, s, i);
      if t.fold.Start(t.Raised(s), i) {
        StepFromBoth(t, m, s, i);
      } else {
        t.CapitalStartsRaise(s, i - 2);
        InStep(t, m, s, i - 2);
        StepFromD(t, m, s, i);
      }
    }
  }

  // ---- "UiDns" spoils it ----

  /** The first "UiDns" is read back as "UID", 'N' and something in 'S'. */
  lemma UiDnsRuns(t: Twins, m: Marks, s: string, i: nat)
    requires Marked(t, m) && CapitalsApart(s) && UiDnsAt(s, i) && NoUiDnsBefore(s, i)
    ensures !NoRun(t.Folded(t.Raised(s)))
  {
    var x := t.Raised(s);
    t.CapitalStartsRaise(s, i);
    InStep(t, m, s, i);
    UidFolded(t, m, s, i);
    DnsRaised(t, m, s, i + 2);
    NsRuns(t, m, x, i + 3);
  }

  /** Where "NS" is read as no initialism, two capitals stay. */
  lemma NsRuns(t: Twins, m: Marks, x: string, j: nat)
    requires Marked(t, m) && j + 1 < |x| && t.fold.Start(x, j) && x[j] == 'N' && x[j + 1] == 'S'
    ensures !NoRun(t.Folded(x))
  {
    NothingInN(t, m, x, j);
    t.fold.NextStart(x, j);
    t.HeadsKept(x, j);
    t.HeadsKept(x, j + 1);
    assert RunAt(t.Folded(x), j + 1);
  }

  lemma DnsRaised(t: Twins, m: Marks, s: string, j: nat)
    requires Marked(t, m) && j + 2 < |s| && s[j] == 'D' && s[j + 1] == 'n' && s[j + 2] == 's'
    ensures t.Raised(s)[j + 1] == 'N' && t.Raised(s)[j + 2] == 'S'
  {
    t.CapitalStartsRaise(s, j);
    assert Reads(t.camels[m.dns], s, j);
    t.RaiseConsumes(s, j, m.dns);
    assert t.Raised(s)[j + 1] == t.abbrs[m.dns][1] && t.Raised(s)[j + 2] == t.abbrs[m.dns][2];
  }

  lemma NothingInN(t: Twins, m: Marks, x: string, j: nat)
    requires Marked(t, m) && j < |x| && x[j] == 'N'
    ensures t.fold.Match(x, j) == |t.abbrs|
  {
    var k := t.fold.Match(x, j);
    assert HeadAt(t, k);
    if k < |t.abbrs| {
      assert false;
    }
  }

  // ---- and nothing else does ----

  /** Where folding starts raising changed nothing. */
  lemma FoldStartsKept(t: Twins, m: Marks, s: string, p: nat)
    requires Marked(t, m) && CapitalsApart(s) && NoUiDns(s) && p < |s| && t.fold.Start(t.Raised(s), p)
    ensures t.Raised(s)[p] == s[p]
  {
    var x := t.Raised(s);
    if x[p] != s[p] {
      var i, k := t.RaisedInside(s, p);
      InStep(t, m, s, i);
      if t.fold.Start(x, i) {
        t.FoldConsumes(x, i, k);
        t.fold.StartsApart(x, i, p);
      } else {
        DTokens(t, m, s, i);
        assert UiDnsAt(s, i - 2);
      }
      assert false;
    }
  }

  lemma BigWas(t: Twins, m: Marks, s: string, p: nat)
    requires Marked(t, m) && CapitalsApart(s) && NoUiDns(s) && p < |s| && Big(t.Folded(t.Raised(s))[p])
    ensures Big(s[p]) && (IsUpper(t.Folded(t.Raised(s))[p]) ==> IsUpper(s[p]))
  {
    var x := t.Raised(s);
    if IsUpper(t.Folded(x)[p]) {
      t.CapitalStartsFold(x, p);
      FoldStartsKept(t, m, s, p);
    } else {
      t.FoldAt(x, p);
      t.RaiseAt(s, p);
    }
  }

  /** Folding what was raised puts no capital behind a capital or digit. */
  lemma NoNewRuns(t: Twins, m: Marks, s: string)
    requires Marked(t, m) && NoRun(s) && NoUiDns(s)
    ensures NoRun(t.Folded(t.Raised(s)))
  {
    var y := t.Folded(t.Raised(s));
    RunsApart(s);
    forall p: nat ensures !RunAt(y, p) {
      assert !RunAt(s, p);
      if RunAt(y, p) {
        BigWas(t, m, s, p);
        BigWas(t, m, s, p - 1);
        assert false;
      }
    }
  }

  /** And leaves no camel form that it did not read as an initialism. */
  lemma NothingLeft(t: Twins, m: Marks, s: string)
    requires Marked(t, m) && CapitalsApart(s) && NoUiDns(s)
    ensures t.NoLeftover(t.Raised(s))
  {
    var x := t.Raised(s);
    forall j, k | 0 <= j < |x| && 0 <= k < |t.camels| && t.fold.Start(x, j) && t.fold.Match(x, j) == |t.abbrs|
      ensures !Reads(t.camels[k], x, j)
    {
      if Reads(t.camels[k], x, j) {
        CamelWas(t, m, s, j, k);
        t.CapitalStartsRaise(s, j);
        t.RaiseConsumes(s, j, k);
        t.fold.MatchIsFirst(x, j, k);
        assert false;
      }
    }
  }

  lemma CamelWas(t: Twins, m: Marks, s: string, j: nat, k: nat)
    requires Marked(t, m) && CapitalsApart(s) && NoUiDns(s) && j < |s| && k < |t.camels|
    requires t.fold.Start(t.Raised(s), j) && Reads(t.camels[k], t.Raised(s), j)
    ensures Reads(t.camels[k], s, j) && IsUpper(s[j])
  {
    var x := t.Raised(s);
    FoldStartsKept(t, m, s, j);
    assert x[j + 0] == t.camels[k][0];
    forall q | 0 <= q < |t.camels[k]| ensures s[j + q] == t.camels[k][q] {
      assert x[j + q] == t.camels[k][q];
      if q > 0 {
        SmallWas(t, s, j + q);
      }
    }
  }

  lemma SmallWas(t: Twins, s: string, p: nat)
    requires t.Forms() && t.raise.Even() && p < |s| && !IsUpper(t.Raised(s)[p])
    ensures s[p] == t.Raised(s)[p]
  {
    t.RaiseAt(s, p);
  }

  lemma FirstUiDns(s: string, i: nat) returns (j: nat)
    requires UiDnsAt(s, i)
    ensures UiDnsAt(s, j) && NoUiDnsBefore(s, j)
  {
    j := 0;
    while !UiDnsAt(s, j)
      invariant j <= i && NoUiDnsBefore(s, j)
      decreases i - j
    {
      j := j + 1;
    }
  }

  /** For text without a capital behind a capital or digit: raising, folding, casing
      afresh and raising again gives the raised text exactly if "UiDns" is not in it. */
  lemma SecondTripExact(t: Twins, m: Marks, s: string)
    requires Marked(t, m) && t.Headed(s) && NoRun(s)
    ensures t.Raised(Recased(t.Folded(t.Raised(s)))) == t.Raised(s) <==> NoUiDns(s)
  {
    t.SecondRaising(s, m.uid, m.id);
    RunsApart(s);
    if NoUiDns(s) {
      NoNewRuns(t, m, s);
      NothingLeft(t, m, s);
    } else {
      var i: nat :| UiDnsAt(s, i);
      var j := FirstUiDns(s, i);
      UiDnsRuns(t, m, s, j);
    }
  }
}
