/** Two replacers that undo each other up to case, and what a round trip through
    both does. Stated for any table of initialisms with the facts listed below, so
    that the proofs do not depend on its entries. */
module TwinTables {
  import opened Replacer
  import opened Casing

  datatype Twins = Twins(abbrs: seq<string>, camels: seq<string>) {
    const raise := Table(camels, abbrs)
    const fold := Table(abbrs, camels)

    ghost predicate Forms() {
      && |abbrs| == |camels|
      && forall k :: 0 <= k < |abbrs| ==>
        && |abbrs[k]| == |camels[k]| >= 2
        && camels[k][0] == abbrs[k][0] && IsUpper(abbrs[k][0])
        && (forall q :: 1 <= q < |camels[k]| ==> camels[k][q] == Low(abbrs[k][q]) && !IsUpper(camels[k][q]))
    }

    /** Only "UI" is a prefix of another entry: of "UID", which comes earlier. */
    ghost predicate Apart() {
      forall k: nat, m: nat :: ApartAt(k, m)
    }

    predicate ApartAt(k: nat, m: nat) {
      k < |abbrs| == |camels| && m < |abbrs| && k != m && Reads(camels[k], camels[m], 0) ==>
        abbrs[k] == "UI" && abbrs[m] == "UID" && m < k
    }

    /** The second letter is a capital but in "MySQL", none begins with "SQ", and "UI"
        inside an entry goes on with 'D'. */
    ghost predicate Letters() {
      forall k: nat :: LettersAt(k)
    }

    ghost predicate LettersAt(k: nat) {
      k < |abbrs| ==>
        && |abbrs[k]| >= 2 && (IsUpper(abbrs[k][1]) || abbrs[k] == "MySQL")
        && !(abbrs[k][0] == 'S' && abbrs[k][1] == 'Q')
        && UiFirstOrUid(abbrs[k])
    }

    ghost predicate Facts() { Forms() && Apart() && Letters() }

    lemma BothEven()
      requires Forms()
      ensures raise.Even() && fold.Even()
    {}

    function Raised(s: string): (x: string)
      requires raise.Even()
      ensures |x| == |s|
    {
      raise.Replace(s)
    }

    function Folded(x: string): (y: string)
      requires fold.Even()
      ensures |y| == |x|
    {
      fold.Replace(x)
    }

    /** Raising turns characters into capitals, never back. */
    lemma RaiseAt(s: string, p: nat)
      requires Forms() && raise.Even() && p < |s|
      ensures Raised(s)[p] == s[p] || (IsUpper(Raised(s)[p]) && !IsUpper(s[p]) && s[p] == Low(Raised(s)[p]))
    {
      var j := raise.Covered(s, p);
      raise.TokenAt(s, j, p);
    }

    /** Folding turns capitals into small letters, never back. */
    lemma FoldAt(x: string, p: nat)
      requires Forms() && fold.Even() && p < |x|
      ensures Folded(x)[p] == x[p] || (IsUpper(x[p]) && !IsUpper(Folded(x)[p]) && Folded(x)[p] == Low(x[p]))
    {
      var j := fold.Covered(x, p);
      fold.TokenAt(x, j, p);
    }

    /** What raising and folding write where a token starts. */
    lemma RaisedToken(s: string, j: nat)
      requires Forms() && raise.Even() && j < |s| && raise.Start(s, j)
      ensures var k := raise.Match(s, j);
              if k < |camels| then j + |camels[k]| <= |s| && Reads(abbrs[k], Raised(s), j) else Raised(s)[j] == s[j]
    {
      var k := raise.Match(s, j);
      raise.TokenAt(s, j, j);
      if k < |camels| {
        forall p | 0 <= p < |abbrs[k]| ensures Raised(s)[j + p] == abbrs[k][p] {
          raise.TokenAt(s, j, j + p);
        }
      }
    }

    lemma FoldedToken(x: string, j: nat)
      requires Forms() && fold.Even() && j < |x| && fold.Start(x, j)
      ensures var k := fold.Match(x, j);
              if k < |abbrs| then j + |abbrs[k]| <= |x| && Reads(camels[k], Folded(x), j) else Folded(x)[j] == x[j]
    {
      var k := fold.Match(x, j);
      fold.TokenAt(x, j, j);
      if k < |abbrs| {
        forall p | 0 <= p < |camels[k]| ensures Folded(x)[j + p] == camels[k][p] {
          fold.TokenAt(x, j, j + p);
        }
      }
    }

    /** Both keep the character at which a token starts. */
    lemma HeadsKept(s: string, j: nat)
      requires Forms() && raise.Even() && fold.Even() && j < |s|
      ensures raise.Start(s, j) ==> Raised(s)[j] == s[j]
      ensures fold.Start(s, j) ==> Folded(s)[j] == s[j]
    {
      if raise.Start(s, j) {
        raise.TokenAt(s, j, j);
      }
      if fold.Start(s, j) {
        fold.TokenAt(s, j, j);
      }
    }

    /** A capital of the input is where raising starts a token. */
    lemma CapitalStartsRaise(s: string, j: nat)
      requires Forms() && raise.Even() && fold.Even() && j < |s| && IsUpper(s[j])
      ensures raise.Start(s, j) && Raised(s)[j] == s[j]
    {
      var i := raise.Covered(s, j);
      raise.TokenAt(s, i, j);
      assert i == j;
    }

    /** A capital of the output is where folding started a token. */
    lemma CapitalStartsFold(x: string, j: nat)
      requires Forms() && raise.Even() && fold.Even() && j < |x| && IsUpper(Folded(x)[j])
      ensures fold.Start(x, j) && Folded(x)[j] == x[j]
    {
      var i := fold.Covered(x, j);
      fold.TokenAt(x, i, j);
      assert i == j;
    }

    lemma AbbrPrefix(k: nat, m: nat)
      requires Forms() && k < |abbrs| && m < |abbrs| && Reads(abbrs[k], abbrs[m], 0)
      ensures Reads(camels[k], camels[m], 0)
    {
      forall q | 0 <= q < |abbrs[k]| ensures camels[k][q] == camels[m][0 + q] {
        assert abbrs[k][q] == abbrs[m][0 + q];
      }
    }

    /** If some initialism can be read at a token start, folding consumes at least
        that much there and leaves no capital behind the first character. */
    lemma FoldConsumes(x: string, j: nat, k: nat)
      requires Facts() && fold.Even() && j < |x| && fold.Start(x, j)
      requires k < |abbrs| && Reads(abbrs[k], x, j)
      ensures var m := fold.Match(x, j);
              m <= k && |abbrs[m]| >= |abbrs[k]| && j + |abbrs[m]| <= |x|
      ensures forall p :: j < p < j + |abbrs[k]| ==> !IsUpper(Folded(x)[p])
    {
      var m := fold.Match(x, j);
      fold.MatchIsFirst(x, j, k);
      FoldedToken(x, j);
      assert ApartAt(m, k);
      if m < k && |abbrs[m]| <= |abbrs[k]| {
        BothRead(abbrs[m], abbrs[k], x, j);
        AbbrPrefix(m, k);
        assert false;
      }
      BehindHeadSmall(m, Folded(x), j);
    }

    lemma BehindHeadSmall(m: nat, y: string, j: nat)
      requires Forms() && m < |camels| && Reads(camels[m], y, j)
      ensures forall p :: j < p < j + |camels[m]| ==> !IsUpper(y[p])
    {
      forall p | j < p < j + |camels[m]| ensures !IsUpper(y[p]) {
        assert y[j + (p - j)] == camels[m][p - j];
      }
    }

    /** If some camel form can be read at a token start, raising writes at least the
        initialism it stands for. */
    lemma RaiseConsumes(s: string, j: nat, k: nat)
      requires Facts() && raise.Even() && j < |s| && raise.Start(s, j)
      requires k < |camels| && Reads(camels[k], s, j)
      ensures var m := raise.Match(s, j);
              m <= k && |camels[m]| >= |camels[k]| && j + |camels[m]| <= |s|
      ensures Reads(abbrs[k], Raised(s), j)
    {
      var m := raise.Match(s, j);
      raise.MatchIsFirst(s, j, k);
      RaisedToken(s, j);
      if m < k {
        assert ApartAt(m, k) && ApartAt(k, m);
        if |camels[m]| <= |camels[k]| {
          BothRead(camels[m], camels[k], s, j);
          assert false;
        }
        BothRead(camels[k], camels[m], s, j);
        UiOfUid(Raised(s), j, abbrs[k], abbrs[m]);
      }
    }

    // ---- raising, then folding ----

    lemma SameLetters(s: string, p: nat)
      requires Forms() && raise.Even() && fold.Even() && p < |s|
      ensures Low(Raised(s)[p]) == Low(s[p]) && Low(Folded(Raised(s))[p]) == Low(s[p])
    {
      RaiseAt(s, p);
      FoldAt(Raised(s), p);
    }

    /** If dividing the result and casing it afresh gives `s`, nothing was changed. */
    lemma RecasedFixes(s: string)
      requires Facts() && raise.Even() && fold.Even() && NoSeps(s)
      requires Recased(Folded(Raised(s))) == s
      ensures Folded(Raised(s)) == s
    {
      var x := Raised(s);
      var y := Folded(x);
      FoldedNoSeps(s);
      RecasedFrom(y, true, true);
      forall p | 0 <= p < |s| ensures y[p] == s[p] {
        RecasedFixesAt(s, p);
      }
    }

    lemma FoldedNoSeps(s: string)
      requires Forms() && raise.Even() && fold.Even() && NoSeps(s)
      ensures NoSeps(Folded(Raised(s)))
    {
      forall p | 0 <= p < |s| ensures !IsSep(Folded(Raised(s))[p]) {
        SameLetters(s, p);
      }
    }

    /** A capital of `s` that recasing gives was a capital before recasing. */
    lemma CapitalSurvives(s: string, p: nat)
      requires Forms() && raise.Even() && fold.Even() && p < |s| && IsUpper(s[p])
      requires var y := Folded(Raised(s)); RecasedChar(y, p, true, true) == s[p]
      ensures Folded(Raised(s))[p] == s[p]
    {
      SameLetters(s, p);
      HeadsKept(s, 0);
      HeadsKept(Raised(s), 0);
    }

    /** A character that raising changed lies in an initialism, behind its first letter. */
    lemma RaisedInside(s: string, p: nat) returns (j: nat, k: nat)
      requires Forms() && raise.Even() && fold.Even() && p < |s| && Raised(s)[p] != s[p]
      ensures k < |abbrs| && j < p < j + |abbrs[k]| && IsUpper(s[j]) && s[j] == Raised(s)[j]
      ensures raise.Start(s, j) && k == raise.Match(s, j)
      ensures Reads(abbrs[k], Raised(s), j) && Reads(camels[k], s, j)
    {
      j := raise.Covered(s, p);
      HeadsKept(s, j);
      RaisedToken(s, j);
      k := raise.Match(s, j);
      raise.TokenAt(s, j, p);
      assert s[j + 0] == camels[k][0];
    }

    lemma RecasedFixesAt(s: string, p: nat)
      requires Facts() && raise.Even() && fold.Even() && p < |s|
      requires var y := Folded(Raised(s)); forall i :: 0 <= i < |s| ==> RecasedChar(y, i, true, true) == s[i]
      ensures Folded(Raised(s))[p] == s[p]
    {
      var x := Raised(s);
      var y := Folded(x);
      SameLetters(s, p);
      if IsUpper(s[p]) {
        CapitalSurvives(s, p);
      } else if IsUpper(y[p]) {
        FoldAt(x, p);
        var j, k := RaisedInside(s, p);
        assert RecasedChar(y, j, true, true) == s[j];
        CapitalSurvives(s, j);
        CapitalStartsFold(x, j);
        FoldConsumes(x, j, k);
        assert false;
      }
    }

    /** Where "UI" meets a "D", the letters are read as "UID" on the way back. */
    lemma UiBeforeD(s: string, j: nat, ui: nat, uid: nat)
      requires Facts() && raise.Even() && fold.Even() && j + 2 < |s|
      requires ui < |abbrs| && abbrs[ui] == "UI" && uid < |abbrs| && abbrs[uid] == "UID"
      requires s[j] == 'U' && s[j + 1] == 'i' && s[j + 2] == 'D'
      ensures Folded(Raised(s)) != s
    {
      var x := Raised(s);
      CapitalStartsRaise(s, j);
      CapitalStartsRaise(s, j + 2);
      UiRaised(s, j, ui);
      assert Reads(abbrs[uid], x, j);
      if IsUpper(Folded(x)[j]) {
        CapitalStartsFold(x, j);
        FoldConsumes(x, j, uid);
        assert !IsUpper(Folded(x)[j + 2]);
      }
    }

    lemma UiRaised(s: string, j: nat, ui: nat)
      requires Facts() && raise.Even() && fold.Even() && j + 1 < |s|
      requires ui < |abbrs| && abbrs[ui] == "UI" && raise.Start(s, j) && s[j] == 'U' && s[j + 1] == 'i'
      ensures Raised(s)[j] == 'U' && Raised(s)[j + 1] == 'I'
    {
      assert Reads(camels[ui], s, j);
      RaiseConsumes(s, j, ui);
      assert Raised(s)[j + 1] == abbrs[ui][1];
    }

    /** No two capitals side by side, and no "UiD". */
    ghost predicate Clear(s: string) {
      CapitalsApart(s) && forall i: nat :: !UiDAt(s, i)
    }

    /** On a clear string, folding undoes raising. */
    lemma ClearRoundTrip(s: string)
      requires Facts() && raise.Even() && fold.Even() && Clear(s)
      ensures Folded(Raised(s)) == s
    {
      forall p | 0 <= p < |s| ensures Folded(Raised(s))[p] == s[p] {
        ClearFrom(s, 0, p);
      }
    }

    /** Both readings go on in step from `j`. */
    lemma {:induction false} ClearFrom(s: string, j: nat, p: nat)
      requires Facts() && raise.Even() && fold.Even() && Clear(s) && j <= p < |s|
      requires raise.Start(s, j) && fold.Start(Raised(s), j)
      ensures Folded(Raised(s))[p] == s[p]
      decreases |s| - j
    {
      ClearToken(s, j);
      if p < j + raise.Token(s, j) {
        ClearAt(s, j, p);
      } else {
        var i := BothGoOn(s, j);
        ClearFrom(s, i, p);
      }
    }

    lemma BothGoOn(s: string, j: nat) returns (i: nat)
      requires raise.Even() && fold.Even() && j < |s|
      requires raise.Start(s, j) && fold.Start(Raised(s), j)
      requires fold.Token(Raised(s), j) == raise.Token(s, j)
      ensures j < i == j + raise.Token(s, j) <= |s| && raise.Start(s, i) && fold.Start(Raised(s), i)
    {
      i := j + raise.Token(s, j);
      raise.NextStartAt(s, j, i);
      fold.NextStartAt(Raised(s), j, i);
    }

    /** Folding reads back what raising read. */
    lemma ClearToken(s: string, j: nat)
      requires Facts() && raise.Even() && fold.Even() && Clear(s) && j < |s| && raise.Start(s, j)
      ensures fold.Match(Raised(s), j) == raise.Match(s, j) && fold.Token(Raised(s), j) == raise.Token(s, j)
    {
      if raise.Match(s, j) < |camels| {
        FoldReadsBack(s, j, raise.Match(s, j));
      } else {
        NothingToFold(s, j);
      }
    }

    lemma ClearAt(s: string, j: nat, p: nat)
      requires Facts() && raise.Even() && fold.Even() && j <= p < |s|
      requires raise.Start(s, j) && fold.Start(Raised(s), j) && p < j + raise.Token(s, j)
      requires fold.Match(Raised(s), j) == raise.Match(s, j) && fold.Token(Raised(s), j) == raise.Token(s, j)
      ensures Folded(Raised(s))[p] == s[p]
    {
      raise.TokenAt(s, j, p);
      fold.TokenAt(Raised(s), j, p);
    }

    /** Behind a raised camel form nothing is there to make a longer initialism. */
    lemma FoldReadsBack(s: string, j: nat, k: nat)
      requires Facts() && raise.Even() && fold.Even() && j < |s| && Clear(s) && raise.Start(s, j)
      requires k == raise.Match(s, j) < |camels|
      ensures fold.Match(Raised(s), j) == k
    {
      var x := Raised(s);
      RaisedToken(s, j);
      fold.MatchIsFirst(x, j, k);
      var m := fold.Match(x, j);
      if m < k {
        EarlierIsUid(x, j, m, k);
        assert x[j + 2] == abbrs[m][2];
        NoUiD(s, j, k);
        assert false;
      }
    }

    /** Of two initialisms that can be read at one place, the earlier is "UID". */
    lemma EarlierIsUid(x: string, j: nat, m: nat, k: nat)
      requires Facts() && m < k < |abbrs| && Reads(abbrs[m], x, j) && Reads(abbrs[k], x, j)
      ensures abbrs[k] == "UI" && abbrs[m] == "UID"
    {
      assert ApartAt(k, m) && ApartAt(m, k);
      if |abbrs[m]| <= |abbrs[k]| {
        BothRead(abbrs[m], abbrs[k], x, j);
        AbbrPrefix(m, k);
      } else {
        BothRead(abbrs[k], abbrs[m], x, j);
        AbbrPrefix(k, m);
      }
    }

    lemma NoUiD(s: string, j: nat, k: nat)
      requires Facts() && raise.Even() && fold.Even() && j < |s| && Clear(s) && raise.Start(s, j)
      requires k == raise.Match(s, j) < |camels| && abbrs[k] == "UI"
      ensures j + 2 < |s| ==> Raised(s)[j + 2] != 'D'
    {
      raise.NextStart(s, j);
      assert s[j + 0] == camels[k][0] == 'U' && s[j + 1] == camels[k][1] == 'i';
      assert !UiDAt(s, j);
      if j + 2 < |s| {
        HeadsKept(s, j + 2);
      }
    }

    /** Where no camel form could be raised, no initialism can be folded. */
    lemma NothingToFold(s: string, j: nat)
      requires Facts() && raise.Even() && fold.Even() && j < |s| && CapitalsApart(s) && raise.Start(s, j)
      requires raise.Match(s, j) == |camels|
      ensures fold.Match(Raised(s), j) == |abbrs|
    {
      var x := Raised(s);
      var m := fold.Match(x, j);
      if m < |abbrs| {
        assert x[j + 0] == abbrs[m][0] && x[j + 1] == abbrs[m][1];
        NextSmall(s, j);
        assert LettersAt(m);
        assert abbrs[m] == "MySQL";
        NoMySQL(s, j, m);
        assert false;
      }
    }

    /** Behind a capital that is not raised comes no capital. */
    lemma NextSmall(s: string, j: nat)
      requires Forms() && raise.Even() && fold.Even() && j + 1 < |s| && CapitalsApart(s) && raise.Start(s, j)
      requires raise.Match(s, j) == |camels| && IsUpper(Raised(s)[j])
      ensures !IsUpper(Raised(s)[j + 1])
    {
      raise.NextStart(s, j);
      HeadsKept(s, j);
      HeadsKept(s, j + 1);
      assert !BothUpper(s, j);
    }

    lemma NoMySQL(s: string, j: nat, m: nat)
      requires Facts() && raise.Even() && fold.Even() && j < |s| && CapitalsApart(s) && raise.Start(s, j)
      requires raise.Match(s, j) == |camels|
      requires m < |abbrs| && abbrs[m] == "MySQL"
      ensures !Reads(abbrs[m], Raised(s), j)
    {
      var x := Raised(s);
      if Reads(abbrs[m], x, j) {
        ReadsMySQL(abbrs[m], x, j);
        PassSmall(s, j);
        SqNotRaised(s, j + 2);
        assert false;
      }
    }

    /** Raising passes over a character and a small one behind it. */
    lemma PassSmall(s: string, j: nat)
      requires Forms() && raise.Even() && fold.Even() && j + 2 < |s| && raise.Start(s, j)
      requires raise.Match(s, j) == |camels| && !IsUpper(Raised(s)[j + 1])
      ensures raise.Start(s, j + 2)
    {
      raise.NextStart(s, j);
      HeadsKept(s, j + 1);
      NoTokenAtSmall(s, j + 1);
      raise.NextStart(s, j + 1);
    }

    lemma SqNotRaised(s: string, j: nat)
      requires Facts() && raise.Even() && fold.Even() && j + 1 < |s| && CapitalsApart(s) && raise.Start(s, j)
      ensures !(Raised(s)[j] == 'S' && Raised(s)[j + 1] == 'Q')
    {
      HeadsKept(s, j);
      RaisedToken(s, j);
      var k := raise.Match(s, j);
      if k < |camels| {
        assert Raised(s)[j + 0] == abbrs[k][0] && Raised(s)[j + 1] == abbrs[k][1];
        assert LettersAt(k);
      } else {
        raise.NextStart(s, j);
        HeadsKept(s, j + 1);
        assert !BothUpper(s, j);
      }
    }

    /** Both readings pass over a character that is no capital. */
    lemma NoTokenAtSmall(s: string, j: nat)
      requires Forms() && raise.Even() && fold.Even() && j < |s| && !IsUpper(s[j])
      ensures raise.Match(s, j) == |camels| && fold.Match(s, j) == |abbrs|
    {
      forall k | 0 <= k < |abbrs| ensures !Reads(camels[k], s, j) && !Reads(abbrs[k], s, j) {
        assert s[j + 0] != camels[k][0];
      }
    }

    // ---- raising again what was folded and cased afresh ----

    /** Where folding reads no initialism, the text does not go on like a camel form. */
    ghost predicate NoLeftover(x: string)
      requires fold.Even()
    {
      forall j, k :: 0 <= j < |x| && 0 <= k < |camels| && fold.Start(x, j) && fold.Match(x, j) == |abbrs| ==>
        !Reads(camels[k], x, j)
    }

    /** `s` starts as a camel case string does. */
    ghost predicate Headed(s: string) {
      NoSeps(s) && (s != "" ==> s[0] == Up(Low(s[0])))
    }

    lemma HeadFolded(s: string)
      requires Forms() && raise.Even() && fold.Even() && Headed(s) && s != ""
      ensures Folded(Raised(s))[0] == Raised(s)[0] == s[0]
    {
      HeadsKept(s, 0);
      HeadsKept(Raised(s), 0);
    }

    lemma NoRunKept(s: string)
      requires Forms() && raise.Even() && fold.Even() && Headed(s) && NoRun(Folded(Raised(s)))
      ensures Recased(Folded(Raised(s))) == Folded(Raised(s))
    {
      var y := Folded(Raised(s));
      FoldedNoSeps(s);
      RecasedFrom(y, true, true);
      if s != "" {
        HeadFolded(s);
      }
      forall p | 0 <= p < |y| ensures Recased(y)[p] == y[p] {
        assert !RunAt(y, p);
      }
    }

    /** A capital behind a capital or digit is lost for good. */
    lemma RunBreaks(s: string, p: nat)
      requires Facts() && raise.Even() && fold.Even() && Headed(s) && 0 < p < |s|
      requires RunAt(Folded(Raised(s)), p)
      requires |Recased(Folded(Raised(s)))| == |s|
      ensures Raised(Recased(Folded(Raised(s)))) != Raised(s)
    {
      var x := Raised(s);
      var y := Folded(x);
      var n := Recased(y);
      FoldedNoSeps(s);
      RecasedFrom(y, true, true);
      assert n[p] == RecasedChar(y, p, true, true) == Low(y[p]);
      FoldAt(x, p);
      if Raised(n) == x {
        var j, k := RaisedInside(n, p);
        assert n[j] == RecasedChar(y, j, true, true);
        HeadFolded(s);
        assert IsUpper(y[j]);
        CapitalStartsFold(x, j);
        FoldConsumes(x, j, k);
        assert false;
      }
    }

    /** Where folding reads no initialism it goes on with the next character, and
        reads none there either if it writes no capital. */
    lemma SmallStep(x: string, j: nat)
      requires Forms() && raise.Even() && fold.Even() && j + 1 < |x|
      requires fold.Start(x, j) && fold.Match(x, j) == |abbrs| && !IsUpper(Folded(x)[j + 1])
      ensures fold.Start(x, j + 1) && fold.Match(x, j + 1) == |abbrs| && Folded(x)[j + 1] == x[j + 1]
    {
      fold.NextStart(x, j);
      HeadsKept(x, j + 1);
      NoTokenAtSmall(x, j + 1);
    }

    /** From a start that reads no initialism, folding passes over what follows as
        long as it writes no capital. */
    lemma SmallRun(x: string, j: nat, q: nat)
      requires Forms() && raise.Even() && fold.Even() && j + q < |x|
      requires fold.Start(x, j) && fold.Match(x, j) == |abbrs| && SmallBetween(Folded(x), j + 1, j + q + 1)
      ensures fold.Start(x, j + q) && fold.Match(x, j + q) == |abbrs| && Folded(x)[j + q] == x[j + q]
    {
      if q == 0 {
        HeadsKept(x, j);
      } else {
        SmallRun(x, j, q - 1);
        SmallStep(x, j + q - 1);
      }
    }

    /** A camel form in the folded string that begins where folding read nothing
        was there before folding. */
    lemma LeftoverFrom(x: string, j: nat, k: nat)
      requires Forms() && raise.Even() && fold.Even() && j < |x| && k < |camels|
      requires fold.Start(x, j) && fold.Match(x, j) == |abbrs| && Reads(camels[k], Folded(x), j)
      ensures Reads(camels[k], x, j)
    {
      var y := Folded(x);
      forall p | j + 1 <= p < j + |camels[k]| ensures !IsUpper(y[p]) {
        assert y[j + (p - j)] == camels[k][p - j];
      }
      forall q | 0 <= q < |camels[k]| ensures x[j + q] == camels[k][q] {
        SmallRun(x, j, q);
      }
    }

    /** A leftover makes the second raising write what the first did not. */
    lemma LeftoverBreaks(x: string, j: nat, k: nat)
      requires Facts() && raise.Even() && fold.Even() && j < |x| && k < |camels|
      requires fold.Start(x, j) && fold.Match(x, j) == |abbrs| && Reads(camels[k], x, j)
      ensures Raised(Folded(x)) != x
    {
      var y := Folded(x);
      LeftoverKept(x, j, k);
      CapitalStartsRaise(y, j);
      RaiseConsumes(y, j, k);
      if Raised(y) == x {
        fold.MatchIsFirst(x, j, k);
        assert false;
      }
    }

    lemma LeftoverKept(x: string, j: nat, k: nat)
      requires Facts() && raise.Even() && fold.Even() && j < |x| && k < |camels|
      requires fold.Start(x, j) && Reads(camels[k], x, j)
      ensures Reads(camels[k], Folded(x), j) && Folded(x)[j] == camels[k][0]
    {
      HeadsKept(x, j);
      assert x[j + 0] == camels[k][0];
      forall q | 0 <= q < |camels[k]| ensures Folded(x)[j + q] == camels[k][q] {
        FoldAt(x, j + q);
        assert x[j + q] == camels[k][q];
      }
    }

    /** "UId" never comes out of raising. */
    lemma NoUId(s: string, j: nat, uid: nat, id: nat)
      requires Facts() && raise.Even() && fold.Even() && j + 2 < |s|
      requires uid < |abbrs| && abbrs[uid] == "UID" && id < |abbrs| && abbrs[id] == "ID"
      ensures !(Raised(s)[j] == 'U' && Raised(s)[j + 1] == 'I' && Raised(s)[j + 2] == 'd')
    {
      var x := Raised(s);
      if x[j] == 'U' && x[j + 1] == 'I' && x[j + 2] == 'd' {
        RaiseAt(s, j + 2);
        if s[j + 1] == 'I' {
          IdRaised(s, j + 1, id);
        } else {
          UidRaised(s, j, uid);
        }
        assert false;
      }
    }

    lemma IdRaised(s: string, j: nat, id: nat)
      requires Facts() && raise.Even() && fold.Even() && j + 1 < |s| && s[j] == 'I' && s[j + 1] == 'd'
      requires id < |abbrs| && abbrs[id] == "ID"
      ensures Raised(s)[j + 1] == 'D'
    {
      CapitalStartsRaise(s, j);
      assert Reads(camels[id], s, j);
      RaiseConsumes(s, j, id);
      assert Raised(s)[j + 1] == abbrs[id][1];
    }

    lemma UidRaised(s: string, j: nat, uid: nat)
      requires Facts() && raise.Even() && fold.Even() && j + 2 < |s| && s[j + 1] != 'I' && s[j + 2] == 'd'
      requires uid < |abbrs| && abbrs[uid] == "UID"
      requires Raised(s)[j] == 'U' && Raised(s)[j + 1] == 'I'
      ensures Raised(s)[j + 2] == 'D'
    {
      var i, k := RaisedInside(s, j + 1);
      UiToken(s, j, i, k);
      if Raised(s)[j + 2] != 'D' {
        RaiseAt(s, j + 1);
        UidRead(s, j, uid);
      }
    }

    lemma UidRead(s: string, j: nat, uid: nat)
      requires Facts() && raise.Even() && j + 2 < |s| && raise.Start(s, j)
      requires s[j] == 'U' && s[j + 1] == 'i' && s[j + 2] == 'd'
      requires uid < |abbrs| && abbrs[uid] == "UID"
      ensures Raised(s)[j + 2] == 'D'
    {
      assert Reads(camels[uid], s, j);
      RaiseConsumes(s, j, uid);
      assert Raised(s)[j + 2] == abbrs[uid][2];
    }

    lemma UiToken(s: string, j: nat, i: nat, k: nat)
      requires Facts() && raise.Even() && j + 2 < |s|
      requires Raised(s)[j] == 'U' && Raised(s)[j + 1] == 'I'
      requires k < |abbrs| && i <= j && j + 1 < i + |abbrs[k]| && Reads(abbrs[k], Raised(s), i)
      ensures Raised(s)[j + 2] == 'D' || (abbrs[k] == "UI" && i == j)
    {
      var x := Raised(s);
      var w, q := abbrs[k], j - i;
      assert x[i + q] == w[q] && x[i + (q + 1)] == w[q + 1];
      assert LettersAt(k);
      assert w == "UI" || !UiWithoutD(w, q);
      if q + 2 < |w| {
        assert x[i + (q + 2)] == w[q + 2];
      }
    }

    /** A character that folding changed lies in an initialism it read. */
    lemma FoldedInside(x: string, p: nat) returns (j: nat, k: nat)
      requires Forms() && raise.Even() && fold.Even() && p < |x| && Folded(x)[p] != x[p]
      ensures k < |abbrs| && j < p < j + |abbrs[k]| && j + |abbrs[k]| <= |x|
      ensures Reads(camels[k], Folded(x), j) && IsUpper(Folded(x)[j]) && x[p] == abbrs[k][p - j]
    {
      j := fold.Covered(x, p);
      HeadsKept(x, j);
      FoldedToken(x, j);
      k := fold.Match(x, j);
      fold.TokenAt(x, j, p);
      assert Folded(x)[j + 0] == camels[k][0];
    }

    lemma SecondRaisingAt(s: string, p: nat, uid: nat, id: nat)
      requires Facts() && raise.Even() && fold.Even() && p < |s| && NoLeftover(Raised(s))
      requires uid < |abbrs| && abbrs[uid] == "UID" && id < |abbrs| && abbrs[id] == "ID"
      ensures Raised(Folded(Raised(s)))[p] == Raised(s)[p]
    {
      var x := Raised(s);
      var y := Folded(x);
      FoldAt(x, p);
      if IsUpper(y[p]) {
        CapitalStartsRaise(y, p);
      } else if y[p] != x[p] {
        var j, k := FoldedInside(x, p);
        CapitalStartsRaise(y, j);
        RaiseConsumes(y, j, k);
        assert Raised(y)[j + (p - j)] == abbrs[k][p - j];
      } else if Raised(y)[p] != y[p] {
        RaiseAt(y, p);
        var j, k := RaisedInside(y, p);
        CapitalStartsFold(x, j);
        assert Raised(y)[j + (p - j)] == abbrs[k][p - j];
        if fold.Match(x, j) == |abbrs| {
          LeftoverFrom(x, j, k);
        } else {
          SecondRaisingInToken(s, j, p, k, uid, id);
        }
        assert false;
      }
    }

    lemma SecondRaisingInToken(s: string, j: nat, p: nat, k: nat, uid: nat, id: nat)
      requires Facts() && raise.Even() && fold.Even() && j < p < |s|
      requires uid < |abbrs| && abbrs[uid] == "UID" && id < |abbrs| && abbrs[id] == "ID"
      requires fold.Start(Raised(s), j) && fold.Match(Raised(s), j) < |abbrs|
      requires k < |camels| && p < j + |camels[k]| && Reads(camels[k], Folded(Raised(s)), j) && IsUpper(abbrs[k][p - j])
      ensures IsUpper(Raised(s)[p])
    {
      var x := Raised(s);
      var y := Folded(x);
      var m := fold.Match(x, j);
      FoldedToken(x, j);
      if k == m {
        assert x[j + (p - j)] == abbrs[m][p - j];
      } else if |camels[m]| < |camels[k]| {
        BothRead(camels[m], camels[k], y, j);
        assert ApartAt(m, k);
        LongerThanUi(s, j, p, m, k, uid, id);
      } else {
        BothRead(camels[k], camels[m], y, j);
        assert ApartAt(k, m);
        assert x[j + (p - j)] == abbrs[m][p - j];
      }
    }

    /** What folding read as "UI" did not go on with a 'd'. */
    lemma LongerThanUi(s: string, j: nat, p: nat, m: nat, k: nat, uid: nat, id: nat)
      requires Facts() && raise.Even() && fold.Even() && j < p < |s|
      requires uid < |abbrs| && abbrs[uid] == "UID" && id < |abbrs| && abbrs[id] == "ID"
      requires fold.Start(Raised(s), j) && m == fold.Match(Raised(s), j) < |abbrs|
      requires abbrs[m] == "UI" && k < |abbrs| && abbrs[k] == "UID"
      requires p < j + 3 && Reads(camels[k], Folded(Raised(s)), j)
      ensures IsUpper(Raised(s)[p])
    {
      var x := Raised(s);
      assert x[j + 0] == abbrs[m][0] && x[j + 1] == abbrs[m][1];
      if p == j + 2 {
        assert Folded(x)[j + 2] == camels[k][2] == Low(abbrs[k][2]);
        FoldAt(x, p);
        NoUId(s, j, uid, id);
      }
    }

    /** Raising, folding, casing afresh and raising again gives the raised string
        exactly when folding leaves no capital behind a capital or digit and reads no
        initialism where a camel form goes on. */
    lemma SecondRaising(s: string, uid: nat, id: nat)
      requires Facts() && raise.Even() && fold.Even() && Headed(s)
      requires uid < |abbrs| && abbrs[uid] == "UID" && id < |abbrs| && abbrs[id] == "ID"
      ensures Raised(Recased(Folded(Raised(s)))) == Raised(s) <==> NoRun(Folded(Raised(s))) && NoLeftover(Raised(s))
    {
      var x := Raised(s);
      var y := Folded(x);
      FoldedNoSeps(s);
      RecasedFrom(y, true, true);
      if NoRun(y) {
        NoRunKept(s);
        if NoLeftover(x) {
          forall p | 0 <= p < |x| ensures Raised(y)[p] == x[p] {
            SecondRaisingAt(s, p, uid, id);
          }
        } else {
          var j, k :| 0 <= j < |x| && 0 <= k < |camels| && fold.Start(x, j) && fold.Match(x, j) == |abbrs|
            && Reads(camels[k], x, j);
          LeftoverBreaks(x, j, k);
        }
      } else {
        var p: nat :| RunAt(y, p);
        RunBreaks(s, p);
      }
    }

    /** An initialism other than "UI" that can be raised at a start is what is raised. */
    lemma RaisesExactly(s: string, j: nat, k: nat)
      requires Facts() && raise.Even() && fold.Even() && j < |s| && raise.Start(s, j)
      requires k < |camels| && Reads(camels[k], s, j) && abbrs[k] != "UI"
      ensures j + |camels[k]| <= |s| && raise.Start(s, j + |camels[k]|)
    {
      RaiseMatchIsThis(s, j, k);
      raise.NextStart(s, j);
    }

    lemma RaiseMatchIsThis(s: string, j: nat, k: nat)
      requires Facts() && raise.Even() && j < |s| && raise.Start(s, j)
      requires k < |camels| && Reads(camels[k], s, j) && abbrs[k] != "UI"
      ensures raise.Match(s, j) == k
    {
      RaiseConsumes(s, j, k);
      var m := raise.Match(s, j);
      assert ApartAt(k, m);
      if m != k {
        BothRead(camels[k], camels[m], s, j);
        assert false;
      }
    }

    lemma FoldsExactly(x: string, j: nat, k: nat)
      requires Facts() && raise.Even() && fold.Even() && j < |x| && fold.Start(x, j)
      requires k < |abbrs| && Reads(abbrs[k], x, j) && abbrs[k] != "UI"
      ensures j + |abbrs[k]| <= |x| && fold.Start(x, j + |abbrs[k]|)
    {
      FoldConsumes(x, j, k);
      MatchIsThis(x, j, k);
      fold.NextStart(x, j);
    }

    lemma MatchIsThis(x: string, j: nat, k: nat)
      requires Facts() && fold.Even() && j < |x|
      requires k < |abbrs| && Reads(abbrs[k], x, j) && abbrs[k] != "UI"
      requires fold.Match(x, j) <= k && |abbrs[fold.Match(x, j)]| >= |abbrs[k]|
      ensures fold.Match(x, j) == k
    {
      var m := fold.Match(x, j);
      assert ApartAt(k, m);
      if m != k {
        BothRead(abbrs[k], abbrs[m], x, j);
        AbbrPrefix(k, m);
        assert false;
      }
    }

    /** A capital before a small letter other than 'y' starts no initialism. */
    lemma NothingFoldedBefore(x: string, j: nat)
      requires Facts() && j + 1 < |x| && !IsUpper(x[j + 1]) && x[j + 1] != 'y'
      ensures fold.Match(x, j) == |abbrs|
    {
      forall k | 0 <= k < |abbrs| ensures !Reads(abbrs[k], x, j) {
        assert LettersAt(k);
        assert x[j + 1] != abbrs[k][1];
      }
    }

    lemma SmallKept(s: string, j: nat)
      requires Forms() && raise.Even() && fold.Even() && j < |s| && raise.Start(s, j) && !IsUpper(s[j])
      ensures Raised(s)[j] == s[j] && raise.Start(s, j + 1)
    {
      HeadsKept(s, j);
      NoTokenAtSmall(s, j);
      raise.NextStart(s, j);
    }

    /** "XSshttp" is raised to "XSSHttp". */
    lemma RaisedExample(ssh: nat)
      requires Facts() && raise.Even() && fold.Even()
      requires ssh < |abbrs| && abbrs[ssh] == "SSH"
      ensures Raised("XSshttp") == "XSSHttp"
    {
      var s := "XSshttp";
      SshRaised(s, ssh);
      SameSeven(Raised(s), "XSSHttp");
    }

    lemma SshRaised(s: string, ssh: nat)
      requires Facts() && raise.Even() && fold.Even() && |s| == 7 && s[1] == 'S' && s[2] == 's' && s[3] == 'h'
      requires IsUpper(s[0]) && !IsUpper(s[4]) && !IsUpper(s[5]) && !IsUpper(s[6])
      requires ssh < |abbrs| && abbrs[ssh] == "SSH"
      ensures var x := Raised(s);
              && x[0] == s[0] && x[1] == 'S' && x[2] == 'S' && x[3] == 'H'
              && x[4] == s[4] && x[5] == s[5] && x[6] == s[6]
    {
      CapitalStartsRaise(s, 0);
      CapitalStartsRaise(s, 1);
      assert Reads(camels[ssh], s, 1);
      RaiseConsumes(s, 1, ssh);
      RaisesExactly(s, 1, ssh);
      TailKept(s);
      var x := Raised(s);
      assert x[1 + 0] == abbrs[ssh][0] && x[1 + 1] == abbrs[ssh][1] && x[1 + 2] == abbrs[ssh][2];
    }

    lemma TailKept(s: string)
      requires Forms() && raise.Even() && fold.Even() && |s| == 7 && raise.Start(s, 4)
      requires !IsUpper(s[4]) && !IsUpper(s[5]) && !IsUpper(s[6])
      ensures Raised(s)[4] == s[4] && Raised(s)[5] == s[5] && Raised(s)[6] == s[6]
    {
      SmallKept(s, 4);
      SmallKept(s, 5);
      SmallKept(s, 6);
    }

    lemma LeftoverAt(x: string, j: nat, k: nat)
      requires Facts() && fold.Even() && j + 1 < |x| && k < |camels| && fold.Start(x, j)
      requires !IsUpper(x[j + 1]) && x[j + 1] != 'y' && Reads(camels[k], x, j)
      ensures !NoLeftover(x)
    {
      NothingFoldedBefore(x, j);
    }

    /** Folding stands behind an initialism at the front, and cannot read the camel
        form there. */
    lemma LeftoverBehind(x: string, a: nat, c: nat)
      requires Facts() && raise.Even() && fold.Even() && a < |abbrs| && c < |camels| && abbrs[a] != "UI"
      requires Reads(abbrs[a], x, 0) && |x| == |abbrs[a]| + |camels[c]| && Reads(camels[c], x, |abbrs[a]|)
      requires camels[c][1] != 'y'
      ensures !NoLeftover(x)
    {
      FoldsExactly(x, 0, a);
      assert x[|abbrs[a]| + 1] == camels[c][1];
      LeftoverAt(x, |abbrs[a]|, c);
    }

    /** "XSSHttp" is read back as "XSS" and "Http". */
    lemma FoldedExample(xss: nat, http: nat)
      requires Facts() && raise.Even() && fold.Even()
      requires xss < |abbrs| && abbrs[xss] == "XSS" && http < |abbrs| && abbrs[http] == "HTTP"
      ensures !NoLeftover("XSSHttp")
    {
      var x := "XSSHttp";
      assert Reads(abbrs[xss], x, 0) && Reads(camels[http], x, 3);
      LeftoverBehind(x, xss, http);
    }

    /** Neither table touches two capitals that are no initialism. */
    lemma TwoCapitals(a: char, b: char)
      requires Facts() && raise.Even() && fold.Even() && IsUpper(a) && IsUpper(b)
      requires forall k :: 0 <= k < |abbrs| ==> abbrs[k] != [a, b]
      ensures Raised([a, b]) == [a, b] == Folded([a, b])
    {
      var s := [a, b];
      CapitalStartsRaise(s, 0);
      CapitalStartsRaise(s, 1);
      forall k | 0 <= k < |abbrs| ensures !Reads(abbrs[k], s, 0) {
        if Reads(abbrs[k], s, 0) {
          ReadsWhole(abbrs[k], s);
          assert false;
        }
      }
      HeadsKept(s, 0);
      fold.NextStart(s, 0);
      HeadsKept(s, 1);
    }
  }

  predicate UiWithoutD(w: string, q: nat) {
    q + 1 < |w| && w[q] == 'U' && w[q + 1] == 'I' && !(q + 2 < |w| && w[q + 2] == 'D')
  }

  ghost predicate UiFirstOrUid(w: string) {
    w == "UI" || forall q: nat :: !UiWithoutD(w, q)
  }

  ghost predicate SmallBetween(y: string, from: nat, to: nat)
    requires to <= |y|
  {
    forall p :: from <= p < to ==> !IsUpper(y[p])
  }

  /** Of two texts that stand in one place the shorter begins the longer. */
  lemma BothRead(a: string, b: string, s: string, j: nat)
    requires Reads(a, s, j) && Reads(b, s, j) && |a| <= |b|
    ensures Reads(a, b, 0)
  {
    forall p | 0 <= p < |a| ensures b[0 + p] == a[p] {
      assert s[j + p] == a[p] && s[j + p] == b[p];
    }
  }

  lemma SameSeven(x: string, y: string)
    requires |x| == |y| == 7
    requires x[0] == y[0] && x[1] == y[1] && x[2] == y[2] && x[3] == y[3]
    requires x[4] == y[4] && x[5] == y[5] && x[6] == y[6]
    ensures x == y
  {}

  lemma ReadsMySQL(w: string, x: string, j: nat)
    requires w == "MySQL" && Reads(w, x, j)
    ensures j + 4 < |x| && x[j + 1] == 'y' && x[j + 2] == 'S' && x[j + 3] == 'Q'
  {
    assert x[j + 1] == w[1] && x[j + 2] == w[2] && x[j + 3] == w[3];
  }

  lemma ReadsWhole(w: string, s: string)
    requires Reads(w, s, 0) && |w| >= |s|
    ensures w == s
  {
    assert forall p :: 0 <= p < |w| ==> s[0 + p] == w[p];
  }

  lemma UiOfUid(s: string, j: nat, ui: string, uid: string)
    requires ui == "UI" && uid == "UID" && Reads(uid, s, j)
    ensures Reads(ui, s, j)
  {
    assert s[j + 0] == uid[0] && s[j + 1] == uid[1];
  }
}
