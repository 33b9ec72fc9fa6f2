/** On which strings the two conversions undo each other, with the real table. */
module CamelRoundTrip {
  import opened Replacer
  import opened Casing
  import opened Initialisms
  import opened TwinTables
  import opened CamelCase
  import opened WordLists
  import opened SecondTrip

  const REAL := Twins(INITIALISMS, CAMELS)

  lemma RealForms()
    ensures REAL.Forms()
  {
    TablesEven();
    forall k | 0 <= k < |INITIALISMS|
      ensures |INITIALISMS[k]| == |CAMELS[k]| >= 2
      ensures CAMELS[k][0] == INITIALISMS[k][0] && IsUpper(INITIALISMS[k][0])
      ensures forall q :: 1 <= q < |CAMELS[k]| ==> CAMELS[k][q] == Low(INITIALISMS[k][q]) && !IsUpper(CAMELS[k][q])
    {
      Forms(k);
      Heads(k);
    }
  }

  lemma RealLetters()
    ensures REAL.Letters()
  {
    forall k: nat ensures REAL.LettersAt(k) {
      if k < |INITIALISMS| {
        Forms(k);
        Heads(k);
        NoSQ(k);
        UiKind(k);
      }
    }
  }

  lemma RealApart()
    ensures REAL.Apart()
  {
    TablesEven();
    forall k: nat, m: nat ensures REAL.ApartAt(k, m) {
      if k < |INITIALISMS| && m < |INITIALISMS| && k != m && Reads(CAMELS[k], CAMELS[m], 0) {
        CamelPrefix(k, m);
      }
    }
  }

  lemma RealFacts()
    ensures REAL.Facts() && REAL.raise.Even() && REAL.fold.Even()
  {
    RealForms();
    REAL.BothEven();
    RealLetters();
    RealApart();
  }

  lemma Places()
    ensures |INITIALISMS| == 36 && INITIALISMS[13] == "UID" && INITIALISMS[20] == "DNS"
    ensures INITIALISMS[32] == "UI" && INITIALISMS[33] == "ID"
  {}

  lemma UiKind(k: nat)
    requires k < |INITIALISMS|
    ensures UiFirstOrUid(INITIALISMS[k])
  {
    var w := INITIALISMS[k];
    if w != "UI" {
      forall q: nat ensures !UiWithoutD(w, q) {
        if q + 1 < |w| && w[q] == 'U' && w[q + 1] == 'I' {
          Initialisms.UiInside(k, q);
        }
      }
    }
  }

  lemma CamelPrefix(k: nat, m: nat)
    requires k < |INITIALISMS| && m < |INITIALISMS| && k != m && |CAMELS| == |INITIALISMS|
    requires Reads(CAMELS[k], CAMELS[m], 0)
    ensures INITIALISMS[k] == "UI" && INITIALISMS[m] == "UID" && m < k
  {
    Forms(k);
    Forms(m);
    forall q | 0 <= q < |INITIALISMS[k]| ensures Low(INITIALISMS[k][q]) == Low(INITIALISMS[m][q]) {
      assert CAMELS[k][q] == CAMELS[m][0 + q];
    }
    Prefixes(k, m);
  }

  lemma Unfolded(s: string)
    ensures REAL.raise.Even() && REAL.fold.Even()
    ensures Camel(s) == REAL.Raised(Scan(s, true))
    ensures Underscored(s) == Under(REAL.Folded(s), true)
  {
    TablesEven();
  }

  // ---- there and back ----

  /** For every string: camel case and back gives the string itself exactly when it
      is separable and no word "ui" stands before a word that begins with 'd'. */
  lemma RoundTrip(s: string)
    ensures Underscored(Camel(s)) == s <==> Separable(s, true, true) && !UiThenD(s, true)
  {
    RealFacts();
    Unfolded(s);
    Unfolded(Camel(s));
    ScanNoSeps(s, true);
    SeparableExact(s, true, true);
    var t := Scan(s, true);
    var y := REAL.Folded(REAL.Raised(t));
    if Separable(s, true, true) {
      SeparableScan(s, true, true);
      FoldBackExact(t);
      if y != t && Under(y, true) == s {
        REAL.RecasedFixes(t);
      }
    } else if Under(y, true) == s {
      REAL.RecasedFixes(t);
    }
  }

  /** On a scan without neighbouring capitals the tables undo each other unless
      "UiD" occurs. */
  lemma FoldBackExact(t: string)
    requires CapitalsApart(t) && NoSeps(t) && REAL.raise.Even() && REAL.fold.Even()
    ensures REAL.Folded(REAL.Raised(t)) == t <==> !HasUiD(t)
  {
    RealFacts();
    if HasUiD(t) {
      var j := HasUiDIndex(t);
      Places();
      REAL.UiBeforeD(t, j, 32, 13);
    } else {
      forall i: nat ensures !UiDAt(t, i) {
        if UiDAt(t, i) {
          HasUiDAt(t, i);
          assert false;
        }
      }
      REAL.ClearRoundTrip(t);
    }
  }

  lemma RoundTripIff(s: string, good: bool)
    requires good <==> Separable(s, true, true) && !UiThenD(s, true)
    ensures good <==> Underscored(Camel(s)) == s
  {
    RoundTrip(s);
  }

  /** Words over [a-z]: joined by underscores they survive camel case exactly when
      no word but the last has one letter and no "ui" precedes a word with 'd'. */
  lemma WordsRoundTrip(words: seq<string>)
    requires Words(words)
    ensures Joinable(words) <==> Underscored(Camel(Join(words))) == Join(words)
  {
    JoinExact(words);
    RoundTripIff(Join(words), Joinable(words));
  }

  // ---- the law of the fuzz test ----

  /** Camel case, divided and put in camel case again, is unchanged exactly when
      reading the initialisms back leaves no capital behind a capital or digit, where
      the second conversion would have to omit an underscore, and passes over no
      place where the text goes on like the camel form of an initialism. */
  lemma FuzzLaw(s: string)
    ensures REAL.fold.Even()
    ensures Camel(Underscored(Camel(s))) == Camel(s) <==>
      NoRun(REAL.Folded(Camel(s))) && REAL.NoLeftover(Camel(s))
  {
    RealFacts();
    Unfolded(s);
    Unfolded(Camel(s));
    Unfolded(Underscored(Camel(s)));
    ScanNoSeps(s, true);
    Places();
    REAL.SecondRaising(Scan(s, true), 13, 33);
  }

  const MARKS := Marks(32, 13, 33, 20)

  lemma RealMarks()
    ensures Marked(REAL, MARKS)
  {
    RealFacts();
    Places();
    forall k: nat ensures HeadAt(REAL, k) {
      if k < |INITIALISMS| {
        DAndN(k);
      }
    }
  }

  /** The same law on the input: for every string whose plain camel case puts no capital
      behind a capital or digit, it holds exactly if that does not read "UiDns". */
  lemma FuzzLawOnInput(s: string)
    requires NoRun(Scan(s, true))
    ensures Camel(Underscored(Camel(s))) == Camel(s) <==> NoUiDns(Scan(s, true))
  {
    RealMarks();
    Unfolded(s);
    Unfolded(Camel(s));
    Unfolded(Underscored(Camel(s)));
    ScanNoSeps(s, true);
    SecondTripExact(REAL, MARKS, Scan(s, true));
  }

  lemma FuzzLawIff(s: string, good: bool)
    requires NoRun(Scan(s, true)) && (good <==> NoUiDns(Scan(s, true)))
    ensures good <==> Camel(Underscored(Camel(s))) == Camel(s)
  {
    FuzzLawOnInput(s);
  }

  /** For words over [a-z], of which all but the last have two letters or more: the law
      holds exactly if no "ui" stands directly before a word that begins with "dns". */
  lemma FuzzLawOnWords(words: seq<string>)
    requires Words(words) && LongWords(words)
    ensures Steady(words) <==> Camel(Underscored(Camel(Join(words)))) == Camel(Join(words))
  {
    ScanOfJoin(words);
    CapsHaveNoRuns(words);
    CapsUiDns(words);
    FuzzLawIff(Join(words), Steady(words));
  }

  // ---- inputs on which the laws fail ----

  lemma NotThereAndBack()
    ensures Underscored(Camel("a_b")) != "a_b"
    ensures Underscored(Camel("ui_dns")) != "ui_dns"
  {
    RoundTrip("a_b");
    RoundTrip("ui_dns");
  }

  lemma NoEntryAB(k: nat)
    requires k < |INITIALISMS|
    ensures INITIALISMS[k] != "AB"
  {}

  /** "a_b" -> "AB" -> "ab" -> "Ab". */
  lemma FuzzFailsOnCapitals()
    ensures Camel("a_b") == "AB" && Camel(Underscored(Camel("a_b"))) != Camel("a_b")
  {
    RealFacts();
    Unfolded("a_b");
    ScanAB();
    forall k | 0 <= k < |INITIALISMS| ensures INITIALISMS[k] != ['A', 'B'] {
      NoEntryAB(k);
    }
    REAL.TwoCapitals('A', 'B');
    FuzzLaw("a_b");
    assert RunAt("AB", 1);
  }

  /** "x_sshttp" -> "XSSHttp" -> "xss_http" -> "XSSHTTP". */
  lemma FuzzFailsOnLeftover()
    ensures Camel("x_sshttp") == "XSSHttp" && Camel(Underscored(Camel("x_sshttp"))) != Camel("x_sshttp")
  {
    RealFacts();
    Unfolded("x_sshttp");
    ScanXSshttp();
    ExamplePlaces();
    REAL.RaisedExample(27);
    REAL.FoldedExample(3, 8);
    FuzzLaw("x_sshttp");
  }

  lemma ExamplePlaces()
    ensures INITIALISMS[27] == "SSH" && INITIALISMS[3] == "XSS" && INITIALISMS[8] == "HTTP"
  {}

  lemma CamelLetters(s: string)
    ensures SameButCase(Camel(s), Strip(s))
  {
    RealForms();
    REAL.BothEven();
    Unfolded(s);
    ScanStrip(s, true);
    var t := Scan(s, true);
    forall i | 0 <= i < |t| ensures Low(Camel(s)[i]) == Low(Strip(s)[i]) {
      REAL.SameLetters(t, i);
    }
  }

  lemma LowerCamelLetters(s: string)
    requires Scan(s, true) != ""
    ensures SameButCase(LowerCamel(s), Strip(s)) && LowerCamel(s) != "" && !IsUpper(LowerCamel(s)[0])
  {
    RealForms();
    REAL.BothEven();
    ScanStrip(s, true);
    var t := Scan(s, true);
    var u := [Low(t[0])] + t[1..];
    REAL.HeadsKept(u, 0);
    forall i | 0 <= i < |u| ensures Low(LowerCamel(s)[i]) == Low(Strip(s)[i]) {
      REAL.SameLetters(u, i);
    }
  }

  /** Camel case only drops separators and changes case, and lower camel case never
      begins with a capital. */
  lemma LettersKept(s: string)
    ensures SameButCase(Camel(s), Strip(s))
    ensures Scan(s, true) != "" ==>
      SameButCase(LowerCamel(s), Strip(s)) && LowerCamel(s) != "" && !IsUpper(LowerCamel(s)[0])
  {
    CamelLetters(s);
    if Scan(s, true) != "" {
      LowerCamelLetters(s);
    }
  }

  /** The second check of the fuzz test holds for letters, digits and separators only. */
  lemma AlnumExact(s: string)
    ensures AllAlnum(Camel(s), false) <==> AllAlnum(s, true)
  {
    CamelLetters(s);
    StripAlnum(s);
    forall i | 0 <= i < |Strip(s)| ensures Alnum(Camel(s)[i]) == Alnum(Strip(s)[i]) {
      AlnumByCase(Camel(s)[i], Strip(s)[i]);
    }
  }
}
