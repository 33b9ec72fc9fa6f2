/** Lists of words over [a-z] joined by underscores. */
module WordLists {
  import opened Replacer
  import opened Casing

  function Join(words: seq<string>): string {
    if words == [] then ""
    else if |words| == 1 then words[0]
    else words[0] + ("_" + Join(words[1..]))
  }

  predicate Word(w: string) {
    w != "" && forall i :: 0 <= i < |w| ==> IsLower(w[i])
  }

  predicate Words(words: seq<string>) {
    forall i :: 0 <= i < |words| ==> Word(words[i])
  }

  lemma {:induction false} LettersPass(w: string, rest: string, glued: bool)
    requires forall i :: 0 <= i < |w| ==> IsLower(w[i])
    ensures Separable(w + rest, false, glued) == Separable(rest, false, if w == "" then glued else false)
    ensures w != "" ==> UiThenD(w + rest, false) == (rest != "" && UiThenD(rest, false))
  {
    if w == "" {
      assert w + rest == rest;
    } else {
      assert (w + rest)[1..] == w[1..] + rest;
      LettersPass(w[1..], rest, false);
      if |w| == 1 {
        assert w[1..] + rest == rest;
      }
    }
  }

  lemma TailOfWord(w: string, rest: string)
    requires w != ""
    ensures w + rest != "" && (w + rest)[0] == w[0] && (w + rest)[1..] == w[1..] + rest
    ensures |w| == 1 ==> w[1..] == "" && (w + rest)[1..] == rest
  {}

  lemma WordSeparates(w: string, rest: string)
    requires Word(w)
    ensures Separable(w + rest, true, true) == Separable(rest, false, |w| == 1)
  {
    var tail := w[1..];
    TailOfWord(w, rest);
    assert IsLower(w[0]);
    LettersPass(tail, rest, true);
  }

  lemma WordUi(w: string, rest: string)
    requires Word(w) && (rest == "" || rest[0] == '_')
    ensures UiThenD(w + rest, true) == ("ui_d" <= w + rest || UiThenD(rest, false))
  {
    var t, tail := w + rest, w[1..];
    TailOfWord(w, rest);
    LettersPass(tail, rest, true);
    assert UiThenD(t, true) == ("ui_d" <= t || UiThenD(t[1..], false));
    assert rest == "" ==> !UiThenD(rest, false);
  }

  lemma WordPasses(w: string, rest: string)
    requires Word(w) && (rest == "" || rest[0] == '_')
    ensures Separable(w + rest, true, true) == Separable(rest, false, |w| == 1)
    ensures UiThenD(w + rest, true) == ("ui_d" <= w + rest || UiThenD(rest, false))
  {
    WordSeparates(w, rest);
    WordUi(w, rest);
  }

  lemma UiPrefix(w: string, next: string)
    requires Word(w) && next != ""
    ensures "ui_d" <= w + ("_" + next) <==> w == "ui" && next[0] == 'd'
  {
    var t := w + ("_" + next);
    assert |t| >= 4 ==> t[..4] == [t[0], t[1], t[2], t[3]];
    assert "ui_d" <= t <==> |t| >= 4 && t[0] == 'u' && t[1] == 'i' && t[2] == '_' && t[3] == 'd';
    assert t[|w|] == '_' && t[|w| + 1] == next[0];
    assert forall i :: 0 <= i < |w| ==> t[i] == w[i];
    assert w == "ui" <==> |w| == 2 && w[0] == 'u' && w[1] == 'i';
  }

  /** No word but the last is a single letter, and "ui" stands before no 'd'. */
  predicate Joinable(words: seq<string>) {
    forall i :: 0 <= i < |words| - 1 ==> |words[i]| >= 2 && !(words[i] == "ui" && "d" <= words[i + 1])
  }

  lemma JoinHead(words: seq<string>)
    requires words != [] && Word(words[0])
    ensures Join(words) != "" && Join(words)[0] == words[0][0]
  {}

  lemma JoinableStep(words: seq<string>)
    requires |words| > 1
    ensures Joinable(words) <==>
      |words[0]| >= 2 && !(words[0] == "ui" && "d" <= words[1]) && Joinable(words[1..])
  {
    var tail := words[1..];
    assert forall i :: 0 <= i < |tail| ==> tail[i] == words[i + 1];
    if Joinable(tail) {
      forall i | 1 <= i < |words| - 1
        ensures |words[i]| >= 2 && !(words[i] == "ui" && "d" <= words[i + 1])
      {
        assert |tail[i - 1]| >= 2 && !(tail[i - 1] == "ui" && "d" <= tail[i]);
      }
    }
  }

  lemma {:induction false} JoinExact(words: seq<string>)
    requires Words(words)
    ensures Separable(Join(words), true, true) && !UiThenD(Join(words), true) <==> Joinable(words)
  {
    if |words| == 1 {
      WordPasses(words[0], "");
      assert words[0] + "" == words[0];
      assert |words[0]| > 2 ==> words[0][2] != "ui_d"[2];
    } else if words != [] {
      var next := Join(words[1..]);
      var rest := "_" + next;
      assert Word(words[1..][0]);
      JoinExact(words[1..]);
      JoinHead(words[1..]);
      WordPasses(words[0], rest);
      UiPrefix(words[0], next);
      assert rest[1..] == next && rest[1] == words[1][0] && IsLower(words[1][0]);
      assert "d" <= words[1] <==> words[1][0] == 'd';
      JoinableStep(words);
    }
  }

  // ---- what is cased ----

  lemma {:induction false} ScanLetters(w: string, rest: string)
    requires forall i :: 0 <= i < |w| ==> IsLower(w[i])
    ensures Scan(w + rest, false) == w + Scan(rest, false)
  {
    if w == "" {
      assert w + rest == rest;
    } else {
      assert (w + rest)[1..] == w[1..] + rest;
      ScanLetters(w[1..], rest);
      assert w == [w[0]] + w[1..];
    }
  }

  lemma CapOfWord(w: string)
    requires Word(w)
    ensures Cap(w) == [Up(w[0])] + w[1..] && IsUpper(Cap(w)[0])
  {
    assert Lower(w) == w;
  }

  lemma ScanWord(w: string, rest: string)
    requires Word(w)
    ensures Scan(w + rest, true) == Cap(w) + Scan(rest, false)
  {
    assert (w + rest)[1..] == w[1..] + rest;
    ScanLetters(w[1..], rest);
    CapOfWord(w);
  }

  /** Joined words are cased word by word. */
  lemma {:induction false} ScanOfJoin(words: seq<string>)
    requires Words(words)
    ensures Scan(Join(words), true) == Caps(words)
  {
    if |words| == 1 {
      assert words[0] + "" == words[0];
      ScanWord(words[0], "");
      assert words[1..] == [];
    } else if words != [] {
      var next := Join(words[1..]);
      assert Word(words[0]);
      ScanOfJoin(words[1..]);
      ScanWord(words[0], "_" + next);
      assert ("_" + next)[1..] == next;
    }
  }

  /** Every word but the last has two letters or more. */
  predicate LongWords(words: seq<string>) {
    forall i :: 0 <= i < |words| - 1 ==> |words[i]| >= 2
  }

  /** "ui" stands before no word in "dns". */
  predicate Steady(words: seq<string>) {
    forall i :: 0 <= i < |words| - 1 ==> !UiDns(words[i], words[i + 1])
  }

  predicate UiDns(w: string, next: string) {
    w == "ui" && "dns" <= next
  }

  lemma LongWordsStep(words: seq<string>)
    requires |words| > 1
    ensures LongWords(words) <==> |words[0]| >= 2 && LongWords(words[1..])
  {
    var tail := words[1..];
    forall i | LongWords(tail) && 1 <= i < |words| - 1 ensures |words[i]| >= 2 {
      assert |tail[i - 1]| >= 2;
    }
  }

  lemma SteadyStep(words: seq<string>)
    requires |words| > 1
    ensures Steady(words) <==> !UiDns(words[0], words[1]) && Steady(words[1..])
  {
    var tail := words[1..];
    forall i | Steady(tail) && 1 <= i < |words| - 1 ensures !UiDns(words[i], words[i + 1]) {
      assert !UiDns(tail[i - 1], tail[i]);
    }
    forall i | Steady(words) && 0 <= i < |tail| - 1 ensures !UiDns(tail[i], tail[i + 1]) {
      assert !UiDns(words[i + 1], words[i + 2]);
    }
  }

  /** In a word and what follows it, the only capitals of the word is its first letter. */
  lemma CapAt(w: string, rest: string, p: nat)
    requires Word(w) && p < |w| + |rest|
    ensures var t := Cap(w) + rest;
            if p == 0 then t[p] == Up(w[0]) && IsUpper(t[p])
            else if p < |w| then t[p] == w[p] && !Big(t[p])
            else t[p] == rest[p - |w|]
  {
    CapOfWord(w);
  }

  lemma ShiftedRun(w: string, rest: string, p: nat)
    requires Word(w) && (rest == "" || |w| >= 2)
    ensures RunAt(Cap(w) + rest, p) ==> p > |w| && RunAt(rest, p - |w|)
  {
    var t := Cap(w) + rest;
    CapOfWord(w);
    if RunAt(t, p) {
      CapAt(w, rest, p);
      CapAt(w, rest, p - 1);
    }
  }

  lemma {:induction false} CapsHaveNoRuns(words: seq<string>)
    requires Words(words) && LongWords(words)
    ensures NoRun(Caps(words))
  {
    if words != [] {
      var w, rest := words[0], Caps(words[1..]);
      assert Word(w);
      if |words| > 1 { LongWordsStep(words); }
      CapsHaveNoRuns(words[1..]);
      forall p: nat ensures !RunAt(Cap(w) + rest, p) {
        ShiftedRun(w, rest, p);
        assert p > |w| ==> !RunAt(rest, p - |w|);
      }
    }
  }

  lemma ShiftedUiDns(w: string, rest: string, p: nat)
    requires Word(w) && p > 0
    ensures UiDnsAt(Cap(w) + rest, p) <==> p >= |w| && UiDnsAt(rest, p - |w|)
  {
    var t := Cap(w) + rest;
    CapOfWord(w);
    if p < |w| {
      CapAt(w, rest, p);
    } else {
      assert forall q :: p <= q < |t| ==> t[q] == rest[q - |w|];
    }
  }

  /** "UiDns" begins at the first word exactly if that is "ui" and "dns" follows. */
  lemma HeadUiDns(w: string, next: string, rest: string)
    requires Word(w) && Word(next) && |w| >= 2 && (|next| >= 2 || rest == "")
    requires rest == "" || IsUpper(rest[0])
    ensures UiDnsAt(Cap(w) + (Cap(next) + rest), 0) <==> UiDns(w, next)
  {
    var u := Cap(next) + rest;
    var t := Cap(w) + u;
    CapOfWord(w);
    CapOfWord(next);
    assert "dns" <= next <==> |next| >= 3 && next[0] == 'd' && next[1] == 'n' && next[2] == 's' by {
      assert |next| >= 3 ==> next[..3] == [next[0], next[1], next[2]];
    }
    assert w == "ui" <==> |w| == 2 && w[0] == 'u' && w[1] == 'i';
    assert |w| == 2 ==> forall q :: 2 <= q < |t| ==> t[q] == u[q - 2];
    assert |next| == 2 && rest != "" ==> u[2] == rest[0];
  }

  lemma CapsHead(words: seq<string>)
    requires Words(words) && words != []
    ensures Caps(words) != "" && IsUpper(Caps(words)[0])
  {
    assert Word(words[0]);
    CapOfWord(words[0]);
  }

  lemma LastUiDns(w: string)
    requires Word(w)
    ensures NoUiDns(Cap(w))
  {
    CapOfWord(w);
  }

  /** Among words of two letters or more, "UiDns" comes only from "ui" and "dns...". */
  lemma {:induction false} CapsUiDns(words: seq<string>)
    requires Words(words) && LongWords(words)
    ensures NoUiDns(Caps(words)) <==> Steady(words)
  {
    if |words| == 1 {
      assert Caps(words) == Cap(words[0]) && Word(words[0]);
      LastUiDns(words[0]);
    } else if words != [] {
      var w, next, rest, u := words[0], words[1], Caps(words[2..]), Caps(words[1..]);
      assert Word(w) && Word(next);
      LongWordsStep(words);
      SteadyStep(words);
      CapsUiDns(words[1..]);
      assert words[1..][1..] == words[2..] && words[1..][0] == next;
      assert |words| > 2 ==> |words[1..][0]| >= 2;
      if words[2..] != [] { CapsHead(words[2..]); }
      HeadUiDns(w, next, rest);
      UiDnsCons(w, u);
    }
  }

  lemma UiDnsCons(w: string, u: string)
    requires Word(w)
    ensures NoUiDns(Cap(w) + u) <==> !UiDnsAt(Cap(w) + u, 0) && NoUiDns(u)
  {
    var t := Cap(w) + u;
    forall p: nat | NoUiDns(u) && !UiDnsAt(t, 0) ensures !UiDnsAt(t, p) {
      if p > 0 { ShiftedUiDns(w, u, p); }
    }
    forall p: nat | NoUiDns(t) ensures !UiDnsAt(u, p) {
      ShiftedUiDns(w, u, p + |w|);
      assert !UiDnsAt(t, p + |w|);
    }
  }

  lemma ScanAB()
    ensures Scan("a_b", true) == "AB"
  {
    assert "a_b"[1..] == "_b" && "_b"[1..] == "b" && "b"[1..] == "";
  }

  lemma ScanXSshttp()
    ensures Scan("x_sshttp", true) == "XSshttp"
  {
    assert "x_sshttp"[1..] == "_sshttp" && "_sshttp"[1..] == "sshttp" && "sshttp"[1..] == "shttp"
        && "shttp"[1..] == "http" && "http"[1..] == "ttp" && "ttp"[1..] == "tp" && "tp"[1..] == "p" && "p"[1..] == "";
  }
}
