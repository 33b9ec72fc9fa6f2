/** Lower camel case is the first word in lower case and the rest in upper camel case. */
module LowerCamels {
  import opened Replacer
  import opened Casing
  import opened Initialisms
  import opened CamelCase
  import opened WordLists

  predicate Separators(s: string) { forall i :: 0 <= i < |s| ==> IsSep(s[i]) }

  predicate NoSeparators(s: string) { forall i :: 0 <= i < |s| ==> !IsSep(s[i]) }

  lemma {:induction false} ScanBehindSeparators(seps: string, s: string)
    requires Separators(seps)
    ensures Scan(seps + s, true) == Scan(s, true)
  {
    if seps == "" {
      assert seps + s == s;
    } else {
      assert (seps + s)[1..] == seps[1..] + s;
      ScanBehindSeparators(seps[1..], s);
    }
  }

  /** A word that goes on is put in lower case. */
  lemma {:induction false} ScanInWord(w: string, rest: string)
    requires NoSeparators(w) && (rest == "" || IsSep(rest[0]))
    ensures Scan(w + rest, false) == Lower(w) + Scan(rest, true)
  {
    if w == "" {
      assert w + rest == rest;
    } else {
      assert (w + rest)[1..] == w[1..] + rest;
      ScanInWord(w[1..], rest);
      assert Lower(w) == [Low(w[0])] + Lower(w[1..]);
    }
  }

  lemma LowerFirst(w: string)
    requires w != ""
    ensures Lower(w) == [Low(w[0])] + Lower(w[1..])
  {}

  lemma LowerCapital(c: char)
    ensures Low(Up(Low(c))) == Low(c)
  {}

  lemma LowerHead(t: string, c: char, x: string, y: string)
    requires t == [c] + (x + y)
    ensures t != "" && [Low(t[0])] + t[1..] == ([Low(c)] + x) + y
  {}

  lemma ScanOfWord(w: string, rest: string)
    requires w != "" && NoSeparators(w) && (rest == "" || IsSep(rest[0]))
    ensures Scan(w + rest, true) == [Up(Low(w[0]))] + (Lower(w[1..]) + Scan(rest, true))
  {
    assert (w + rest)[1..] == w[1..] + rest;
    ScanInWord(w[1..], rest);
  }

  /** With its first letter lowered, camel case begins with the first word in lower case. */
  lemma LoweredScan(seps: string, w: string, rest: string)
    requires Separators(seps) && w != "" && NoSeparators(w) && (rest == "" || IsSep(rest[0]))
    ensures var t := Scan(seps + (w + rest), true);
            t != "" && [Low(t[0])] + t[1..] == Lower(w) + Scan(rest, true)
  {
    ScanBehindSeparators(seps, w + rest);
    ScanOfWord(w, rest);
    LowerFirst(w);
    LowerCapital(w[0]);
    LowerHead(Scan(seps + (w + rest), true), Up(Low(w[0])), Lower(w[1..]), Scan(rest, true));
  }

  /** No entry of the table begins with anything but a capital. */
  lemma NoneBeginsLower(c: char)
    requires !IsUpper(c)
    ensures CAMEL_COMMON.Even() && CAMEL_COMMON.NoneBegins(c)
  {
    TablesEven();
    forall k | 0 <= k < |CAMELS| ensures CAMELS[k][0] != c {
      Forms(k);
      Heads(k);
    }
  }

  /** Every input but one of separators only is separators, a word and a rest that is empty
      or begins with a separator: the word comes out in lower case, whatever the table
      says, and the rest as upper camel case writes it alone. */
  lemma FirstWordLower(seps: string, w: string, rest: string)
    requires Separators(seps) && w != "" && NoSeparators(w) && (rest == "" || IsSep(rest[0]))
    ensures Scan(seps + (w + rest), true) != ""
    ensures LowerCamel(seps + (w + rest)) == Lower(w) + Camel(rest)
  {
    TablesEven();
    LoweredScan(seps, w, rest);
    forall p | 0 <= p < |w| ensures CAMEL_COMMON.NoneBegins(Lower(w)[p]) {
      NoneBeginsLower(Lower(w)[p]);
    }
    CAMEL_COMMON.LeavesAlone(Lower(w), Scan(rest, true));
  }

  /** How an input divides. */
  lemma {:induction false} Divides(s: string) returns (seps: string, w: string, rest: string)
    requires exists i :: 0 <= i < |s| && !IsSep(s[i])
    ensures s == seps + (w + rest)
    ensures Separators(seps) && w != "" && NoSeparators(w) && (rest == "" || IsSep(rest[0]))
  {
    if IsSep(s[0]) {
      assert exists i :: 0 <= i < |s[1..]| && !IsSep(s[1..][i]) by {
        var i :| 0 <= i < |s| && !IsSep(s[i]);
        assert s[1..][i - 1] == s[i];
      }
      seps, w, rest := Divides(s[1..]);
      seps := [s[0]] + seps;
    } else {
      seps := "";
      w, rest := DividesWord(s);
    }
  }

  lemma {:induction false} DividesWord(s: string) returns (w: string, rest: string)
    ensures s == w + rest && NoSeparators(w) && (rest == "" || IsSep(rest[0]))
    ensures s != "" && !IsSep(s[0]) ==> w != ""
  {
    if s == "" || IsSep(s[0]) {
      w, rest := "", s;
    } else {
      w, rest := DividesWord(s[1..]);
      w := [s[0]] + w;
    }
  }

  lemma JoinedTail(words: seq<string>) returns (rest: string)
    requires words != [] && Words(words)
    ensures Join(words) == words[0] + rest && (rest == "" || rest[0] == '_')
    ensures Scan(rest, true) == Scan(Join(words[1..]), true)
  {
    if |words| == 1 {
      rest := "";
      assert Join(words) == words[0] + rest;
    } else {
      rest := "_" + Join(words[1..]);
      ScanBehindSeparators("_", Join(words[1..]));
    }
  }

  lemma LowerWord(w: string)
    requires Word(w)
    ensures Lower(w) == w && NoSeparators(w)
  {}

  /** For words over [a-z]: the first is left as it is, and the others are put in upper
      camel case. */
  lemma LowerCamelOfWords(words: seq<string>)
    requires words != [] && Words(words)
    ensures Scan(Join(words), true) != ""
    ensures LowerCamel(Join(words)) == words[0] + Camel(Join(words[1..]))
  {
    var w := words[0];
    assert Word(w);
    LowerWord(w);
    var rest := JoinedTail(words);
    assert "" + (w + rest) == Join(words);
    FirstWordLower("", w, rest);
  }
}
