/** Camel case without initialisms, and underscores from camel case: the loops of the
    two conversions and the one-pass functions they compute. */
module Casing {
  import opened Replacer

  predicate IsSep(c: char) { c == '_' || c == '-' }

  /** What the second conversion puts an underscore before. */
  predicate Big(c: char) { IsUpper(c) || IsDigit(c) }

  /** strings.Split by one character. */
  function Split(s: string, sep: char): (parts: seq<string>)
    ensures parts != []
  {
    if s == "" then [""]
    else
      var rest := Split(s[1..], sep);
      if s[0] == sep then [""] + rest else [[s[0]] + rest[0]] + rest[1..]
  }

  /** Camel case without initialisms, read off character by character: separators
      disappear and the character behind them is put in upper case. */
  function Scan(s: string, start: bool): (r: string) {
    if s == "" then ""
    else if IsSep(s[0]) then Scan(s[1..], true)
    else [if start then Up(Low(s[0])) else Low(s[0])] + Scan(s[1..], false)
  }

  /** Words in lower case, divided by underscores before capitals and digits that
      follow neither; `glued` says that the previous character was one, or that
      there is none. */
  function Under(s: string, glued: bool): (r: string) {
    if s == "" then ""
    else if Big(s[0]) then (if glued then "" else "_") + [Low(s[0])] + Under(s[1..], true)
    else [s[0]] + Under(s[1..], false)
  }

  function Cap(p: string): string {
    if p == "" then "" else Capitalize(Lower(p))
  }

  function Caps(ps: seq<string>): string {
    if ps == [] then "" else Cap(ps[0]) + Caps(ps[1..])
  }

  lemma {:induction false} CapsConcat(a: seq<string>, b: seq<string>)
    ensures Caps(a + b) == Caps(a) + Caps(b)
  {
    if a == [] {
      assert a + b == b;
    } else {
      assert (a + b)[0] == a[0] && (a + b)[1..] == a[1..] + b;
      CapsConcat(a[1..], b);
      Assoc(Cap(a[0]), Caps(a[1..]), Caps(b));
    }
  }

  /** Pieces between underscores, each split again at hyphens. */
  function Pieces(parts: seq<string>): seq<string> {
    if parts == [] then [] else Split(parts[0], '-') + Pieces(parts[1..])
  }

  lemma PiecesCons(p: string, parts: seq<string>)
    ensures Pieces([p] + parts) == Split(p, '-') + Pieces(parts)
  {
    assert ([p] + parts)[1..] == parts;
  }

  /** A character in front of a list of pieces opens a new one or extends the first. */
  function Prefixed(c: char, opens: bool, qs: seq<string>): seq<string>
    requires qs != []
  {
    if opens then [""] + qs else [[c] + qs[0]] + qs[1..]
  }

  lemma SplitCons(s: string, sep: char)
    requires s != ""
    ensures Split(s, sep) == Prefixed(s[0], s[0] == sep, Split(s[1..], sep))
  {}

  lemma PrefixedConcat(c: char, opens: bool, hs: seq<string>, tail: seq<string>)
    requires hs != []
    ensures Prefixed(c, opens, hs) + tail == Prefixed(c, opens, hs + tail)
  {}

  /** The pieces of `s` come from those of its tail: a separator opens a new piece,
      another character extends the first one. */
  lemma PiecesStep(s: string)
    requires s != ""
    ensures Pieces(Split(s[1..], '_')) != []
    ensures Pieces(Split(s, '_')) == Prefixed(s[0], IsSep(s[0]), Pieces(Split(s[1..], '_')))
  {
    var rest := Split(s[1..], '_');
    SplitCons(s, '_');
    if s[0] == '_' {
      PiecesCons("", rest);
    } else {
      var p := [s[0]] + rest[0];
      assert rest == [rest[0]] + rest[1..];
      PiecesCons(rest[0], rest[1..]);
      PiecesCons(p, rest[1..]);
      assert p[1..] == rest[0];
      SplitCons(p, '-');
      PrefixedConcat(s[0], s[0] == '-', Split(rest[0], '-'), Pieces(rest[1..]));
    }
  }

  /** The pieces capitalised and put together; the first one only if at a start. */
  function Assembled(ps: seq<string>, start: bool): string
    requires ps != []
  {
    (if start then Cap(ps[0]) else Lower(ps[0])) + Caps(ps[1..])
  }

  lemma AssembledExtend(c: char, ps: seq<string>, start: bool)
    requires ps != []
    ensures Assembled([[c] + ps[0]] + ps[1..], start)
         == [if start then Up(Low(c)) else Low(c)] + Assembled(ps, false)
  {
    var p := [c] + ps[0];
    assert Lower(p) == [Low(c)] + Lower(ps[0]);
    assert Lower(p)[1..] == Lower(ps[0]);
    assert ([p] + ps[1..])[1..] == ps[1..];
    Assoc([if start then Up(Low(c)) else Low(c)], Lower(ps[0]), Caps(ps[1..]));
  }

  /** Splitting twice and capitalising the pieces is one pass over the characters. */
  lemma {:induction false} ScanOfSplit(s: string, start: bool)
    ensures Pieces(Split(s, '_')) != [] && Scan(s, start) == Assembled(Pieces(Split(s, '_')), start)
  {
    if s == "" {
      assert Split("", '-') == [""] && Pieces([]) == [];
      assert Pieces([""]) == [""];
    } else {
      var qs := Pieces(Split(s[1..], '_'));
      ScanOfSplit(s[1..], IsSep(s[0]));
      PiecesStep(s);
      if IsSep(s[0]) {
        assert ([""] + qs)[1..] == qs;
      } else {
        AssembledExtend(s[0], qs, start);
      }
    }
  }

  method PlainUpperCamel(s: string) returns (builder: string)
    ensures builder == Scan(s, true)
  {
    builder := "";
    if s == "" {
      return;
    }
    var parts := Split(s, '_');
    for i := 0 to |parts|
      invariant builder + Caps(Pieces(parts[i..])) == Caps(Pieces(parts))
    {
      var ps := Split(parts[i], '-');
      ghost var rest := Caps(Pieces(parts[i + 1..]));
      assert Caps(Pieces(parts[i..])) == Caps(ps) + rest by {
        assert parts[i..][1..] == parts[i + 1..];
        CapsConcat(ps, Pieces(parts[i + 1..]));
      }
      builder := WritePieces(builder, ps);
      Assoc(builder[..|builder| - |Caps(ps)|], Caps(ps), rest);
    }
    ScanOfSplit(s, true);
  }

  lemma CapsStep(r: string, ps: seq<string>, j: nat)
    requires j < |ps|
    ensures r + Caps(ps[j..]) == (r + Cap(ps[j])) + Caps(ps[j + 1..])
    ensures ps[j] == "" ==> r + Cap(ps[j]) == r
  {
    assert ps[j..][1..] == ps[j + 1..];
    Assoc(r, Cap(ps[j]), Caps(ps[j + 1..]));
  }

  /** The inner loop: empty pieces are skipped, the others written capitalised. */
  method WritePieces(builder: string, ps: seq<string>) returns (r: string)
    ensures r == builder + Caps(ps)
  {
    r := builder;
    assert ps[0..] == ps;
    for j := 0 to |ps|
      invariant r + Caps(ps[j..]) == builder + Caps(ps)
    {
      CapsStep(r, ps, j);
      if ps[j] == "" {
        continue;
      }
      var lower := Lower(ps[j]);
      r := r + ([Up(lower[0])] + lower[1..]);
    }
    assert Caps(ps[|ps|..]) == "";
  }

  /** Indexing the first character fails exactly on separators only. */
  lemma ScanEmpty(s: string, start: bool)
    ensures Scan(s, start) == "" <==> forall i :: 0 <= i < |s| ==> IsSep(s[i])
  {
    if s != "" {
      ScanEmpty(s[1..], IsSep(s[0]));
      assert forall i :: 0 < i < |s| ==> s[i] == s[1..][i - 1];
    }
  }

  /** The loop over the characters that inserts underscores. */
  method Divide(runes: string) returns (builder: string)
    ensures builder == Under(runes, true)
  {
    builder := "";
    for i := 0 to |runes|
      invariant builder + Under(runes[i..], i == 0 || Big(runes[i - 1])) == Under(runes, true)
    {
      ghost var glued, rest := i == 0 || Big(runes[i - 1]), Under(runes[i + 1..], Big(runes[i]));
      ghost var before := builder;
      assert Under(runes[i..], glued) == UnderOne(runes[i], glued) + rest by {
        assert runes[i..][0] == runes[i] && runes[i..][1..] == runes[i + 1..];
        UnderStep(runes[i..], glued);
      }
      if IsUpper(runes[i]) || IsDigit(runes[i]) {
        if i > 0 && !IsUpper(runes[i - 1]) && !IsDigit(runes[i - 1]) {
          builder := builder + "_";
        }
        builder := builder + [Low(runes[i])];
      } else {
        builder := builder + [runes[i]];
      }
      assert builder == before + UnderOne(runes[i], glued);
      Assoc(before, UnderOne(runes[i], glued), rest);
    }
  }

  lemma Assoc(a: string, b: string, c: string)
    ensures (a + b) + c == a + (b + c)
  {}

  function UnderOne(c: char, glued: bool): string {
    if Big(c) then (if glued then "" else "_") + [Low(c)] else [c]
  }

  lemma UnderStep(s: string, glued: bool)
    requires s != ""
    ensures Under(s, glued) == UnderOne(s[0], glued) + Under(s[1..], Big(s[0]))
  {}

  ghost predicate NoSeps(s: string) {
    forall i :: 0 <= i < |s| ==> !IsSep(s[i])
  }

  lemma ScanNoSeps(s: string, start: bool)
    ensures NoSeps(Scan(s, start))
    ensures start && Scan(s, start) != "" ==> Scan(s, start)[0] == Up(Low(Scan(s, start)[0]))
  {}

  /** Dividing a string and putting it in camel case again keeps a capital only where
      the string starts, or where a capital or digit follows neither. */
  function Recased(y: string): string {
    Scan(Under(y, true), true)
  }

  function RecasedChar(y: string, i: nat, glued: bool, start: bool): char
    requires i < |y|
  {
    if (i == 0 && start) || (Big(y[i]) && !(if i == 0 then glued else Big(y[i - 1]))) then Up(Low(y[i])) else Low(y[i])
  }

  lemma {:induction false} RecasedFrom(y: string, glued: bool, start: bool)
    requires NoSeps(y)
    ensures var r := Scan(Under(y, glued), start);
            |r| == |y| && forall i :: 0 <= i < |y| ==> r[i] == RecasedChar(y, i, glued, start)
  {
    if y != "" {
      var rest := y[1..];
      assert NoSeps(rest);
      RecasedFrom(rest, Big(y[0]), false);
      var r, r' := Scan(Under(y, glued), start), Scan(Under(rest, Big(y[0])), false);
      ScanOfUnder(y, glued, start);
      forall i | 0 <= i < |y| ensures r[i] == RecasedChar(y, i, glued, start) {
        if i > 0 {
          assert r[i] == r'[i - 1] == RecasedChar(rest, i - 1, Big(y[0]), false);
        }
      }
    }
  }

  lemma ScanOfUnder(y: string, glued: bool, start: bool)
    requires y != "" && NoSeps(y)
    ensures Scan(Under(y, glued), start) == [RecasedChar(y, 0, glued, start)] + Scan(Under(y[1..], Big(y[0])), false)
  {
    var c, rest := Low(y[0]), Under(y[1..], Big(y[0]));
    assert !IsSep(y[0]) && !IsSep(c);
    assert ([c] + rest)[1..] == rest;
    if Big(y[0]) && !glued {
      assert Under(y, glued) == "_" + ([c] + rest);
      assert ("_" + ([c] + rest))[1..] == [c] + rest;
    } else {
      assert Under(y, glued) == [if Big(y[0]) then c else y[0]] + rest;
    }
  }

  // ---- on which strings casing and dividing undo each other, initialisms aside ----

  /** One pass that a caller could make over `s`: no hyphen and no capital; an
      underscore stands between words, the next one beginning with a letter or digit
      and the previous one not ending with its own first letter or a digit; inside a
      word a digit follows only the first letter or a digit. `start`: at the start of
      a word; `glued`: the character before becomes a capital or is a digit, or there
      is none. */
  predicate Separable(s: string, start: bool, glued: bool) {
    if s == "" then true
    else if s[0] == '_' then
      !glued && |s| > 1 && (IsLower(s[1]) || IsDigit(s[1])) && Separable(s[1..], true, true)
    else if s[0] == '-' || IsUpper(s[0]) then false
    else if IsDigit(s[0]) then glued && Separable(s[1..], false, true)
    else Separable(s[1..], false, start && IsLower(s[0]))
  }

  lemma UnderGlue(t: string)
    requires t != "" && Big(t[0])
    ensures Under(t, false) == "_" + Under(t, true)
  {}

  lemma UnderHead(t: string, glued: bool)
    requires NoSeps(t)
    ensures var r := Under(t, glued);
            r != "" ==> r[0] != '-' && !IsUpper(r[0]) && (r[0] == '_' ==>
              !glued && |r| > 1 && Big(t[0]) && r[1] == Low(t[0]))
    ensures Under(t, glued) == "" <==> t == ""
  {
    if t != "" {
      assert !IsSep(t[0]);
    }
  }

  lemma {:induction false} SeparableExact(s: string, start: bool, glued: bool)
    requires start ==> glued
    ensures Under(Scan(s, start), glued) == s <==> Separable(s, start, glued)
  {
    if s != "" {
      var rest := s[1..];
      if s[0] == '_' {
        SeparableExact(rest, true, true);
        UnderscoreCase(s, start, glued);
      } else {
        ScanNoSeps(s, start);
        UnderHead(Scan(s, start), glued);
        if s[0] != '-' && !IsUpper(s[0]) {
          var c := if start then Up(Low(s[0])) else Low(s[0]);
          SeparableExact(rest, false, Big(c));
          assert Scan(s, start) == [c] + Scan(rest, false);
          assert ([c] + Scan(rest, false))[1..] == Scan(rest, false);
          assert s == [s[0]] + rest;
          UnderStep(Scan(s, start), glued);
        }
      }
    }
  }

  lemma UnderscoreCase(s: string, start: bool, glued: bool)
    requires s != "" && s[0] == '_'
    requires Under(Scan(s[1..], true), true) == s[1..] <==> Separable(s[1..], true, true)
    ensures Under(Scan(s, start), glued) == s <==> Separable(s, start, glued)
  {
    var t := Scan(s[1..], true);
    assert Scan(s, start) == t;
    ScanNoSeps(s[1..], true);
    UnderHead(t, glued);
    assert s == "_" + s[1..];
    assert |s| > 1 && !IsSep(s[1]) ==> t != "" && t[0] == Up(Low(s[1]));
    if t != "" && Big(t[0]) && !glued {
      UnderGlue(t);
      assert Under(t, glued)[1..] == Under(t, true);
      assert Under(t, glued) == s <==> Under(t, true) == s[1..];
      UnderHead(t, true);
    } else {
      assert Under(t, glued) != s;
    }
  }

  // ---- the one pair of words that initialisms confuse ----

  /** Somewhere the word "ui" is followed by a word that begins with 'd'. */
  predicate UiThenD(s: string, start: bool) {
    s != "" && ((start && "ui_d" <= s) || UiThenD(s[1..], s[0] == '_'))
  }

  predicate HasUiD(t: string) {
    t != "" && ("UiD" <= t || HasUiD(t[1..]))
  }

  predicate BothUpper(t: string, i: nat) {
    i + 1 < |t| && IsUpper(t[i]) && IsUpper(t[i + 1])
  }

  predicate UiDAt(t: string, i: nat) {
    i + 2 < |t| && t[i] == 'U' && t[i + 1] == 'i' && t[i + 2] == 'D'
  }

  predicate UiDnsAt(t: string, i: nat) {
    UiDAt(t, i) && i + 4 < |t| && t[i + 3] == 'n' && t[i + 4] == 's'
  }

  ghost predicate NoUiDns(t: string) {
    forall i: nat :: !UiDnsAt(t, i)
  }

  /** A capital behind a capital or digit. */
  predicate RunAt(t: string, p: nat) {
    0 < p < |t| && IsUpper(t[p]) && Big(t[p - 1])
  }

  ghost predicate NoRun(t: string) {
    forall p: nat :: !RunAt(t, p)
  }

  ghost predicate CapitalsApart(t: string) {
    forall i: nat :: !BothUpper(t, i)
  }

  lemma {:induction false} HasUiDAt(t: string, i: nat)
    requires UiDAt(t, i)
    ensures HasUiD(t)
  {
    if i == 0 {
      assert "UiD" == t[..3];
    } else {
      HasUiDAt(t[1..], i - 1);
    }
  }

  lemma {:induction false} HasUiDIndex(t: string) returns (i: nat)
    requires HasUiD(t)
    ensures UiDAt(t, i)
  {
    if "UiD" <= t {
      i := 0;
    } else {
      var j := HasUiDIndex(t[1..]);
      i := j + 1;
    }
  }

  lemma ApartCons(c: char, t: string)
    requires CapitalsApart(t) && !(IsUpper(c) && t != "" && IsUpper(t[0]))
    ensures CapitalsApart([c] + t)
  {
    forall i: nat ensures !BothUpper([c] + t, i) {
      assert i > 0 ==> !BothUpper(t, i - 1);
    }
  }

  lemma {:induction false} SeparableScan(s: string, start: bool, glued: bool)
    requires Separable(s, start, glued) && (start ==> glued)
    ensures CapitalsApart(Scan(s, start))
    ensures glued && !start && Scan(s, start) != "" ==> !IsUpper(Scan(s, start)[0])
    ensures HasUiD(Scan(s, start)) <==> UiThenD(s, start)
  {
    if s != "" {
      var rest := s[1..];
      forall i | 0 <= i < |s| ensures SpelledAt(s, i) {
        SeparableSpelled(s, start, glued, i);
      }
      if s[0] == '_' {
        SeparableScan(rest, true, true);
      } else if IsDigit(s[0]) {
        SeparableScan(rest, false, true);
        UiDHead(s, start);
        ApartCons(Scan(s, start)[0], Scan(rest, false));
      } else {
        SeparableScan(rest, false, start && IsLower(s[0]));
        UiDHead(s, start);
        ApartCons(Scan(s, start)[0], Scan(rest, false));
      }
    }
  }

  ghost predicate SpelledAt(s: string, i: nat)
    requires i < |s|
  {
    s[i] != '-' && !IsUpper(s[i]) && (s[i] == '_' ==> i + 1 < |s| && (IsLower(s[i + 1]) || IsDigit(s[i + 1])))
  }

  lemma {:induction false} SeparableSpelled(s: string, start: bool, glued: bool, i: nat)
    requires Separable(s, start, glued) && i < |s|
    ensures SpelledAt(s, i)
  {
    if i > 0 {
      var rest := s[1..];
      if s[0] == '_' {
        SeparableSpelled(rest, true, true, i - 1);
      } else {
        SeparableSpelled(rest, false, if IsDigit(s[0]) then true else start && IsLower(s[0]), i - 1);
      }
      assert SpelledAt(rest, i - 1) && rest[i - 1] == s[i];
      assert i + 1 < |s| ==> rest[i] == s[i + 1];
    }
  }

  lemma ScanOverSep(s: string)
    requires |s| > 1 && s[0] == '_' && !IsSep(s[1])
    ensures Scan(s, false) != "" && Scan(s, false)[0] == Up(Low(s[1]))
  {
    assert Scan(s, false) == Scan(s[1..], true);
  }

  /** Letter by letter: "UiD" in the scan is "ui_d" at the start of a word. */
  lemma UiDHead(s: string, start: bool)
    requires s != "" && s[0] != '_' && forall i :: 0 <= i < |s| ==> SpelledAt(s, i)
    ensures "UiD" <= Scan(s, start) <==> start && "ui_d" <= s
  {
    assert SpelledAt(s, 0) && (|s| > 1 ==> SpelledAt(s, 1)) && (|s| > 2 ==> SpelledAt(s, 2));
    var a := if start then Up(Low(s[0])) else Low(s[0]);
    var t := Scan(s[1..], false);
    var r := Scan(s, start);
    assert r == [a] + t;
    assert |r| >= 3 ==> ("UiD" <= r <==> r[0] == 'U' && r[1] == 'i' && r[2] == 'D') by {
      assert |r| >= 3 ==> r[..3] == [r[0], r[1], r[2]];
    }
    if |s| > 1 && s[1] == 'i' {
      var u := Scan(s[2..], false);
      assert t == ['i'] + u by {
        assert s[1..][1..] == s[2..];
      }
      assert r == [a, 'i'] + u;
      if |s| > 2 && s[2] == '_' {
        ScanOverSep(s[2..]);
        assert s[2..][1] == s[3];
        assert "ui_d" <= s <==> s[0] == 'u' && s[3] == 'd';
        assert r[2] == u[0];
      } else {
        assert u != "" ==> u[0] == Low(s[2]);
      }
    } else if |s| > 1 && s[1] == '_' {
      ScanOverSep(s[1..]);
      assert r[1] == t[0] == Up(Low(s[2]));
    } else {
      assert t != "" ==> t[0] == Low(s[1]);
    }
  }

  /** `s` without its separators. */
  function Strip(s: string): string {
    if s == "" then "" else (if IsSep(s[0]) then "" else [s[0]]) + Strip(s[1..])
  }

  ghost predicate SameButCase(a: string, b: string) {
    |a| == |b| && forall i :: 0 <= i < |a| ==> Low(a[i]) == Low(b[i])
  }

  lemma SameButCaseCons(c: char, a: string, d: char, b: string)
    requires Low(c) == Low(d) && SameButCase(a, b)
    ensures SameButCase([c] + a, [d] + b)
  {}

  lemma {:induction false} ScanStrip(s: string, start: bool)
    ensures SameButCase(Scan(s, start), Strip(s))
  {
    if s != "" {
      var a, b := Scan(s[1..], IsSep(s[0])), Strip(s[1..]);
      ScanStrip(s[1..], IsSep(s[0]));
      if !IsSep(s[0]) {
        SameButCaseCons(if start then Up(Low(s[0])) else Low(s[0]), a, s[0], b);
      }
    }
  }

  predicate Alnum(c: char) { IsUpper(c) || IsLower(c) || IsDigit(c) }

  lemma AlnumByCase(a: char, b: char)
    requires Low(a) == Low(b)
    ensures Alnum(a) == Alnum(b)
  {}

  /** Letters, digits and, if allowed, separators only. */
  ghost predicate AllAlnum(s: string, orSep: bool) {
    forall i :: 0 <= i < |s| ==> Alnum(s[i]) || (orSep && IsSep(s[i]))
  }

  lemma AllAlnumCons(c: char, r: string, orSep: bool)
    ensures AllAlnum([c] + r, orSep) <==> (Alnum(c) || (orSep && IsSep(c))) && AllAlnum(r, orSep)
  {
    var s := [c] + r;
    assert s[0] == c && s[1..] == r;
    if AllAlnum(s, orSep) {
      forall i | 0 <= i < |r| ensures Alnum(r[i]) || (orSep && IsSep(r[i])) {
        assert s[i + 1] == r[i];
      }
    }
  }

  lemma {:induction false} StripAlnum(s: string)
    ensures AllAlnum(Strip(s), false) <==> AllAlnum(s, true)
  {
    if s != "" {
      StripAlnum(s[1..]);
      assert s == [s[0]] + s[1..];
      AllAlnumCons(s[0], s[1..], true);
      AllAlnumCons(s[0], Strip(s[1..]), false);
      assert Strip(s) == if IsSep(s[0]) then Strip(s[1..]) else [s[0]] + Strip(s[1..]);
      assert IsSep(s[0]) ==> !Alnum(s[0]);
    }
  }
}
