/** The table of common initialisms and what its entries have to do with each other. */
module Initialisms {
  import opened Replacer

  const INITIALISMS: seq<string> := [
    "ASCII", "MySQL",
    "XSRF", "XSS", "YAML", "UUID", "SMTP", "HTML", "HTTP", "JSON", "UTF8",
    "QPS", "CPU", "UID", "URI", "URL", "XML", "ACL", "API", "CSS", "DNS", "EOF",
    "LHS", "RAM", "RHS", "RPC", "SLA", "SSH", "TCP", "TLS", "TTL", "UDP",
    "UI", "ID", "VM", "IP"
  ]

  lemma Heads(k: nat)
    requires k < |INITIALISMS|
    ensures |INITIALISMS[k]| >= 2 && IsUpper(INITIALISMS[k][0])
    ensures IsUpper(INITIALISMS[k][1]) || INITIALISMS[k] == "MySQL"
    ensures IsUpper(INITIALISMS[k][1]) || INITIALISMS[k][0] == 'M'
  {}

  /** In no entry does 'Q' follow an initial 'S'. */
  lemma NoSQ(k: nat)
    requires k < |INITIALISMS|
    ensures |INITIALISMS[k]| >= 2 && !(INITIALISMS[k][0] == 'S' && INITIALISMS[k][1] == 'Q')
  {}

  /** The only entry in D is "DNS", and none is in N. */
  lemma DAndN(k: nat)
    requires k < |INITIALISMS|
    ensures INITIALISMS[k] != "" && INITIALISMS[k][0] != 'N'
    ensures INITIALISMS[k][0] == 'D' ==> INITIALISMS[k] == "DNS"
  {}

  /** Wherever an entry reads "UI" it is "UI" itself or goes on with 'D'. */
  lemma UiInside(k: nat, q: nat)
    requires k < |INITIALISMS| && q + 1 < |INITIALISMS[k]|
    requires INITIALISMS[k][q] == 'U' && INITIALISMS[k][q + 1] == 'I'
    ensures INITIALISMS[k] == "UI" || (q + 2 < |INITIALISMS[k]| && INITIALISMS[k][q + 2] == 'D')
  {}

  /** The index of an entry from its first three letters in upper case. */
  function Slot(a: char, b: char, c: char): nat {
    match a
    case 'A' => if b == 'S' then 0 else if b == 'C' then 17 else 18
    case 'M' => 1
    case 'X' => if b == 'M' then 16 else if c == 'R' then 2 else 3
    case 'Y' => 4
    case 'U' => if b == 'U' then 5 else if b == 'T' then 10 else if b == 'D' then 31
                else if b == 'R' then (if c == 'I' then 14 else 15)
                else if c == 'D' then 13 else 32
    case 'S' => if b == 'M' then 6 else if b == 'L' then 26 else 27
    case 'H' => if c == 'M' then 7 else 8
    case 'J' => 9
    case 'Q' => 11
    case 'C' => if b == 'P' then 12 else 19
    case 'D' => 20
    case 'E' => 21
    case 'L' => 22
    case 'R' => if b == 'A' then 23 else if b == 'H' then 24 else 25
    case 'T' => if b == 'C' then 28 else if b == 'L' then 29 else 30
    case 'I' => if b == 'D' then 33 else 35
    case _ => 34
  }

  lemma SlotOf(k: nat)
    requires k < |INITIALISMS| && |INITIALISMS[k]| > 2
    ensures Slot(INITIALISMS[k][0], INITIALISMS[k][1], INITIALISMS[k][2]) == k
  {}

  lemma SlotOf2(k: nat)
    requires k < |INITIALISMS| && |INITIALISMS[k]| == 2
    ensures k >= 32
  {}

  lemma ThirdLetter(k: nat)
    requires k < |INITIALISMS| && |INITIALISMS[k]| > 2
    ensures IsUpper(INITIALISMS[k][2])
  {}

  lemma TwoLetters(k: nat)
    requires k < |INITIALISMS| && |INITIALISMS[k]| == 2
    ensures INITIALISMS[k] == ["UI", "ID", "VM", "IP"][k - 32] && 32 <= k < 36
  {
    SlotOf2(k);
  }

  lemma LongHeads(k: nat, m: nat)
    requires k < |INITIALISMS| && m < |INITIALISMS| && |INITIALISMS[k]| > 2 && |INITIALISMS[m]| > 2
    requires forall q :: 0 <= q < 3 ==> Low(INITIALISMS[k][q]) == Low(INITIALISMS[m][q])
    ensures k == m
  {
    var a, b := INITIALISMS[k][..3], INITIALISMS[m][..3];
    Heads(k);
    Heads(m);
    ThirdLetter(k);
    ThirdLetter(m);
    SlotOf(k);
    SlotOf(m);
    assert Low(a[0]) == Low(b[0]) && Low(a[1]) == Low(b[1]) && Low(a[2]) == Low(b[2]);
    SlotByCase(a[0], a[1], a[2], b[0], b[1], b[2]);
  }

  lemma SlotByCase(a: char, b: char, c: char, a': char, b': char, c': char)
    requires IsUpper(a) && IsUpper(c) && IsUpper(a') && IsUpper(c')
    requires IsUpper(b) || a == 'M'
    requires IsUpper(b') || a' == 'M'
    requires Low(a) == Low(a') && Low(b) == Low(b') && Low(c) == Low(c')
    ensures Slot(a, b, c) == Slot(a', b', c')
  {}

  /** Apart from case, only "UI" is a prefix of another entry, and only of "UID",
      which comes before it. */
  lemma Prefixes(k: nat, m: nat)
    requires k < |INITIALISMS| && m < |INITIALISMS| && k != m
    requires |INITIALISMS[k]| <= |INITIALISMS[m]|
    requires forall q :: 0 <= q < |INITIALISMS[k]| ==> Low(INITIALISMS[k][q]) == Low(INITIALISMS[m][q])
    ensures INITIALISMS[k] == "UI" && INITIALISMS[m] == "UID" && m < k
  {
    var a, b := INITIALISMS[k], INITIALISMS[m];
    Heads(k);
    Heads(m);
    if |a| > 2 {
      LongHeads(k, m);
    } else {
      TwoLetters(k);
      assert Low(a[0]) == Low(b[0]) && Low(a[1]) == Low(b[1]);
      if |b| > 2 {
        SlotOf(m);
        assert m == 13;
      } else {
        TwoLetters(m);
      }
    }
  }

  /** An entry as toUpperCamel would write it. */
  function CamelForm(abbr: string): string {
    if abbr == "" then "" else Capitalize(Lower(abbr))
  }

  function CamelForms(abbrs: seq<string>): (r: seq<string>)
    ensures |r| == |abbrs| && forall k :: 0 <= k < |abbrs| ==> r[k] == CamelForm(abbrs[k])
  {
    if abbrs == [] then [] else CamelForms(abbrs[..|abbrs| - 1]) + [CamelForm(abbrs[|abbrs| - 1])]
  }

  const CAMELS: seq<string> := CamelForms(INITIALISMS)

  /** The two replacers: camel form to initialism, and back. */
  const CAMEL_COMMON := Table(CAMELS, INITIALISMS)
  const ABBR_COMMON := Table(INITIALISMS, CAMELS)

  /** An entry and its camel form differ in case only; they begin alike, and behind
      its first letter the camel form has no capital. */
  lemma Forms(k: nat)
    requires k < |INITIALISMS|
    ensures |CAMELS| == |INITIALISMS| && |CAMELS[k]| == |INITIALISMS[k]| >= 2
    ensures CAMELS[k][0] == INITIALISMS[k][0] && IsUpper(CAMELS[k][0])
    ensures forall q :: 1 <= q < |CAMELS[k]| ==> CAMELS[k][q] == Low(INITIALISMS[k][q])
  {
    Heads(k);
  }

  lemma TablesEven()
    ensures CAMEL_COMMON.Even() && ABBR_COMMON.Even()
    ensures |CAMELS| == |INITIALISMS|
  {
    forall k | 0 <= k < |INITIALISMS| ensures |CAMELS[k]| == |INITIALISMS[k]| > 0 {
      Forms(k);
    }
  }
}
