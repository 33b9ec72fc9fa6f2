/** Conversion between separated words and camel case, with common initialisms in
    capitals, and the exact domains on which going there and back is the identity.
    Casing is ASCII: other characters have no case. */
module CamelCase {
  import opened Replacer
  import opened Casing
  import opened Initialisms

  function Camel(s: string): string {
    TablesEven();
    CAMEL_COMMON.Replace(Scan(s, true))
  }

  function LowerCamel(s: string): string
    requires Scan(s, true) != ""
  {
    TablesEven();
    CAMEL_COMMON.Replace([Low(Scan(s, true)[0])] + Scan(s, true)[1..])
  }

  function Underscored(s: string): string {
    TablesEven();
    Under(ABBR_COMMON.Replace(s), true)
  }

  // ---- the conversions as the program performs them ----

  method BuildReplacers() returns (camelCommon: Table, abbrCommon: Table)
    ensures camelCommon == CAMEL_COMMON && abbrCommon == ABBR_COMMON
  {
    TablesEven();
    var camels: seq<string> := [];
    for k := 0 to |INITIALISMS|
      invariant camels == CAMELS[..k]
    {
      Forms(k);
      var lower := Lower(INITIALISMS[k]);
      camels := camels + [[Up(lower[0])] + lower[1..]];
    }
    camelCommon, abbrCommon := Table(camels, INITIALISMS), Table(INITIALISMS, camels);
  }

  method ToUpperCamel(s: string) returns (r: string)
    ensures r == Camel(s)
  {
    TablesEven();
    if s == "" {
      return "";
    }
    var plain := PlainUpperCamel(s);
    r := CAMEL_COMMON.Replace(plain);
  }

  /** The first character of the capitalised form is overwritten, which fails on an
      input of separators only. */
  method ToLowerCamel(s: string) returns (r: string)
    requires s == "" || exists i :: 0 <= i < |s| && !IsSep(s[i])
    ensures s == "" ==> r == ""
    ensures s != "" ==> Scan(s, true) != "" && r == LowerCamel(s)
  {
    TablesEven();
    if s == "" {
      return "";
    }
    var plain := PlainUpperCamel(s);
    ScanEmpty(s, true);
    r := [Low(plain[0])] + plain[1..];
    r := CAMEL_COMMON.Replace(r);
  }

  method ToUnderScore(s: string) returns (r: string)
    ensures r == Underscored(s)
  {
    TablesEven();
    if s == "" {
      return "";
    }
    var runes := ABBR_COMMON.Replace(s);
    r := Divide(runes);
  }
}
