/**
  Character classes, trimming and number parsing shared by the G-code parser and the
  config.ini reader. Python's str.strip(), str.lower(), int() and float() are modelled
  here on `string` (a sequence of `char`).
*/
module Text {
  import opened Wrappers

  /** The characters Python's str.isspace() accepts; `\s` in a str regex matches the same set. */
  predicate IsSpace(c: char) {
    var n := c as int;
    (9 <= n <= 13) || (28 <= n <= 32) || n == 0x85 || n == 0xA0 || n == 0x1680
    || (0x2000 <= n <= 0x200A) || n == 0x2028 || n == 0x2029 || n == 0x202F
    || n == 0x205F || n == 0x3000
  }

  predicate IsDigit(c: char) {
    '0' <= c <= '9'
  }

  /** The character class `[0-9.+-]` the parser's regexes use for numeric tokens. */
  predicate IsNumChar(c: char) {
    IsDigit(c) || c == '.' || c == '+' || c == '-'
  }

  predicate AllDigits(s: string) {
    forall k :: 0 <= k < |s| ==> IsDigit(s[k])
  }

  predicate StartsWith(s: string, prefix: string) {
    |prefix| <= |s| && s[..|prefix|] == prefix
  }

  predicate EndsWith(s: string, suffix: string) {
    |suffix| <= |s| && s[|s| - |suffix|..] == suffix
  }

  /** The end of the longest run of characters in `cls` starting at i (a greedy `cls*`). */
  function RunEnd(s: string, i: nat, cls: char -> bool): (j: nat)
    requires i <= |s|
    ensures i <= j <= |s|
    ensures forall k :: i <= k < j ==> cls(s[k])
    ensures j < |s| ==> !cls(s[j])
    decreases |s| - i
  {
    if i < |s| && cls(s[i]) then RunEnd(s, i + 1, cls) else i
  }

  /** The index of the first non-whitespace character at or after i (a greedy `\s*`). */
  function SkipSpaces(s: string, i: nat): (j: nat)
    requires i <= |s|
    ensures i <= j <= |s|
    ensures forall k :: i <= k < j ==> IsSpace(s[k])
    ensures j < |s| ==> !IsSpace(s[j])
  {
    RunEnd(s, i, IsSpace)
  }

  /** The end of s[..j] once trailing whitespace is dropped. */
  function TrimEnd(s: string, j: nat): (k: nat)
    requires j <= |s|
    ensures k <= j
    ensures forall m :: k <= m < j ==> IsSpace(s[m])
    ensures k > 0 ==> !IsSpace(s[k - 1])
  {
    if j > 0 && IsSpace(s[j - 1]) then TrimEnd(s, j - 1) else j
  }

  /** str.strip(): s without its leading and trailing whitespace. */
  function Strip(s: string): (r: string)
    ensures |r| > 0 ==> !IsSpace(r[0]) && !IsSpace(r[|r| - 1])
    ensures r == [] <==> forall k :: 0 <= k < |s| ==> IsSpace(s[k])
    ensures |r| <= |s|
  {
    var i := SkipSpaces(s, 0);
    var j := TrimEnd(s, |s|);
    if j <= i then
      []
    else
      s[i..j]
  }

  /** str.lstrip(): s without its leading whitespace. */
  function StripStart(s: string): (r: string)
    ensures |r| > 0 ==> !IsSpace(r[0])
    ensures |r| <= |s| && r == s[|s| - |r|..]
  {
    s[SkipSpaces(s, 0)..]
  }

  function LowerChar(c: char): char {
    if 'A' <= c <= 'Z' then (c as int + 32) as char else c
  }

  /** str.lower() on the ASCII letters. */
  function ToLower(s: string): (r: string)
    ensures |r| == |s|
    ensures forall k :: 0 <= k < |s| ==> r[k] == LowerChar(s[k])
  {
    seq(|s|, k requires 0 <= k < |s| => LowerChar(s[k]))
  }

  function DigitValue(c: char): nat
    requires IsDigit(c)
  {
    c as int - '0' as int
  }

  /** int() of a run of decimal digits (the empty run is 0). */
  function DigitsValue(ds: string): nat
    requires AllDigits(ds)
  {
    if |ds| == 0 then 0 else DigitsValue(ds[..|ds| - 1]) * 10 + DigitValue(ds[|ds| - 1])
  }

  function Pow10(n: nat): (r: nat)
    ensures r >= 1
  {
    if n == 0 then 1 else 10 * Pow10(n - 1)
  }

  /** The value of the digits `intPart.fracPart`. */
  function Mantissa(intPart: string, fracPart: string): real
    requires AllDigits(intPart) && AllDigits(fracPart)
  {
    DigitsValue(intPart) as real + DigitsValue(fracPart) as real / Pow10(|fracPart|) as real
  }

  function Scale(m: real, exponent: int): real {
    if exponent >= 0 then m * Pow10(exponent) as real else m / Pow10(-exponent) as real
  }

  /** The exponent suffix `[eE][+-]?digits` that must fill s[k..], or 0 when s[k..] is empty. */
  function ParseExponent(s: string, k: nat): Option<int>
    requires k <= |s|
  {
    if k == |s| then Some(0)
    else if s[k] != 'e' && s[k] != 'E' then None
    else
      var signed := k + 1 < |s| && (s[k + 1] == '+' || s[k + 1] == '-');
      var d := if signed then k + 2 else k + 1;
      var e := RunEnd(s, d, IsDigit);
      if e == d || e != |s| then None
      else
        var v: int := DigitsValue(s[d..e]);
        Some(if signed && s[k + 1] == '-' then -v else v)
  }

  /** float() of an unsigned numeral: `(digits [. digits?] | . digits) ([eE] [+-]? digits)?`. */
  function ParseUnsigned(s: string): (r: Option<real>)
    ensures r.Some? ==> exists k :: 0 <= k < |s| && IsDigit(s[k])
    ensures |s| > 0 && AllDigits(s) ==> r == Some(DigitsValue(s) as real)
  {
    var j := RunEnd(s, 0, IsDigit);
    var dot := j < |s| && s[j] == '.';
    var k := if dot then RunEnd(s, j + 1, IsDigit) else j;
    if j == 0 && (!dot || k == j + 1) then
      None
    else
      var fracPart := if dot then s[j + 1..k] else "";
      match ParseExponent(s, k)
      case None => None
      case Some(ex) =>
        assert j > 0 ==> IsDigit(s[0]);
        assert j == 0 ==> IsDigit(s[j + 1]);
        assert AllDigits(s) && |s| > 0 ==> j == |s| && fracPart == "" && s[..j] == s;
        Some(Scale(Mantissa(s[..j], fracPart), ex))
  }

  /**
    float() of a numeral: an optional sign, then an unsigned numeral, and nothing else;
    None where Python raises ValueError.
  */
  function ParseFloat(s: string): (r: Option<real>)
    ensures r.Some? ==> exists k :: 0 <= k < |s| && IsDigit(s[k])
    ensures |s| > 0 && AllDigits(s) ==> r == Some(DigitsValue(s) as real)
  {
    if |s| > 0 && (s[0] == '+' || s[0] == '-') then
      match ParseUnsigned(s[1..])
      case None => None
      case Some(m) =>
        assert exists k :: 0 <= k < |s| - 1 && IsDigit(s[1..][k]);
        Some(if s[0] == '-' then -m else m)
    else
      ParseUnsigned(s)
  }

  /** The decimal numeral of n, as str(n) writes it. */
  function NatToString(n: nat): (s: string)
    ensures |s| > 0 && AllDigits(s)
  {
    var d := ['0' + (n % 10) as char];
    if n < 10 then d else NatToString(n / 10) + d
  }

  lemma {:induction false} DigitsOfNatToString(n: nat)
    ensures DigitsValue(NatToString(n)) == n
  {
    var s := NatToString(n);
    assert s[..|s| - 1] == if n < 10 then [] else NatToString(n / 10);
    if n >= 10 {
      DigitsOfNatToString(n / 10);
    }
  }

  /** float(str(n)) == n: reading back a written natural number gives the number. */
  lemma ParseFloatNatToString(n: nat)
    ensures ParseFloat(NatToString(n)) == Some(n as real)
  {
    DigitsOfNatToString(n);
  }

  /** A leading minus sign negates the value and does not change whether the text parses. */
  lemma ParseFloatNegative(t: string)
    requires |t| > 0 && t[0] != '+' && t[0] != '-'
    ensures ParseFloat("-" + t).Some? <==> ParseFloat(t).Some?
    ensures ParseFloat(t).Some? ==> ParseFloat("-" + t) == Some(-ParseFloat(t).value)
  {
    assert ("-" + t)[1..] == t;
  }
}
