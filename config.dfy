/**
  The slicer config reader (gcode_profiler/config_ini.py): a PrusaSlicer-style config.ini
  is read line by line into a dictionary of raw `key = value` strings, and numeric settings
  are read from it with a forgiving conversion that accepts percentages, quotes and the
  words nil / none.
*/
module ConfigIni {
  import opened Wrappers
  import opened Text

  // ---------------------------------------------------------------------------
  // Whitespace trimming
  // ---------------------------------------------------------------------------

  predicate AllSpace(s: string) {
    forall k :: 0 <= k < |s| ==> IsSpace(s[k])
  }

  /** Text that Strip leaves as it is: empty, or starting and ending with a non-space. */
  predicate Trimmed(r: string) {
    r == [] || (!IsSpace(r[0]) && !IsSpace(r[|r| - 1]))
  }

  /** Strip removes exactly the whitespace around a trimmed middle. */
  lemma StripUnique(a: string, r: string, b: string)
    requires AllSpace(a) && AllSpace(b) && Trimmed(r)
    ensures Strip(a + r + b) == r
  {
    var s := a + r + b;
    if r == [] {
      assert forall k :: 0 <= k < |s| ==> IsSpace(s[k]) by {
        forall k | 0 <= k < |s| ensures IsSpace(s[k]) {
          if k < |a| { assert s[k] == a[k]; } else { assert s[k] == b[k - |a|]; }
        }
      }
    } else {
      var i := SkipSpaces(s, 0);
      var j := TrimEnd(s, |s|);
      assert s[|a|] == r[0];
      assert s[|a| + |r| - 1] == r[|r| - 1];
      assert forall k :: 0 <= k < |a| ==> s[k] == a[k];
      assert forall k :: |a| + |r| <= k < |s| ==> s[k] == b[k - |a| - |r|];
      assert i == |a| && j == |a| + |r|;
      assert s[i..j] == r;
    }
  }

  /** Every text is its stripped form with whitespace around it. */
  lemma StripDecompose(t: string) returns (c: string, d: string)
    ensures AllSpace(c) && AllSpace(d) && t == c + Strip(t) + d
    ensures Trimmed(Strip(t))
    ensures Strip(t) == [] ==> d == []
  {
    var i := SkipSpaces(t, 0);
    var j := TrimEnd(t, |t|);
    if j <= i {
      c, d := t, [];
      assert t == c + [] + d;
    } else {
      c, d := t[..i], t[j..];
      assert t == c + t[i..j] + d;
    }
  }

  /** Whitespace added around a text does not change what Strip returns. */
  lemma StripPadded(a: string, t: string, b: string)
    requires AllSpace(a) && AllSpace(b)
    ensures Strip(a + t + b) == Strip(t)
  {
    var c, d := StripDecompose(t);
    var m := Strip(t);
    Regroup(a, c, m, d, b);
    assert AllSpace(a + c) && AllSpace(d + b) by {
      SpaceConcat(a, c);
      SpaceConcat(d, b);
    }
    StripUnique(a + c, m, d + b);
  }

  lemma Regroup(a: string, c: string, m: string, d: string, b: string)
    ensures a + (c + m + d) + b == (a + c) + m + (d + b)
  {
  }

  lemma SpaceConcat(a: string, b: string)
    requires AllSpace(a) && AllSpace(b)
    ensures AllSpace(a + b)
  {
    forall k | 0 <= k < |a + b|
      ensures IsSpace((a + b)[k])
    {
      if k < |a| { assert (a + b)[k] == a[k]; } else { assert (a + b)[k] == b[k - |a|]; }
    }
  }

  // ---------------------------------------------------------------------------
  // _ini_value_to_float
  // ---------------------------------------------------------------------------

  /** Wrapped in one pair of matching double or single quotes (a lone quote counts, as in Python). */
  predicate Quoted(s: string) {
    |s| > 0 && ((s[0] == '"' && s[|s| - 1] == '"') || (s[0] == '\'' && s[|s| - 1] == '\''))
  }

  /** One layer of quotes removed and the inside trimmed again; other text unchanged. */
  function Unquote(s: string): string {
    if !Quoted(s) then s
    else if |s| >= 2 then Strip(s[1..|s| - 1])
    else []
  }

  /** The words that spell a missing setting, in any letter case. */
  predicate NilOrNone(s: string) {
    ToLower(s) == "nil" || ToLower(s) == "none"
  }

  /** float() of the text, or of the trimmed text before a trailing percent sign. */
  function NumberValue(s: string): Option<real> {
    if EndsWith(s, "%") then ParseFloat(Strip(s[..|s| - 1])) else ParseFloat(s)
  }

  /**
    The numeric value of a raw config value, or None for a missing, blank, nil / none or
    unparseable one; it never fails.
  */
  function IniValueToFloat(v: Option<string>): (r: Option<real>)
    ensures r.Some? ==> v.Some? && Strip(v.value) != [] && !NilOrNone(Strip(v.value))
  {
    if v.None? then None
    else
      var s := Strip(v.value);
      if s == [] || NilOrNone(s) then None
      else NumberValue(Unquote(s))
  }

  /** A text with no digit is never a number. */
  lemma NoDigitNoNumber(s: string)
    requires forall k :: 0 <= k < |s| ==> !IsDigit(s[k])
    ensures ParseFloat(s).None?
  {
  }

  lemma NilHasNoDigit(s: string)
    requires NilOrNone(s)
    ensures forall k :: 0 <= k < |s| ==> !IsDigit(s[k])
    ensures !EndsWith(s, "%") && !Quoted(s)
  {
    forall k | 0 <= k < |s|
      ensures !IsDigit(s[k])
    {
      assert ToLower(s)[k] == LowerChar(s[k]);
    }
    assert ToLower(s)[|s| - 1] == LowerChar(s[|s| - 1]);
    assert ToLower(s)[0] == LowerChar(s[0]);
  }

  /** Whitespace around a value is ignored. */
  lemma IniPadded(a: string, t: string, b: string)
    requires AllSpace(a) && AllSpace(b)
    ensures IniValueToFloat(Some(a + t + b)) == IniValueToFloat(Some(t))
  {
    StripPadded(a, t, b);
  }

  /** A value that is already trimmed, present and not nil / none is read by NumberValue. */
  lemma IniOfTrimmed(s: string)
    requires Trimmed(s) && s != [] && !NilOrNone(s)
    ensures IniValueToFloat(Some(s)) == NumberValue(Unquote(s))
  {
    StripUnique([], s, []);
    assert [] + s + [] == s;
  }

  /** The number before a percent sign, with whitespace before the sign allowed. */
  lemma PercentNumber(m: string, d: string)
    requires Trimmed(m) && AllSpace(d)
    ensures NumberValue(m + d + "%") == ParseFloat(m)
  {
    var r := m + d + "%";
    assert EndsWith(r, "%");
    assert r[..|r| - 1] == [] + m + d;
    StripUnique([], m, d);
  }

  /** Only the trimmed value matters. */
  lemma IniStripped(v: string)
    ensures IniValueToFloat(Some(v)) == IniValueToFloat(Some(Strip(v)))
  {
    StripTwice(v);
  }

  /** Stripping twice is stripping once. */
  lemma StripTwice(v: string)
    ensures Strip(Strip(v)) == Strip(v)
  {
    var r := Strip(v);
    StripUnique([], r, []);
    assert [] + r + [] == r;
  }

  /** Stripping a text with a percent sign appended keeps the whitespace before the sign. */
  lemma StripPercent(t: string) returns (d: string)
    ensures AllSpace(d) && Strip(t + "%") == Strip(t) + d + "%"
  {
    var c, d' := StripDecompose(t);
    d := d';
    var m := Strip(t);
    PercentAppended(c, m, d);
    StripUnique(c, m + d + "%", []);
  }

  /** A trimmed text followed by whitespace and a percent sign is trimmed again. */
  lemma PercentAppended(c: string, m: string, d: string)
    requires Trimmed(m) && (m == [] ==> d == [])
    ensures (c + m + d) + "%" == c + (m + d + "%") + []
    ensures Trimmed(m + d + "%")
  {
    var r := m + d + "%";
    assert r[|r| - 1] == '%';
    if m != [] {
      assert r[0] == m[0];
    }
  }

  /** "20%" reads as 20: a trailing percent sign is dropped and the rest read as a number. */
  lemma IniPercent(t: string)
    ensures IniValueToFloat(Some(t + "%")) == ParseFloat(Strip(t))
  {
    var d := StripPercent(t);
    var m := Strip(t);
    var r := m + d + "%";
    assert Trimmed(r) && r != [] && !NilOrNone(r) && !Quoted(r) by {
      assert r[|r| - 1] == '%';
      if m != [] {
        assert r[0] == m[0];
      }
      assert ToLower(r)[|r| - 1] == '%';
    }
    IniStripped(t + "%");
    IniOfTrimmed(r);
    PercentNumber(m, d);
  }

  /**
    A trimmed, unquoted value reads as NumberValue says, blank and nil / none included:
    neither holds a digit.
  */
  lemma IniOfUnquoted(m: string)
    requires Trimmed(m) && !Quoted(m)
    ensures IniValueToFloat(Some(m)) == NumberValue(m)
  {
    if m == [] {
      NoDigitNoNumber(m);
    } else if NilOrNone(m) {
      NilHasNoDigit(m);
      NoDigitNoNumber(m);
    } else {
      IniOfTrimmed(m);
    }
  }

  /**
    A value wrapped in matching quotes reads as the value itself, provided the value is not
    itself quoted (only one layer is removed).
  */
  lemma IniQuoted(t: string, q: char)
    requires q == '"' || q == '\''
    requires !Quoted(Strip(t))
    ensures IniValueToFloat(Some([q] + t + [q])) == IniValueToFloat(Some(t))
  {
    var s := [q] + t + [q];
    assert Trimmed(s) && s != [] && !NilOrNone(s) && Quoted(s) && s[1..|s| - 1] == t by {
      assert ToLower(s)[0] == q;
    }
    IniOfTrimmed(s);
    IniStripped(t);
    IniOfUnquoted(Strip(t));
  }

  /** Decimal digits are neither whitespace, quotes nor a percent sign. */
  lemma NumeralShape(s: string)
    requires |s| > 0 && AllDigits(s)
    ensures Trimmed(s) && !Quoted(s) && !EndsWith(s, "%")
  {
    assert IsDigit(s[0]) && IsDigit(s[|s| - 1]);
    assert s[|s| - 1] != '%';
  }

  /** A plain decimal number, with or without a percent sign, reads as its value. */
  lemma IniNumeral(n: nat)
    ensures IniValueToFloat(Some(NatToString(n))) == Some(n as real)
    ensures IniValueToFloat(Some(NatToString(n) + "%")) == Some(n as real)
  {
    var s := NatToString(n);
    NumeralShape(s);
    ParseFloatNatToString(n);
    assert IniValueToFloat(Some(s)) == Some(n as real) by {
      IniOfUnquoted(s);
    }
    assert Strip(s) == s by {
      StripUnique([], s, []);
      assert [] + s + [] == s;
    }
    IniPercent(s);
  }

  // ---------------------------------------------------------------------------
  // parse_config_ini
  // ---------------------------------------------------------------------------

  /** The index of the first occurrence of c in s. */
  function FirstIndex(s: string, c: char): (r: Option<nat>)
    ensures r.None? <==> c !in s
    ensures r.Some? ==> r.value < |s| && s[r.value] == c && c !in s[..r.value]
  {
    if |s| == 0 then None
    else if s[0] == c then Some(0)
    else
      match FirstIndex(s[1..], c)
      case None => None
      case Some(p) =>
        assert s[1..][..p] == s[1..p + 1];
        Some(p + 1)
  }

  /**
    The lines a text file yields when iterated: each runs up to and including its newline,
    and the last one may have none.
  */
  function FileLines(text: string): (lines: seq<string>)
    ensures forall i :: 0 <= i < |lines| ==> |lines[i]| > 0
  {
    if |text| == 0 then []
    else
      var e := LineEnd(text);
      [text[..e]] + FileLines(text[e..])
  }

  /** Where the first line of a non-empty text ends: just past its first newline, or at its end. */
  function LineEnd(text: string): (e: nat)
    requires |text| > 0
    ensures 0 < e <= |text|
  {
    match FirstIndex(text, '\n') case None => |text| case Some(p) => p + 1
  }

  function Join(lines: seq<string>): string {
    if |lines| == 0 then [] else lines[0] + Join(lines[1..])
  }

  /** A newline appears in a line only as its last character. */
  predicate OneLine(line: string) {
    forall k :: 0 <= k < |line| - 1 ==> line[k] != '\n'
  }

  /** The lines put back together are the text. */
  lemma {:induction false} FileLinesJoin(text: string)
    ensures Join(FileLines(text)) == text
    decreases |text|
  {
    if |text| > 0 {
      var e := LineEnd(text);
      var head, rest := text[..e], text[e..];
      calc {
        Join(FileLines(text));
        Join([head] + FileLines(rest));
        { JoinCons(head, FileLines(rest)); }
        head + Join(FileLines(rest));
        { FileLinesJoin(rest); }
        head + rest;
        text;
      }
    }
  }

  lemma JoinCons(head: string, lines: seq<string>)
    ensures Join([head] + lines) == head + Join(lines)
  {
    assert ([head] + lines)[1..] == lines;
  }

  /** Each line holds at most its final newline. */
  lemma {:induction false} FileLinesOneLine(text: string)
    ensures forall i :: 0 <= i < |FileLines(text)| ==> OneLine(FileLines(text)[i])
    decreases |text|
  {
    if |text| > 0 {
      var e := LineEnd(text);
      FirstLine(text);
      var lines := FileLines(text);
      var rest := FileLines(text[e..]);
      FileLinesOneLine(text[e..]);
      forall i | 0 <= i < |lines|
        ensures OneLine(lines[i])
      {
        if i > 0 {
          assert lines[i] == rest[i - 1];
        }
      }
    }
  }

  /** The first line of a non-empty text holds no newline but its last character. */
  lemma FirstLine(text: string)
    requires |text| > 0
    ensures OneLine(text[..LineEnd(text)])
  {
    var e := LineEnd(text);
    forall k | 0 <= k < e - 1
      ensures text[..e][k] != '\n'
    {
      assert text[k] in text[..e - 1];
    }
  }

  /** line.rstrip("\n"). */
  function RStripNewlines(s: string): (r: string)
    ensures |r| <= |s| && r == s[..|r|]
    ensures r == [] || r[|r| - 1] != '\n'
    ensures forall k :: |r| <= k < |s| ==> s[k] == '\n'
  {
    if |s| > 0 && s[|s| - 1] == '\n' then RStripNewlines(s[..|s| - 1]) else s
  }

  /** Skipped before the regex is tried: an empty line, or one whose first non-space is `#`. */
  predicate Skipped(l: string) {
    l == [] || StartsWith(StripStart(l), "#")
  }

  /**
    One line of the file: None for a skipped line or one without a key, otherwise the key
    (the trimmed text before the first `=`, which must not be the first character) and the
    trimmed value after it.
  */
  function ParseLine(line: string): (r: Option<(string, string)>)
    ensures r.Some? ==> !Skipped(RStripNewlines(line)) && '=' in line
    ensures r.Some? ==> '=' !in r.value.0 && Trimmed(r.value.0) && Trimmed(r.value.1)
  {
    var l := RStripNewlines(line);
    if Skipped(l) then None
    else
      match FirstIndex(l, '=')
      case None => None
      case Some(p) =>
        if p == 0 then None
        else
          assert l[p] in line;
          StripMiddle(l[..p]);
          StripMiddle(l[p + 1..]);
          Some((Strip(l[..p]), Strip(l[p + 1..])))
  }

  /** Strip keeps only characters of its input, and leaves a trimmed text. */
  lemma StripMiddle(t: string)
    ensures forall x :: x in Strip(t) ==> x in t
    ensures Trimmed(Strip(t))
  {
    var c, d := StripDecompose(t);
  }

  /** A key that can be written on a line of its own and read back. */
  predicate IsKey(k: string) {
    k != [] && Trimmed(k) && '=' !in k && '\n' !in k && k[0] != '#'
  }

  /** A value that can be written after `=` and read back. */
  predicate IsValue(v: string) {
    Trimmed(v) && '\n' !in v
  }

  /** Writing `key = value` and reading the line back gives the key and the value. */
  lemma RStripOne(body: string)
    requires body == [] || body[|body| - 1] != '\n'
    ensures RStripNewlines(body + "\n") == body
  {
    assert (body + "\n")[..|body|] == body;
  }

  lemma NotSkipped(body: string)
    requires body != [] && !IsSpace(body[0]) && body[0] != '#'
    ensures !Skipped(body)
  {
    assert SkipSpaces(body, 0) == 0;
  }

  lemma ParseLineOfEntry(k: string, v: string)
    requires IsKey(k) && IsValue(v)
    ensures ParseLine(k + " = " + v + "\n") == Some((k, v))
  {
    var line := k + " = " + v + "\n";
    var body := k + " = " + v;
    var p := |k| + 1;
    assert body[|body| - 1] != '\n' by {
      if v != [] {
        assert body[|body| - 1] == v[|v| - 1];
      }
    }
    RStripOne(body);
    assert body + "\n" == line;
    NotSkipped(body);
    EntryEquals(k, v);
    EntrySides(k, v);
    StripUnique([], k, " ");
    StripUnique(" ", v, []);
  }

  /** The first `=` of `key = value` is the one after the key. */
  lemma EntryEquals(k: string, v: string)
    requires '=' !in k
    ensures FirstIndex(k + " = " + v, '=') == Some(|k| + 1)
  {
    var body := k + " = " + v;
    var p := |k| + 1;
    assert body[p] == '=';
    assert forall j :: 0 <= j < p ==> body[j] != '=' by {
      forall j | 0 <= j < p
        ensures body[j] != '='
      {
        if j < |k| {
          assert body[j] == k[j];
        }
      }
    }
    var f := FirstIndex(body, '=');
    assert forall j :: 0 <= j < f.value ==> body[..f.value][j] == body[j];
  }

  /** The two sides of `key = value` around its `=`. */
  lemma EntrySides(k: string, v: string)
    ensures (k + " = " + v)[..|k| + 1] == [] + k + " "
    ensures (k + " = " + v)[|k| + 2..] == " " + v + []
  {
    var body := k + " = " + v;
    assert body == (k + " ") + ("=" + (" " + v));
  }

  /** What each line of the file parses to. */
  function Parsed(lines: seq<string>): (es: seq<Option<(string, string)>>)
    ensures |es| == |lines| && forall i :: 0 <= i < |lines| ==> es[i] == ParseLine(lines[i])
  {
    seq(|lines|, i requires 0 <= i < |lines| => ParseLine(lines[i]))
  }

  /** The dictionary the parsed lines build, in order: each entry sets its key, later ones win. */
  function Apply(es: seq<Option<(string, string)>>): map<string, string> {
    if |es| == 0 then map[]
    else
      var cfg := Apply(es[..|es| - 1]);
      match es[|es| - 1]
      case None => cfg
      case Some(kv) => cfg[kv.0 := kv.1]
  }

  function ConfigOf(lines: seq<string>): map<string, string> {
    Apply(Parsed(lines))
  }

  /** `parse_config_ini` on the text of the file. */
  method ParseConfigIni(text: string) returns (out: map<string, string>)
    ensures out == ConfigOf(FileLines(text))
  {
    var lines := FileLines(text);
    ghost var es := Parsed(lines);
    out := map[];
    var i := 0;
    while i < |lines|
      invariant 0 <= i <= |lines|
      invariant out == Apply(es[..i])
    {
      var entry := ParseLine(lines[i]);
      ApplySnoc(es, i);
      if entry.Some? {
        out := out[entry.value.0 := entry.value.1];
      }
      i := i + 1;
    }
    assert es[..i] == es;
  }

  /** One more entry sets its key on top of what the earlier ones built. */
  lemma ApplySnoc(es: seq<Option<(string, string)>>, i: nat)
    requires i < |es|
    ensures Apply(es[..i + 1])
      == if es[i].Some? then Apply(es[..i])[es[i].value.0 := es[i].value.1] else Apply(es[..i])
  {
    assert es[..i + 1][..i] == es[..i];
  }

  /** A key is in the dictionary exactly when some entry sets it. */
  lemma {:induction false} ApplyHas(es: seq<Option<(string, string)>>, k: string)
    ensures k in Apply(es) <==> exists i :: 0 <= i < |es| && es[i].Some? && es[i].value.0 == k
  {
    if |es| > 0 {
      var n := |es| - 1;
      ApplyHas(es[..n], k);
      assert forall i :: 0 <= i < n ==> es[..n][i] == es[i];
    }
  }

  /** A key's entry is the value of the last entry that sets it. */
  lemma {:induction false} ApplyLastWins(es: seq<Option<(string, string)>>, i: nat)
    requires i < |es| && es[i].Some?
    requires forall j :: i < j < |es| && es[j].Some? ==> es[j].value.0 != es[i].value.0
    ensures es[i].value.0 in Apply(es) && Apply(es)[es[i].value.0] == es[i].value.1
  {
    var n := |es| - 1;
    if i < n {
      assert forall j :: 0 <= j < n ==> es[..n][j] == es[j];
      ApplyLastWins(es[..n], i);
    }
  }

  /** A key is in the config exactly when some line of the file parses to it. */
  lemma ConfigHas(lines: seq<string>, k: string)
    ensures k in ConfigOf(lines) <==>
      exists i :: 0 <= i < |lines| && ParseLine(lines[i]).Some? && ParseLine(lines[i]).value.0 == k
  {
    ApplyHas(Parsed(lines), k);
  }

  /** Later duplicates overwrite earlier ones: a key holds the value of the last line setting it. */
  lemma ConfigLastWins(lines: seq<string>, i: nat)
    requires i < |lines| && ParseLine(lines[i]).Some?
    requires forall j :: i < j < |lines| && ParseLine(lines[j]).Some? ==>
      ParseLine(lines[j]).value.0 != ParseLine(lines[i]).value.0
    ensures ParseLine(lines[i]).value.0 in ConfigOf(lines)
    ensures ConfigOf(lines)[ParseLine(lines[i]).value.0] == ParseLine(lines[i]).value.1
  {
    ApplyLastWins(Parsed(lines), i);
  }

  /** Comment lines and blank lines leave the config as it was. */
  lemma ConfigSkips(lines: seq<string>, line: string)
    requires Skipped(RStripNewlines(line))
    ensures ConfigOf(lines + [line]) == ConfigOf(lines)
  {
    var es := Parsed(lines + [line]);
    assert es[..|lines|] == Parsed(lines);
  }

  /** `config_get_float`: the numeric value of a setting, None when it is missing. */
  function ConfigGetFloat(cfg: map<string, string>, key: string): (r: Option<real>)
    ensures key !in cfg ==> r.None?
    ensures r.Some? ==> Strip(cfg[key]) != [] && !NilOrNone(Strip(cfg[key]))
  {
    IniValueToFloat(if key in cfg then Some(cfg[key]) else None)
  }

  /** A text holding a single newline, at its end, is one line. */
  lemma SingleLine(line: string)
    requires line != [] && line[|line| - 1] == '\n' && '\n' !in line[..|line| - 1]
    ensures FileLines(line) == [line]
  {
    assert LineEnd(line) == |line| by {
      var f := FirstIndex(line, '\n');
      assert forall j :: 0 <= j < f.value ==> line[..f.value][j] == line[j];
      assert forall j :: 0 <= j < |line| - 1 ==> line[..|line| - 1][j] == line[j];
    }
    assert line[|line|..] == [];
    assert line[..|line|] == line;
  }

  /** The config of a file whose one line sets a key. */
  lemma ConfigOfOne(line: string)
    requires ParseLine(line).Some?
    ensures ConfigOf([line]) == map[ParseLine(line).value.0 := ParseLine(line).value.1]
  {
    var es := Parsed([line]);
    assert es[..0] == [];
    assert Apply(es[..0]) == map[];
    assert es[0] == ParseLine(line);
    assert Apply(es) == Apply(es[..0])[es[0].value.0 := es[0].value.1];
  }

  /** A file of one `key = number` line yields that number for the key. */
  lemma ReadBack(k: string, n: nat)
    requires IsKey(k)
    ensures ConfigGetFloat(ConfigOf(FileLines(k + " = " + NatToString(n) + "\n")), k) == Some(n as real)
  {
    var v := NatToString(n);
    var body := k + " = " + v;
    var line := body + "\n";
    assert '\n' !in v && Trimmed(v) by {
      assert IsDigit(v[0]) && IsDigit(v[|v| - 1]);
    }
    assert '\n' !in body by {
      assert forall j :: 0 <= j < |body| ==> body[j] in k || body[j] in " = " || body[j] in v;
    }
    assert line[..|line| - 1] == body;
    SingleLine(line);
    ParseLineOfEntry(k, v);
    ConfigOfOne(line);
    IniNumeral(n);
  }
}
