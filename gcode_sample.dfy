/**
  Reading concrete lines: the generic facts that turn a written G-code line back into the
  Command parse_gcode sees in it (axis words, `;Z:` and `;TYPE:` comments, decimal
  numerals), and, built on them, the two-layer sample print of
  tests/test_gcode_parser.py parsed from its nine lines.
*/
module GcodeSample {
  import opened Wrappers
  import opened Text
  import opened GcodeParser
  import opened GcodeLaws
  import opened GcodeLines
  import Sorting

  // ---------------------------------------------------------------------------
  // Axis words
  // ---------------------------------------------------------------------------

  /** A word re.findall can return whole: an axis letter and a non-empty numeric token. */
  predicate WordShaped(p: Param) {
    IsAxisLetter(p.letter) && |p.text| > 0 && forall k :: 0 <= k < |p.text| ==> IsNumChar(p.text[k])
  }

  /** The parameter text of a G0/G1 line: the words written out, one space between two. */
  function ParamText(ps: seq<Param>): string {
    if |ps| == 0 then ""
    else if |ps| == 1 then [ps[0].letter] + ps[0].text
    else [ps[0].letter] + ps[0].text + " " + ParamText(ps[1..])
  }

  /** A whole word at p is found first, and the scan goes on just past it. */
  lemma WordAt(s: string, p: nat, w: Param)
    requires WordShaped(w) && p + |w.text| + 1 <= |s|
    requires s[p] == w.letter && s[p + 1..p + |w.text| + 1] == w.text
    requires p + |w.text| + 1 < |s| ==> !IsNumChar(s[p + |w.text| + 1])
    ensures FindParams(s, p) == [w] + FindParams(s, p + |w.text| + 1)
  {
    var n := p + |w.text| + 1;
    assert forall k :: p + 1 <= k < n ==> s[k] == w.text[k - p - 1];
    assert IsNumChar(s[p + 1]);
    assert RunEnd(s, p + 1, IsNumChar) == n;
  }

  /** A word that ends the line is the last word found. */
  lemma ReadLast(s: string, p: nat, w: Param)
    requires WordShaped(w) && p <= |s| && s[p..] == [w.letter] + w.text
    ensures FindParams(s, p) == [w]
  {
    var n := p + |w.text| + 1;
    assert s[p] == s[p..][0];
    assert s[p + 1..n] == s[p..][1..];
    WordAt(s, p, w);
    assert FindParams(s, n) == [];
  }

  /** A word followed by a space: found first, and the scan goes on past the space, at t. */
  lemma ReadFirst(s: string, p: nat, w: Param, t: string)
    requires WordShaped(w) && p <= |s| && s[p..] == [w.letter] + w.text + " " + t
    ensures FindParams(s, p) == [w] + FindParams(s, p + |w.text| + 2)
    ensures s[p + |w.text| + 2..] == t
  {
    var n := p + |w.text| + 1;
    var u := s[p..];
    assert s[p] == w.letter && s[p + 1..n] == w.text && s[n] == ' ' by {
      assert s[p] == u[0];
      assert s[p + 1..n] == u[1..n - p];
      assert s[n] == u[n - p];
    }
    WordAt(s, p, w);
    assert FindParams(s, n) == FindParams(s, n + 1);
    assert s[n + 1..] == t by {
      assert s[n + 1..] == u[n - p + 1..];
    }
  }

  /**
    The words written out are read back by re.findall: where the parameter text of
    well-shaped words ends the line from p on, the scan from p yields exactly those words,
    in order.
  */
  lemma {:induction false} ParamTextRead(s: string, p: nat, ps: seq<Param>)
    requires forall i :: 0 <= i < |ps| ==> WordShaped(ps[i])
    requires p <= |s| && s[p..] == ParamText(ps)
    ensures FindParams(s, p) == ps
    decreases |ps|
  {
    if |ps| == 0 {
      assert p == |s|;
    } else if |ps| == 1 {
      assert FindParams(s, p) == [ps[0]] by {
        ReadLast(s, p, ps[0]);
      }
      assert ps == [ps[0]];
    } else {
      var w, rest := ps[0], ps[1..];
      var q := p + |w.text| + 2;
      assert FindParams(s, p) == [w] + FindParams(s, q) && s[q..] == ParamText(rest) by {
        ReadFirst(s, p, w, ParamText(rest));
      }
      assert FindParams(s, q) == rest by {
        assert forall i :: 0 <= i < |rest| ==> rest[i] == ps[i + 1];
        ParamTextRead(s, q, rest);
      }
      assert ps == [w] + rest;
    }
  }

  /** The parameter text holds only axis letters, numeric characters and spaces, so no ';'. */
  lemma {:induction false} ParamTextUncommented(ps: seq<Param>)
    requires forall i :: 0 <= i < |ps| ==> WordShaped(ps[i])
    ensures forall k :: 0 <= k < |ParamText(ps)| ==> ParamText(ps)[k] != ';'
  {
    if |ps| > 0 {
      var w := ps[0];
      var head := [w.letter] + w.text;
      assert forall k :: 0 <= k < |head| ==> head[k] != ';' by {
        assert forall k :: 1 <= k < |head| ==> head[k] == w.text[k - 1];
      }
      if |ps| > 1 {
        ParamTextUncommented(ps[1..]);
        var t := head + " " + ParamText(ps[1..]);
        assert forall k :: |head| + 1 <= k < |t| ==> t[k] == ParamText(ps[1..])[k - |head| - 1];
      }
    }
  }

  // ---------------------------------------------------------------------------
  // Whole lines
  // ---------------------------------------------------------------------------

  function CmdText(cmd: Cmd): string {
    if cmd == G0 then "G0" else "G1"
  }

  function NoAxes(): Axes {
    Axes(None, None, None, None, None)
  }

  /**
    A written G0/G1 line, its command, one space and its axis words, is a motion of that
    command whose axes are the words' values, the last word for each axis winning.
  */
  lemma MotionLine(line: string, cmd: Cmd, ps: seq<Param>)
    requires |ps| > 0 && forall i :: 0 <= i < |ps| ==> WordShaped(ps[i])
    requires line == CmdText(cmd) + " " + ParamText(ps)
    ensures Classify(line) == Motion(cmd, ResolveAxes(ps, NoAxes()))
  {
    var t := ParamText(ps);
    ParamTextHead(ps);
    MotionHead(cmd, t);
    ParamTextUncommented(ps);
    HeadUncommented(cmd, t);
    UncommentedMotion(line, cmd, 3);
    assert t[0..] == t;
    ParamTextRead(t, 0, ps);
  }

  /** The parameter text starts with the first word's letter. */
  lemma ParamTextHead(ps: seq<Param>)
    requires |ps| > 0 && WordShaped(ps[0])
    ensures |ParamText(ps)| > 0 && ParamText(ps)[0] == ps[0].letter
  {
  }

  /** `G0 ` / `G1 ` adds no ';' to the text after it. */
  lemma HeadUncommented(cmd: Cmd, t: string)
    requires forall k :: 0 <= k < |t| ==> t[k] != ';'
    ensures forall k :: 0 <= k < |CmdText(cmd) + " " + t| ==> (CmdText(cmd) + " " + t)[k] != ';'
  {
    var line := CmdText(cmd) + " " + t;
    assert forall k :: 3 <= k < |line| ==> line[k] == t[k - 3];
  }

  /** A line without ';' that the motion regex matches is a motion over its parameter text. */
  lemma UncommentedMotion(line: string, cmd: Cmd, k: nat)
    requires forall j :: 0 <= j < |line| ==> line[j] != ';'
    requires MatchMotion(line) == Some((cmd, k))
    ensures Classify(line) == Motion(cmd, ResolveAxes(FindParams(line[k..], 0), NoAxes()))
  {
    NoTagWithoutSemicolon(line);
    NotMWord(line);
    assert !StartsWith(line, "M82") && !StartsWith(line, "M83") && !StartsWith(line, "M106");
    assert !StartsWith(line, "M107") && !StartsWith(line, "M104") && !StartsWith(line, "M109");
    assert !StartsWith(line, "M140") && !StartsWith(line, "M190") && !StartsWith(line, "M141");
  }

  /** `G0 ` / `G1 ` then text that starts with no space: the motion regex takes the text. */
  lemma MotionHead(cmd: Cmd, t: string)
    requires |t| > 0 && !IsSpace(t[0])
    ensures MatchMotion(CmdText(cmd) + " " + t) == Some((cmd, 3))
    ensures (CmdText(cmd) + " " + t)[3..] == t
  {
    var line := CmdText(cmd) + " " + t;
    assert line[3] == t[0];
    RunStops(line, 2, 3, IsSpace);
  }

  /** A tag right after a leading ';' ends just past the tag, and only there. */
  lemma TagAtStart(line: string, tag: string)
    requires |line| > 1 && line[0] == ';' && !IsSpace(line[1])
    ensures TagEnd(line, 0, tag) == if StartsWith(line[1..], tag) then Some(1 + |tag|) else None
  {
    assert SkipSpaces(line, 1) == 1;
  }

  /** After the first character a line without ';' has no tag anywhere. */
  lemma NoTagAfterStart(line: string)
    requires forall k :: 1 <= k < |line| ==> line[k] != ';'
    ensures forall p :: 1 <= p <= |line| ==> TypeAt(line, p).None? && LayerAt(line, p).None? && ZAt(line, p).None?
  {
  }

  /** A `;Z:` comment with a numeric token is the Z comment of float() of that token. */
  lemma ZLine(line: string, tok: string)
    requires |tok| > 0 && forall k :: 0 <= k < |tok| ==> IsNumChar(tok[k])
    requires line == ";Z:" + tok
    ensures Classify(line) == ZComment(ParseFloat(tok))
  {
    assert forall k :: 3 <= k < |line| ==> line[k] == tok[k - 3];
    var rest := line[1..];
    assert rest[0] == 'Z' && rest[..2] == "Z:";
    assert !StartsWith(rest, "TYPE:") by {
      assert |rest| >= 5 ==> rest[..5][0] == 'Z';
    }
    assert !StartsWith(rest, "LAYER:") by {
      assert |rest| >= 6 ==> rest[..6][0] == 'Z';
    }
    TagAtStart(line, "TYPE:");
    TagAtStart(line, "LAYER:");
    TagAtStart(line, "Z:");
    NoTagAfterStart(line);
    assert Search(line, 0, TypeAt).None? && Search(line, 0, LayerAt).None?;
    RunStops(line, 3, |line|, IsNumChar);
    assert line[3..|line|] == tok;
    assert ZAt(line, 0) == Some(tok);
  }

  /** A `;TYPE:` comment sets the feature type to the stripped rest of the line. */
  lemma TypeLine(line: string, name: string)
    requires |name| > 0 && line == ";TYPE:" + name
    ensures Classify(line) == SetType(Strip(name))
  {
    assert SkipSpaces(line, 1) == 1;
    assert StartsWith(line[1..], "TYPE:");
    assert line[6..] == name;
    assert TypeAt(line, 0) == Some(Strip(name));
  }

  /** str.strip() leaves a string alone that neither starts nor ends with whitespace. */
  lemma StripClean(s: string)
    requires |s| > 0 && !IsSpace(s[0]) && !IsSpace(s[|s| - 1])
    ensures Strip(s) == s
  {
    assert SkipSpaces(s, 0) == 0;
    assert TrimEnd(s, |s|) == |s|;
  }

  /** A greedy run that covers i..j and stops at j ends at j. */
  lemma RunStops(s: string, i: nat, j: nat, cls: char -> bool)
    requires i <= j <= |s| && (forall k :: i <= k < j ==> cls(s[k])) && (j < |s| ==> !cls(s[j]))
    ensures RunEnd(s, i, cls) == j
  {
  }

  /** Where the digit runs and the point of `a.b` lie. */
  lemma DecimalShape(a: string, b: string)
    requires |a| > 0 && |b| > 0 && AllDigits(a) && AllDigits(b)
    ensures var s := a + "." + b;
      && RunEnd(s, 0, IsDigit) == |a| && s[|a|] == '.' && RunEnd(s, |a| + 1, IsDigit) == |s|
      && s[..|a|] == a && s[|a| + 1..|s|] == b && IsDigit(s[0])
  {
    var s := a + "." + b;
    var j := |a|;
    assert forall k :: 0 <= k < j ==> s[k] == a[k];
    assert forall k :: j + 1 <= k < |s| ==> s[k] == b[k - j - 1];
    RunStops(s, 0, j, IsDigit);
    RunStops(s, j + 1, |s|, IsDigit);
  }

  /** The unsigned numeral `a.b` reads as its mantissa. */
  lemma UnsignedDecimal(a: string, b: string)
    requires |a| > 0 && |b| > 0 && AllDigits(a) && AllDigits(b)
    ensures ParseUnsigned(a + "." + b) == Some(Mantissa(a, b))
  {
    var s := a + "." + b;
    DecimalShape(a, b);
    assert ParseExponent(s, |s|) == Some(0);
    assert Pow10(0) == 1;
  }

  /** float() of `a.b` for digit runs a and b: the integer part plus b over 10 to its length. */
  lemma ParseDecimal(a: string, b: string)
    requires |a| > 0 && |b| > 0 && AllDigits(a) && AllDigits(b)
    ensures ParseFloat(a + "." + b) == Some(Mantissa(a, b))
  {
    UnsignedDecimal(a, b);
    DecimalShape(a, b);
    Unsigned(a + "." + b);
  }

  /** Without a sign, float() reads the numeral as unsigned. */
  lemma Unsigned(s: string)
    requires |s| > 0 && s[0] != '+' && s[0] != '-'
    ensures ParseFloat(s) == ParseUnsigned(s)
  {
  }

  // ---------------------------------------------------------------------------
  // The sample print of tests/test_gcode_parser.py
  // ---------------------------------------------------------------------------

  /** The axis words x, y, e and f, with no z. */
  function Words(x: Option<real>, y: Option<real>, e: Option<real>, f: Option<real>): Option<Axes> {
    Some(Axes(x, y, None, e, f))
  }

  const LineMode := "M83"
  const LineFirstZ := ";Z:0.2"
  const LinePerimeter := ";TYPE:Perimeter"
  const LineTravel := "G1 X0 Y0 F6000"
  const LineFirstMove := "G1 X10 Y0 E1.0 F1200"
  const LineSecondZ := ";Z:0.4"
  const LineInfill := ";TYPE:Infill"
  const LineSecondMove := "G1 X20 Y0 E2.0 F2400"

  /** The nine lines of the sample file, as parse_gcode reads them (newlines removed). */
  function SampleLines(): seq<string> {
    [ LineMode, LineFirstZ, LinePerimeter, LineTravel, LineFirstMove,
      LineSecondZ, LineInfill, LineTravel, LineSecondMove ]
  }

  /** What each sample line means, written out by hand. */
  function SamplePrint(): seq<Command> {
    [ RelativeExtrusion,
      ZComment(Some(0.2)),
      SetType("Perimeter"),
      Motion(G1, Words(Some(0.0), Some(0.0), None, Some(6000.0))),
      Motion(G1, Words(Some(10.0), Some(0.0), Some(1.0), Some(1200.0))),
      ZComment(Some(0.4)),
      SetType("Infill"),
      Motion(G1, Words(Some(0.0), Some(0.0), None, Some(6000.0))),
      Motion(G1, Words(Some(20.0), Some(0.0), Some(2.0), Some(2400.0))) ]
  }

  // Small steps for concrete numerals and words

  lemma DigitsLast(s: string)
    requires |s| > 0 && AllDigits(s)
    ensures AllDigits(s[..|s| - 1])
    ensures DigitsValue(s) == DigitsValue(s[..|s| - 1]) * 10 + DigitValue(s[|s| - 1])
  {
  }

  /** int() of a run of two digits. */
  lemma Digits2(s: string)
    requires |s| == 2 && AllDigits(s)
    ensures DigitsValue(s) == DigitValue(s[0]) * 10 + DigitValue(s[1])
  {
    DigitsLast(s);
    DigitsLast(s[..1]);
    assert s[..1][..0] == [];
  }

  /** int() of a run of four digits. */
  lemma Digits4(s: string)
    requires |s| == 4 && AllDigits(s)
    ensures DigitsValue(s) == DigitValue(s[0]) * 1000 + DigitValue(s[1]) * 100 + DigitValue(s[2]) * 10 + DigitValue(s[3])
  {
    DigitsLast(s);
    DigitsLast(s[..3]);
    DigitsLast(s[..2]);
    DigitsLast(s[..1]);
    assert s[..3][..2] == s[..2] && s[..2][..1] == s[..1] && s[..1][..0] == [];
  }

  /** float() of a run of four digits. */
  lemma FourDigits(s: string, v: real)
    requires |s| == 4 && AllDigits(s)
    requires v == (DigitValue(s[0]) * 1000 + DigitValue(s[1]) * 100 + DigitValue(s[2]) * 10 + DigitValue(s[3])) as real
    ensures ParseFloat(s) == Some(v)
  {
    Digits4(s);
  }

  /** float() of a run of two digits. */
  lemma TwoDigits(s: string, v: real)
    requires |s| == 2 && AllDigits(s) && v == (DigitValue(s[0]) * 10 + DigitValue(s[1])) as real
    ensures ParseFloat(s) == Some(v)
  {
    Digits2(s);
  }

  lemma Whole(s: string, n: nat)
    requires |s| > 0 && AllDigits(s) && DigitsValue(s) == n
    ensures ParseFloat(s) == Some(n as real)
  {
  }

  /** One word converted: the rest of the words are resolved onto the updated axes. */
  lemma ResolveCons(w: Param, rest: seq<Param>, acc: Axes, v: real)
    requires ParseFloat(w.text) == Some(v)
    ensures ResolveAxes([w] + rest, acc) == ResolveAxes(rest, SetAxis(acc, w.letter, v))
  {
    assert ([w] + rest)[1..] == rest;
  }

  lemma TextCons(w: Param, rest: seq<Param>)
    requires |rest| > 0
    ensures ParamText([w] + rest) == [w.letter] + w.text + " " + ParamText(rest)
  {
    assert ([w] + rest)[1..] == rest;
  }

  /** Two word lists written one after the other, with a space between. */
  lemma {:induction false} TextAppend(a: seq<Param>, b: seq<Param>)
    requires |a| > 0 && |b| > 0
    ensures ParamText(a + b) == ParamText(a) + " " + ParamText(b)
  {
    var head := [a[0].letter] + a[0].text;
    assert (a + b)[0] == a[0];
    if |a| == 1 {
      assert (a + b)[1..] == b;
    } else {
      assert (a + b)[1..] == a[1..] + b;
      var rest := ParamText(a[1..]);
      assert ParamText(a + b) == head + " " + (rest + " " + ParamText(b)) by {
        TextAppend(a[1..], b);
      }
      assert ParamText(a) == head + " " + rest;
      Sorting.Assoc(head + " ", rest + " ", ParamText(b));
      Sorting.Assoc(rest, " ", ParamText(b));
      Sorting.Assoc(head + " ", rest, " ");
    }
  }

  lemma TwoWords(w1: Param, w2: Param)
    ensures ParamText([w1, w2]) == [w1.letter] + w1.text + " " + ([w2.letter] + w2.text)
  {
    assert [w1, w2][1..] == [w2];
  }

  lemma FourWords(w1: Param, w2: Param, w3: Param, w4: Param)
    ensures ParamText([w1, w2, w3, w4])
      == [w1.letter] + w1.text + " " + ([w2.letter] + w2.text) + " " + ([w3.letter] + w3.text + " " + ([w4.letter] + w4.text))
  {
    TwoWords(w1, w2);
    TwoWords(w3, w4);
    TextAppend([w1, w2], [w3, w4]);
    assert [w1, w2] + [w3, w4] == [w1, w2, w3, w4];
  }

  // The lines

  lemma ModeLine(line: string)
    requires line == "M83"
    ensures Classify(line) == RelativeExtrusion
  {
    ClassifyUncommented(line);
  }

  /** float() of `a.d` for a single fractional digit d: a plus d tenths. */
  lemma OneDecimal(a: string, b: string)
    requires |a| > 0 && AllDigits(a) && |b| == 1 && IsDigit(b[0])
    ensures ParseFloat(a + "." + b) == Some(Mantissa(a, b))
    ensures Mantissa(a, b) == DigitsValue(a) as real + DigitValue(b[0]) as real / 10.0
  {
    MantissaTenths(a, b);
    ParseDecimal(a, b);
  }

  lemma MantissaTenths(a: string, b: string)
    requires AllDigits(a) && |b| == 1 && IsDigit(b[0])
    ensures Mantissa(a, b) == DigitsValue(a) as real + DigitValue(b[0]) as real / 10.0
  {
    assert DigitsValue(b) == DigitValue(b[0]) by {
      DigitsLast(b);
      assert b[..0] == [];
    }
    var p := Pow10(|b|) as real;
    assert p == 10.0;
    SameQuotient(DigitsValue(b) as real, p, 10.0);
  }

  lemma SameQuotient(x: real, p: real, q: real)
    requires p == q && q != 0.0
    ensures x / p == x / q
  {
  }

  /** `;Z:0.2` and `;Z:0.4`: the Z comment of 0.<d>. */
  lemma ZTenthLine(line: string, a: string, b: string, z: real)
    requires a == "0" && |b| == 1 && IsDigit(b[0]) && line == ";Z:" + a + "." + b
    requires z == DigitValue(b[0]) as real / 10.0
    ensures Classify(line) == ZComment(Some(z))
  {
    assert ParseFloat(a + "." + b) == Some(z) by {
      OneDecimal(a, b);
      assert DigitsValue(a) == 0 by {
        DigitsLast(a);
        assert a[..0] == [];
      }
    }
    assert line == ";Z:" + (a + "." + b) by {
      Sorting.Assoc(";Z:", a + ".", b);
      Sorting.Assoc(";Z:", a, ".");
    }
    ZLine(line, a + "." + b);
  }

  lemma FeatureLine(line: string, name: string)
    requires line == ";TYPE:" + name && (name == "Perimeter" || name == "Infill")
    ensures Classify(line) == SetType(name)
  {
    TypeLine(line, name);
    StripClean(name);
  }

  /** Three words converted one after the other. */
  lemma Resolve3(w1: Param, w2: Param, w3: Param, v1: real, v2: real, v3: real, acc: Axes)
    requires ParseFloat(w1.text) == Some(v1) && ParseFloat(w2.text) == Some(v2) && ParseFloat(w3.text) == Some(v3)
    ensures ResolveAxes([w1, w2, w3], acc) == Some(SetAxis(SetAxis(SetAxis(acc, w1.letter, v1), w2.letter, v2), w3.letter, v3))
  {
    var a1 := SetAxis(acc, w1.letter, v1);
    var a2 := SetAxis(a1, w2.letter, v2);
    ResolveCons(w1, [w2, w3], acc, v1);
    ResolveCons(w2, [w3], a1, v2);
    ResolveCons(w3, [], a2, v3);
    assert [w1] + [w2, w3] == [w1, w2, w3] && [w2] + [w3] == [w2, w3] && [w3] + [] == [w3];
  }

  /** `G1 X0 Y0 F6000` is G1 and the words X0, Y0 and F6000. */
  lemma TravelText()
    ensures "G1 X0 Y0 F6000" == "G1 " + ParamText([Param('X', "0"), Param('Y', "0"), Param('F', "6000")])
  {
  }

  lemma TravelShaped()
    ensures forall i :: 0 <= i < 3 ==> WordShaped([Param('X', "0"), Param('Y', "0"), Param('F', "6000")][i])
  {
  }

  /** The words X0, Y0 and F6000 set x, y and the feed rate. */
  lemma TravelAxes()
    ensures ResolveAxes([Param('X', "0"), Param('Y', "0"), Param('F', "6000")], NoAxes())
      == Words(Some(0.0), Some(0.0), None, Some(6000.0))
  {
    FourDigits("6000", 6000.0);
  }

  /** `G1 X0 Y0 F6000`: a travel back to the origin at 6000 mm/min. */
  lemma TravelLine(line: string)
    requires line == "G1 X0 Y0 F6000"
    ensures Classify(line) == Motion(G1, Words(Some(0.0), Some(0.0), None, Some(6000.0)))
  {
    TravelText();
    TravelShaped();
    TravelAxes();
    MotionLine(line, G1, [Param('X', "0"), Param('Y', "0"), Param('F', "6000")]);
  }

  /** float() of `<d>.0`: the digit d. */
  lemma DigitPointZero(s: string, v: real)
    requires |s| == 3 && IsDigit(s[0]) && s[1] == '.' && s[2] == '0' && v == DigitValue(s[0]) as real
    ensures ParseFloat(s) == Some(v)
  {
    OneDecimal(s[..1], "0");
    assert s[..1] + "." + "0" == s;
    assert DigitsValue(s[..1]) == DigitValue(s[0]) by {
      DigitsLast(s[..1]);
      assert s[..1][..0] == [];
    }
  }

  /** float() of a single digit. */
  lemma OneDigit(s: string, v: real)
    requires |s| == 1 && IsDigit(s[0]) && v == DigitValue(s[0]) as real
    ensures ParseFloat(s) == Some(v)
  {
    DigitsLast(s);
    assert s[..0] == [];
  }

  /** Setting x, y, the extruder and the feed rate on no axes. */
  lemma SetFour(vx: real, vy: real, ve: real, vf: real)
    ensures Some(SetAxis(SetAxis(SetAxis(SetAxis(NoAxes(), 'X', vx), 'Y', vy), 'E', ve), 'F', vf))
      == Words(Some(vx), Some(vy), Some(ve), Some(vf))
  {
  }

  /** The words X<x> Y<y> E<e> F<f> set x, y, the extruder and the feed rate. */
  lemma PrintAxes(x: string, y: string, e: string, f: string, vx: real, vy: real, ve: real, vf: real)
    requires ParseFloat(x) == Some(vx) && ParseFloat(y) == Some(vy) && ParseFloat(e) == Some(ve) && ParseFloat(f) == Some(vf)
    ensures ResolveAxes([Param('X', x), Param('Y', y), Param('E', e), Param('F', f)], NoAxes())
      == Words(Some(vx), Some(vy), Some(ve), Some(vf))
  {
    var ps := [Param('X', x), Param('Y', y), Param('E', e), Param('F', f)];
    ResolveCons(ps[0], ps[1..], NoAxes(), vx);
    assert [ps[0]] + ps[1..] == ps;
    Resolve3(ps[1], ps[2], ps[3], vy, ve, vf, SetAxis(NoAxes(), 'X', vx));
    SetFour(vx, vy, ve, vf);
  }

  /** The words X10, Y0, E1.0 and F1200 set x, y, the extruder and the feed rate. */
  lemma FirstPrintAxes()
    ensures ResolveAxes([Param('X', "10"), Param('Y', "0"), Param('E', "1.0"), Param('F', "1200")], NoAxes())
      == Words(Some(10.0), Some(0.0), Some(1.0), Some(1200.0))
  {
    TwoDigits("10", 10.0);
    OneDigit("0", 0.0);
    DigitPointZero("1.0", 1.0);
    FourDigits("1200", 1200.0);
    PrintAxes("10", "0", "1.0", "1200", 10.0, 0.0, 1.0, 1200.0);
  }

  /** `G1 X10 Y0 E1.0 F1200` is G1 and the words X10, Y0, E1.0 and F1200. */
  lemma FirstPrintText()
    ensures "G1 X10 Y0 E1.0 F1200"
      == "G1 " + ParamText([Param('X', "10"), Param('Y', "0"), Param('E', "1.0"), Param('F', "1200")])
  {
    FourWords(Param('X', "10"), Param('Y', "0"), Param('E', "1.0"), Param('F', "1200"));
  }

  lemma FirstPrintShaped()
    ensures forall i :: 0 <= i < 4 ==> WordShaped([Param('X', "10"), Param('Y', "0"), Param('E', "1.0"), Param('F', "1200")][i])
  {
  }

  /** `G1 X10 Y0 E1.0 F1200`: an extruding move to x = 10 at 1200 mm/min. */
  lemma FirstPrintLine(line: string)
    requires line == "G1 X10 Y0 E1.0 F1200"
    ensures Classify(line) == Motion(G1, Words(Some(10.0), Some(0.0), Some(1.0), Some(1200.0)))
  {
    FirstPrintText();
    FirstPrintShaped();
    FirstPrintAxes();
    MotionLine(line, G1, [Param('X', "10"), Param('Y', "0"), Param('E', "1.0"), Param('F', "1200")]);
  }

  /** The words X20, Y0, E2.0 and F2400 set x, y, the extruder and the feed rate. */
  lemma SecondPrintAxes()
    ensures ResolveAxes([Param('X', "20"), Param('Y', "0"), Param('E', "2.0"), Param('F', "2400")], NoAxes())
      == Words(Some(20.0), Some(0.0), Some(2.0), Some(2400.0))
  {
    TwoDigits("20", 20.0);
    OneDigit("0", 0.0);
    DigitPointZero("2.0", 2.0);
    FourDigits("2400", 2400.0);
    PrintAxes("20", "0", "2.0", "2400", 20.0, 0.0, 2.0, 2400.0);
  }

  /** `G1 X20 Y0 E2.0 F2400` is G1 and the words X20, Y0, E2.0 and F2400. */
  lemma SecondPrintText()
    ensures "G1 X20 Y0 E2.0 F2400"
      == "G1 " + ParamText([Param('X', "20"), Param('Y', "0"), Param('E', "2.0"), Param('F', "2400")])
  {
    FourWords(Param('X', "20"), Param('Y', "0"), Param('E', "2.0"), Param('F', "2400"));
  }

  lemma SecondPrintShaped()
    ensures forall i :: 0 <= i < 4 ==> WordShaped([Param('X', "20"), Param('Y', "0"), Param('E', "2.0"), Param('F', "2400")][i])
  {
  }

  /** `G1 X20 Y0 E2.0 F2400`: an extruding move to x = 20 at 2400 mm/min. */
  lemma SecondPrintLine(line: string)
    requires line == "G1 X20 Y0 E2.0 F2400"
    ensures Classify(line) == Motion(G1, Words(Some(20.0), Some(0.0), Some(2.0), Some(2400.0)))
  {
    SecondPrintText();
    SecondPrintShaped();
    SecondPrintAxes();
    MotionLine(line, G1, [Param('X', "20"), Param('Y', "0"), Param('E', "2.0"), Param('F', "2400")]);
  }

  /** `;Z:0.2`: the first layer's height. */
  lemma FirstZLine(line: string)
    requires line == ";Z:0.2"
    ensures Classify(line) == ZComment(Some(0.2))
  {
    ZTenthLine(line, "0", "2", 0.2);
  }

  /** `;Z:0.4`: the second layer's height. */
  lemma SecondZLine(line: string)
    requires line == ";Z:0.4"
    ensures Classify(line) == ZComment(Some(0.4))
  {
    ZTenthLine(line, "0", "4", 0.4);
  }

  lemma PerimeterLine(line: string)
    requires line == ";TYPE:Perimeter"
    ensures Classify(line) == SetType("Perimeter")
  {
    FeatureLine(line, "Perimeter");
  }

  lemma InfillLine(line: string)
    requires line == ";TYPE:Infill"
    ensures Classify(line) == SetType("Infill")
  {
    FeatureLine(line, "Infill");
  }

  /** Lines that classify one by one to the commands classify to them all together. */
  lemma ClassifyEach(ls: seq<string>, cs: seq<Command>)
    requires |ls| == |cs| && forall k :: 0 <= k < |ls| ==> Classify(ls[k]) == cs[k]
    ensures ClassifyAll(ls) == cs
  {
  }

  /** Each sample line classifies to the command written out for it. */
  lemma SampleClassifies()
    ensures ClassifyAll(SampleLines()) == SamplePrint()
  {
    ClassifyLines(SampleLines(), SamplePrint());
  }

  lemma ClassifyLines(ls: seq<string>, cs: seq<Command>)
    requires ls == SampleLines() && cs == SamplePrint()
    ensures ClassifyAll(ls) == cs
  {
    SampleLine0(ls);
    SampleLine1(ls);
    SampleLine2(ls);
    SampleLine3(ls);
    SampleLine4(ls);
    SampleLine5(ls);
    SampleLine6(ls);
    SampleLine7(ls);
    SampleLine8(ls);
    forall k | 0 <= k < |ls|
      ensures Classify(ls[k]) == cs[k]
    {
      assert k == 0 || k == 1 || k == 2 || k == 3 || k == 4 || k == 5 || k == 6 || k == 7 || k == 8;
    }
    ClassifyEach(ls, cs);
  }

  // Line k of the sample, one proof each

  lemma SampleLine0(ls: seq<string>)
    requires ls == SampleLines()
    ensures Classify(ls[0]) == SamplePrint()[0]
  {
    ModeLine(ls[0]);
  }

  lemma SampleLine1(ls: seq<string>)
    requires ls == SampleLines()
    ensures Classify(ls[1]) == SamplePrint()[1]
  {
    FirstZLine(ls[1]);
  }

  lemma SampleLine2(ls: seq<string>)
    requires ls == SampleLines()
    ensures Classify(ls[2]) == SamplePrint()[2]
  {
    PerimeterLine(ls[2]);
  }

  lemma SampleLine3(ls: seq<string>)
    requires ls == SampleLines()
    ensures Classify(ls[3]) == SamplePrint()[3]
  {
    TravelLine(ls[3]);
  }

  lemma SampleLine4(ls: seq<string>)
    requires ls == SampleLines()
    ensures Classify(ls[4]) == SamplePrint()[4]
  {
    FirstPrintLine(ls[4]);
  }

  lemma SampleLine5(ls: seq<string>)
    requires ls == SampleLines()
    ensures Classify(ls[5]) == SamplePrint()[5]
  {
    SecondZLine(ls[5]);
  }

  lemma SampleLine6(ls: seq<string>)
    requires ls == SampleLines()
    ensures Classify(ls[6]) == SamplePrint()[6]
  {
    InfillLine(ls[6]);
  }

  lemma SampleLine7(ls: seq<string>)
    requires ls == SampleLines()
    ensures Classify(ls[7]) == SamplePrint()[7]
  {
    TravelLine(ls[7]);
  }

  lemma SampleLine8(ls: seq<string>)
    requires ls == SampleLines()
    ensures Classify(ls[8]) == SamplePrint()[8]
  {
    SecondPrintLine(ls[8]);
  }

  // ---------------------------------------------------------------------------
  // Running the sample print
  // ---------------------------------------------------------------------------

  /** One more line that does not raise: the run goes on with that line's step. */
  lemma Advance(cs: seq<Command>, i: nat, st: State, area: real, dist: (real, real, real) -> real)
    returns (st': State)
    requires i < |cs| && Run(cs[..i], area, dist) == Success(st) && !Raises(cs[i])
    ensures st' == Step(st, cs[i], area, dist).value
    ensures Run(cs[..i + 1], area, dist) == Success(st')
  {
    StepOutcome(st, cs[i], area, dist);
    RunExtend(cs, i, st, area, dist);
    st' := Step(st, cs[i], area, dist).value;
  }

  /**
    In relative mode, a G1 to a new point in the plane at a positive feed rate that pushes a
    positive length of filament appends a move with positive flow, on the current layer and
    feature, and ends at that point.
  */
  lemma FlowingMove(st: State, a: Axes, area: real, dist: (real, real, real) -> real)
    requires IsEuclidean(dist) && area > 0.0 && st.relative
    requires a.x.Some? && a.y.Some? && a.z.None? && (a.x.value != st.x || a.y.value != st.y)
    requires a.e.Some? && a.e.value > 0.0 && a.f.Some? && a.f.value > 0.0
    ensures Step(st, Motion(G1, Some(a)), area, dist).Some?
    ensures Step(st, Motion(G1, Some(a)), area, dist).value
      == st.(x := a.x.value, y := a.y.value, e := st.e + a.e.value, feed := a.f,
             moves := st.moves + [NextMove(st, G1, a, area, dist)])
    ensures NextMove(st, G1, a, area, dist).layer == st.layer
    ensures NextMove(st, G1, a, area, dist).featureType == st.featureType
    ensures NextMove(st, G1, a, area, dist).flow > 0.0
  {
    var m := NextMove(st, G1, a, area, dist);
    NextMoveSound(st, G1, a, area, dist);
    assert m.dist > 0.0;
    assert m.speed.Some?;
  }

  /** `M83`, `;Z:0.2`, `;TYPE:Perimeter`: relative extrusion, layer 0 at 0.2, Perimeter. */
  lemma SetupRuns(cs: seq<Command>, area: real, dist: (real, real, real) -> real) returns (st: State)
    requires cs == SamplePrint()
    ensures Run(cs[..3], area, dist) == Success(st)
    ensures st.x == 0.0 && st.y == 0.0 && st.relative && !st.sawLayerTag && st.featureType == "Perimeter"
    ensures st.layer == 0 && st.lastZ == Some(0.2) && st.layerZ == map[0 := 0.2] && st.moves == []
  {
    assert cs[..0] == [];
    var s1 := Advance(cs, 0, Init(), area, dist);
    var s2 := Advance(cs, 1, s1, area, dist);
    st := Advance(cs, 2, s2, area, dist);
  }

  /** The travel to the origin, on layer 0 as Perimeter. */
  lemma TravelRuns(cs: seq<Command>, s3: State, area: real, dist: (real, real, real) -> real)
    returns (st: State)
    requires cs == SamplePrint()
    requires Run(cs[..3], area, dist) == Success(s3)
    requires s3.x == 0.0 && s3.y == 0.0 && s3.relative && !s3.sawLayerTag && s3.featureType == "Perimeter"
    requires s3.layer == 0 && s3.lastZ == Some(0.2) && s3.layerZ == map[0 := 0.2] && s3.moves == []
    ensures Run(cs[..4], area, dist) == Success(st)
    ensures st.x == 0.0 && st.y == 0.0 && st.relative && !st.sawLayerTag && st.featureType == "Perimeter"
    ensures st.layer == 0 && st.lastZ == Some(0.2) && st.layerZ == map[0 := 0.2]
    ensures |st.moves| == 1 && st.moves[0].layer == 0 && st.moves[0].featureType == "Perimeter"
  {
    st := Advance(cs, 3, s3, area, dist);
  }

  /** The move to X10, which extrudes and flows. */
  lemma FirstMoveRuns(cs: seq<Command>, s4: State, area: real, dist: (real, real, real) -> real)
    returns (st: State)
    requires cs == SamplePrint() && IsEuclidean(dist) && area > 0.0
    requires Run(cs[..4], area, dist) == Success(s4)
    requires s4.x == 0.0 && s4.y == 0.0 && s4.relative && !s4.sawLayerTag && s4.featureType == "Perimeter"
    requires s4.layer == 0 && s4.lastZ == Some(0.2) && s4.layerZ == map[0 := 0.2] && |s4.moves| == 1
    ensures Run(cs[..5], area, dist) == Success(st)
    ensures st.x == 10.0 && st.y == 0.0 && st.relative && !st.sawLayerTag
    ensures st.layer == 0 && st.lastZ == Some(0.2) && st.layerZ == map[0 := 0.2]
    ensures |st.moves| == 2 && st.moves[0] == s4.moves[0]
    ensures st.moves[1].layer == 0 && st.moves[1].featureType == "Perimeter" && st.moves[1].flow > 0.0
  {
    st := Advance(cs, 4, s4, area, dist);
    FlowingMove(s4, cs[4].axes.value, area, dist);
  }

  /** `;Z:0.4` above 0.2 starts layer 1, recorded at 0.4; `;TYPE:Infill` follows. */
  lemma LayerChangeRuns(cs: seq<Command>, s5: State, area: real, dist: (real, real, real) -> real)
    returns (st: State)
    requires cs == SamplePrint()
    requires Run(cs[..5], area, dist) == Success(s5)
    requires s5.x == 10.0 && s5.y == 0.0 && s5.relative && !s5.sawLayerTag
    requires s5.layer == 0 && s5.lastZ == Some(0.2) && s5.layerZ == map[0 := 0.2]
    ensures Run(cs[..7], area, dist) == Success(st)
    ensures st.x == 10.0 && st.y == 0.0 && st.relative && st.featureType == "Infill"
    ensures st.layer == 1 && st.layerZ == map[0 := 0.2, 1 := 0.4] && st.moves == s5.moves
  {
    var s6 := Advance(cs, 5, s5, area, dist);
    st := Advance(cs, 6, s6, area, dist);
  }

  /** The travel back to the origin, on layer 1 as Infill. */
  lemma ReturnRuns(cs: seq<Command>, s7: State, area: real, dist: (real, real, real) -> real)
    returns (st: State)
    requires cs == SamplePrint()
    requires Run(cs[..7], area, dist) == Success(s7)
    requires s7.relative && s7.featureType == "Infill"
    requires s7.layer == 1 && s7.layerZ == map[0 := 0.2, 1 := 0.4] && |s7.moves| == 2
    ensures Run(cs[..8], area, dist) == Success(st)
    ensures st.x == 0.0 && st.y == 0.0 && st.relative && st.featureType == "Infill"
    ensures st.layer == 1 && st.layerZ == map[0 := 0.2, 1 := 0.4]
    ensures |st.moves| == 3 && st.moves[0] == s7.moves[0] && st.moves[1] == s7.moves[1]
    ensures st.moves[2].layer == 1 && st.moves[2].featureType == "Infill"
  {
    st := Advance(cs, 7, s7, area, dist);
  }

  /** The move to X20, which extrudes and flows. */
  lemma SecondMoveRuns(cs: seq<Command>, s8: State, area: real, dist: (real, real, real) -> real)
    returns (st: State)
    requires cs == SamplePrint() && IsEuclidean(dist) && area > 0.0
    requires Run(cs[..8], area, dist) == Success(s8)
    requires s8.x == 0.0 && s8.y == 0.0 && s8.relative && s8.featureType == "Infill"
    requires s8.layer == 1 && s8.layerZ == map[0 := 0.2, 1 := 0.4] && |s8.moves| == 3
    ensures Run(cs, area, dist) == Success(st)
    ensures |st.moves| == 4 && st.moves[0] == s8.moves[0] && st.moves[1] == s8.moves[1]
    ensures st.moves[2] == s8.moves[2] && st.x == 20.0
    ensures st.layerZ == map[0 := 0.2, 1 := 0.4]
    ensures st.moves[3].layer == 1 && st.moves[3].featureType == "Infill" && st.moves[3].flow > 0.0
  {
    st := Advance(cs, 8, s8, area, dist);
    FlowingMove(s8, cs[8].axes.value, area, dist);
    assert cs[..9] == cs;
  }

  /**
    parse_gcode on the sample file: four moves, two on layer 0 (Perimeter) and two on
    layer 1 (Infill), both extruding moves with positive flow, and the layer map
    {0: 0.2, 1: 0.4}.
  */
  lemma SampleParses(area: real, dist: (real, real, real) -> real)
    returns (moves: seq<Move>, layerZ: map<nat, real>)
    requires IsEuclidean(dist) && area > 0.0
    ensures Outcome(Run(ClassifyAll(SampleLines()), area, dist)) == Success((moves, layerZ))
    ensures |moves| == 4 && layerZ == map[0 := 0.2, 1 := 0.4]
    ensures moves[0].layer == 0 && moves[1].layer == 0 && moves[2].layer == 1 && moves[3].layer == 1
    ensures moves[0].featureType == "Perimeter" && moves[1].featureType == "Perimeter"
    ensures moves[2].featureType == "Infill" && moves[3].featureType == "Infill"
    ensures moves[1].flow > 0.0 && moves[3].flow > 0.0
  {
    SampleClassifies();
    var cs := SamplePrint();
    var s3 := SetupRuns(cs, area, dist);
    var s4 := TravelRuns(cs, s3, area, dist);
    var s5 := FirstMoveRuns(cs, s4, area, dist);
    var s7 := LayerChangeRuns(cs, s5, area, dist);
    var s8 := ReturnRuns(cs, s7, area, dist);
    var st := SecondMoveRuns(cs, s8, area, dist);
    moves, layerZ := st.moves, st.layerZ;
  }
}
