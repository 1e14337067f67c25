/**
  The single pass of parse_gcode over a G-code file (gcode_profiler/gcode_parser.py).

  Each line is first classified into a Command, following the parser's order of tests
  (a comment tag anywhere in the line wins over everything after it, and a motion line is
  tried last). A Command then either updates the machine state or, for G0/G1, appends one
  fully resolved Move. The file is given as its lines without line terminators; the
  filament cross-section `area` and the Euclidean length `dist` of a displacement are
  parameters (the source computes them with math.pi and math.sqrt).
*/
module GcodeParser {
  import opened Wrappers
  import opened Text

  // ---------------------------------------------------------------------------
  // Records
  // ---------------------------------------------------------------------------

  datatype Cmd = G0 | G1

  /** One move record as parse_gcode appends it; speed, fan and temperatures may be None. */
  datatype Move = Move(
    layer: nat, z: real, featureType: string, cmd: Cmd,
    x0: real, y0: real, z0: real, x1: real, y1: real, z1: real,
    dist: real, de: real, speed: Option<real>, time: real, flow: real,
    fanPct: Option<real>, hotend: Option<real>, bed: Option<real>, chamber: Option<real>)

  /** The axis words of a G0/G1 line, each the last value given for it. */
  datatype Axes = Axes(x: Option<real>, y: Option<real>, z: Option<real>, e: Option<real>, f: Option<real>)

  /** What one line means to the parser. */
  datatype Command =
    | SetType(name: string)               // ;TYPE:<name>
    | LayerTag(n: nat)                    // ;LAYER:<n>
    | ZComment(z: Option<real>)           // ;Z:<token>; None when float() rejects the token
    | AbsoluteExtrusion                   // M82
    | RelativeExtrusion                   // M83
    | FanSpeed(s: Option<nat>)            // M106; None when no S<digits> word follows
    | FanOff                              // M107
    | SetHotend(t: Option<real>)          // M104 / M109
    | SetBed(t: Option<real>)             // M140 / M190
    | SetChamber(t: Option<real>)         // M141
    | Motion(cmd: Cmd, axes: Option<Axes>) // G0 / G1; None when an axis value does not parse
    | Other

  /** The state parse_gcode threads through the lines, with its two outputs (moves, layer_z_map). */
  datatype State = State(
    x: real, y: real, z: real, e: real,
    feed: Option<real>, relative: bool,
    layer: nat, featureType: string,
    sawLayerTag: bool, lastZ: Option<real>,
    hotend: Option<real>, bed: Option<real>, chamber: Option<real>, fan: Option<nat>,
    layerZ: map<nat, real>, moves: seq<Move>)

  /** The state before the first line: at the origin, relative extrusion, layer 0, type UNKNOWN. */
  function Init(): State {
    State(0.0, 0.0, 0.0, 0.0, None, true, 0, "UNKNOWN", false, None, None, None, None, None, map[], [])
  }

  // ---------------------------------------------------------------------------
  // Parameters standing in for math.pi and math.sqrt
  // ---------------------------------------------------------------------------

  /** filament_area_mm2: the cross-section pi * (d / 2)^2 of a filament of diameter d. */
  function FilamentArea(d: real, pi: real): real {
    pi * (d / 2.0) * (d / 2.0)
  }

  /** The cross-section is never negative, and it is zero exactly for a zero diameter. */
  lemma FilamentAreaSign(d: real, pi: real)
    requires pi > 0.0
    ensures FilamentArea(d, pi) >= 0.0
    ensures FilamentArea(d, pi) > 0.0 <==> d != 0.0
  {
    var r := d / 2.0;
    if r == 0.0 {
      assert pi * r == 0.0;
      assert pi * r * r == 0.0;
    } else if r > 0.0 {
      assert pi * r > 0.0;
      assert pi * r * r > 0.0;
    } else {
      assert pi * r < 0.0;
      assert pi * r * r > 0.0;
    }
  }

  /**
    dist is the Euclidean norm math.sqrt(dx * dx + dy * dy + dz * dz): non-negative, zero
    only for the zero displacement, and its square is the sum of the squares.
  */
  ghost predicate IsEuclidean(dist: (real, real, real) -> real) {
    forall dx: real, dy: real, dz: real ::
      && dist(dx, dy, dz) >= 0.0
      && (dist(dx, dy, dz) == 0.0 <==> dx == 0.0 && dy == 0.0 && dz == 0.0)
      && dist(dx, dy, dz) * dist(dx, dy, dz) == dx * dx + dy * dy + dz * dz
  }

  // ---------------------------------------------------------------------------
  // Regular expressions
  // ---------------------------------------------------------------------------

  /** re.search: the first position from p on where the pattern `at` matches, and its capture. */
  function Search<T>(s: string, p: nat, at: (string, nat) -> Option<T>): (r: Option<T>)
    ensures r.Some? ==> exists k :: p <= k <= |s| && at(s, k) == r && forall j :: p <= j < k ==> at(s, j).None?
    ensures r.None? ==> forall k :: p <= k <= |s| ==> at(s, k).None?
    decreases |s| + 1 - p
  {
    if p > |s| then None
    else if at(s, p).Some? then at(s, p)
    else Search(s, p + 1, at)
  }

  /** The text after `;\s*<tag>` when it starts at p, as the index just past the tag. */
  function TagEnd(s: string, p: nat, tag: string): Option<nat> {
    if p < |s| && s[p] == ';' then
      var k := SkipSpaces(s, p + 1);
      if StartsWith(s[k..], tag) then Some(k + |tag|) else None
    else None
  }

  /** `;\s*TYPE:(.+)\s*$` at p: the rest of the line (at least one character), stripped. */
  function TypeAt(s: string, p: nat): Option<string> {
    match TagEnd(s, p, "TYPE:")
    case Some(k) => if k < |s| then Some(Strip(s[k..])) else None
    case None => None
  }

  /** `;\s*LAYER:\s*([0-9]+)` at p: the layer number. */
  function LayerAt(s: string, p: nat): Option<nat> {
    match TagEnd(s, p, "LAYER:")
    case Some(k) =>
      var d := SkipSpaces(s, k);
      var e := RunEnd(s, d, IsDigit);
      if e > d then Some(DigitsValue(s[d..e])) else None
    case None => None
  }

  /** `;\s*Z:([0-9.+-]+)` at p: the numeric token, not yet converted. */
  function ZAt(s: string, p: nat): Option<string> {
    match TagEnd(s, p, "Z:")
    case Some(k) =>
      var e := RunEnd(s, k, IsNumChar);
      if e > k then Some(s[k..e]) else None
    case None => None
  }

  predicate IsWordChar(c: char) {
    IsDigit(c) || ('a' <= c <= 'z') || ('A' <= c <= 'Z') || c == '_'
  }

  /** `\bS(<cls>+)` at p: an S that does not continue a word, then a non-empty run of cls. */
  function SWordAt(s: string, p: nat, cls: char -> bool): Option<string> {
    if p < |s| && s[p] == 'S' && (p == 0 || !IsWordChar(s[p - 1])) then
      var e := RunEnd(s, p + 1, cls);
      if e > p + 1 then Some(s[p + 1..e]) else None
    else None
  }

  /** The value of the first `\bS(\d+)` word (M106's fan speed). */
  function FanWord(s: string): Option<nat> {
    match Search(s, 0, (t, p) => SWordAt(t, p, IsDigit))
    case Some(ds) => if AllDigits(ds) then Some(DigitsValue(ds)) else None
    case None => None
  }

  /** The value of the first `\bS([0-9.+-]+)` word, None when there is none or float() rejects it. */
  function SettingWord(s: string): Option<real> {
    match Search(s, 0, (t, p) => SWordAt(t, p, IsNumChar))
    case Some(tok) => ParseFloat(tok)
    case None => None
  }

  /** One `([XYZEFS])([0-9.+-]+)` match of findall. */
  datatype Param = Param(letter: char, text: string)

  predicate IsAxisLetter(c: char) {
    c == 'X' || c == 'Y' || c == 'Z' || c == 'E' || c == 'F' || c == 'S'
  }

  /** re.findall of `([XYZEFS])([0-9.+-]+)` over s[p..]: non-overlapping, left to right. */
  function FindParams(s: string, p: nat): (ps: seq<Param>)
    ensures forall k :: 0 <= k < |ps| ==> IsAxisLetter(ps[k].letter) && |ps[k].text| > 0
    decreases |s| - p
  {
    if p >= |s| then []
    else if IsAxisLetter(s[p]) && p + 1 < |s| && IsNumChar(s[p + 1]) then
      var e := RunEnd(s, p + 1, IsNumChar);
      [Param(s[p], s[p + 1..e])] + FindParams(s, e)
    else FindParams(s, p + 1)
  }

  /** Records one axis word; S is converted (and may fail) but not used. */
  function SetAxis(a: Axes, letter: char, v: real): Axes {
    if letter == 'X' then a.(x := Some(v))
    else if letter == 'Y' then a.(y := Some(v))
    else if letter == 'Z' then a.(z := Some(v))
    else if letter == 'E' then a.(e := Some(v))
    else if letter == 'F' then a.(f := Some(v))
    else a
  }

  /**
    `{k: float(v) for (k, v) in ...}`: later words overwrite earlier ones; None where some
    float() raises.
  */
  function ResolveAxes(ps: seq<Param>, acc: Axes): Option<Axes> {
    if |ps| == 0 then Some(acc)
    else
      match ParseFloat(ps[0].text)
      case None => None
      case Some(v) => ResolveAxes(ps[1..], SetAxis(acc, ps[0].letter, v))
  }

  /** `^(G0|G1)\s+(.*)$`: the command and the index where its parameter text starts. */
  function MatchMotion(s: string): Option<(Cmd, nat)> {
    if |s| >= 3 && s[0] == 'G' && (s[1] == '0' || s[1] == '1') && IsSpace(s[2]) then
      Some((if s[1] == '0' then G0 else G1, SkipSpaces(s, 2)))
    else None
  }

  /** The tests of the parser's loop body, in its order; the first that matches decides. */
  function Classify(line: string): Command {
    var ty := Search(line, 0, TypeAt);
    var layer := Search(line, 0, LayerAt);
    var zc := Search(line, 0, ZAt);
    if ty.Some? then SetType(ty.value)
    else if layer.Some? then LayerTag(layer.value)
    else if zc.Some? then ZComment(ParseFloat(zc.value))
    else if StartsWith(line, "M82") then AbsoluteExtrusion
    else if StartsWith(line, "M83") then RelativeExtrusion
    else if StartsWith(line, "M106") then FanSpeed(FanWord(line))
    else if StartsWith(line, "M107") then FanOff
    else if StartsWith(line, "M104") || StartsWith(line, "M109") then SetHotend(SettingWord(line))
    else if StartsWith(line, "M140") || StartsWith(line, "M190") then SetBed(SettingWord(line))
    else if StartsWith(line, "M141") then SetChamber(SettingWord(line))
    else
      match MatchMotion(line)
      case Some((cmd, k)) =>
        Motion(cmd, ResolveAxes(FindParams(line[k..], 0), Axes(None, None, None, None, None)))
      case None => Other
  }

  // ---------------------------------------------------------------------------
  // One step of the state machine
  // ---------------------------------------------------------------------------

  /** Z-comment layer inference: the first comment gives layer 0, a rise above 1e-6 the next layer. */
  function InferLayer(lastZ: Option<real>, zc: real, layer: nat): nat {
    if lastZ.None? then 0
    else if zc > lastZ.value + 0.000001 then layer + 1
    else layer
  }

  /** feed_mm_s: the feed rate in mm/s when one is known and positive. */
  function FeedPerSecond(feed: Option<real>): Option<real> {
    if feed.Some? && feed.value > 0.0 then Some(feed.value / 60.0) else None
  }

  /** (de, ne): the extruder delta and the new cumulative extruder position. */
  function Extrude(e: real, relative: bool, cmdE: Option<real>): (real, real) {
    if cmdE.None? then (0.0, e)
    else if relative then (cmdE.value, e + cmdE.value)
    else (cmdE.value - e, cmdE.value)
  }

  /** t_s: distance over speed when the speed is known and the move has length. */
  function MoveTime(dist: real, speed: Option<real>): real {
    if speed.Some? && speed.value != 0.0 && dist > 0.0 then dist / speed.value else 0.0
  }

  /** flow: extruded volume per second, 0 unless the move takes time and extrudes. */
  function Flow(de: real, area: real, time: real): real {
    if time > 0.0 && de > 0.0 then de * area / time else 0.0
  }

  function FanPercent(fan: Option<nat>): Option<real> {
    if fan.Some? then Some(fan.value as real / 255.0 * 100.0) else None
  }

  /** The record a G0/G1 line with axis words a appends in state st. */
  function NextMove(st: State, cmd: Cmd, a: Axes, area: real, dist: (real, real, real) -> real): Move {
    var nx, ny, nz := a.x.GetOr(st.x), a.y.GetOr(st.y), a.z.GetOr(st.z);
    var feed := if a.f.Some? then a.f else st.feed;
    var speed := FeedPerSecond(feed);
    var de := Extrude(st.e, st.relative, a.e).0;
    var d := dist(nx - st.x, ny - st.y, nz - st.z);
    var t := MoveTime(d, speed);
    Move(st.layer, nz, st.featureType, cmd, st.x, st.y, st.z, nx, ny, nz,
      d, de, speed, t, Flow(de, area, t), FanPercent(st.fan), st.hotend, st.bed, st.chamber)
  }

  /** The state after one command; None where parse_gcode raises (an axis value float() rejects). */
  function Step(st: State, c: Command, area: real, dist: (real, real, real) -> real): Option<State> {
    match c
    case SetType(name) => Some(st.(featureType := name))
    case LayerTag(n) => Some(st.(sawLayerTag := true, layer := n))
    case ZComment(zc) =>
      if zc.None? then Some(st)
      else
        var st1 := if st.sawLayerTag then st
                   else st.(layer := InferLayer(st.lastZ, zc.value, st.layer), lastZ := zc);
        Some(st1.(layerZ := st1.layerZ[st1.layer := zc.value]))
    case AbsoluteExtrusion => Some(st.(relative := false))
    case RelativeExtrusion => Some(st.(relative := true))
    case FanSpeed(s) => Some(if s.Some? then st.(fan := s) else st)
    case FanOff => Some(st.(fan := Some(0)))
    case SetHotend(t) => Some(if t.Some? then st.(hotend := t) else st)
    case SetBed(t) => Some(if t.Some? then st.(bed := t) else st)
    case SetChamber(t) => Some(if t.Some? then st.(chamber := t) else st)
    case Motion(cmd, axes) =>
      if axes.None? then None
      else
        var a := axes.value;
        var m := NextMove(st, cmd, a, area, dist);
        Some(st.(x := m.x1, y := m.y1, z := m.z1, e := Extrude(st.e, st.relative, a.e).1,
                 feed := if a.f.Some? then a.f else st.feed, moves := st.moves + [m]))
    case Other => Some(st)
  }

  /** The commands of the lines, in order. */
  function ClassifyAll(lines: seq<string>): (cs: seq<Command>)
    ensures |cs| == |lines| && forall k :: 0 <= k < |lines| ==> cs[k] == Classify(lines[k])
  {
    seq(|lines|, k requires 0 <= k < |lines| => Classify(lines[k]))
  }

  /** The state after all commands, or the 1-based index of the command that raised. */
  function Run(cs: seq<Command>, area: real, dist: (real, real, real) -> real): Result<State, nat> {
    if |cs| == 0 then Success(Init())
    else
      match Run(cs[..|cs| - 1], area, dist)
      case Failure(k) => Failure(k)
      case Success(st) =>
        match Step(st, cs[|cs| - 1], area, dist)
        case Some(st') => Success(st')
        case None => Failure(|cs|)
  }

  /** One more command: the run so far, followed by that command's step. */
  lemma RunExtend(cs: seq<Command>, i: nat, st: State, area: real, dist: (real, real, real) -> real)
    requires i < |cs| && Run(cs[..i], area, dist) == Success(st)
    ensures Step(st, cs[i], area, dist).None? ==> Run(cs[..i + 1], area, dist) == Failure(i + 1)
    ensures Step(st, cs[i], area, dist).Some? ==>
      Run(cs[..i + 1], area, dist) == Success(Step(st, cs[i], area, dist).value)
  {
    assert cs[..i + 1][..i] == cs[..i];
  }

  /** Once a command raises, the run ends there: later commands change nothing. */
  lemma {:induction false} RunStopsAtFailure(cs: seq<Command>, k: nat, area: real, dist: (real, real, real) -> real)
    requires k <= |cs| && Run(cs[..k], area, dist).Failure?
    ensures Run(cs, area, dist) == Run(cs[..k], area, dist)
    decreases |cs|
  {
    if k < |cs| {
      var n := |cs| - 1;
      assert cs[..n][..k] == cs[..k];
      RunStopsAtFailure(cs[..n], k, area, dist);
    } else {
      assert cs[..k] == cs;
    }
  }

  /** parse_gcode's return value (moves, layer_z_map), or the line number where it raises. */
  function Outcome(r: Result<State, nat>): Result<(seq<Move>, map<nat, real>), nat> {
    match r
    case Success(st) => Success((st.moves, st.layerZ))
    case Failure(k) => Failure(k)
  }

  // ---------------------------------------------------------------------------
  // The parser
  // ---------------------------------------------------------------------------

  /** The E word of a move: relative mode adds it, absolute mode jumps to it, no word changes nothing. */
  method ExtruderStep(e: real, relative: bool, cmdE: Option<real>) returns (de: real, ne: real)
    ensures (de, ne) == Extrude(e, relative, cmdE)
    ensures ne == e + de
  {
    if cmdE.Some? {
      if relative {
        de := cmdE.value;
        ne := e + de;
      } else {
        de := cmdE.value - e;
        ne := cmdE.value;
      }
    } else {
      de := 0.0;
      ne := e;
    }
  }

  lemma MotionStepIs(st: State, cmd: Cmd, a: Axes, area: real, dist: (real, real, real) -> real,
                     m: Move, e: real, feed: Option<real>)
    requires m == NextMove(st, cmd, a, area, dist)
    requires e == Extrude(st.e, st.relative, a.e).1 && feed == (if a.f.Some? then a.f else st.feed)
    ensures Step(st, Motion(cmd, Some(a)), area, dist)
      == Some(st.(x := m.x1, y := m.y1, z := m.z1, e := e, feed := feed, moves := st.moves + [m]))
  {
  }

  /**
    The body of parse_gcode for a G0/G1 line whose axis words all parsed: the target
    position, the feed rate it keeps, the extruder delta, length, time and flow of the move
    it appends, and the new position.
  */
  method MotionStep(st: State, cmd: Cmd, a: Axes, area: real, dist: (real, real, real) -> real)
    returns (next: State)
    ensures Step(st, Motion(cmd, Some(a)), area, dist) == Some(next)
  {
    var nx, ny, nz := a.x.GetOr(st.x), a.y.GetOr(st.y), a.z.GetOr(st.z);
    var feed := st.feed;
    if a.f.Some? {
      feed := a.f;
    }
    var feedPerSecond := if feed.Some? && feed.value > 0.0 then Some(feed.value / 60.0) else None;
    var de, ne := ExtruderStep(st.e, st.relative, a.e);
    var d := dist(nx - st.x, ny - st.y, nz - st.z);
    var t := if feedPerSecond.Some? && feedPerSecond.value != 0.0 && d > 0.0 then d / feedPerSecond.value else 0.0;
    var flow := if t > 0.0 && de > 0.0 then de * area / t else 0.0;
    var fanPct := if st.fan.Some? then Some(st.fan.value as real / 255.0 * 100.0) else None;
    var mv := Move(st.layer, nz, st.featureType, cmd, st.x, st.y, st.z, nx, ny, nz,
      d, de, feedPerSecond, t, flow, fanPct, st.hotend, st.bed, st.chamber);
    assert mv == NextMove(st, cmd, a, area, dist);
    next := st.(x := nx, y := ny, z := nz, e := ne, feed := feed, moves := st.moves + [mv]);
    MotionStepIs(st, cmd, a, area, dist, mv, ne, feed);
  }

  /**
    The body of parse_gcode's loop for one classified line: the updated parser state, or
    None where the line raises.
  */
  method ApplyCommand(st0: State, c: Command, area: real, dist: (real, real, real) -> real)
    returns (r: Option<State>)
    ensures r == Step(st0, c, area, dist)
  {
    var st := st0;
    match c {
      case SetType(name) =>
        st := st.(featureType := name);
      case LayerTag(n) =>
        st := st.(sawLayerTag := true, layer := n);
      case ZComment(zc) =>
        if zc.Some? {
          var layer, lastZ := st.layer, st.lastZ;
          if !st.sawLayerTag {
            if lastZ.None? {
              layer := 0;
            } else if zc.value > lastZ.value + 0.000001 {
              layer := layer + 1;
            }
            lastZ := zc;
          }
          st := st.(layer := layer, lastZ := lastZ, layerZ := st.layerZ[layer := zc.value]);
        }
      case AbsoluteExtrusion =>
        st := st.(relative := false);
      case RelativeExtrusion =>
        st := st.(relative := true);
      case FanSpeed(s) =>
        if s.Some? {
          st := st.(fan := s);
        }
      case FanOff =>
        st := st.(fan := Some(0));
      case SetHotend(t) =>
        if t.Some? {
          st := st.(hotend := t);
        }
      case SetBed(t) =>
        if t.Some? {
          st := st.(bed := t);
        }
      case SetChamber(t) =>
        if t.Some? {
          st := st.(chamber := t);
        }
      case Motion(cmd, axes) =>
        if axes.None? {
          return None;
        }
        st := MotionStep(st, cmd, axes.value, area, dist);
      case Other =>
    }
    return Some(st);
  }

  /**
    parse_gcode: one pass over the lines, keeping position, extruder, feed rate, extrusion
    mode, layer, feature type and setpoints (the parser's local variables, gathered here in
    one State record), appending a move for every G0/G1 line and recording each Z comment in
    the layer map. Returns the moves and the layer heights, or the 1-based number of the line
    whose axis value float() rejects.
  */
  method ParseGcode(lines: seq<string>, area: real, dist: (real, real, real) -> real)
    returns (r: Result<(seq<Move>, map<nat, real>), nat>)
    ensures r == Outcome(Run(ClassifyAll(lines), area, dist))
  {
    ghost var cs := ClassifyAll(lines);
    var st := Init();
    var i := 0;
    while i < |lines|
      invariant 0 <= i <= |lines|
      invariant Run(cs[..i], area, dist) == Success(st)
    {
      var c := Classify(lines[i]);
      RunExtend(cs, i, st, area, dist);
      var next := ApplyCommand(st, c, area, dist);
      if next.None? {
        RunStopsAtFailure(cs, i + 1, area, dist);
        return Failure(i + 1);
      }
      st := next.value;
      i := i + 1;
    }
    assert cs[..i] == cs;
    return Success((st.moves, st.layerZ));
  }
}
