/**
  What parse_gcode promises about its output, proved over the step function of
  GcodeParser: where it raises, how many moves it produces, that consecutive moves join
  up, the physical laws every move record obeys, and how the layer index evolves when the
  file carries only `;Z:` comments.
*/
module GcodeLaws {
  import opened Wrappers
  import opened GcodeParser

  // ---------------------------------------------------------------------------
  // Raising and counting
  // ---------------------------------------------------------------------------

  /** A G0/G1 line with an axis word that float() rejects: the only line that raises. */
  predicate Raises(c: Command) {
    c.Motion? && c.axes.None?
  }

  /** The number of G0/G1 lines among cs. */
  function CountMotions(cs: seq<Command>): nat {
    if |cs| == 0 then 0
    else CountMotions(cs[..|cs| - 1]) + (if cs[|cs| - 1].Motion? then 1 else 0)
  }

  lemma StepOutcome(st: State, c: Command, area: real, dist: (real, real, real) -> real)
    ensures Step(st, c, area, dist).None? <==> Raises(c)
    ensures Step(st, c, area, dist).Some? ==>
      var st' := Step(st, c, area, dist).value;
      && |st'.moves| == |st.moves| + (if c.Motion? then 1 else 0)
      && st'.moves[..|st.moves|] == st.moves
  {
  }

  /**
    The run fails exactly when some line raises, and then at the first such line (its
    1-based number); otherwise it appends one move per G0/G1 line.
  */
  lemma {:induction false} RunOutcome(cs: seq<Command>, area: real, dist: (real, real, real) -> real)
    ensures Run(cs, area, dist).Failure? <==> exists j :: 0 <= j < |cs| && Raises(cs[j])
    ensures Run(cs, area, dist).Failure? ==>
      var k := Run(cs, area, dist).error;
      && 1 <= k <= |cs| && Raises(cs[k - 1])
      && forall j :: 0 <= j < k - 1 ==> !Raises(cs[j])
    ensures Run(cs, area, dist).Success? ==> |Run(cs, area, dist).value.moves| == CountMotions(cs)
    decreases |cs|
  {
    if |cs| > 0 {
      var n := |cs| - 1;
      var pre := cs[..n];
      RunOutcome(pre, area, dist);
      assert forall j :: 0 <= j < n ==> pre[j] == cs[j];
      match Run(pre, area, dist)
      case Failure(k) =>
      case Success(st) =>
        StepOutcome(st, cs[n], area, dist);
    }
  }

  // ---------------------------------------------------------------------------
  // The moves join up
  // ---------------------------------------------------------------------------

  /**
    The moves form one path from the origin: each starts where the previous one ended, and
    the current position (x, y, z) is where the last one ended.
  */
  predicate Chained(moves: seq<Move>, x: real, y: real, z: real) {
    && (|moves| == 0 ==> x == 0.0 && y == 0.0 && z == 0.0)
    && (|moves| > 0 ==>
          && moves[0].x0 == 0.0 && moves[0].y0 == 0.0 && moves[0].z0 == 0.0
          && moves[|moves| - 1].x1 == x && moves[|moves| - 1].y1 == y && moves[|moves| - 1].z1 == z)
    && forall k :: 0 < k < |moves| ==>
         moves[k].x0 == moves[k - 1].x1 && moves[k].y0 == moves[k - 1].y1 && moves[k].z0 == moves[k - 1].z1
  }

  // ---------------------------------------------------------------------------
  // The laws of one move record
  // ---------------------------------------------------------------------------

  /**
    A move record is physically consistent: its length is the Euclidean length of its
    displacement, its time is length over speed (zero when no positive feed rate is known
    or the move has no length), its flow is non-negative and positive exactly when it takes
    time and extrudes, and its layer height z is its end height.
  */
  ghost predicate Sound(m: Move, area: real, dist: (real, real, real) -> real) {
    && m.dist == dist(m.x1 - m.x0, m.y1 - m.y0, m.z1 - m.z0)
    && m.dist >= 0.0
    && (m.speed.Some? ==> m.speed.value > 0.0)
    && (m.time > 0.0 <==> m.speed.Some? && m.dist > 0.0)
    && (m.time > 0.0 ==> m.time * m.speed.value == m.dist)
    && (m.time <= 0.0 ==> m.time == 0.0)
    && m.flow >= 0.0
    && (m.flow > 0.0 <==> m.time > 0.0 && m.de > 0.0)
    && (m.flow > 0.0 ==> m.flow * m.time == m.de * area)
    && m.z == m.z1
  }

  lemma PositiveQuotient(p: real, q: real)
    requires p > 0.0 && q > 0.0
    ensures p / q > 0.0
  {
  }

  lemma QuotientTimes(p: real, q: real)
    requires q != 0.0
    ensures p / q * q == p
  {
  }

  lemma ScaledFlow(de: real, area: real, t: real)
    requires de > 0.0 && area > 0.0 && t > 0.0
    ensures de * area / t > 0.0
    ensures de * area / t * t == de * area
  {
    assert de * area > 0.0;
    PositiveQuotient(de * area, t);
    QuotientTimes(de * area, t);
  }

  /**
    The time and flow of a move with non-negative length d, positive filament area and a
    speed that is positive when known.
  */
  lemma TimeAndFlow(d: real, speed: Option<real>, de: real, area: real)
    requires d >= 0.0 && area > 0.0 && (speed.Some? ==> speed.value > 0.0)
    ensures var t := MoveTime(d, speed);
      && (t > 0.0 <==> speed.Some? && d > 0.0)
      && (t > 0.0 ==> t * speed.value == d)
      && (t <= 0.0 ==> t == 0.0)
    ensures var t := MoveTime(d, speed);
      var f := Flow(de, area, t);
      && f >= 0.0
      && (f > 0.0 <==> t > 0.0 && de > 0.0)
      && (f > 0.0 ==> f * t == de * area)
  {
    var t := MoveTime(d, speed);
    if speed.Some? && d > 0.0 {
      PositiveQuotient(d, speed.value);
      QuotientTimes(d, speed.value);
    }
    if t > 0.0 && de > 0.0 {
      ScaledFlow(de, area, t);
    }
  }

  /** A record whose speed, time and flow are computed as parse_gcode computes them is Sound. */
  lemma RecordSound(m: Move, feed: Option<real>, area: real, dist: (real, real, real) -> real)
    requires area > 0.0 && m.z == m.z1
    requires m.dist == dist(m.x1 - m.x0, m.y1 - m.y0, m.z1 - m.z0) && m.dist >= 0.0
    requires m.speed == FeedPerSecond(feed)
    requires m.time == MoveTime(m.dist, m.speed) && m.flow == Flow(m.de, area, m.time)
    ensures Sound(m, area, dist)
  {
    if feed.Some? && feed.value > 0.0 {
      PositiveQuotient(feed.value, 60.0);
    }
    TimeAndFlow(m.dist, m.speed, m.de, area);
  }

  /** Every move parse_gcode appends is Sound, given a Euclidean dist and a positive area. */
  lemma NextMoveSound(st: State, cmd: Cmd, a: Axes, area: real, dist: (real, real, real) -> real)
    requires IsEuclidean(dist) && area > 0.0
    ensures Sound(NextMove(st, cmd, a, area, dist), area, dist)
  {
    var m := NextMove(st, cmd, a, area, dist);
    assert dist(m.x1 - m.x0, m.y1 - m.y0, m.z1 - m.z0) >= 0.0;
    RecordSound(m, if a.f.Some? then a.f else st.feed, area, dist);
  }

  // ---------------------------------------------------------------------------
  // Layers from Z comments
  // ---------------------------------------------------------------------------

  /**
    Without `;LAYER:` tags the layer index only moves forward: the moves' layers never
    decrease, none exceeds the current layer, neither does any key of the layer map, and
    before the first Z comment the layer is 0.
  */
  predicate LayersForward(st: State) {
    !st.sawLayerTag ==>
      && (forall i, j :: 0 <= i < j < |st.moves| ==> st.moves[i].layer <= st.moves[j].layer)
      && (forall k :: 0 <= k < |st.moves| ==> st.moves[k].layer <= st.layer)
      && (forall n :: n in st.layerZ ==> n <= st.layer)
      && (st.lastZ.None? ==> st.layer == 0)
  }

  /** Everything a run keeps true from one line to the next. */
  ghost predicate Invariant(st: State, area: real, dist: (real, real, real) -> real) {
    && Chained(st.moves, st.x, st.y, st.z)
    && (forall k :: 0 <= k < |st.moves| ==> Sound(st.moves[k], area, dist))
    && LayersForward(st)
  }

  lemma ChainedAppend(moves: seq<Move>, x: real, y: real, z: real, m: Move)
    requires Chained(moves, x, y, z) && m.x0 == x && m.y0 == y && m.z0 == z
    ensures Chained(moves + [m], m.x1, m.y1, m.z1)
  {
    var ms := moves + [m];
    assert forall k :: 0 <= k < |moves| ==> ms[k] == moves[k];
  }

  lemma SoundAppend(moves: seq<Move>, m: Move, area: real, dist: (real, real, real) -> real)
    requires forall k :: 0 <= k < |moves| ==> Sound(moves[k], area, dist)
    requires Sound(m, area, dist)
    ensures forall k :: 0 <= k < |moves + [m]| ==> Sound((moves + [m])[k], area, dist)
  {
    var ms := moves + [m];
    forall k | 0 <= k < |ms|
      ensures Sound(ms[k], area, dist)
    {
      if k < |moves| {
        assert ms[k] == moves[k];
      }
    }
  }

  /** A G0/G1 line appends a move that starts at the current position, in the current layer, and ends at the new one. */
  lemma MotionShape(st: State, cmd: Cmd, a: Axes, area: real, dist: (real, real, real) -> real)
    ensures var st' := Step(st, Motion(cmd, Some(a)), area, dist).value;
      var m := NextMove(st, cmd, a, area, dist);
      && st'.moves == st.moves + [m]
      && (m.x0, m.y0, m.z0, m.layer) == (st.x, st.y, st.z, st.layer)
      && (st'.x, st'.y, st'.z) == (m.x1, m.y1, m.z1)
      && (st'.sawLayerTag, st'.layer, st'.layerZ, st'.lastZ) == (st.sawLayerTag, st.layer, st.layerZ, st.lastZ)
  {
  }

  /** Appending a Sound move that continues the path in the current layer keeps the Invariant. */
  lemma AppendPreserves(st: State, st': State, m: Move, area: real, dist: (real, real, real) -> real)
    requires Invariant(st, area, dist) && Sound(m, area, dist)
    requires st'.moves == st.moves + [m]
    requires (m.x0, m.y0, m.z0, m.layer) == (st.x, st.y, st.z, st.layer)
    requires (st'.x, st'.y, st'.z) == (m.x1, m.y1, m.z1)
    requires (st'.sawLayerTag, st'.layer, st'.layerZ, st'.lastZ) == (st.sawLayerTag, st.layer, st.layerZ, st.lastZ)
    ensures Invariant(st', area, dist)
  {
    ChainedAppend(st.moves, st.x, st.y, st.z, m);
    SoundAppend(st.moves, m, area, dist);
    assert LayersForward(st') by {
      if !st'.sawLayerTag {
        var ms := st'.moves;
        assert forall k :: 0 <= k < |st.moves| ==> ms[k] == st.moves[k];
      }
    }
  }

  lemma MotionPreserves(st: State, cmd: Cmd, a: Axes, area: real, dist: (real, real, real) -> real)
    requires IsEuclidean(dist) && area > 0.0 && Invariant(st, area, dist)
    ensures Invariant(Step(st, Motion(cmd, Some(a)), area, dist).value, area, dist)
  {
    NextMoveSound(st, cmd, a, area, dist);
    MotionShape(st, cmd, a, area, dist);
    AppendPreserves(st, Step(st, Motion(cmd, Some(a)), area, dist).value, NextMove(st, cmd, a, area, dist), area, dist);
  }

  lemma ZCommentPreserves(st: State, z: real, area: real, dist: (real, real, real) -> real)
    requires Invariant(st, area, dist)
    ensures Invariant(Step(st, ZComment(Some(z)), area, dist).value, area, dist)
    ensures !st.sawLayerTag ==>
      var st' := Step(st, ZComment(Some(z)), area, dist).value;
      && st'.layer == InferLayer(st.lastZ, z, st.layer)
      && st'.lastZ == Some(z)
      && st'.layer >= st.layer
      && st'.layerZ == st.layerZ[st'.layer := z]
    ensures !st.sawLayerTag ==>
      var n := InferLayer(st.lastZ, z, st.layer);
      Step(st, ZComment(Some(z)), area, dist) == Some(st.(layer := n, lastZ := Some(z), layerZ := st.layerZ[n := z]))
    ensures st.sawLayerTag ==>
      Step(st, ZComment(Some(z)), area, dist) == Some(st.(layerZ := st.layerZ[st.layer := z]))
    ensures Step(st, ZComment(None), area, dist) == Some(st)
  {
  }

  /** A line that leaves the path alone and either sets a `;LAYER:` tag or keeps the layer keeps the Invariant. */
  lemma BookkeepingPreserves(st: State, st': State, area: real, dist: (real, real, real) -> real)
    requires Invariant(st, area, dist)
    requires (st'.moves, st'.x, st'.y, st'.z) == (st.moves, st.x, st.y, st.z)
    requires st'.sawLayerTag || (st'.sawLayerTag, st'.layer, st'.layerZ, st'.lastZ) == (st.sawLayerTag, st.layer, st.layerZ, st.lastZ)
    ensures Invariant(st', area, dist)
  {
  }

  /** Every line other than G0/G1 and `;Z:` leaves the path alone, and keeps the layer unless it is a `;LAYER:` tag. */
  lemma BookkeepingStep(st: State, c: Command, area: real, dist: (real, real, real) -> real)
    requires !c.Motion? && !c.ZComment?
    ensures var st' := Step(st, c, area, dist).value;
      && (st'.moves, st'.x, st'.y, st'.z) == (st.moves, st.x, st.y, st.z)
      && (st'.sawLayerTag || (st'.sawLayerTag, st'.layer, st'.layerZ, st'.lastZ) == (st.sawLayerTag, st.layer, st.layerZ, st.lastZ))
  {
  }

  lemma StepPreserves(st: State, c: Command, area: real, dist: (real, real, real) -> real)
    requires IsEuclidean(dist) && area > 0.0 && Invariant(st, area, dist)
    requires Step(st, c, area, dist).Some?
    ensures Invariant(Step(st, c, area, dist).value, area, dist)
  {
    match c
    case Motion(cmd, axes) => MotionPreserves(st, cmd, axes.value, area, dist);
    case ZComment(z) =>
      if z.Some? {
        ZCommentPreserves(st, z.value, area, dist);
      }
    case _ =>
      BookkeepingStep(st, c, area, dist);
      BookkeepingPreserves(st, Step(st, c, area, dist).value, area, dist);
  }

  /**
    After any prefix of a file that parses, the moves form a path from the origin to the
    current position, every move is Sound, and without `;LAYER:` tags layers only advance.
  */
  lemma {:induction false} RunInvariant(cs: seq<Command>, area: real, dist: (real, real, real) -> real)
    requires IsEuclidean(dist) && area > 0.0
    ensures Run(cs, area, dist).Success? ==> Invariant(Run(cs, area, dist).value, area, dist)
    decreases |cs|
  {
    if |cs| > 0 {
      var n := |cs| - 1;
      RunInvariant(cs[..n], area, dist);
      match Run(cs[..n], area, dist)
      case Failure(k) =>
      case Success(st) =>
        if Step(st, cs[n], area, dist).Some? {
          StepPreserves(st, cs[n], area, dist);
        }
    }
  }

  // ---------------------------------------------------------------------------
  // Settings: the last line that sets one wins
  // ---------------------------------------------------------------------------

  /** The value the last command that sets something (pick gives Some) sets it to. */
  function LastOf<T>(cs: seq<Command>, pick: Command -> Option<T>): Option<T> {
    if |cs| == 0 then None
    else if pick(cs[|cs| - 1]).Some? then pick(cs[|cs| - 1])
    else LastOf(cs[..|cs| - 1], pick)
  }

  function PickX(c: Command): Option<real> {
    if c.Motion? && c.axes.Some? then c.axes.value.x else None
  }

  function PickY(c: Command): Option<real> {
    if c.Motion? && c.axes.Some? then c.axes.value.y else None
  }

  function PickZ(c: Command): Option<real> {
    if c.Motion? && c.axes.Some? then c.axes.value.z else None
  }

  function PickFeed(c: Command): Option<real> {
    if c.Motion? && c.axes.Some? then c.axes.value.f else None
  }

  function PickMode(c: Command): Option<bool> {
    if c.AbsoluteExtrusion? then Some(false) else if c.RelativeExtrusion? then Some(true) else None
  }

  function PickType(c: Command): Option<string> {
    if c.SetType? then Some(c.name) else None
  }

  function PickFan(c: Command): Option<nat> {
    if c.FanSpeed? then c.s else if c.FanOff? then Some(0) else None
  }

  function PickHotend(c: Command): Option<real> {
    if c.SetHotend? then c.t else None
  }

  function PickBed(c: Command): Option<real> {
    if c.SetBed? then c.t else None
  }

  function PickChamber(c: Command): Option<real> {
    if c.SetChamber? then c.t else None
  }

  function PickTag(c: Command): Option<nat> {
    if c.LayerTag? then Some(c.n) else None
  }

  /** Each axis is the last value given for it (0.0 before any), the feed rate the last F word. */
  predicate SettledAxes(st: State, cs: seq<Command>) {
    && st.x == LastOf(cs, PickX).GetOr(0.0)
    && st.y == LastOf(cs, PickY).GetOr(0.0)
    && st.z == LastOf(cs, PickZ).GetOr(0.0)
    && st.feed == LastOf(cs, PickFeed)
  }

  /** The extrusion mode is the last M82/M83 (relative before any), the feature type the last `;TYPE:`. */
  predicate SettledModes(st: State, cs: seq<Command>) {
    && st.relative == LastOf(cs, PickMode).GetOr(true)
    && st.featureType == LastOf(cs, PickType).GetOr("UNKNOWN")
  }

  /** Fan and temperatures are the last value set. */
  predicate SettledSetpoints(st: State, cs: seq<Command>) {
    && st.fan == LastOf(cs, PickFan)
    && st.hotend == LastOf(cs, PickHotend)
    && st.bed == LastOf(cs, PickBed)
    && st.chamber == LastOf(cs, PickChamber)
  }

  /** Once a `;LAYER:` tag has been seen, the layer is the number of the last one. */
  predicate SettledTag(st: State, cs: seq<Command>) {
    && (st.sawLayerTag <==> LastOf(cs, PickTag).Some?)
    && (st.sawLayerTag ==> st.layer == LastOf(cs, PickTag).value)
  }

  /** The settings of a state reached by running cs: each is the last value set for it. */
  predicate Settled(st: State, cs: seq<Command>) {
    SettledAxes(st, cs) && SettledModes(st, cs) && SettledSetpoints(st, cs) && SettledTag(st, cs)
  }

  /** A line moves an axis only when it gives a value for it, and sets the feed rate only with an F word. */
  lemma PositionStep(st: State, c: Command, area: real, dist: (real, real, real) -> real)
    requires Step(st, c, area, dist).Some?
    ensures var st' := Step(st, c, area, dist).value;
      && st'.x == PickX(c).GetOr(st.x) && st'.y == PickY(c).GetOr(st.y) && st'.z == PickZ(c).GetOr(st.z)
      && st'.feed == if PickFeed(c).Some? then PickFeed(c) else st.feed
  {
    if c.Motion? {
      MotionShape(st, c.cmd, c.axes.value, area, dist);
    }
  }

  lemma AxesStep(st: State, cs: seq<Command>, c: Command, area: real, dist: (real, real, real) -> real)
    requires SettledAxes(st, cs) && Step(st, c, area, dist).Some?
    ensures SettledAxes(Step(st, c, area, dist).value, cs + [c])
  {
    PositionStep(st, c, area, dist);
    LastOfSnoc(cs, c, PickX);
    LastOfSnoc(cs, c, PickY);
    LastOfSnoc(cs, c, PickZ);
    LastOfSnoc(cs, c, PickFeed);
  }

  lemma ModesStep(st: State, cs: seq<Command>, c: Command, area: real, dist: (real, real, real) -> real)
    requires SettledModes(st, cs) && Step(st, c, area, dist).Some?
    ensures SettledModes(Step(st, c, area, dist).value, cs + [c])
  {
    LastOfSnoc(cs, c, PickMode);
    LastOfSnoc(cs, c, PickType);
  }

  lemma SetpointsStep(st: State, cs: seq<Command>, c: Command, area: real, dist: (real, real, real) -> real)
    requires SettledSetpoints(st, cs) && Step(st, c, area, dist).Some?
    ensures SettledSetpoints(Step(st, c, area, dist).value, cs + [c])
  {
    LastOfSnoc(cs, c, PickFan);
    LastOfSnoc(cs, c, PickHotend);
    LastOfSnoc(cs, c, PickBed);
    LastOfSnoc(cs, c, PickChamber);
  }

  lemma TagStep(st: State, cs: seq<Command>, c: Command, area: real, dist: (real, real, real) -> real)
    requires SettledTag(st, cs) && Step(st, c, area, dist).Some?
    ensures SettledTag(Step(st, c, area, dist).value, cs + [c])
  {
    LastOfSnoc(cs, c, PickTag);
  }

  lemma LastOfSnoc<T>(cs: seq<Command>, c: Command, pick: Command -> Option<T>)
    ensures LastOf(cs + [c], pick) == if pick(c).Some? then pick(c) else LastOf(cs, pick)
  {
    assert (cs + [c])[..|cs|] == cs;
  }

  /** One more command that does not raise keeps the settings those of the longer sequence. */
  lemma SettledStep(st: State, cs: seq<Command>, c: Command, area: real, dist: (real, real, real) -> real)
    requires Settled(st, cs) && Step(st, c, area, dist).Some?
    ensures Settled(Step(st, c, area, dist).value, cs + [c])
  {
    AxesStep(st, cs, c, area, dist);
    ModesStep(st, cs, c, area, dist);
    SetpointsStep(st, cs, c, area, dist);
    TagStep(st, cs, c, area, dist);
  }

  /** Every setting of a parsed file is the one its last setting line gave. */
  lemma {:induction false} RunSettled(cs: seq<Command>, area: real, dist: (real, real, real) -> real)
    ensures Run(cs, area, dist).Success? ==> Settled(Run(cs, area, dist).value, cs)
    decreases |cs|
  {
    if |cs| > 0 {
      var n := |cs| - 1;
      RunSettled(cs[..n], area, dist);
      match Run(cs[..n], area, dist)
      case Failure(k) =>
      case Success(st) =>
        if Step(st, cs[n], area, dist).Some? {
          SettledStep(st, cs[..n], cs[n], area, dist);
          assert cs[..n] + [cs[n]] == cs;
        }
    }
  }
}

module GcodeLines {
  import opened Wrappers
  import opened Text
  import opened GcodeParser
  import opened GcodeLaws

  // ---------------------------------------------------------------------------
  // Axis words: the dict comprehension keeps the last value of each letter
  // ---------------------------------------------------------------------------

  /** The text of the last word with this letter, if any. */
  function LastWord(ps: seq<Param>, letter: char): Option<string> {
    if |ps| == 0 then None
    else
      match LastWord(ps[1..], letter)
      case Some(t) => Some(t)
      case None => if ps[0].letter == letter then Some(ps[0].text) else None
  }

  function AxisOf(a: Axes, letter: char): Option<real> {
    if letter == 'X' then a.x
    else if letter == 'Y' then a.y
    else if letter == 'Z' then a.z
    else if letter == 'E' then a.e
    else if letter == 'F' then a.f
    else None
  }

  /** Resolving the words of a G0/G1 line fails exactly when one of their values does not parse. */
  lemma {:induction false} ResolveAxesFails(ps: seq<Param>, acc: Axes)
    ensures ResolveAxes(ps, acc).None? <==> exists k :: 0 <= k < |ps| && ParseFloat(ps[k].text).None?
    decreases |ps|
  {
    if |ps| > 0 {
      assert forall k :: 0 < k < |ps| ==> ps[1..][k - 1] == ps[k];
      match ParseFloat(ps[0].text)
      case None =>
      case Some(v) =>
        ResolveAxesFails(ps[1..], SetAxis(acc, ps[0].letter, v));
    }
  }

  /**
    When they all parse, each axis holds the value of its last word, or keeps its previous
    value when the line has no word for it.
  */
  lemma AxisOfSetAxis(a: Axes, l: char, v: real, letter: char)
    requires letter != 'S'
    ensures AxisOf(SetAxis(a, l, v), letter) == if l == letter && IsAxisLetter(l) then Some(v) else AxisOf(a, letter)
  {
  }

  lemma {:induction false} ResolveAxesLastWins(ps: seq<Param>, acc: Axes, letter: char)
    requires letter == 'X' || letter == 'Y' || letter == 'Z' || letter == 'E' || letter == 'F'
    requires ResolveAxes(ps, acc).Some?
    ensures AxisOf(ResolveAxes(ps, acc).value, letter) ==
      (match LastWord(ps, letter)
       case Some(t) => ParseFloat(t)
       case None => AxisOf(acc, letter))
    decreases |ps|
  {
    if |ps| > 0 {
      var v := ParseFloat(ps[0].text).value;
      var acc' := SetAxis(acc, ps[0].letter, v);
      ResolveAxesLastWins(ps[1..], acc', letter);
      AxisOfSetAxis(acc, ps[0].letter, v, letter);
    }
  }

  // ---------------------------------------------------------------------------
  // Lines without comments
  // ---------------------------------------------------------------------------

  /** None of the comment tags can match in a line without ';'. */
  lemma NoTagWithoutSemicolon(line: string)
    requires forall k :: 0 <= k < |line| ==> line[k] != ';'
    ensures Search(line, 0, TypeAt).None?
    ensures Search(line, 0, LayerAt).None?
    ensures Search(line, 0, ZAt).None?
  {
    assert forall k :: 0 <= k <= |line| ==> TypeAt(line, k).None? && LayerAt(line, k).None? && ZAt(line, k).None?;
  }

  /**
    A line without a comment is classified by its command word: M82/M83 switch the
    extrusion mode, M107 turns the fan off, and `G0 ` / `G1 ` make a motion of that kind.
  */
  lemma ClassifyUncommented(line: string)
    requires forall k :: 0 <= k < |line| ==> line[k] != ';'
    ensures StartsWith(line, "M82") ==> Classify(line) == AbsoluteExtrusion
    ensures StartsWith(line, "M83") ==> Classify(line) == RelativeExtrusion
    ensures StartsWith(line, "M107") ==> Classify(line) == FanOff
    ensures |line| >= 3 && line[0] == 'G' && line[1] == '1' && IsSpace(line[2]) ==>
      Classify(line).Motion? && Classify(line).cmd == G1
    ensures |line| >= 3 && line[0] == 'G' && line[1] == '0' && IsSpace(line[2]) ==>
      Classify(line).Motion? && Classify(line).cmd == G0
    ensures |line| == 0 ==> Classify(line) == Other
  {
    NoTagWithoutSemicolon(line);
    if |line| >= 3 && line[0] == 'G' {
      NotMWord(line);
    }
  }

  /** A line that does not start with M starts with no M-command word. */
  lemma NotMWord(line: string)
    requires |line| > 0 && line[0] != 'M'
    ensures forall w :: |w| > 0 && w[0] == 'M' ==> !StartsWith(line, w)
  {
    forall w | |w| > 0 && w[0] == 'M' && |w| <= |line|
      ensures line[..|w|] != w
    {
      assert line[..|w|][0] == line[0];
    }
  }
}
