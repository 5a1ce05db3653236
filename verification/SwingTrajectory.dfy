/** The path of a foot through one swing (mech/swing_trajectory.cc) over the cubic Bezier of
    base/bezier.h: positions and velocities, one coordinate at a time. */
module SwingTrajectory {
  import opened Doubles

  // ---- the Bezier curve -------------------------------------------------------------------------

  function Blend(p: real): real { p * p * p + 3.0 * (p * p * (1.0 - p)) }

  function BezierPosition(start: real, end: real, p: real): real { start + Blend(p) * (end - start) }

  function Slope(p: real): real { 6.0 * p * (1.0 - p) }

  function BezierVelocity(start: real, end: real, p: real): real { Slope(p) * (end - start) }

  lemma SquareNonNegative(x: real)
    ensures x * x >= 0.0
  {}

  lemma ProductNonNegative(x: real, y: real)
    requires x >= 0.0 && y >= 0.0
    ensures x * y >= 0.0
  {}

  /** The blend runs from 0 to 1 and stays between. */
  lemma BlendBounds(p: real)
    requires 0.0 <= p <= 1.0
    ensures 0.0 <= Blend(p) <= 1.0
    ensures Blend(0.0) == 0.0 && Blend(1.0) == 1.0
  {
    var q := 1.0 - p;
    assert Blend(p) == (p * p) * (3.0 - 2.0 * p);
    assert 1.0 - Blend(p) == (q * q) * (1.0 + 2.0 * p);
    SquareNonNegative(p);
    SquareNonNegative(q);
    ProductNonNegative(p * p, 3.0 - 2.0 * p);
    ProductNonNegative(q * q, 1.0 + 2.0 * p);
  }

  /** How far the curve departs from its tangent over a step `e`, per square of the step. */
  function Bend(p: real, e: real): real { 3.0 - 6.0 * p - 2.0 * e }

  function Remainder(p: real, e: real, d: real): real { (e * e) * (Bend(p, e) * d) }

  /** BezierVelocity is the derivative of BezierPosition: over a step `e` the curve follows it up
      to a term in the square of the step. */
  lemma BezierDerivative(start: real, end: real, p: real, e: real)
    ensures BezierPosition(start, end, p + e) - BezierPosition(start, end, p)
            == e * BezierVelocity(start, end, p) + Remainder(p, e, end - start)
  {
    hide Blend, Slope, Bend;
    BlendStep(p, e);
    ScaleStep(Blend(p + e), Blend(p), e, Slope(p), Bend(p, e), end - start);
  }

  /** On the curve that term is at most three times the square of the step, times the distance. */
  lemma RemainderIsSmall(p: real, e: real, d: real)
    requires 0.0 <= p <= 1.0 && 0.0 <= p + e <= 1.0
    ensures -3.0 * ((e * e) * Size(d)) <= Remainder(p, e, d) <= 3.0 * ((e * e) * Size(d))
  {
    var b := Bend(p, e);
    SquareNonNegative(e);
    ProductNonNegative(3.0 - b, Size(d));
    ProductNonNegative(3.0 + b, Size(d));
    assert -3.0 * Size(d) <= b * d <= 3.0 * Size(d);
    ProductNonNegative(e * e, 3.0 * Size(d) - b * d);
    ProductNonNegative(e * e, 3.0 * Size(d) + b * d);
  }

  function Size(d: real): real { if d < 0.0 then -d else d }

  lemma BlendStep(p: real, e: real)
    ensures Blend(p + e) - Blend(p) == e * Slope(p) + (e * e) * Bend(p, e)
  {}

  lemma ScaleStep(b: real, a: real, e: real, slope: real, bend: real, d: real)
    requires b - a == e * slope + (e * e) * bend
    ensures b * d - a * d == e * (slope * d) + (e * e) * (bend * d)
  {
    assert (b - a) * d == (e * slope) * d + ((e * e) * bend) * d;
  }

  // ---- the swing --------------------------------------------------------------------------------

  datatype Vec = Vec(x: real, y: real, z: real)

  /** What the constructor fixes for one swing. */
  datatype Path = Path(start: Vec, startVelocity: Vec, end: Vec, height: real, blend: real, time: real) {
    predicate Valid() { 0.0 < blend < 0.5 && height >= 0.0 && time > 0.0 }
  }

  /** What Advance changes: the phase, and the spot on the ground the lowering foot follows. */
  datatype Progress = Progress(phase: real, x: real, y: real)

  datatype Motion = Motion(position: real, velocity: real)

  datatype Foothold = Foothold(phase: real, position: Vec, velocity: Vec)

  function NextPhase(time: real, phase: real, delta: real): real
    requires time > 0.0
  {
    RealMin(1.0, phase + delta / time)
  }

  /** Height (z points down): along the Bezier in the first half, back along it in the second. */
  function Rise(start: real, height: real, time: real, p: real): Motion
    requires time > 0.0
  {
    Motion(BezierPosition(start, start - height, 2.0 * p),
           BezierVelocity(start, start - height, 2.0 * p) / (0.5 * time))
  }

  function Fall(start: real, height: real, time: real, p: real): Motion
    requires time > 0.0
  {
    Motion(BezierPosition(start, start - height, 2.0 - 2.0 * p),
           -BezierVelocity(start, start - height, 2.0 - 2.0 * p) / (0.5 * time))
  }

  function Vertical(start: real, height: real, time: real, p: real): Motion
    requires time > 0.0
  {
    if p < 0.5 then Rise(start, height, time, p) else Fall(start, height, time, p)
  }

  /** One horizontal coordinate while lifting: brake from `v` to rest. */
  function Lift(start: real, v: real, blend: real, time: real, p: real): Motion
    requires blend > 0.0 && time > 0.0
  {
    var a := -v * (1.0 / (time * blend));
    var t := p * time;
    Motion(start + t * v + 0.5 * a * t * t, v * (1.0 - p / blend))
  }

  /** While moving: the Bezier from where the lift ends to the target. */
  function Move(start: real, v: real, end: real, blend: real, time: real, p: real): Motion
    requires 0.0 < blend < 0.5 && time > 0.0
  {
    var from := MoveFrom(start, v, blend, time);
    var q := MoveParameter(blend, p);
    Motion(BezierPosition(from, end, q), BezierVelocity(from, end, q) / (time * (1.0 - 2.0 * blend)))
  }

  function MoveFrom(start: real, v: real, blend: real, time: real): real { start + 0.5 * blend * time * v }

  function MoveParameter(blend: real, p: real): real
    requires blend < 0.5
  {
    (p - blend) / (1.0 - 2.0 * blend)
  }

  /** While lowering: speed up to the ground's velocity, starting the integration at the target. */
  function Ratio(blend: real, p: real): real
    requires blend > 0.0
  {
    (p - (1.0 - blend)) / blend
  }

  function GroundSpeed(blend: real, world: real, p: real): real
    requires blend > 0.0
  {
    Ratio(blend, p) * world
  }

  /** The time since the lowering was due. */
  function LowerTime(blend: real, time: real, p: real): real
    requires blend > 0.0
  {
    Ratio(blend, p) * (time * blend)
  }

  function Moved(from: real, velocity: real, t: real): real { from + velocity * t }

  function Lower(end: real, world: real, blend: real, time: real, was: real, p: real, delta: real, current: real)
    : Motion
    requires blend > 0.0
  {
    var velocity := GroundSpeed(blend, world, p);
    Motion(if Ratio(blend, was) <= 0.0 then Moved(end, velocity, LowerTime(blend, time, p))
           else Moved(current, velocity, delta),
           velocity)
  }

  function Horizontal(start: real, v: real, end: real, world: real, blend: real, time: real,
                      was: real, p: real, delta: real, current: real): Motion
    requires 0.0 < blend < 0.5 && time > 0.0
  {
    if p < blend then Lift(start, v, blend, time, p)
    else if p < 1.0 - blend then Move(start, v, end, blend, time, p)
    else Lower(end, world, blend, time, was, p, delta, current)
  }

  function AdvanceX(c: Path, s: Progress, delta: real, world: Vec): Motion
    requires c.Valid()
  {
    Horizontal(c.start.x, c.startVelocity.x, c.end.x, world.x, c.blend, c.time,
               s.phase, NextPhase(c.time, s.phase, delta), delta, s.x)
  }

  function AdvanceY(c: Path, s: Progress, delta: real, world: Vec): Motion
    requires c.Valid()
  {
    Horizontal(c.start.y, c.startVelocity.y, c.end.y, world.y, c.blend, c.time,
               s.phase, NextPhase(c.time, s.phase, delta), delta, s.y)
  }

  function Result(c: Path, s: Progress, delta: real, world: Vec): Foothold
    requires c.Valid()
  {
    var p := NextPhase(c.time, s.phase, delta);
    var x := AdvanceX(c, s, delta, world);
    var y := AdvanceY(c, s, delta, world);
    var z := Vertical(c.start.z, c.height, c.time, p);
    Foothold(p, Vec(x.position, y.position, z.position), Vec(x.velocity, y.velocity, z.velocity))
  }

  function Next(c: Path, s: Progress, delta: real, world: Vec): Progress
    requires c.Valid()
  {
    var p := NextPhase(c.time, s.phase, delta);
    if p < 1.0 - c.blend then s.(phase := p)
    else Progress(p, AdvanceX(c, s, delta, world).position, AdvanceY(c, s, delta, world).position)
  }

  // ---- the pieces meet --------------------------------------------------------------------------

  /** The vertical path turns at its lowest point with no jump, and both ends are at rest. */
  lemma HalvesMeet(start: real, height: real, time: real)
    requires time > 0.0
    ensures Rise(start, height, time, 0.5) == Fall(start, height, time, 0.5) == Motion(start - height, 0.0)
    ensures Rise(start, height, time, 0.0) == Fall(start, height, time, 1.0) == Motion(start, 0.0)
  {}

  lemma BrakeDistance(v: real, blend: real, time: real)
    requires blend > 0.0 && time > 0.0
    ensures 0.5 * (-v * (1.0 / (time * blend))) * (blend * time) * (blend * time) == -0.5 * ((blend * time) * v)
  {
    var n := time * blend;
    var i := 1.0 / n;
    assert i * n == 1.0;
    assert n == blend * time;
    assert 0.5 * (-v * i) * n * n == -0.5 * (v * (i * n) * n);
  }

  lemma SelfQuotient(x: real, y: real)
    requires x == y != 0.0
    ensures x / y == 1.0
  {}

  lemma ZeroQuotient(x: real, y: real)
    requires x == 0.0 != y
    ensures x / y == 0.0
  {}

  lemma LiftEnds(start: real, v: real, blend: real, time: real)
    requires blend > 0.0 && time > 0.0
    ensures Lift(start, v, blend, time, blend) == Motion(MoveFrom(start, v, blend, time), 0.0)
  {
    BrakeDistance(v, blend, time);
    SelfQuotient(blend, blend);
  }

  lemma MoveEnds(start: real, v: real, end: real, blend: real, time: real)
    requires 0.0 < blend < 0.5 && time > 0.0
    ensures Move(start, v, end, blend, time, blend) == Motion(MoveFrom(start, v, blend, time), 0.0)
    ensures Move(start, v, end, blend, time, 1.0 - blend) == Motion(end, 0.0)
  {
    hide BezierPosition, BezierVelocity, MoveFrom;
    var k := 1.0 - 2.0 * blend;
    var from := MoveFrom(start, v, blend, time);
    ZeroQuotient(blend - blend, k);
    SelfQuotient(1.0 - blend - blend, k);
    AtRest(from, end);
    ZeroQuotient(BezierVelocity(from, end, 0.0), time * k);
    ZeroQuotient(BezierVelocity(from, end, 1.0), time * k);
  }

  lemma AtRest(from: real, end: real)
    ensures BezierPosition(from, end, 0.0) == from
    ensures BezierPosition(from, end, 1.0) == end
    ensures BezierVelocity(from, end, 0.0) == 0.0 == BezierVelocity(from, end, 1.0)
  {}

  /** The lift comes to rest exactly where the move starts. */
  lemma LiftMeetsMove(start: real, v: real, end: real, blend: real, time: real)
    requires 0.0 < blend < 0.5 && time > 0.0
    ensures Lift(start, v, blend, time, blend) == Move(start, v, end, blend, time, blend)
            == Motion(MoveFrom(start, v, blend, time), 0.0)
  {
    hide Lift, Move, MoveFrom;
    LiftEnds(start, v, blend, time);
    MoveEnds(start, v, end, blend, time);
  }

  lemma RatioSign(blend: real, p: real)
    requires blend > 0.0
    ensures Ratio(blend, p) * blend == p - (1.0 - blend)
    ensures Ratio(blend, p) <= 0.0 <==> p <= 1.0 - blend
    ensures Ratio(blend, p) == 0.0 <==> p == 1.0 - blend
    ensures Ratio(blend, p) <= 1.0 <==> p <= 1.0
    ensures Ratio(blend, 1.0) == 1.0
  {
    var r := Ratio(blend, p);
    assert r * blend == p - (1.0 - blend);
    if r > 0.0 { ProductPositive(r, blend); }
    if r < 0.0 { ProductPositive(-r, blend); }
    if r > 1.0 { ProductPositive(r - 1.0, blend); }
    if r < 1.0 { ProductPositive(1.0 - r, blend); }
    SelfQuotient(1.0 - (1.0 - blend), blend);
  }

  lemma ProductPositive(x: real, y: real)
    requires x > 0.0 && y > 0.0
    ensures x * y > 0.0
  {}

  /** The move comes to rest on the target, which is where the lowering starts, at rest too. */
  lemma MoveMeetsLower(start: real, v: real, end: real, blend: real, time: real,
                       world: real, was: real, delta: real, current: real)
    requires 0.0 < blend < 0.5 && time > 0.0
    requires was <= 1.0 - blend
    ensures Move(start, v, end, blend, time, 1.0 - blend)
            == Lower(end, world, blend, time, was, 1.0 - blend, delta, current)
            == Motion(end, 0.0)
  {
    hide Move, Ratio;
    MoveEnds(start, v, end, blend, time);
    RatioSign(blend, 1.0 - blend);
    RatioSign(blend, was);
  }

  // ---- reported velocity is the slope of the path -----------------------------------------------

  /** Lifting is uniform braking: over a time step `h` the foot follows the reported velocity up to
      the constant deceleration's half square. */
  lemma LiftDerivative(start: real, v: real, blend: real, time: real, p: real, h: real)
    requires blend > 0.0 && time > 0.0
    ensures Lift(start, v, blend, time, p + h / time).position - Lift(start, v, blend, time, p).position
            == h * Lift(start, v, blend, time, p).velocity + (h * h) * (0.5 * (-v * (1.0 / (time * blend))))
  {
    var a := -v * (1.0 / (time * blend));
    var t := p * time;
    ScaledStep(p, h, time);
    LiftSpeed(v, blend, time, p);
    BrakeStep(t, h, v, a);
  }

  lemma ScaledStep(p: real, h: real, time: real)
    requires time > 0.0
    ensures (p + h / time) * time == p * time + h
  {}

  lemma LiftSpeed(v: real, blend: real, time: real, p: real)
    requires blend > 0.0 && time > 0.0
    ensures v * (1.0 - p / blend) == v + (-v * (1.0 / (time * blend))) * (p * time)
  {
    var i := 1.0 / (time * blend);
    assert i * (time * blend) == 1.0;
    var r := p / blend;
    assert p == r * blend;
    assert i * (p * time) == r * (i * (time * blend)) == r;
    assert (-v * i) * (p * time) == -v * (i * (p * time));
  }

  lemma BrakeStep(t: real, h: real, v: real, a: real)
    ensures ((t + h) * v + 0.5 * a * (t + h) * (t + h)) - (t * v + 0.5 * a * t * t)
            == h * (v + a * t) + (h * h) * (0.5 * a)
  {}

  /** A curve walked through at `d` seconds per unit of its parameter. */
  lemma CurveDerivative(from: real, end: real, q: real, h: real, d: real)
    requires d != 0.0
    ensures BezierPosition(from, end, q + h / d) - BezierPosition(from, end, q)
            == h * (BezierVelocity(from, end, q) / d) + Remainder(q, h / d, end - from)
  {
    hide BezierPosition, BezierVelocity, Remainder;
    BezierDerivative(from, end, q, h / d);
    ExchangeQuotient(h, d, BezierVelocity(from, end, q));
  }

  /** While moving, over a time step `h` the foot follows the reported velocity up to a term in the
      square of the step. */
  lemma MoveDerivative(start: real, v: real, end: real, blend: real, time: real, p: real, h: real)
    requires 0.0 < blend < 0.5 && time > 0.0
    ensures Move(start, v, end, blend, time, p + h / time).position - Move(start, v, end, blend, time, p).position
            == h * Move(start, v, end, blend, time, p).velocity
               + Remainder(MoveParameter(blend, p), h / (time * (1.0 - 2.0 * blend)),
                           end - MoveFrom(start, v, blend, time))
  {
    hide BezierPosition, BezierVelocity, Remainder, MoveFrom, MoveParameter;
    ParameterStep(p, blend, h, time);
    CurveDerivative(MoveFrom(start, v, blend, time), end, MoveParameter(blend, p), h, time * (1.0 - 2.0 * blend));
  }

  lemma ParameterStep(p: real, blend: real, h: real, time: real)
    requires time > 0.0 && 0.0 < blend < 0.5
    ensures MoveParameter(blend, p + h / time) == MoveParameter(blend, p) + h / (time * (1.0 - 2.0 * blend))
  {
    QuotientStep(p, blend, h, time, 1.0 - 2.0 * blend);
  }

  lemma QuotientStep(p: real, blend: real, h: real, time: real, k: real)
    requires time > 0.0 && k > 0.0
    ensures (p + h / time - blend) / k == (p - blend) / k + h / (time * k)
  {
    var a := h / time;
    var e := h / (time * k);
    assert e * (time * k) == h;
    assert a * time == h;
    assert (e * k - a) * time == 0.0;
    assert e * k == a;
    var q := (p - blend) / k;
    assert q * k == p - blend;
    assert (q + e) * k == p + a - blend;
  }

  lemma ExchangeQuotient(h: real, d: real, w: real)
    requires d != 0.0
    ensures (h / d) * w == h * (w / d)
  {
    var i := 1.0 / d;
    assert h / d == h * i;
    assert w / d == w * i;
  }

  /** Rising and falling, too: the reported vertical velocity is the slope of the vertical path. */
  lemma VerticalDerivative(start: real, height: real, time: real, p: real, h: real)
    requires time > 0.0
    ensures
      var e := h / (0.5 * time);
      && Rise(start, height, time, p + h / time).position - Rise(start, height, time, p).position
         == h * Rise(start, height, time, p).velocity + Remainder(2.0 * p, e, -height)
      && Fall(start, height, time, p + h / time).position - Fall(start, height, time, p).position
         == h * Fall(start, height, time, p).velocity + Remainder(2.0 - 2.0 * p, -e, -height)
  {
    hide BezierPosition, BezierVelocity, Remainder;
    DoubleStep(p, h, time);
    CurveDerivative(start, start - height, 2.0 * p, h, 0.5 * time);
    CurveDerivative(start, start - height, 2.0 - 2.0 * p, -h, 0.5 * time);
    NegateQuotient(h, 0.5 * time, BezierVelocity(start, start - height, 2.0 - 2.0 * p));
    assert start - height - start == -height;
  }

  lemma NegateQuotient(h: real, d: real, w: real)
    requires d != 0.0
    ensures (-h) / d == -(h / d)
    ensures (-h) * (w / d) == h * (-w / d)
  {
    var i := 1.0 / d;
    assert w / d == w * i && -w / d == -w * i;
  }

  lemma DoubleStep(p: real, h: real, time: real)
    requires time > 0.0
    ensures 2.0 * (p + h / time) == 2.0 * p + h / (0.5 * time)
  {}

  // ---- one call ---------------------------------------------------------------------------------

  lemma PhaseStep(time: real, phase: real, delta: real)
    requires time > 0.0 && delta >= 0.0 && phase <= 1.0
    ensures phase <= NextPhase(time, phase, delta) <= 1.0
  {}

  /** The vertical path stays within `height` above the start; at phase 1 the foot is back at the
      start's height with no vertical velocity. */
  lemma VerticalRange(start: real, height: real, time: real, p: real)
    requires time > 0.0 && height >= 0.0 && 0.0 <= p <= 1.0
    ensures start - height <= Vertical(start, height, time, p).position <= start
    ensures p == 1.0 ==> Vertical(start, height, time, p) == Motion(start, 0.0)
  {
    hide BezierPosition, BezierVelocity;
    CurveRange(start, height, if p < 0.5 then 2.0 * p else 2.0 - 2.0 * p);
    if p == 1.0 { HalvesMeet(start, height, time); }
  }

  lemma CurveRange(start: real, height: real, q: real)
    requires 0.0 <= q <= 1.0 && height >= 0.0
    ensures start - height <= BezierPosition(start, start - height, q) <= start
  {
    hide Blend;
    BlendBounds(q);
    ProductNonNegative(Blend(q), height);
    ProductNonNegative(1.0 - Blend(q), height);
    assert Blend(q) * (start - height - start) == -(Blend(q) * height);
  }

  /** What every call of Advance reports, whatever came before. */
  lemma AdvanceReports(c: Path, s: Progress, delta: real, world: Vec)
    requires c.Valid() && 0.0 <= s.phase <= 1.0 && delta >= 0.0
    ensures
      var r := Result(c, s, delta, world);
      && r.phase == Next(c, s, delta, world).phase
      && s.phase <= r.phase <= 1.0
      && c.start.z - c.height <= r.position.z <= c.start.z
      && (r.phase == 1.0 ==> r.position.z == c.start.z && r.velocity == Vec(world.x, world.y, 0.0))
  {
    hide Vertical, Lift, Move, Ratio;
    PhaseStep(c.time, s.phase, delta);
    VerticalRange(c.start.z, c.height, c.time, NextPhase(c.time, s.phase, delta));
    RatioSign(c.blend, 1.0);
  }

  // ---- whole swings -----------------------------------------------------------------------------

  datatype Call = Call(delta: real, world: Vec)

  function Elapsed(calls: seq<Call>): real {
    if calls == [] then 0.0 else Elapsed(calls[..|calls| - 1]) + calls[|calls| - 1].delta
  }

  function After(c: Path, s: Progress, calls: seq<Call>): Progress
    requires c.Valid()
    decreases |calls|
  {
    if calls == [] then s
    else Next(c, After(c, s, calls[..|calls| - 1]), calls[|calls| - 1].delta, calls[|calls| - 1].world)
  }

  ghost predicate Forward(calls: seq<Call>) {
    forall i :: 0 <= i < |calls| ==> calls[i].delta >= 0.0
  }

  /** Over any sequence of calls the phase is the elapsed share of the swing time, held at 1. */
  lemma {:induction false} PhaseIsElapsedShare(c: Path, s: Progress, calls: seq<Call>)
    requires c.Valid() && s.phase == 0.0 && Forward(calls)
    ensures 0.0 <= Elapsed(calls)
    ensures After(c, s, calls).phase == RealMin(1.0, Elapsed(calls) / c.time)
    ensures 0.0 <= After(c, s, calls).phase <= 1.0
    ensures After(c, s, calls).phase * c.time <= Elapsed(calls)
    decreases |calls|
  {
    if calls != [] {
      var n := |calls| - 1;
      PhaseIsElapsedShare(c, s, calls[..n]);
      hide AdvanceX, AdvanceY;
      ShareStep(Elapsed(calls[..n]), calls[n].delta, c.time);
    }
    ShareOf(Elapsed(calls), c.time);
  }

  lemma ShareStep(elapsed: real, delta: real, time: real)
    requires time > 0.0 && delta >= 0.0
    ensures NextPhase(time, RealMin(1.0, elapsed / time), delta) == RealMin(1.0, (elapsed + delta) / time)
  {
    var q := elapsed / time;
    var d := delta / time;
    assert d >= 0.0;
    assert (elapsed + delta) / time == q + d;
  }

  lemma ShareOf(elapsed: real, time: real)
    requires time > 0.0 && elapsed >= 0.0
    ensures 0.0 <= RealMin(1.0, elapsed / time) <= 1.0
    ensures RealMin(1.0, elapsed / time) * time <= elapsed
  {
    var q := elapsed / time;
    assert q * time == elapsed;
    if q > 1.0 { ProductPositive(q - 1.0, time); }
  }

  /** Over any sequence of calls and one more: the phase does not go back, the height stays in
      range, and the swing finishes exactly when its time is up, at the start's height, moving with
      the ground. */
  lemma SwingPath(c: Path, s: Progress, calls: seq<Call>, delta: real, world: Vec)
    requires c.Valid() && s.phase == 0.0 && Forward(calls) && delta >= 0.0
    ensures
      var before := After(c, s, calls);
      var r := Result(c, before, delta, world);
      && before.phase <= r.phase <= 1.0
      && (r.phase == 1.0 <==> Elapsed(calls) + delta >= c.time)
      && c.start.z - c.height <= r.position.z <= c.start.z
      && (r.phase == 1.0 ==> r.position.z == c.start.z && r.velocity == Vec(world.x, world.y, 0.0))
  {
    hide AdvanceX, AdvanceY, Vertical;
    PhaseIsElapsedShare(c, s, calls);
    AdvanceReports(c, After(c, s, calls), delta, world);
    ShareStep(Elapsed(calls), delta, c.time);
    WholeShare(Elapsed(calls) + delta, c.time);
  }

  lemma WholeShare(elapsed: real, time: real)
    requires time > 0.0
    ensures elapsed / time >= 1.0 <==> elapsed >= time
  {
    var q := elapsed / time;
    assert q * time == elapsed;
    if q > 1.0 { ProductPositive(q - 1.0, time); }
    if q < 1.0 { ProductPositive(1.0 - q, time); }
  }

  // ---- where the lowering foot is ---------------------------------------------------------------

  lemma LowerTimeIs(blend: real, time: real, p: real)
    requires blend > 0.0
    ensures LowerTime(blend, time, p) == (p - (1.0 - blend)) * time
  {
    hide Ratio;
    RatioSign(blend, p);
    Reorder(Ratio(blend, p), time, blend);
  }

  lemma Reorder(x: real, y: real, z: real)
    ensures x * (y * z) == (x * z) * y
  {}

  /** How far ground no faster than `fastest` can have carried a foot since the lowering was due. */
  function Reach(blend: real, time: real, elapsed: real, fastest: real): real {
    fastest * (elapsed - (1.0 - blend) * time)
  }

  /** `x` is at most `bound` away from `target`. */
  predicate Within(x: real, target: real, bound: real) { target - bound <= x <= target + bound }

  ghost predicate Near(c: Path, s: Progress, elapsed: real, fastest: real) {
    var bound := Reach(c.blend, c.time, elapsed, fastest);
    s.phase > 1.0 - c.blend ==> Within(s.x, c.end.x, bound) && Within(s.y, c.end.y, bound)
  }

  ghost predicate Slow(world: Vec, fastest: real) {
    -fastest <= world.x <= fastest && -fastest <= world.y <= fastest
  }

  /** However the ground moves, the lowering foot is never further from its target than the ground
      could have carried it since the lowering was due. */
  lemma {:induction false} LandsNearTarget(c: Path, s: Progress, calls: seq<Call>, fastest: real)
    requires c.Valid() && s.phase == 0.0 && Forward(calls)
    requires forall i :: 0 <= i < |calls| ==> Slow(calls[i].world, fastest)
    ensures Near(c, After(c, s, calls), Elapsed(calls), fastest)
    decreases |calls|
  {
    hide Near, Next, Reach;
    if calls == [] {
      NearAtStart(c, s, fastest);
    } else {
      var n := |calls| - 1;
      LandsNearTarget(c, s, calls[..n], fastest);
      PhaseIsElapsedShare(c, s, calls[..n]);
      PhaseIsElapsedShare(c, s, calls);
      NearStep(c, After(c, s, calls[..n]), Elapsed(calls[..n]), calls[n], fastest);
    }
  }

  lemma NearAtStart(c: Path, s: Progress, fastest: real)
    requires c.Valid() && s.phase == 0.0
    ensures Near(c, s, 0.0, fastest)
  {}

  lemma NearStep(c: Path, s: Progress, elapsed: real, call: Call, fastest: real)
    requires c.Valid() && 0.0 <= s.phase <= 1.0 && call.delta >= 0.0 && Slow(call.world, fastest)
    requires Near(c, s, elapsed, fastest)
    requires Next(c, s, call.delta, call.world).phase * c.time <= elapsed + call.delta
    ensures Near(c, Next(c, s, call.delta, call.world), elapsed + call.delta, fastest)
  {
    hide NextPhase, Lower, Lift, Move, Reach;
    var p := NextPhase(c.time, s.phase, call.delta);
    PhaseStep(c.time, s.phase, call.delta);
    if p > 1.0 - c.blend {
      LowerStays(c, c.end.x, call.world.x, s.phase, p, call.delta, s.x, elapsed, fastest);
      LowerStays(c, c.end.y, call.world.y, s.phase, p, call.delta, s.y, elapsed, fastest);
    }
  }

  lemma LowerStays(c: Path, end: real, world: real, was: real, p: real, delta: real, current: real,
                   elapsed: real, fastest: real)
    requires c.Valid() && delta >= 0.0 && -fastest <= world <= fastest
    requires 1.0 - c.blend < p <= 1.0 && p * c.time <= elapsed + delta
    requires was > 1.0 - c.blend ==> Within(current, end, Reach(c.blend, c.time, elapsed, fastest))
    ensures Within(Lower(end, world, c.blend, c.time, was, p, delta, current).position, end,
                   Reach(c.blend, c.time, elapsed + delta, fastest))
  {
    hide Ratio, GroundSpeed, LowerTime, Moved, Reach;
    RatioSign(c.blend, was);
    var v := GroundSpeed(c.blend, world, p);
    SpeedBound(c.blend, world, p, fastest);
    if was <= 1.0 - c.blend {
      LockStays(c.blend, c.time, end, v, p, elapsed + delta, fastest);
    } else {
      FollowStays(c.blend, c.time, current, end, v, delta, elapsed, fastest);
    }
  }

  lemma SpeedBound(blend: real, world: real, p: real, fastest: real)
    requires blend > 0.0 && 1.0 - blend < p <= 1.0 && -fastest <= world <= fastest
    ensures -fastest <= GroundSpeed(blend, world, p) <= fastest
  {
    hide Ratio;
    RatioSign(blend, p);
    ShareBound(Ratio(blend, p), world, fastest);
  }

  lemma ShareBound(r: real, world: real, fastest: real)
    requires 0.0 <= r <= 1.0 && -fastest <= world <= fastest
    ensures -fastest <= r * world <= fastest
  {
    ProductNonNegative(r, fastest - world);
    ProductNonNegative(r, fastest + world);
    ProductNonNegative(1.0 - r, fastest);
  }

  lemma LockStays(blend: real, time: real, end: real, v: real, p: real, elapsed: real, fastest: real)
    requires blend > 0.0 && time > 0.0 && p > 1.0 - blend
    requires -fastest <= v <= fastest && p * time <= elapsed
    ensures Within(Moved(end, v, LowerTime(blend, time, p)), end, Reach(blend, time, elapsed, fastest))
  {
    hide LowerTime;
    LowerTimeIs(blend, time, p);
    var t := LowerTime(blend, time, p);
    ProductNonNegative(p - (1.0 - blend), time);
    Longer(v, fastest, t, elapsed - (1.0 - blend) * time);
  }

  lemma Longer(v: real, fastest: real, t: real, limit: real)
    requires -fastest <= v <= fastest && 0.0 <= t <= limit
    ensures -(fastest * limit) <= v * t <= fastest * limit
  {
    ProductNonNegative(fastest - v, t);
    ProductNonNegative(fastest + v, t);
    ProductNonNegative(fastest, limit - t);
  }

  lemma FollowStays(blend: real, time: real, current: real, end: real, v: real, delta: real, elapsed: real,
                    fastest: real)
    requires -fastest <= v <= fastest && delta >= 0.0
    requires Within(current, end, Reach(blend, time, elapsed, fastest))
    ensures Within(Moved(current, v, delta), end, Reach(blend, time, elapsed + delta, fastest))
  {
    Longer(v, fastest, delta, delta);
    ReachGrows(blend, time, elapsed, delta, fastest);
  }

  lemma ReachGrows(blend: real, time: real, elapsed: real, delta: real, fastest: real)
    ensures Reach(blend, time, elapsed + delta, fastest) == Reach(blend, time, elapsed, fastest) + fastest * delta
  {}

  function Product(x: real, y: real): real { x * y }

  /** Seconds of ground motion followed, one call after `m` seconds. */
  function FollowMore(c: Path, was: real, p: real, delta: real, m: real): real
    requires c.Valid()
  {
    if p < 1.0 - c.blend then 0.0
    else if Ratio(c.blend, was) <= 0.0 then Product(Ratio(c.blend, p), LowerTime(c.blend, c.time, p))
    else m + Product(delta, Ratio(c.blend, p))
  }

  /** Seconds of ground motion the lowering foot has followed. */
  function Followed(c: Path, s: Progress, calls: seq<Call>): real
    requires c.Valid()
    decreases |calls|
  {
    if calls == [] then 0.0
    else
      var n := |calls| - 1;
      FollowMore(c, After(c, s, calls[..n]).phase, After(c, s, calls).phase, calls[n].delta,
                 Followed(c, s, calls[..n]))
  }

  ghost predicate Follows(c: Path, s: Progress, m: real, world: Vec) {
    s.phase > 1.0 - c.blend ==> s.x == Moved(c.end.x, world.x, m) && s.y == Moved(c.end.y, world.y, m)
  }

  /** Over steady ground the lowering foot is exactly that far along the ground's motion. */
  lemma {:induction false} FollowsGround(c: Path, s: Progress, calls: seq<Call>, world: Vec)
    requires c.Valid() && s.phase == 0.0
    requires forall i :: 0 <= i < |calls| ==> calls[i].world == world
    ensures Follows(c, After(c, s, calls), Followed(c, s, calls), world)
    decreases |calls|
  {
    hide Next, FollowMore;
    if calls != [] {
      hide Follows;
      var n := |calls| - 1;
      FollowsGround(c, s, calls[..n], world);
      FollowStep(c, After(c, s, calls[..n]), calls[n], Followed(c, s, calls[..n]));
    }
  }

  lemma FollowStep(c: Path, s: Progress, call: Call, m: real)
    requires c.Valid() && Follows(c, s, m, call.world)
    ensures
      var next := Next(c, s, call.delta, call.world);
      Follows(c, next, FollowMore(c, s.phase, next.phase, call.delta, m), call.world)
  {
    hide NextPhase, Lower, Lift, Move, FollowMore, Moved;
    var p := NextPhase(c.time, s.phase, call.delta);
    if p > 1.0 - c.blend {
      LowerFollows(c, c.end.x, call.world.x, s.phase, p, call.delta, s.x, m);
      LowerFollows(c, c.end.y, call.world.y, s.phase, p, call.delta, s.y, m);
    }
  }

  lemma LowerFollows(c: Path, end: real, w: real, was: real, p: real, delta: real, current: real, m: real)
    requires c.Valid() && p > 1.0 - c.blend
    requires was > 1.0 - c.blend ==> current == Moved(end, w, m)
    ensures Lower(end, w, c.blend, c.time, was, p, delta, current).position
            == Moved(end, w, FollowMore(c, was, p, delta, m))
  {
    hide Ratio, LowerTime, Moved;
    RatioSign(c.blend, was);
    var v, more := GroundSpeed(c.blend, w, p), FollowMore(c, was, p, delta, m);
    if was <= 1.0 - c.blend {
      MovedAtShare(end, w, Ratio(c.blend, p), LowerTime(c.blend, c.time, p), v, more);
    } else {
      MovedTwice(end, w, m, Ratio(c.blend, p), delta, v, more);
    }
  }

  lemma MovedAtShare(end: real, w: real, r: real, t: real, v: real, more: real)
    requires v == r * w && more == r * t
    ensures Moved(end, v, t) == Moved(end, w, more)
  {}

  lemma MovedTwice(end: real, w: real, m: real, r: real, t: real, v: real, more: real)
    requires v == r * w && more == m + t * r
    ensures Moved(Moved(end, w, m), v, t) == Moved(end, w, more)
  {}

  /** The motion a foot follows while speeding up evenly from rest to the ground's velocity. */
  function Ramp(c: Path, p: real): real
    requires c.Valid()
  {
    0.5 * Product(Ratio(c.blend, p), LowerTime(c.blend, c.time, p))
  }

  function HalfStep(c: Path, p: real, longest: real): real
    requires c.Valid()
  {
    0.5 * Product(longest, Ratio(c.blend, p))
  }

  /** The blend time, over which the foot speeds up. */
  function Span(c: Path): real { c.time * c.blend }

  function Overtime(c: Path, elapsed: real): real { if elapsed > c.time then elapsed - c.time else 0.0 }

  /** How far a call can fall behind that starts before the lowering and ends long after it. */
  function Lag(c: Path, longest: real): real {
    if longest > 1.5 * Span(c) then longest - 1.5 * Span(c) else 0.0
  }

  /** The even ramp, and the ground's full velocity from the end of the swing on. */
  ghost predicate Tracks(c: Path, p: real, elapsed: real, m: real, longest: real)
    requires c.Valid()
  {
    p > 1.0 - c.blend ==>
      var ideal := Ramp(c, p) + Overtime(c, elapsed);
      ideal - Lag(c, longest) <= m <= ideal + HalfStep(c, p, longest)
  }

  ghost predicate StepsUpTo(calls: seq<Call>, longest: real) {
    forall i :: 0 <= i < |calls| ==> calls[i].delta <= longest
  }

  /** Over any calls, before and after the end of the swing, the stepwise lowering is ahead of the
      even ramp by at most half the longest step, and behind it by at most what that step exceeds
      one and a half times the blend time. */
  lemma {:induction false} RampIsTracked(c: Path, s: Progress, calls: seq<Call>, longest: real)
    requires c.Valid() && s.phase == 0.0 && Forward(calls) && StepsUpTo(calls, longest)
    ensures Tracks(c, After(c, s, calls).phase, Elapsed(calls), Followed(c, s, calls), longest)
    decreases |calls|
  {
    hide FollowMore, AdvanceX, AdvanceY, Ramp, HalfStep, Lag;
    if calls != [] {
      hide Tracks, NextPhase;
      var n := |calls| - 1;
      RampIsTracked(c, s, calls[..n], longest);
      PhaseIsElapsedShare(c, s, calls[..n]);
      TrackStep(c, Elapsed(calls[..n]), calls[n].delta, longest, Followed(c, s, calls[..n]));
    }
  }

  lemma TrackStep(c: Path, elapsed: real, delta: real, longest: real, m: real)
    requires c.Valid() && elapsed >= 0.0 && 0.0 <= delta <= longest
    requires Tracks(c, RealMin(1.0, elapsed / c.time), elapsed, m, longest)
    ensures var was := RealMin(1.0, elapsed / c.time);
            var p := NextPhase(c.time, was, delta);
            Tracks(c, p, elapsed + delta, FollowMore(c, was, p, delta, m), longest)
  {
    var was := RealMin(1.0, elapsed / c.time);
    if elapsed + delta <= c.time {
      Unclamped(elapsed, delta, c.time);
      hide NextPhase;
      RampStep(c, was, delta, longest, m, Lag(c, longest));
    } else {
      ShareStep(elapsed, delta, c.time);
      WholeShare(elapsed + delta, c.time);
      WholeShare(elapsed, c.time);
      hide NextPhase;
      FinishStep(c, was, elapsed, delta, longest, m);
    }
  }

  /** The call that passes the end of the swing, and every call after it. */
  lemma FinishStep(c: Path, was: real, elapsed: real, delta: real, longest: real, m: real)
    requires c.Valid() && 0.0 <= delta <= longest && elapsed + delta > c.time
    requires was == RealMin(1.0, elapsed / c.time) && (elapsed >= c.time <==> was == 1.0)
    requires Tracks(c, was, elapsed, m, longest)
    ensures Tracks(c, 1.0, elapsed + delta, FollowMore(c, was, 1.0, delta, m), longest)
  {
    hide Ratio, LowerTime, Lag;
    var b, r0, t0 := Span(c), Ratio(c.blend, was), LowerTime(c.blend, c.time, was);
    RatioSign(c.blend, was);
    RatioSign(c.blend, 1.0);
    FullSpan(c);
    if elapsed >= c.time {
      assert was == 1.0;
    } else {
      PartialTime(c, was, elapsed);
      LagIs(c, longest);
      if r0 <= 0.0 {
        LockArithmetic(b, elapsed + delta - c.time, delta, longest, Lag(c, longest), t0);
      } else {
        FinishArithmetic(r0, t0, b, elapsed + delta - c.time, delta, longest, m, Lag(c, longest));
      }
    }
  }

  lemma FullSpan(c: Path)
    requires c.Valid()
    ensures Span(c) > 0.0 && Ratio(c.blend, 1.0) == 1.0 && LowerTime(c.blend, c.time, 1.0) == Span(c)
  {
    ProductPositive(c.time, c.blend);
    RatioSign(c.blend, 1.0);
  }

  lemma LagIs(c: Path, longest: real)
    ensures Lag(c, longest) >= 0.0 && Lag(c, longest) >= longest - 1.5 * Span(c)
  {}

  /** Before the end of the swing, the time since the lowering was due is what is missing to the end. */
  lemma PartialTime(c: Path, was: real, elapsed: real)
    requires c.Valid() && elapsed < c.time && was == RealMin(1.0, elapsed / c.time)
    ensures var t0 := LowerTime(c.blend, c.time, was);
            t0 == elapsed - c.time + Span(c) && t0 == Ratio(c.blend, was) * Span(c)
    ensures Ratio(c.blend, was) <= 0.0 <==> LowerTime(c.blend, c.time, was) <= 0.0
    ensures Ratio(c.blend, was) <= 1.0
  {
    WholeShare(elapsed, c.time);
    LowerTimeIs(c.blend, c.time, was);
    RatioSign(c.blend, was);
    FullSpan(c);
    SpanOf(c, was);
    hide Ratio, LowerTime, Span;
    assert was == elapsed / c.time;
    SignOfProduct(Ratio(c.blend, was), Span(c));
  }

  lemma SpanOf(c: Path, was: real)
    requires c.Valid()
    ensures LowerTime(c.blend, c.time, was) == Ratio(c.blend, was) * Span(c)
    ensures (was - (1.0 - c.blend)) * c.time == was * c.time - c.time + Span(c)
  {
    hide Ratio;
  }

  lemma SignOfProduct(r: real, b: real)
    requires b > 0.0
    ensures r <= 0.0 <==> r * b <= 0.0
  {
    if r > 0.0 { ProductPositive(r, b); }
    if r < 0.0 { ProductPositive(-r, b); }
  }

  lemma LockArithmetic(b: real, over: real, delta: real, longest: real, lag: real, t0: real)
    requires b > 0.0 && over > 0.0 && delta <= longest && t0 <= 0.0
    requires t0 + delta == over + b
    requires lag >= 0.0 && lag >= longest - 1.5 * b
    ensures 0.5 * b + over - lag <= b <= 0.5 * b + over + 0.5 * longest
  {}

  lemma FinishArithmetic(r0: real, t0: real, b: real, over: real, delta: real, longest: real, m: real, lag: real)
    requires 0.0 < r0 <= 1.0 && t0 == r0 * b && b > 0.0 && over > 0.0 && delta <= longest
    requires t0 + delta == over + b
    requires 0.5 * (r0 * t0) - lag <= m <= 0.5 * (r0 * t0) + 0.5 * (longest * r0)
    ensures 0.5 * b + over - lag <= m + delta <= 0.5 * b + over + 0.5 * longest
  {
    var rest := 1.0 - r0;
    assert rest * (b - t0) == b - 2.0 * t0 + r0 * t0;
    ProductNonNegative(rest, b);
    assert rest * b == b - t0;
    ProductNonNegative(rest, b - t0);
    ProductNonNegative(rest, longest - (b - t0));
    assert rest * (longest - (b - t0)) == longest - longest * r0 - rest * (b - t0);
  }

  lemma Unclamped(elapsed: real, delta: real, time: real)
    requires time > 0.0 && delta >= 0.0 && elapsed + delta <= time
    ensures var was := RealMin(1.0, elapsed / time); NextPhase(time, was, delta) == was + delta / time
  {
    ShareStep(elapsed, delta, time);
    var q := elapsed / time;
    assert (elapsed + delta) / time == q + delta / time;
    WholeShare(elapsed, time);
    WholeShare(elapsed + delta, time);
    SelfQuotient(time, time);
  }

  lemma RampStep(c: Path, was: real, delta: real, longest: real, m: real, lag: real)
    requires c.Valid() && 0.0 <= delta <= longest && lag >= 0.0
    requires was > 1.0 - c.blend ==> Ramp(c, was) - lag <= m <= Ramp(c, was) + HalfStep(c, was, longest)
    ensures var p := was + delta / c.time;
            var now := FollowMore(c, was, p, delta, m);
            p > 1.0 - c.blend ==> Ramp(c, p) - lag <= now <= Ramp(c, p) + HalfStep(c, p, longest)
  {
    hide Ratio, LowerTime, Product;
    var p := was + delta / c.time;
    if p > 1.0 - c.blend {
      var r0, r := Ratio(c.blend, was), Ratio(c.blend, p);
      var t0, t := LowerTime(c.blend, c.time, was), LowerTime(c.blend, c.time, p);
      RatioSign(c.blend, was);
      RatioSign(c.blend, p);
      LowerStep(c.blend, c.time, was, delta);
      SpanOf(c, was);
      SpanOf(c, p);
      FullSpan(c);
      hide Span;
      RampArithmetic(r0, r, t0, t, Span(c), delta, longest, m, lag);
    }
  }

  lemma LowerStep(blend: real, time: real, was: real, delta: real)
    requires blend > 0.0 && time > 0.0
    ensures LowerTime(blend, time, was + delta / time) == LowerTime(blend, time, was) + delta
  {
    hide LowerTime;
    LowerTimeIs(blend, time, was);
    LowerTimeIs(blend, time, was + delta / time);
    ScaledStep(was - (1.0 - blend), delta, time);
    assert was + delta / time - (1.0 - blend) == was - (1.0 - blend) + delta / time;
  }

  lemma RampArithmetic(r0: real, r: real, t0: real, t: real, span: real, delta: real, longest: real, m: real, lag: real)
    requires span > 0.0 && 0.0 <= delta <= longest && t == t0 + delta && lag >= 0.0
    requires t0 == r0 * span && t == r * span && r > 0.0
    requires r0 > 0.0 ==>
               0.5 * Product(r0, t0) - lag <= m <= 0.5 * Product(r0, t0) + 0.5 * Product(longest, r0)
    ensures
      var now := if r0 <= 0.0 then Product(r, t) else m + Product(delta, r);
      0.5 * Product(r, t) - lag <= now <= 0.5 * Product(r, t) + 0.5 * Product(longest, r)
  {
    if r0 <= 0.0 {
      ProductNonNegative(-r0, span);
      ProductNonNegative(r, span);
      FirstLowering(r, t, longest);
    } else {
      var d := r - r0;
      assert d * span == delta;
      assert d >= 0.0 by { if d < 0.0 { ProductPositive(-d, span); } }
      assert d * t0 == delta * r0;
      LaterLowering(r0, d, t0, delta, longest, m, lag);
    }
  }

  lemma FirstLowering(r: real, t: real, longest: real)
    requires r > 0.0 && 0.0 <= t <= longest
    ensures 0.5 * (r * t) <= r * t <= 0.5 * (r * t) + 0.5 * (longest * r)
  {
    ProductNonNegative(r, t);
    ProductNonNegative(r, longest - t);
  }

  lemma LaterLowering(r0: real, d: real, t0: real, delta: real, longest: real, m: real, lag: real)
    requires d >= 0.0 && 0.0 <= delta <= longest && d * t0 == delta * r0
    requires 0.5 * (r0 * t0) - lag <= m <= 0.5 * (r0 * t0) + 0.5 * (longest * r0)
    ensures
      var r, t := r0 + d, t0 + delta;
      0.5 * (r * t) - lag <= m + delta * r <= 0.5 * (r * t) + 0.5 * (longest * r)
  {
    ProductNonNegative(delta, d);
    ProductNonNegative(longest - delta, d);
    assert (r0 + d) * (t0 + delta) == r0 * t0 + r0 * delta + d * t0 + d * delta;
  }

  // ---- when the lowering can fall behind ----------------------------------------------------------

  ghost predicate NeverBehind(c: Path, s: Progress, calls: seq<Call>)
    requires c.Valid()
  {
    var p := After(c, s, calls).phase;
    p > 1.0 - c.blend ==> Ramp(c, p) + Overtime(c, Elapsed(calls)) <= Followed(c, s, calls)
  }

  /** With steps up to `longest`, the lowering never falls behind the even ramp if and only if they
      are no longer than one and a half times the blend time. */
  lemma NeverBehindIff(c: Path, longest: real)
    requires c.Valid() && longest > 0.0
    ensures (forall s: Progress, calls: seq<Call> ::
               s.phase == 0.0 && Forward(calls) && StepsUpTo(calls, longest) ==> NeverBehind(c, s, calls))
            <==> longest <= 1.5 * Span(c)
  {
    hide After, Followed, Ramp, Elapsed, HalfStep;
    if longest <= 1.5 * Span(c) {
      forall s: Progress, calls: seq<Call> | s.phase == 0.0 && Forward(calls) && StepsUpTo(calls, longest)
        ensures NeverBehind(c, s, calls)
      {
        RampIsTracked(c, s, calls, longest);
      }
    } else {
      var calls := LongLastStep(c, longest);
      assert !NeverBehind(c, Progress(0.0, 0.0, 0.0), calls);
    }
  }

  function Even(n: nat, delta: real): seq<Call> {
    if n == 0 then [] else Even(n - 1, delta) + [Call(delta, Vec(0.0, 0.0, 0.0))]
  }

  function Multiple(n: nat, delta: real): real { n as real * delta }

  lemma MultipleStep(n: nat, delta: real)
    ensures Multiple(0, delta) == 0.0
    ensures Multiple(n + 1, delta) == Multiple(n, delta) + delta
  {}

  lemma ElapsedLast(first: seq<Call>, last: Call)
    ensures Elapsed([]) == 0.0
    ensures Elapsed(first + [last]) == Elapsed(first) + last.delta
  {
    assert (first + [last])[..|first|] == first;
  }

  lemma {:induction false} EvenElapsed(n: nat, delta: real)
    ensures Elapsed(Even(n, delta)) == Multiple(n, delta)
  {
    hide Multiple, Elapsed;
    var call := Call(delta, Vec(0.0, 0.0, 0.0));
    if n == 0 {
      MultipleStep(0, delta);
      ElapsedLast([], call);
    } else {
      EvenElapsed(n - 1, delta);
      MultipleStep(n - 1, delta);
      ElapsedLast(Even(n - 1, delta), call);
    }
  }

  lemma {:induction false} EvenSteps(n: nat, delta: real)
    ensures forall i :: 0 <= i < |Even(n, delta)| ==> Even(n, delta)[i].delta == delta
  {
    if n > 0 {
      EvenSteps(n - 1, delta);
    }
  }

  /** Equal steps no longer than `longest` that make up `total`. */
  lemma StepsTo(total: real, longest: real) returns (calls: seq<Call>)
    requires total > 0.0 && longest > 0.0
    ensures Elapsed(calls) == total && Forward(calls) && StepsUpTo(calls, longest)
  {
    var q := total / longest;
    assert q * longest == total;
    assert q > 0.0 by { if q <= 0.0 { ProductNonNegative(-q, longest); } }
    var n := q.Floor + 1;
    var delta := total / n as real;
    assert n as real * delta == total;
    assert delta > 0.0 by { if delta <= 0.0 { ProductNonNegative(n as real, -delta); } }
    ShorterShare(n as real, delta, q, longest);
    calls := Even(n, delta);
    EvenElapsed(n, delta);
    EvenSteps(n, delta);
  }

  lemma ShorterShare(n: real, delta: real, q: real, longest: real)
    requires n > q && longest > 0.0 && n > 0.0 && n * delta == q * longest
    ensures delta <= longest
  {
    if delta > longest {
      ProductPositive(n, delta - longest);
      ProductPositive(n - q, longest);
    }
  }

  /** The time at which the lowering is due. */
  function Due(c: Path): real { (1.0 - c.blend) * c.time }

  lemma LongLastStep(c: Path, longest: real) returns (calls: seq<Call>)
    requires c.Valid() && longest > 1.5 * Span(c)
    ensures Forward(calls) && StepsUpTo(calls, longest)
    ensures !NeverBehind(c, Progress(0.0, 0.0, 0.0), calls)
  {
    DueShare(c);
    var s := Progress(0.0, 0.0, 0.0);
    var first := StepsTo(Due(c), longest);
    var last := Call(longest, Vec(0.0, 0.0, 0.0));
    calls := first + [last];
    PhaseIsElapsedShare(c, s, first);
    PhaseIsElapsedShare(c, s, calls);
    FollowedLast(c, s, first, last);
    hide Ramp, After, Followed, FollowMore, Elapsed, Due, Span;
    WholeShare(Elapsed(calls), c.time);
    BehindBy(c, longest, Followed(c, s, first));
  }

  lemma FollowedLast(c: Path, s: Progress, first: seq<Call>, last: Call)
    requires c.Valid()
    ensures var calls := first + [last];
            && Elapsed(calls) == Elapsed(first) + last.delta
            && Followed(c, s, calls) == FollowMore(c, After(c, s, first).phase, After(c, s, calls).phase, last.delta,
                                                   Followed(c, s, first))
  {
    hide FollowMore, Next;
    assert (first + [last])[..|first|] == first;
  }

  lemma DueShare(c: Path)
    requires c.Valid()
    ensures Due(c) > 0.0 && Due(c) == c.time - Span(c) && Span(c) > 0.0
    ensures RealMin(1.0, Due(c) / c.time) == 1.0 - c.blend
  {
    FullSpan(c);
    ProductPositive(1.0 - c.blend, c.time);
    Cancel(Due(c) / c.time, 1.0 - c.blend, c.time);
  }

  lemma Cancel(x: real, y: real, b: real)
    requires b > 0.0 && x * b == y * b
    ensures x == y
  {
    if x > y { ProductPositive(x - y, b); }
    if x < y { ProductPositive(y - x, b); }
  }

  lemma BehindBy(c: Path, longest: real, m: real)
    requires c.Valid() && longest > 1.5 * Span(c)
    ensures FollowMore(c, 1.0 - c.blend, 1.0, longest, m)
            == Ramp(c, 1.0) + (longest - Span(c)) - (longest - 1.5 * Span(c))
  {
    hide Ratio, LowerTime;
    RatioSign(c.blend, 1.0 - c.blend);
    FullSpan(c);
  }

  // ---- the object -------------------------------------------------------------------------------

  class Trajectory {
    const path: Path
    var phase: real
    var currentX: real
    var currentY: real

    ghost function State(): Progress
      reads this
    {
      Progress(phase, currentX, currentY)
    }

    constructor (path: Path)
      ensures this.path == path && phase == 0.0
    {
      this.path := path;
      phase := 0.0;
    }

    method Advance(delta: real, world: Vec) returns (result: Foothold)
      requires path.Valid()
      modifies this
      ensures result == Result(path, old(State()), delta, world)
      ensures State() == Next(path, old(State()), delta, world)
    {
      hide Rise, Fall, Lift, Move, Ratio, GroundSpeed, LowerTime, Moved;
      var was := phase;
      phase := phase + delta / path.time;
      phase := RealMin(1.0, phase);

      var z;
      if phase < 0.5 {
        z := Rise(path.start.z, path.height, path.time, phase);
      } else {
        z := Fall(path.start.z, path.height, path.time, phase);
      }

      var x, y;
      if phase < path.blend {
        x := Lift(path.start.x, path.startVelocity.x, path.blend, path.time, phase);
        y := Lift(path.start.y, path.startVelocity.y, path.blend, path.time, phase);
      } else if phase < 1.0 - path.blend {
        x := Move(path.start.x, path.startVelocity.x, path.end.x, path.blend, path.time, phase);
        y := Move(path.start.y, path.startVelocity.y, path.end.y, path.blend, path.time, phase);
      } else {
        var vx, vy := GroundSpeed(path.blend, world.x, phase), GroundSpeed(path.blend, world.y, phase);
        if Ratio(path.blend, was) <= 0.0 {
          var t := LowerTime(path.blend, path.time, phase);
          currentX, currentY := Moved(path.end.x, vx, t), Moved(path.end.y, vy, t);
        } else {
          currentX, currentY := Moved(currentX, vx, delta), Moved(currentY, vy, delta);
        }
        x, y := Motion(currentX, vx), Motion(currentY, vy);
      }
      result := Foothold(phase, Vec(x.position, y.position, z.position), Vec(x.velocity, y.velocity, z.velocity));
    }
  }
}
