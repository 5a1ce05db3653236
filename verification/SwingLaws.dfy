/** What the calls of Advance report about the path of a foot, said of their results alone: where it
    starts, rests and turns, and that between any two calls it moves as its velocity says. */
module SwingLaws {
  import opened Doubles
  import opened SwingTrajectory

  // ---- bounds on the curvature --------------------------------------------------------------------

  /** Half of how hard the lift brakes. */
  function BrakeBend(v: real, blend: real, time: real): real
    requires blend > 0.0 && time > 0.0
  {
    0.5 * (Size(v) * (1.0 / (time * blend)))
  }

  /** How strongly a curve over the distance `d` bends that is walked through in `time`. */
  function CurveBend(d: real, time: real): real
    requires time > 0.0
  {
    3.0 * (Size(d) * ((1.0 / time) * (1.0 / time)))
  }

  function MoveTime(blend: real, time: real): real { time * (1.0 - 2.0 * blend) }

  /** The most that a horizontal coordinate departs from its velocity, per square of the time. */
  function PathBend(start: real, v: real, end: real, blend: real, time: real): real
    requires 0.0 < blend < 0.5 && MoveTime(blend, time) > 0.0 && time > 0.0
  {
    BrakeBend(v, blend, time) + CurveBend(end - MoveFrom(start, v, blend, time), MoveTime(blend, time))
  }

  lemma MoveTimePositive(blend: real, time: real)
    requires 0.0 < blend < 0.5 && time > 0.0
    ensures MoveTime(blend, time) > 0.0
  {
    ProductPositive(time, 1.0 - 2.0 * blend);
  }

  lemma SizeScales(x: real, k: real)
    requires k >= 0.0
    ensures Size(x * k) == Size(x) * k
  {
    if x < 0.0 { ProductNonNegative(-x, k); } else { ProductNonNegative(x, k); }
  }

  lemma BrakeIsBend(v: real, blend: real, time: real)
    requires blend > 0.0 && time > 0.0
    ensures Size(0.5 * (-v * (1.0 / (time * blend)))) == BrakeBend(v, blend, time)
    ensures BrakeBend(v, blend, time) >= 0.0
  {
    ProductPositive(time, blend);
    var i := 1.0 / (time * blend);
    assert i * (time * blend) == 1.0;
    assert i > 0.0 by { if i <= 0.0 { ProductNonNegative(-i, time * blend); } }
    SizeScales(-v, i);
    ProductNonNegative(Size(v), i);
  }

  /** The remainder over a step of `h` seconds. */
  lemma RemainderBound(q: real, h: real, d: real, time: real)
    requires time > 0.0 && 0.0 <= q <= 1.0 && 0.0 <= q + h / time <= 1.0
    ensures Within(Remainder(q, h / time, d), 0.0, (h * h) * CurveBend(d, time))
    ensures CurveBend(d, time) >= 0.0
  {
    var i, e := 1.0 / time, h / time;
    RemainderIsSmall(q, e, d);
    assert e == h * i;
    SquareOfProduct(h, i);
    hide Remainder;
    SquareNonNegative(i);
    ProductNonNegative(Size(d), i * i);
    Regroup(h * h, i * i, Size(d));
  }

  lemma SquareOfProduct(h: real, i: real)
    ensures (h * i) * (h * i) == (h * h) * (i * i)
  {}

  lemma Regroup(a: real, b: real, d: real)
    ensures 3.0 * ((a * b) * d) == a * (3.0 * (d * b))
  {}

  // ---- the horizontal course up to the lowering ---------------------------------------------------

  /** The coordinate as a function of the phase. */
  function Course(start: real, v: real, end: real, blend: real, time: real, p: real): Motion
    requires 0.0 < blend < 0.5 && time > 0.0
  {
    if p < blend then Lift(start, v, blend, time, p) else Move(start, v, end, blend, time, p)
  }

  lemma HorizontalIsCourse(start: real, v: real, end: real, world: real, blend: real, time: real,
                           was: real, p: real, delta: real, current: real)
    requires 0.0 < blend < 0.5 && time > 0.0 && was <= p <= 1.0 - blend
    ensures Horizontal(start, v, end, world, blend, time, was, p, delta, current)
            == Course(start, v, end, blend, time, p)
  {
    if p == 1.0 - blend {
      MoveMeetsLower(start, v, end, blend, time, world, was, delta, current);
    }
  }

  /** `h` seconds later the coordinate is where its velocity says, up to `bend` times the square. */
  predicate Follows(now: Motion, next: real, h: real, bend: real) {
    Within(next - now.position, h * now.velocity, (h * h) * bend)
  }

  lemma FollowsIf(now: Motion, next: real, h: real, rest: real, bend: real)
    requires next - now.position == h * now.velocity + rest && Within(rest, 0.0, (h * h) * bend)
    ensures Follows(now, next, h, bend)
  {}

  lemma FollowsWeaker(now: Motion, next: real, h: real, a: real, b: real)
    requires Follows(now, next, h, a) && b >= 0.0
    ensures Follows(now, next, h, a + b) && Follows(now, next, h, b + a)
  {
    SquareNonNegative(h);
    ProductNonNegative(h * h, b);
    assert (h * h) * (a + b) == (h * h) * a + (h * h) * b;
  }

  lemma LiftStep(start: real, v: real, blend: real, time: real, p: real, h: real)
    requires blend > 0.0 && time > 0.0
    ensures Follows(Lift(start, v, blend, time, p), Lift(start, v, blend, time, p + h / time).position, h,
                    BrakeBend(v, blend, time))
  {
    LiftDerivative(start, v, blend, time, p, h);
    BrakeIsBend(v, blend, time);
    var b := 0.5 * (-v * (1.0 / (time * blend)));
    hide Lift, BrakeBend, Follows;
    SquareNonNegative(h);
    ScaledSize(h * h, b);
    FollowsIf(Lift(start, v, blend, time, p), Lift(start, v, blend, time, p + h / time).position, h, (h * h) * b,
              BrakeBend(v, blend, time));
  }

  lemma ScaledSize(k: real, x: real)
    requires k >= 0.0
    ensures Within(k * x, 0.0, k * Size(x))
  {
    ProductNonNegative(k, Size(x) - x);
    ProductNonNegative(k, Size(x) + x);
  }

  lemma QuotientNonNegative(x: real, y: real)
    requires x >= 0.0 && y > 0.0
    ensures x / y >= 0.0
  {
    var q := x / y;
    assert q * y == x;
    if q < 0.0 { ProductPositive(-q, y); }
  }

  lemma ParameterRange(blend: real, p: real)
    requires 0.0 < blend < 0.5 && blend <= p <= 1.0 - blend
    ensures 0.0 <= MoveParameter(blend, p) <= 1.0
  {
    QuotientNonNegative(p - blend, 1.0 - 2.0 * blend);
    QuotientNonNegative(1.0 - blend - p, 1.0 - 2.0 * blend);
    assert MoveParameter(blend, p) + (1.0 - blend - p) / (1.0 - 2.0 * blend) == 1.0 by {
      SumOfQuotients(p - blend, 1.0 - blend - p, 1.0 - 2.0 * blend);
    }
  }

  lemma SumOfQuotients(x: real, y: real, k: real)
    requires k > 0.0 && x + y == k
    ensures x / k + y / k == 1.0
  {}

  lemma MoveStep(start: real, v: real, end: real, blend: real, time: real, p: real, h: real)
    requires 0.0 < blend < 0.5 && time > 0.0
    requires blend <= p <= 1.0 - blend && blend <= p + h / time <= 1.0 - blend
    ensures MoveTime(blend, time) > 0.0
    ensures Follows(Move(start, v, end, blend, time, p), Move(start, v, end, blend, time, p + h / time).position, h,
                    CurveBend(end - MoveFrom(start, v, blend, time), MoveTime(blend, time)))
  {
    MoveTimePositive(blend, time);
    MoveDerivative(start, v, end, blend, time, p, h);
    ParameterStep(p, blend, h, time);
    ParameterRange(blend, p);
    ParameterRange(blend, p + h / time);
    var q, d, t := MoveParameter(blend, p), end - MoveFrom(start, v, blend, time), MoveTime(blend, time);
    assert t == time * (1.0 - 2.0 * blend);
    hide MoveTime, Move, Remainder, CurveBend, MoveParameter, MoveFrom, Follows;
    RemainderBound(q, h, d, t);
    FollowsIf(Move(start, v, end, blend, time, p), Move(start, v, end, blend, time, p + h / time).position, h,
              Remainder(q, h / t, d), CurveBend(d, t));
  }

  /** Braking evenly by `a`, the coordinate comes to rest after `h` seconds. */
  ghost predicate BrakesTo(now: Motion, rest: Motion, h: real, a: real, brake: real) {
    && h >= 0.0 && brake >= 0.0 && Size(0.5 * a) == brake
    && now.velocity == -(a * h) && rest.velocity == 0.0
    && rest.position - now.position == h * now.velocity + (h * h) * (0.5 * a)
  }

  /** The step that passes from the lift to the move: braking to rest, then setting off. */
  lemma Crossing(now: Motion, rest: Motion, next: real, h1: real, h2: real, a: real, brake: real, bend: real)
    requires h2 >= 0.0 && bend >= 0.0
    requires BrakesTo(now, rest, h1, a, brake) && Follows(rest, next, h2, bend)
    ensures Follows(now, next, h1 + h2, brake + bend)
  {
    FirstPart(now, rest, h1, h2, a, brake);
    SecondPart(rest, next, h2, bend);
    assert h1 >= 0.0 && brake >= 0.0 && rest.velocity == 0.0;
    BoundParts(h1, h2, brake, bend);
    hide Product, Follows, BrakesTo;
    FollowsFrom(now, next, h1 + h2, brake + bend);
  }

  lemma FollowsFrom(now: Motion, next: real, h: real, bend: real)
    requires Within(next - now.position, Product(h, now.velocity), Product(Product(h, h), bend))
    ensures Follows(now, next, h, bend)
  {}

  lemma SecondPart(rest: Motion, next: real, h: real, bend: real)
    requires rest.velocity == 0.0 && Follows(rest, next, h, bend)
    ensures Within(next - rest.position, 0.0, Product(Product(h, h), bend))
  {}

  lemma FirstPart(now: Motion, rest: Motion, h1: real, h2: real, a: real, brake: real)
    requires h2 >= 0.0 && BrakesTo(now, rest, h1, a, brake)
    ensures Within(rest.position - now.position, Product(h1 + h2, now.velocity),
                   Product(Product(h1, h1) + 2.0 * Product(h1, h2), brake))
  {
    BrakingPart(h1, h2, now.velocity, a, rest.position - now.position, brake, h1 * h1 + 2.0 * (h1 * h2));
  }

  lemma BrakingPart(h1: real, h2: real, v1: real, a: real, d1: real, brake: real, k: real)
    requires h1 >= 0.0 && h2 >= 0.0 && k == h1 * h1 + 2.0 * (h1 * h2)
    requires v1 == -(a * h1) && Size(0.5 * a) == brake && d1 == h1 * v1 + (h1 * h1) * (0.5 * a)
    ensures Within(d1, (h1 + h2) * v1, Product(k, brake))
  {
    SquareNonNegative(h1);
    ProductNonNegative(h1, h2);
    ExpandCrossing(h1, h2, a, v1);
    ScaledSize(k, 0.5 * a);
  }

  lemma BoundParts(h1: real, h2: real, brake: real, bend: real)
    requires h1 >= 0.0 && h2 >= 0.0 && brake >= 0.0 && bend >= 0.0
    ensures Product(Product(h1 + h2, h1 + h2), brake + bend)
            >= Product(Product(h1, h1) + 2.0 * Product(h1, h2), brake) + Product(Product(h2, h2), bend)
  {
    var k, l := h1 * h1 + 2.0 * (h1 * h2), h2 * h2;
    SquareNonNegative(h1);
    SquareNonNegative(h2);
    ProductNonNegative(h1, h2);
    ProductNonNegative(l, brake);
    ProductNonNegative(k, bend);
    SquareOfSum(h1, h2);
    ExpandBound(k, l, brake, bend);
  }

  lemma SquareOfSum(x: real, y: real)
    ensures (x + y) * (x + y) == (x * x + 2.0 * (x * y)) + y * y
  {}

  lemma ExpandCrossing(h1: real, h2: real, a: real, v1: real)
    requires v1 == -(a * h1)
    ensures h1 * v1 + (h1 * h1) * (0.5 * a) - (h1 + h2) * v1 == (h1 * h1 + 2.0 * (h1 * h2)) * (0.5 * a)
  {}

  lemma ExpandBound(k: real, l: real, brake: real, bend: real)
    ensures (k + l) * (brake + bend) == k * brake + l * brake + k * bend + l * bend
  {}

  lemma QuotientIs(x: real, q: real, y: real)
    requires y > 0.0 && x == q * y
    ensures x / y == q
  {
    Cancel(x / y, q, y);
  }

  lemma SplitStep(p: real, h: real, time: real, at: real)
    requires time > 0.0 && p < at <= p + h / time
    ensures var h1 := (at - p) * time;
            h1 >= 0.0 && h - h1 >= 0.0 && p + h1 / time == at && at + (h - h1) / time == p + h / time
  {
    var h1, q := (at - p) * time, h / time;
    assert q * time == h;
    ProductNonNegative(at - p, time);
    ProductNonNegative(q - (at - p), time);
    assert h - h1 == (q - (at - p)) * time;
    QuotientIs(h1, at - p, time);
    QuotientIs(h - h1, q - (at - p), time);
  }

  /** Braking from `p` on, the speed is what the rest of the lift takes away. */
  lemma SpeedToRest(start: real, v: real, blend: real, time: real, p: real)
    requires blend > 0.0 && time > 0.0
    ensures Lift(start, v, blend, time, p).velocity == -((-v * (1.0 / (time * blend))) * ((blend - p) * time))
  {
    LiftSpeed(v, blend, time, p);
    LiftSpeed(v, blend, time, blend);
    SelfQuotient(blend, blend);
    var a := -v * (1.0 / (time * blend));
    assert a * ((blend - p) * time) == a * (blend * time) - a * (p * time);
  }

  lemma CrossingStep(start: real, v: real, end: real, blend: real, time: real, p: real, h: real)
    requires 0.0 < blend < 0.5 && time > 0.0 && p < blend <= p + h / time <= 1.0 - blend
    ensures MoveTime(blend, time) > 0.0
    ensures Follows(Lift(start, v, blend, time, p), Move(start, v, end, blend, time, p + h / time).position, h,
                    PathBend(start, v, end, blend, time))
  {
    MoveTimePositive(blend, time);
    var h1 := (blend - p) * time;
    SplitStep(p, h, time, blend);
    LiftDerivative(start, v, blend, time, p, h1);
    SpeedToRest(start, v, blend, time, p);
    LiftMeetsMove(start, v, end, blend, time);
    MoveStep(start, v, end, blend, time, blend, h - h1);
    BrakeIsBend(v, blend, time);
    var a, d := -v * (1.0 / (time * blend)), end - MoveFrom(start, v, blend, time);
    CurveBendPositive(d, MoveTime(blend, time));
    hide Lift, Move, BrakeBend, CurveBend, MoveFrom, MoveTime, Follows;
    Crossing(Lift(start, v, blend, time, p), Lift(start, v, blend, time, blend),
             Move(start, v, end, blend, time, p + h / time).position, h1, h - h1, a,
             BrakeBend(v, blend, time), CurveBend(d, MoveTime(blend, time)));
  }

  lemma CurveBendPositive(d: real, time: real)
    requires time > 0.0
    ensures CurveBend(d, time) >= 0.0
  {
    var i := 1.0 / time;
    SquareNonNegative(i);
    ProductNonNegative(Size(d), i * i);
  }

  lemma CourseStep(start: real, v: real, end: real, blend: real, time: real, p: real, h: real)
    requires 0.0 < blend < 0.5 && time > 0.0 && h >= 0.0 && p + h / time <= 1.0 - blend
    ensures MoveTime(blend, time) > 0.0
    ensures Follows(Course(start, v, end, blend, time, p), Course(start, v, end, blend, time, p + h / time).position, h,
                    PathBend(start, v, end, blend, time))
  {
    MoveTimePositive(blend, time);
    QuotientNonNegative(h, time);
    var d := end - MoveFrom(start, v, blend, time);
    var next := Course(start, v, end, blend, time, p + h / time).position;
    CurveBendPositive(d, MoveTime(blend, time));
    BrakeIsBend(v, blend, time);
    hide Lift, Move, BrakeBend, CurveBend, MoveFrom, MoveTime, Follows;
    if p + h / time < blend {
      LiftStep(start, v, blend, time, p, h);
      FollowsWeaker(Lift(start, v, blend, time, p), next, h, BrakeBend(v, blend, time),
                    CurveBend(d, MoveTime(blend, time)));
    } else if p >= blend {
      MoveStep(start, v, end, blend, time, p, h);
      FollowsWeaker(Move(start, v, end, blend, time, p), next, h, CurveBend(d, MoveTime(blend, time)),
                    BrakeBend(v, blend, time));
    } else {
      CrossingStep(start, v, end, blend, time, p, h);
    }
  }

  // ---- the height ---------------------------------------------------------------------------------

  /** Between two phases of the same half. */
  lemma RiseStep(start: real, height: real, time: real, p: real, h: real)
    requires time > 0.0 && 0.0 <= p && h >= 0.0 && p + h / time <= 0.5
    ensures Follows(Rise(start, height, time, p), Rise(start, height, time, p + h / time).position, h,
                    CurveBend(-height, 0.5 * time))
  {
    VerticalDerivative(start, height, time, p, h);
    DoubleStep(p, h, time);
    QuotientNonNegative(h, time);
    hide Rise, Fall, Remainder, CurveBend, Follows;
    RemainderBound(2.0 * p, h, -height, 0.5 * time);
    FollowsIf(Rise(start, height, time, p), Rise(start, height, time, p + h / time).position, h,
              Remainder(2.0 * p, h / (0.5 * time), -height), CurveBend(-height, 0.5 * time));
  }

  lemma FallStep(start: real, height: real, time: real, p: real, h: real)
    requires time > 0.0 && 0.5 <= p && h >= 0.0 && p + h / time <= 1.0
    ensures Follows(Fall(start, height, time, p), Fall(start, height, time, p + h / time).position, h,
                    CurveBend(-height, 0.5 * time))
  {
    VerticalDerivative(start, height, time, p, h);
    DoubleStep(p, h, time);
    QuotientNonNegative(h, time);
    var e := h / (0.5 * time);
    assert (-h) / (0.5 * time) == -e by { NegateQuotient(h, 0.5 * time, 0.0); }
    hide Rise, Fall, Remainder, CurveBend, Follows;
    RemainderBound(2.0 - 2.0 * p, -h, -height, 0.5 * time);
    assert (-h) * (-h) == h * h;
    FollowsIf(Fall(start, height, time, p), Fall(start, height, time, p + h / time).position, h,
              Remainder(2.0 - 2.0 * p, -e, -height), CurveBend(-height, 0.5 * time));
  }

  /** Towards the top the foot slows down at least evenly. */
  lemma SpeedToTop(start: real, height: real, time: real, p: real)
    requires time > 0.0 && height >= 0.0 && 0.0 <= p <= 0.5
    ensures var h1 := (0.5 - p) * time;
            Within(Rise(start, height, time, p).velocity, 0.0, 2.0 * (h1 * CurveBend(-height, 0.5 * time)))
  {
    var s, q := 0.5 * time, 2.0 * p;
    var i := 1.0 / s;
    assert i * s == 1.0;
    assert i > 0.0 by { if i <= 0.0 { ProductNonNegative(-i, s); } }
    assert BezierVelocity(start, start - height, q) / s == (Slope(q) * (-height)) * i;
    TopArithmetic(q, height, i, (0.5 - p) * time, s);
  }

  lemma TopArithmetic(q: real, height: real, i: real, h1: real, s: real)
    requires 0.0 <= q <= 1.0 && height >= 0.0 && i > 0.0 && i * s == 1.0 && h1 == (1.0 - q) * s
    ensures Within((Slope(q) * (-height)) * i, 0.0, 2.0 * (h1 * (3.0 * (Size(-height) * (i * i)))))
  {
    assert h1 * i == 1.0 - q;
    var k := height * i;
    ProductNonNegative(height, i);
    assert 2.0 * (h1 * (3.0 * (height * (i * i)))) == 6.0 * ((h1 * i) * k);
    assert (Slope(q) * (-height)) * i == -((6.0 * q * (1.0 - q)) * k);
    ProductNonNegative(1.0 - q, k);
    ProductNonNegative(q, (1.0 - q) * k);
    ProductNonNegative(1.0 - q, (1.0 - q) * k);
    assert (6.0 * q * (1.0 - q)) * k == 6.0 * (q * ((1.0 - q) * k));
    assert (1.0 - q) * ((1.0 - q) * k) == (1.0 - q) * k - q * ((1.0 - q) * k);
  }

  lemma TopCrossing(now: Motion, top: Motion, next: real, h1: real, h2: real, bend: real)
    requires h1 >= 0.0 && h2 >= 0.0 && bend >= 0.0 && top.velocity == 0.0
    requires Follows(now, top.position, h1, bend) && Follows(top, next, h2, bend)
    requires Within(now.velocity, 0.0, 2.0 * (h1 * bend))
    ensures Follows(now, next, h1 + h2, bend)
  {
    var v := now.velocity;
    ProductNonNegative(h2, 2.0 * (h1 * bend) - v);
    ProductNonNegative(h2, 2.0 * (h1 * bend) + v);
    ExpandTop(h1, h2, bend, v);
  }

  lemma ExpandTop(h1: real, h2: real, bend: real, v: real)
    ensures ((h1 + h2) * (h1 + h2)) * bend
            == (h1 * h1) * bend + (h2 * h2) * bend + h2 * (2.0 * (h1 * bend))
    ensures (h1 + h2) * v == h1 * v + h2 * v
    ensures h2 * (2.0 * (h1 * bend) - v) == h2 * (2.0 * (h1 * bend)) - h2 * v
    ensures h2 * (2.0 * (h1 * bend) + v) == h2 * (2.0 * (h1 * bend)) + h2 * v
  {}

  lemma VerticalStep(start: real, height: real, time: real, p: real, h: real)
    requires time > 0.0 && height >= 0.0 && 0.0 <= p && h >= 0.0 && p + h / time <= 1.0
    ensures Follows(Vertical(start, height, time, p), Vertical(start, height, time, p + h / time).position, h,
                    CurveBend(-height, 0.5 * time))
  {
    QuotientNonNegative(h, time);
    HalvesMeet(start, height, time);
    CurveBendPositive(-height, 0.5 * time);
    hide Rise, Fall, CurveBend, Follows;
    if p + h / time <= 0.5 && p < 0.5 {
      RiseStep(start, height, time, p, h);
    } else if p >= 0.5 {
      FallStep(start, height, time, p, h);
    } else {
      var h1 := (0.5 - p) * time;
      SplitStep(p, h, time, 0.5);
      RiseStep(start, height, time, p, h1);
      FallStep(start, height, time, 0.5, h - h1);
      SpeedToTop(start, height, time, p);
      TopCrossing(Rise(start, height, time, p), Fall(start, height, time, 0.5),
                  Fall(start, height, time, p + h / time).position, h1, h - h1, CurveBend(-height, 0.5 * time));
    }
  }

  // ---- two calls ----------------------------------------------------------------------------------

  /** What a call reports in the state that another call leaves. */
  function Second(c: Path, s: Progress, first: Call, second: Call): Foothold
    requires c.Valid()
  {
    Result(c, Next(c, s, first.delta, first.world), second.delta, second.world)
  }

  lemma Unheld(time: real, phase: real, delta: real)
    requires time > 0.0 && NextPhase(time, phase, delta) < 1.0
    ensures NextPhase(time, phase, delta) == phase + delta / time
  {}

  lemma NextIsReported(c: Path, s: Progress, call: Call)
    requires c.Valid()
    ensures Next(c, s, call.delta, call.world).phase == Result(c, s, call.delta, call.world).phase
            == NextPhase(c.time, s.phase, call.delta)
  {
    hide NextPhase, AdvanceX, AdvanceY, Vertical;
  }

  lemma ReportedCourse(c: Path, s: Progress, call: Call)
    requires c.Valid() && s.phase <= 1.0 && call.delta >= 0.0
    requires Result(c, s, call.delta, call.world).phase <= 1.0 - c.blend
    ensures
      var r := Result(c, s, call.delta, call.world);
      && Motion(r.position.x, r.velocity.x)
         == Course(c.start.x, c.startVelocity.x, c.end.x, c.blend, c.time, r.phase)
      && Motion(r.position.y, r.velocity.y)
         == Course(c.start.y, c.startVelocity.y, c.end.y, c.blend, c.time, r.phase)
  {
    PhaseStep(c.time, s.phase, call.delta);
    var p := NextPhase(c.time, s.phase, call.delta);
    hide NextPhase, Horizontal, Course, Vertical;
    HorizontalIsCourse(c.start.x, c.startVelocity.x, c.end.x, call.world.x, c.blend, c.time,
                       s.phase, p, call.delta, s.x);
    HorizontalIsCourse(c.start.y, c.startVelocity.y, c.end.y, call.world.y, c.blend, c.time,
                       s.phase, p, call.delta, s.y);
  }

  /** Between any two calls up to the lowering, across the end of the lift too, the reported position
      moves by the time that passed times the velocity reported before, up to a fixed multiple of
      the square of that time. */
  lemma PathFollowsVelocity(c: Path, s: Progress, first: Call, second: Call)
    requires c.Valid() && s.phase <= 1.0 && first.delta >= 0.0 && second.delta >= 0.0
    requires Second(c, s, first, second).phase <= 1.0 - c.blend
    ensures MoveTime(c.blend, c.time) > 0.0
    ensures
      var r, r', h := Result(c, s, first.delta, first.world), Second(c, s, first, second), second.delta;
      && Follows(Motion(r.position.x, r.velocity.x), r'.position.x, h,
                 PathBend(c.start.x, c.startVelocity.x, c.end.x, c.blend, c.time))
      && Follows(Motion(r.position.y, r.velocity.y), r'.position.y, h,
                 PathBend(c.start.y, c.startVelocity.y, c.end.y, c.blend, c.time))
  {
    MoveTimePositive(c.blend, c.time);
    var s', p := Next(c, s, first.delta, first.world), NextPhase(c.time, s.phase, first.delta);
    NextIsReported(c, s, first);
    NextIsReported(c, s', second);
    PhaseStep(c.time, s.phase, first.delta);
    PhaseStep(c.time, p, second.delta);
    Unheld(c.time, p, second.delta);
    hide NextPhase, Result, Next, Course, PathBend, MoveTime, Follows;
    ReportedCourse(c, s, first);
    ReportedCourse(c, s', second);
    CourseStep(c.start.x, c.startVelocity.x, c.end.x, c.blend, c.time, p, second.delta);
    CourseStep(c.start.y, c.startVelocity.y, c.end.y, c.blend, c.time, p, second.delta);
  }

  /** Over the whole swing the same holds of the height. */
  lemma HeightFollowsVelocity(c: Path, s: Progress, first: Call, second: Call)
    requires c.Valid() && 0.0 <= s.phase <= 1.0 && first.delta >= 0.0 && second.delta >= 0.0
    requires Result(c, s, first.delta, first.world).phase + second.delta / c.time <= 1.0
    ensures
      var r, r', h := Result(c, s, first.delta, first.world), Second(c, s, first, second), second.delta;
      Follows(Motion(r.position.z, r.velocity.z), r'.position.z, h, CurveBend(-c.height, 0.5 * c.time))
  {
    var p := NextPhase(c.time, s.phase, first.delta);
    PhaseStep(c.time, s.phase, first.delta);
    assert NextPhase(c.time, p, second.delta) == p + second.delta / c.time;
    NextIsReported(c, s, first);
    hide NextPhase, AdvanceX, AdvanceY, Vertical, CurveBend, Follows;
    VerticalStep(c.start.z, c.height, c.time, p, second.delta);
  }

  /** Where a swing starts, rests and turns, whatever the calls: at phase 0 it is at the start with
      its velocity, at the end of the lift it rests where braking takes it, when the lowering is due
      it rests on the target, and half way it rests at the full height. */
  lemma RestingPoints(c: Path, s: Progress, call: Call)
    requires c.Valid() && s.phase <= 1.0 && call.delta >= 0.0
    ensures
      var r := Result(c, s, call.delta, call.world);
      && (r.phase == 0.0 ==>
            && r.position == c.start
            && r.velocity == Vec(c.startVelocity.x, c.startVelocity.y, 0.0))
      && (r.phase == c.blend ==>
            && r.position.x == c.start.x + 0.5 * c.blend * c.time * c.startVelocity.x && r.velocity.x == 0.0
            && r.position.y == c.start.y + 0.5 * c.blend * c.time * c.startVelocity.y && r.velocity.y == 0.0)
      && (r.phase == 1.0 - c.blend ==>
            && r.position.x == c.end.x && r.velocity.x == 0.0
            && r.position.y == c.end.y && r.velocity.y == 0.0)
      && (r.phase == 0.5 ==> r.position.z == c.start.z - c.height && r.velocity.z == 0.0)
  {
    var p := NextPhase(c.time, s.phase, call.delta);
    NextIsReported(c, s, call);
    HalvesMeet(c.start.z, c.height, c.time);
    if p <= 1.0 - c.blend {
      ReportedCourse(c, s, call);
      CourseRests(c.start.x, c.startVelocity.x, c.end.x, c.blend, c.time);
      CourseRests(c.start.y, c.startVelocity.y, c.end.y, c.blend, c.time);
    }
    hide NextPhase, AdvanceX, AdvanceY, Course, Rise, Fall;
  }

  lemma CourseRests(start: real, v: real, end: real, blend: real, time: real)
    requires 0.0 < blend < 0.5 && time > 0.0
    ensures Course(start, v, end, blend, time, 0.0) == Motion(start, v)
    ensures Course(start, v, end, blend, time, blend) == Motion(start + 0.5 * blend * time * v, 0.0)
    ensures Course(start, v, end, blend, time, 1.0 - blend) == Motion(end, 0.0)
  {
    MoveEnds(start, v, end, blend, time);
    ZeroQuotient(0.0, blend);
    assert Lift(start, v, blend, time, 0.0) == Motion(start, v);
    hide Lift, Move;
  }

  /** The share 3 q q - 2 q q q of the way. */
  function Cubic(from: real, end: real, q: real): real { from + (3.0 * (q * q) - 2.0 * (q * q * q)) * (end - from) }

  /** While moving, the share of the way gone is this cubic of the share of the time. */
  lemma MoveShape(c: Path, s: Progress, call: Call)
    requires c.Valid() && s.phase <= 1.0 && call.delta >= 0.0
    requires c.blend <= Result(c, s, call.delta, call.world).phase <= 1.0 - c.blend
    ensures
      var r := Result(c, s, call.delta, call.world);
      var q := MoveParameter(c.blend, r.phase);
      && r.position.x == Cubic(MoveFrom(c.start.x, c.startVelocity.x, c.blend, c.time), c.end.x, q)
      && r.position.y == Cubic(MoveFrom(c.start.y, c.startVelocity.y, c.blend, c.time), c.end.y, q)
  {
    hide MoveFrom, MoveParameter, Cubic;
    ReportedCourse(c, s, call);
    var r := Result(c, s, call.delta, call.world);
    hide Result;
    CourseShape(c.start.x, c.startVelocity.x, c.end.x, c.blend, c.time, r.phase);
    CourseShape(c.start.y, c.startVelocity.y, c.end.y, c.blend, c.time, r.phase);
    hide Course;
  }

  lemma CourseShape(start: real, v: real, end: real, blend: real, time: real, p: real)
    requires 0.0 < blend < 0.5 && time > 0.0 && p >= blend
    ensures Course(start, v, end, blend, time, p).position
            == Cubic(MoveFrom(start, v, blend, time), end, MoveParameter(blend, p))
  {
    BlendIsCubic(MoveParameter(blend, p));
    hide Blend, MoveFrom, MoveParameter, BezierVelocity;
  }

  lemma BlendIsCubic(q: real)
    ensures Blend(q) == 3.0 * (q * q) - 2.0 * (q * q * q)
  {}

  /** While lowering, the foot's velocity is the ground's, scaled by the share of the blend time. */
  lemma LowerVelocity(c: Path, s: Progress, call: Call)
    requires c.Valid() && Result(c, s, call.delta, call.world).phase >= 1.0 - c.blend
    ensures
      var r := Result(c, s, call.delta, call.world);
      && r.velocity.x == ((r.phase - (1.0 - c.blend)) / c.blend) * call.world.x
      && r.velocity.y == ((r.phase - (1.0 - c.blend)) / c.blend) * call.world.y
  {
    NextIsReported(c, s, call);
    hide NextPhase, Vertical, Lift, Move, Moved;
  }
}
