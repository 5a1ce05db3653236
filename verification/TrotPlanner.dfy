/** The five-phase trot planner (`CalculateTrot`) and what its plans guarantee.

    A plan is feasible when it keeps every configured bound and does not carry a foot further
    than the travel distance while that foot is on the ground.  The planner returns the fastest
    feasible plan that does not exceed the requested speed, and among the plans at that speed
    the one with the longest swing, then the shortest flight, then the longest double support. */
module TrotPlanner {
  import opened Doubles

  datatype WalkConfig = WalkConfig(
    period: real,
    maxStance: real,
    minInvalidTime: real,
    maxSwing: real,
    minSwing: real,
    maxTwovleg: real,
    maxFlight: real,
    initialStance: real,
    stanceRestore: real)
  {
    ghost predicate Valid() {
      && period > 0.0
      && maxStance >= 0.0
      && minInvalidTime > 0.0
      && 0.0 <= maxFlight
      && 2.0 * maxFlight < minSwing <= maxSwing
      && maxTwovleg >= 0.0
      && 0.0 < initialStance <= 1.0
      && stanceRestore >= 0.0
    }
  }

  datatype Trot = Trot(
    swing: real, onevleg: real, twovleg: real, flight: real, speed: real, maxSpeed: real)

  const NO_TROT := Trot(0.0, 0.0, 0.0, 0.0, 0.0, 0.0)

  /** A foot is down for `onevleg + 2 * twovleg` of each cycle. */
  ghost predicate Feasible(cfg: WalkConfig, travel: real, t: Trot) {
    && t.speed >= 0.0
    && t.speed * (t.onevleg + 2.0 * t.twovleg) <= travel
    && t.onevleg == t.swing - 2.0 * t.flight
    && t.onevleg > 0.0
    && cfg.minSwing <= t.swing <= cfg.maxSwing
    && 0.0 <= t.flight <= cfg.maxFlight
    && 0.0 <= t.twovleg <= cfg.maxTwovleg
    && (t.flight == 0.0 || t.twovleg == 0.0)
  }

  function CalculateTrot(cfg: WalkConfig, maximizeFlight: bool, travel: real, speed: real): (t: Trot)
    requires cfg.Valid()
    requires speed >= 0.0 && travel >= 0.0
  {
    var maxSpeed := travel / (cfg.minSwing - 2.0 * cfg.maxFlight);
    if !maximizeFlight && speed < (0.5 * travel) / (cfg.maxTwovleg + 0.5 * cfg.maxSwing) then
      // Phase A
      Trot(cfg.maxSwing, cfg.maxSwing, cfg.maxTwovleg, 0.0, speed, maxSpeed)
    else if !maximizeFlight && speed < travel / cfg.maxSwing then
      // Phase B
      PositiveBelow(speed, 0.5 * travel, cfg.maxTwovleg + 0.5 * cfg.maxSwing, travel, cfg.maxSwing);
      Trot(cfg.maxSwing, cfg.maxSwing, 0.5 * travel / speed - 0.5 * cfg.maxSwing, 0.0, speed, maxSpeed)
    else if !maximizeFlight && speed < travel / (cfg.maxSwing - 2.0 * cfg.maxFlight) then
      // Phase C
      PositiveBelow(speed, travel, cfg.maxSwing, travel, cfg.maxSwing - 2.0 * cfg.maxFlight);
      var flight := 0.5 * cfg.maxSwing - travel / (2.0 * speed);
      Trot(cfg.maxSwing, cfg.maxSwing - 2.0 * flight, 0.0, flight, speed, maxSpeed)
    else if speed < maxSpeed then
      // Phase D
      var swing := if speed == 0.0 then cfg.maxSwing
                   else RealMin(cfg.maxSwing, travel / speed + 2.0 * cfg.maxFlight);
      Trot(swing, swing - 2.0 * cfg.maxFlight, 0.0, cfg.maxFlight, speed, maxSpeed)
    else
      // Phase E
      Trot(cfg.minSwing, cfg.minSwing - 2.0 * cfg.maxFlight, 0.0, cfg.maxFlight, maxSpeed, maxSpeed)
  }

  // ---- products and quotients -----------------------------------------------------------------

  lemma ProductOrder(x: real, y: real, b: real)
    requires b > 0.0
    ensures x * b <= y * b <==> x <= y
  {}

  lemma QuotientBelow(x: real, a: real, b: real)
    requires b > 0.0
    ensures x < a / b <==> x * b < a
  {
    assert (a / b) * b == a;
    ProductOrder(a / b, x, b);
  }

  /** A speed at or above one nonnegative quotient of the travel and below another is positive. */
  lemma PositiveBelow(speed: real, lo: real, loDiv: real, hi: real, hiDiv: real)
    requires speed >= 0.0 && loDiv > 0.0 && hiDiv > 0.0
    requires lo >= 0.0 && (lo == 0.0 ==> hi == 0.0)
    requires !(speed < lo / loDiv) && speed < hi / hiDiv
    ensures speed > 0.0
  {
    QuotientBelow(speed, lo, loDiv);
    QuotientBelow(speed, hi, hiDiv);
  }

  /** With `q` the time that the distance `a` lasts at speed `x`: faster than covering `a` in
      time `b` means `q` is shorter than `b`. */
  lemma SpeedAsTime(x: real, q: real, a: real, b: real)
    requires x > 0.0 && b > 0.0 && q == a / x
    ensures x < a / b <==> b < q
  {
    assert q * x == a;
    QuotientBelow(x, a, b);
    ProductOrder(q, b, x);
  }

  lemma HalfQuotients(a: real, b: real)
    requires b > 0.0
    ensures 0.5 * a / b == 0.5 * (a / b) && a / (2.0 * b) == 0.5 * (a / b)
  {
    var q := a / b;
    assert q * b == a;
    assert (0.5 * q) * b == 0.5 * a;
    assert (0.5 * q) * (2.0 * b) == a;
    assert 0.5 * a / b == 0.5 * q by { SpeedIsUnique(0.5 * a / b, 0.5 * q, b, 0.5 * a); }
    assert a / (2.0 * b) == 0.5 * q by { SpeedIsUnique(a / (2.0 * b), 0.5 * q, 2.0 * b, a); }
  }

  lemma SpeedIsUnique(x: real, y: real, b: real, a: real)
    requires b > 0.0 && x * b == a && y * b == a
    ensures x == y
  {
    ProductOrder(x, y, b);
    ProductOrder(y, x, b);
  }

  /** The same distance at a higher speed lasts no longer. */
  lemma FasterIsShorter(a: real, v: real, w: real)
    requires a >= 0.0 && 0.0 < v <= w
    ensures 0.0 <= a / w <= a / v
  {
    var p, q := a / v, a / w;
    assert p * v == a && q * w == a;
    ProductOrder(0.0, q, w);
    ProductOrder(0.0, p, v);
    assert p * v <= p * w;
    ProductOrder(q, p, w);
  }

  /** Standing for no longer than `a / v` at speed `v` covers no more than `a`. */
  lemma DistanceBound(v: real, time: real, a: real)
    requires v > 0.0
    ensures v * time <= a <==> time <= a / v
  {
    QuotientBelow(time, a, v);
    assert (a / v) * v == a;
    ProductOrder(time, a / v, v);
  }

  // ---- the plan as a function of time ---------------------------------------------------------

  function Clamp(x: real, lo: real, hi: real): real {
    if x < lo then lo else if hi < x then hi else x
  }

  /** With `q` the time that the travel distance lasts at the requested speed, the times of the
      plan are these piecewise linear functions of `q`. */
  ghost predicate TimesAt(cfg: WalkConfig, q: real, t: Trot) {
    && t.twovleg == Clamp(0.5 * (q - cfg.maxSwing), 0.0, cfg.maxTwovleg)
    && t.flight == Clamp(0.5 * (cfg.maxSwing - q), 0.0, cfg.maxFlight)
    && t.onevleg == Clamp(q, cfg.minSwing - 2.0 * cfg.maxFlight, cfg.maxSwing)
    && t.swing == t.onevleg + 2.0 * t.flight
  }

  /** The five phases are one formula. */
  lemma PhasesAsTimes(cfg: WalkConfig, travel: real, speed: real)
    requires cfg.Valid() && speed > 0.0 && travel >= 0.0
    ensures var t := CalculateTrot(cfg, false, travel, speed);
            && TimesAt(cfg, travel / speed, t)
            && t.speed == (if cfg.minSwing - 2.0 * cfg.maxFlight < travel / speed then speed else t.maxSpeed)
  {
    var q := travel / speed;
    HalfQuotients(travel, speed);
    assert 0.5 * q == 0.5 * travel / speed;
    SpeedAsTime(speed, 0.5 * q, 0.5 * travel, cfg.maxTwovleg + 0.5 * cfg.maxSwing);
    SpeedAsTime(speed, q, travel, cfg.maxSwing);
    SpeedAsTime(speed, q, travel, cfg.maxSwing - 2.0 * cfg.maxFlight);
    SpeedAsTime(speed, q, travel, cfg.minSwing - 2.0 * cfg.maxFlight);
  }

  /** At speed zero the slowest phase applies, or without any travel the fastest one. */
  lemma PlanAtRest(cfg: WalkConfig, travel: real)
    requires cfg.Valid() && travel >= 0.0
    ensures var t := CalculateTrot(cfg, false, travel, 0.0);
            t == if travel > 0.0
                 then Trot(cfg.maxSwing, cfg.maxSwing, cfg.maxTwovleg, 0.0, 0.0, t.maxSpeed)
                 else Trot(cfg.minSwing, cfg.minSwing - 2.0 * cfg.maxFlight, 0.0, cfg.maxFlight, 0.0, 0.0)
  {
    QuotientBelow(0.0, 0.5 * travel, cfg.maxTwovleg + 0.5 * cfg.maxSwing);
  }

  /** Asked to maximise flight, the plan keeps full flight and shortens only the swing. */
  lemma FlightPhasesAsTimes(cfg: WalkConfig, travel: real, speed: real)
    requires cfg.Valid() && speed > 0.0 && travel >= 0.0
    ensures var t := CalculateTrot(cfg, true, travel, speed);
            && t.onevleg == Clamp(travel / speed, cfg.minSwing - 2.0 * cfg.maxFlight,
                                  cfg.maxSwing - 2.0 * cfg.maxFlight)
            && t.swing == t.onevleg + 2.0 * cfg.maxFlight
            && t.flight == cfg.maxFlight && t.twovleg == 0.0
            && t.speed == (if cfg.minSwing - 2.0 * cfg.maxFlight < travel / speed then speed else t.maxSpeed)
  {
    SpeedAsTime(speed, travel / speed, travel, cfg.minSwing - 2.0 * cfg.maxFlight);
  }

  lemma FlightPlanAtRest(cfg: WalkConfig, travel: real)
    requires cfg.Valid() && travel >= 0.0
    ensures var t := CalculateTrot(cfg, true, travel, 0.0);
            && t.speed == 0.0 && t.twovleg == 0.0 && t.flight == cfg.maxFlight
            && t.onevleg == t.swing - 2.0 * cfg.maxFlight
            && (t.swing == cfg.minSwing || t.swing == cfg.maxSwing)
  {
    QuotientBelow(0.0, travel, cfg.minSwing - 2.0 * cfg.maxFlight);
  }

  lemma MaxSpeedCoversTravel(cfg: WalkConfig, maximizeFlight: bool, travel: real, speed: real)
    requires cfg.Valid() && speed >= 0.0 && travel >= 0.0
    ensures var t := CalculateTrot(cfg, maximizeFlight, travel, speed);
            && t.maxSpeed == travel / (cfg.minSwing - 2.0 * cfg.maxFlight) >= 0.0
            && t.maxSpeed * (cfg.minSwing - 2.0 * cfg.maxFlight) == travel
  {
    QuotientBelow(0.0, travel, cfg.minSwing - 2.0 * cfg.maxFlight);
  }

  /** The distance clause of feasibility for any plan that stands down for `time` per cycle. */
  lemma DistanceIsCovered(travel: real, speed: real, maxSpeed: real, fast: real, planned: real, time: real)
    requires speed > 0.0 && travel >= 0.0 && fast > 0.0 && maxSpeed == travel / fast
    requires planned == if fast < travel / speed then speed else maxSpeed
    requires if fast < travel / speed then time <= travel / speed else time == fast
    ensures planned * time <= travel
    ensures planned == RealMin(speed, maxSpeed)
  {
    SpeedAsTime(speed, travel / speed, travel, fast);
    if fast < travel / speed {
      DistanceBound(speed, time, travel);
    } else {
      assert (travel / fast) * fast == travel;
    }
  }

  // ---- main results ---------------------------------------------------------------------------

  /** Every plan is feasible, and its speed is the request capped at the maximum speed. */
  lemma PlanIsFeasible(cfg: WalkConfig, maximizeFlight: bool, travel: real, speed: real)
    requires cfg.Valid() && speed >= 0.0 && travel >= 0.0
    ensures Feasible(cfg, travel, CalculateTrot(cfg, maximizeFlight, travel, speed))
    ensures var t := CalculateTrot(cfg, maximizeFlight, travel, speed);
            t.speed == RealMin(speed, t.maxSpeed)
  {
    var t := CalculateTrot(cfg, maximizeFlight, travel, speed);
    MaxSpeedCoversTravel(cfg, maximizeFlight, travel, speed);
    if speed == 0.0 {
      PlanAtRest(cfg, travel);
      FlightPlanAtRest(cfg, travel);
    } else if maximizeFlight {
      FlightPhasesAsTimes(cfg, travel, speed);
      FlightTimesAreFeasible(cfg, travel, speed, travel / speed, t);
    } else {
      PhasesAsTimes(cfg, travel, speed);
      TimesAreFeasible(cfg, travel, speed, travel / speed, t);
    }
  }

  lemma TimesAreFeasible(cfg: WalkConfig, travel: real, speed: real, q: real, t: Trot)
    requires cfg.Valid() && speed > 0.0 && travel >= 0.0 && q == travel / speed
    requires t.maxSpeed == travel / (cfg.minSwing - 2.0 * cfg.maxFlight) >= 0.0
    requires TimesAt(cfg, q, t)
    requires t.speed == if cfg.minSwing - 2.0 * cfg.maxFlight < q then speed else t.maxSpeed
    ensures Feasible(cfg, travel, t) && t.speed == RealMin(speed, t.maxSpeed)
  {
    DistanceIsCovered(travel, speed, t.maxSpeed, cfg.minSwing - 2.0 * cfg.maxFlight,
                      t.speed, t.onevleg + 2.0 * t.twovleg);
  }

  lemma FlightTimesAreFeasible(cfg: WalkConfig, travel: real, speed: real, q: real, t: Trot)
    requires cfg.Valid() && speed > 0.0 && travel >= 0.0 && q == travel / speed
    requires t.maxSpeed == travel / (cfg.minSwing - 2.0 * cfg.maxFlight) >= 0.0
    requires t.onevleg == Clamp(q, cfg.minSwing - 2.0 * cfg.maxFlight, cfg.maxSwing - 2.0 * cfg.maxFlight)
    requires t.swing == t.onevleg + 2.0 * cfg.maxFlight
    requires t.flight == cfg.maxFlight && t.twovleg == 0.0
    requires t.speed == if cfg.minSwing - 2.0 * cfg.maxFlight < q then speed else t.maxSpeed
    ensures Feasible(cfg, travel, t) && t.speed == RealMin(speed, t.maxSpeed)
  {
    DistanceIsCovered(travel, speed, t.maxSpeed, cfg.minSwing - 2.0 * cfg.maxFlight,
                      t.speed, t.onevleg + 2.0 * t.twovleg);
  }

  /** No feasible plan of any kind is faster than the planner's maximum speed, so the planner
      loses no speed to its choice of phases. */
  lemma MaxSpeedIsTheFastest(cfg: WalkConfig, maximizeFlight: bool, travel: real, speed: real, other: Trot)
    requires cfg.Valid() && speed >= 0.0 && travel >= 0.0
    requires Feasible(cfg, travel, other)
    ensures other.speed <= CalculateTrot(cfg, maximizeFlight, travel, speed).maxSpeed
  {
    MaxSpeedCoversTravel(cfg, maximizeFlight, travel, speed);
    SlowerOverMoreTime(other.speed, other.onevleg + 2.0 * other.twovleg,
                       cfg.minSwing - 2.0 * cfg.maxFlight, travel);
  }

  lemma SlowerOverMoreTime(v: real, time: real, fast: real, travel: real)
    requires v >= 0.0 && 0.0 < fast <= time && v * time <= travel
    ensures v <= travel / fast
  {
    assert v * fast <= v * time;
    QuotientBelow(v, travel, fast);
    assert (travel / fast) * fast == travel;
    ProductOrder(v, travel / fast, fast);
  }

  /** `t` is the plan of a slower walk than `t'`: longer swings and stances, less flight. */
  ghost predicate Slower(t: Trot, t': Trot) {
    && t'.swing <= t.swing
    && t'.onevleg <= t.onevleg
    && t'.twovleg <= t.twovleg
    && t.flight <= t'.flight
    && t.speed <= t'.speed
  }

  /** Raising the requested speed, across any phases, never lengthens swing, single or double
      support and never shortens flight or lowers the planned speed. */
  lemma PlanIsMonotone(cfg: WalkConfig, travel: real, v: real, w: real)
    requires cfg.Valid() && travel >= 0.0 && 0.0 <= v <= w
    ensures Slower(CalculateTrot(cfg, false, travel, v), CalculateTrot(cfg, false, travel, w))
  {
    PlanIsFeasible(cfg, false, travel, v);
    PlanIsFeasible(cfg, false, travel, w);
    MaxSpeedCoversTravel(cfg, false, travel, v);
    MaxSpeedCoversTravel(cfg, false, travel, w);
    if v > 0.0 {
      PhasesAsTimes(cfg, travel, v);
      PhasesAsTimes(cfg, travel, w);
      FasterIsShorter(travel, v, w);
    } else {
      PlanAtRest(cfg, travel);
      if w > 0.0 {
        PhasesAsTimes(cfg, travel, w);
      }
    }
  }

  ghost predicate Preferred(t: Trot, other: Trot) {
    && other.swing <= t.swing
    && (other.swing == t.swing ==> t.flight <= other.flight)
    && (other.swing == t.swing && other.flight == t.flight ==> other.twovleg <= t.twovleg)
  }

  /** Among all feasible plans at the planned speed, the planner's has the longest swing; among
      those with that swing, the shortest flight; among those, the longest double support. */
  lemma PlanIsPreferred(cfg: WalkConfig, travel: real, speed: real, other: Trot)
    requires cfg.Valid() && speed >= 0.0 && travel > 0.0
    requires Feasible(cfg, travel, other)
    requires other.speed == CalculateTrot(cfg, false, travel, speed).speed
    ensures Preferred(CalculateTrot(cfg, false, travel, speed), other)
  {
    if speed == 0.0 {
      PlanAtRest(cfg, travel);
    } else {
      PhasesAsTimes(cfg, travel, speed);
      MaxSpeedCoversTravel(cfg, false, travel, speed);
      TimesArePreferred(cfg, travel, speed, travel / speed,
                        CalculateTrot(cfg, false, travel, speed), other);
    }
  }

  lemma TimesArePreferred(cfg: WalkConfig, travel: real, speed: real, q: real, t: Trot, other: Trot)
    requires cfg.Valid() && speed > 0.0 && travel > 0.0 && q == travel / speed
    requires TimesAt(cfg, q, t)
    requires t.speed == if cfg.minSwing - 2.0 * cfg.maxFlight < q then speed
                        else travel / (cfg.minSwing - 2.0 * cfg.maxFlight)
    requires Feasible(cfg, travel, other) && other.speed == t.speed
    ensures Preferred(t, other)
  {
    TimeDownBound(travel, speed, cfg.minSwing - 2.0 * cfg.maxFlight, other.speed,
                  other.onevleg + 2.0 * other.twovleg);
  }

  lemma TimeDownBound(travel: real, speed: real, fast: real, planned: real, time: real)
    requires travel > 0.0 && speed > 0.0 && fast > 0.0 && planned * time <= travel
    requires planned == if fast < travel / speed then speed else travel / fast
    ensures time <= if fast < travel / speed then travel / speed else fast
  {
    if fast < travel / speed {
      DistanceBound(speed, time, travel);
    } else {
      QuotientBelow(0.0, travel, fast);
      assert planned * fast == travel;
      ProductOrder(time, fast, planned);
    }
  }

  /** Without any travel distance the planner answers every speed, standing still included, with
      its fastest plan, so there the preference fails unless the configuration leaves no choice. */
  lemma PreferenceNeedsTravel(cfg: WalkConfig, speed: real)
    requires cfg.Valid() && speed >= 0.0
    ensures var t := CalculateTrot(cfg, false, 0.0, speed);
            && t == Trot(cfg.minSwing, cfg.minSwing - 2.0 * cfg.maxFlight, 0.0, cfg.maxFlight, 0.0, 0.0)
            && ((forall other :: Feasible(cfg, 0.0, other) && other.speed == t.speed ==> Preferred(t, other))
                <==> cfg.minSwing == cfg.maxSwing && cfg.maxFlight == 0.0 && cfg.maxTwovleg == 0.0)
  {
    var slowest := Trot(cfg.maxSwing, cfg.maxSwing, cfg.maxTwovleg, 0.0, 0.0, 0.0);
    assert Feasible(cfg, 0.0, slowest);
  }
}
