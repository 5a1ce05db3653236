/** One cycle of the trot gait (`WalkContext::Run`) on the two virtual legs (vlegs).

    The geometric estimates (`remaining_s`, `invalid_time_s`, the travel distance and the
    commanded velocity) are inputs that may take any value in every cycle. */
module TrotGait {
  import opened Wrappers
  import opened Doubles
  import opened TrotPlanner

  datatype VLegMode = Stance | Swing

  datatype VLeg = VLeg(
    mode: VLegMode,
    remaining: Double,
    invalidTime: Double,
    swingElapsed: real,
    stanceElapsed: real,
    phase: real)

  datatype Walk = Walk(
    vlegs: seq<VLeg>, nextStepVleg: nat, stanceElapsed: real, trot: Trot, idleCount: nat)
  {
    ghost predicate Valid() {
      && |vlegs| == 2
      && nextStepVleg < 2
      && stanceElapsed >= 0.0
    }

    predicate InStance(i: nat) requires i < |vlegs| { vlegs[i].mode.Stance? }

    /** `all_stance()`: both vlegs are on the ground. */
    predicate AllStance() requires |vlegs| == 2 { InStance(0) && InStance(1) }
  }

  const INITIAL_VLEG := VLeg(Stance, Fin(0.0), Fin(0.0), 0.0, 0.0, 0.0)
  const INITIAL_WALK := Walk([INITIAL_VLEG, INITIAL_VLEG], 0, 0.0, NO_TROT, 0)

  /** A commanded leg of the R frame: only its identity and its stance matter here. */
  datatype Leg = Leg(id: nat, stance: real)

  /** `kVlegMapping`: the diagonal legs that make up each vleg. */
  const VLEG_MAPPING: seq<seq<nat>> := [[0, 3], [1, 2]]

  function VlegOf(leg: nat): (i: nat)
    ensures i < 2
  {
    if leg == 0 || leg == 3 then 0 else 1
  }

  predicate FourLegs(legs: seq<Leg>) {
    |legs| == 4 && forall i :: 0 <= i < 4 ==> legs[i].id == i
  }

  datatype GaitInput = GaitInput(
    maximizeFlight: bool, travel: real, speed: real, turning: bool,
    remaining: seq<Double>, invalidTime: seq<Double>)
  {
    ghost predicate Valid() {
      travel >= 0.0 && speed >= 0.0 && |remaining| == 2 && |invalidTime| == 2
    }
  }

  // ---- the cycle as functions -----------------------------------------------------------------

  /** How many of the first `n` vlegs are in stance. */
  function CountStance(vlegs: seq<VLeg>, n: nat): (c: nat)
    requires n <= |vlegs|
    ensures c <= n
  {
    if n == 0 then 0 else CountStance(vlegs, n - 1) + (if vlegs[n - 1].mode.Stance? then 1 else 0)
  }

  lemma CountTwo(vlegs: seq<VLeg>)
    requires |vlegs| == 2
    ensures CountStance(vlegs, 2) == (if vlegs[0].mode.Stance? then 1 else 0) + (if vlegs[1].mode.Stance? then 1 else 0)
  {
    assert CountStance(vlegs, 1) == if vlegs[0].mode.Stance? then 1 else 0;
  }

  /** UpdateGlobal, UpdateSwingTime, UpdateInvalidTime and UpdateTrot: everything a cycle does
      before deciding on a lift. */
  function Observe(cfg: WalkConfig, w: Walk, inp: GaitInput): (w': Walk)
    requires cfg.Valid() && w.Valid() && inp.Valid()
  {
    w.(stanceElapsed := if w.AllStance() then w.stanceElapsed + cfg.period else 0.0,
       vlegs := [w.vlegs[0].(remaining := inp.remaining[0], invalidTime := inp.invalidTime[0]),
                 w.vlegs[1].(remaining := inp.remaining[1], invalidTime := inp.invalidTime[1])],
       trot := CalculateTrot(cfg, inp.maximizeFlight, inp.travel, inp.speed))
  }

  datatype Scan = Scan(biggestRemaining: Double, smallestInvalid: Double, smallest: int, totalInvalid: Double)

  const EMPTY_SCAN := Scan(NegInf, PosInf, -1, Fin(0.0))

  function ScanVleg(s: Scan, i: nat, v: VLeg): Scan {
    if v.mode.Swing? then s
    else Scan(
           if Lt(s.biggestRemaining, v.remaining) then v.remaining else s.biggestRemaining,
           if Lt(v.invalidTime, s.smallestInvalid) then v.invalidTime else s.smallestInvalid,
           if Lt(v.invalidTime, s.smallestInvalid) then i else s.smallest,
           Add(s.totalInvalid, v.invalidTime))
  }

  function ScanUpTo(vlegs: seq<VLeg>, n: nat): Scan
    requires n <= |vlegs|
  {
    if n == 0 then EMPTY_SCAN else ScanVleg(ScanUpTo(vlegs, n - 1), n - 1, vlegs[n - 1])
  }

  /** Is some vleg about to run out of travel before a full swing could complete? */
  predicate RunningOut(cfg: WalkConfig, trot: Trot, s: Scan) {
    && trot.twovleg >= cfg.minInvalidTime
    && s.smallestInvalid.Fin?
    && s.totalInvalid.Fin?
    && (s.smallestInvalid.r < cfg.minInvalidTime
        || s.totalInvalid.r - s.smallestInvalid.r < trot.swing + cfg.minInvalidTime)
  }

  predicate FlightLiftDue(trot: Trot, v: VLeg, alternate: VLeg) {
    && v.mode.Stance?
    && v.stanceElapsed + -0.5 * ((trot.swing - alternate.phase) - trot.flight) >= trot.onevleg
  }

  function FlightLift(w: Walk, i: nat): Option<int>
    requires |w.vlegs| == 2
    decreases 2 - i
  {
    if i >= 2 then None
    else if FlightLiftDue(w.trot, w.vlegs[i], w.vlegs[(i + 1) % 2]) then Some(i)
    else FlightLift(w, i + 1)
  }

  /** The lambda of MaybeLift: nothing, the next vleg (-1), or a specific vleg. */
  function VlegToLift(cfg: WalkConfig, w: Walk): Option<int>
    requires |w.vlegs| == 2
  {
    var s := ScanUpTo(w.vlegs, 2);
    if RunningOut(cfg, w.trot, s) then
      if Lt(Abs(Sub(w.vlegs[0].invalidTime, w.vlegs[1].invalidTime)), Fin(0.75 * w.trot.swing))
      then Some(-1) else Some(s.smallest)
    else if w.stanceElapsed > cfg.maxStance then Some(-1)
    else if w.trot.flight <= 0.0 then
      if !s.biggestRemaining.Fin? then
        if w.stanceElapsed >= w.trot.twovleg then Some(-1) else None
      else if s.biggestRemaining.r < 0.5 * w.trot.swing then Some(-1)
      else None
    else FlightLift(w, 0)
  }

  function LiftVleg(w: Walk, i: nat): Walk
    requires |w.vlegs| == 2 && i < 2
  {
    var alternate := (i + 1) % 2;
    w.(vlegs := w.vlegs[i := w.vlegs[i].(mode := Swing, swingElapsed := 0.0)]
                       [alternate := w.vlegs[alternate].(stanceElapsed := 0.0)])
  }

  /** Which vleg, if any, this cycle lifts. */
  function Lifted(cfg: WalkConfig, w: Walk): Option<nat>
    requires |w.vlegs| == 2 && w.nextStepVleg < 2
  {
    var n := CountStance(w.vlegs, 2);
    if n == 0 || (n <= 1 && w.trot.flight <= 0.0) then None
    else
      var choice := VlegToLift(cfg, w);
      if choice.None? then None
      else if choice.value >= 0 then Some(choice.value)
      else Some(w.nextStepVleg)
  }

  function MaybeLift(cfg: WalkConfig, w: Walk): Walk
    requires |w.vlegs| == 2 && w.nextStepVleg < 2
    requires Lifted(cfg, w).Some? ==> Lifted(cfg, w).value < 2
  {
    var k := Lifted(cfg, w);
    if k.None? then w
    else LiftVleg(w, k.value).(nextStepVleg := (k.value + 1) % 2)
  }

  /** The clocks of one vleg, advanced by one period. */
  function AdvanceVleg(cfg: WalkConfig, trot: Trot, v: VLeg): VLeg {
    match v.mode
    case Swing =>
      v.(swingElapsed := v.swingElapsed + cfg.period, stanceElapsed := 0.0, phase := v.swingElapsed + cfg.period)
    case Stance =>
      v.(stanceElapsed := v.stanceElapsed + cfg.period, swingElapsed := 0.0,
         phase := trot.swing + (v.stanceElapsed + cfg.period))
  }

  /** Does this vleg touch down at the end of the cycle? */
  predicate Lands(cfg: WalkConfig, trot: Trot, v: VLeg) {
    AdvanceVleg(cfg, trot, v).swingElapsed > trot.swing
  }

  function PropagateVleg(cfg: WalkConfig, trot: Trot, v: VLeg): VLeg {
    var v' := AdvanceVleg(cfg, trot, v);
    if Lands(cfg, trot, v) then v'.(mode := Stance, swingElapsed := 0.0) else v'
  }

  function CountIdle(landed: bool, inp: GaitInput, idleCount: nat): nat {
    if !landed then idleCount
    else if inp.speed == 0.0 && !inp.turning then idleCount + 1
    else 0
  }

  /** The idle count once the first `n` vlegs have been propagated. */
  function IdleUpTo(cfg: WalkConfig, w: Walk, inp: GaitInput, n: nat): nat
    requires n <= |w.vlegs|
  {
    if n == 0 then w.idleCount
    else CountIdle(Lands(cfg, w.trot, w.vlegs[n - 1]), inp, IdleUpTo(cfg, w, inp, n - 1))
  }

  function Propagate(cfg: WalkConfig, w: Walk, inp: GaitInput): Walk
    requires |w.vlegs| == 2
  {
    w.(vlegs := [PropagateVleg(cfg, w.trot, w.vlegs[0]), PropagateVleg(cfg, w.trot, w.vlegs[1])],
       idleCount := IdleUpTo(cfg, w, inp, 2))
  }

  /** The commanded stance of a leg whose vleg, after any lift, is `v`. */
  function PropagateStance(cfg: WalkConfig, trot: Trot, v: VLeg, stance: real): real {
    if Lands(cfg, trot, v) then cfg.initialStance
    else if v.mode.Swing? then 0.0
    else RealMin(1.0, stance + cfg.stanceRestore * cfg.period)
  }

  function PropagateLegs(cfg: WalkConfig, w: Walk, legs: seq<Leg>): (legs': seq<Leg>)
    requires |w.vlegs| == 2 && FourLegs(legs)
    ensures FourLegs(legs')
  {
    seq(4, i requires 0 <= i < 4 =>
      Leg(i, PropagateStance(cfg, w.trot, w.vlegs[VlegOf(i)], legs[i].stance)))
  }

  /** The state in the middle of a cycle: observed and possibly lifted, not yet propagated. */
  function MidStep(cfg: WalkConfig, w: Walk, inp: GaitInput): (m: Walk)
    requires cfg.Valid() && w.Valid() && inp.Valid()
    ensures m.Valid()
  {
    LiftsFromStance(cfg, w, inp);
    MaybeLift(cfg, Observe(cfg, w, inp))
  }

  function Step(cfg: WalkConfig, w: Walk, inp: GaitInput): (w': Walk)
    requires cfg.Valid() && w.Valid() && inp.Valid()
    ensures w'.Valid()
  {
    Propagate(cfg, MidStep(cfg, w, inp), inp)
  }

  function StepLegs(cfg: WalkConfig, w: Walk, inp: GaitInput, legs: seq<Leg>): (legs': seq<Leg>)
    requires cfg.Valid() && w.Valid() && inp.Valid() && FourLegs(legs)
  {
    PropagateLegs(cfg, MidStep(cfg, w, inp), legs)
  }

  /** The events of a cycle. */
  predicate Lifts(cfg: WalkConfig, w: Walk, inp: GaitInput, i: nat)
    requires cfg.Valid() && w.Valid() && inp.Valid()
  {
    Lifted(cfg, Observe(cfg, w, inp)) == Some(i)
  }

  predicate TouchesDown(cfg: WalkConfig, w: Walk, inp: GaitInput, i: nat)
    requires cfg.Valid() && w.Valid() && inp.Valid() && i < 2
  {
    var m := MidStep(cfg, w, inp);
    Lands(cfg, m.trot, m.vlegs[i])
  }

  // ---- lift safety ----------------------------------------------------------------------------

  /** LiftVleg is only ever applied to a vleg in stance.  With one vleg down a lift needs a
      planned flight; then the plan has no double support, so the travel check is off, and the
      double-support clock was just reset, so only the flight rule can choose. */
  lemma LiftsFromStance(cfg: WalkConfig, w: Walk, inp: GaitInput)
    requires cfg.Valid() && w.Valid() && inp.Valid()
    ensures var k := Lifted(cfg, Observe(cfg, w, inp));
            k.Some? ==> k.value < 2 && w.InStance(k.value)
  {
    var o := Observe(cfg, w, inp);
    PlanIsFeasible(cfg, inp.maximizeFlight, inp.travel, inp.speed);
    CountTwo(o.vlegs);
    ScanFindsStance(o.vlegs, 2);
    FlightLiftFindsStance(o, 0);
  }

  lemma {:induction false} ScanFindsStance(vlegs: seq<VLeg>, n: nat)
    requires n <= |vlegs|
    ensures var s := ScanUpTo(vlegs, n);
            || (s.smallest == -1 && s.smallestInvalid == PosInf)
            || (0 <= s.smallest < n && vlegs[s.smallest].mode.Stance?)
  {
    if n > 0 {
      ScanFindsStance(vlegs, n - 1);
    }
  }

  lemma {:induction false} FlightLiftFindsStance(w: Walk, i: nat)
    requires |w.vlegs| == 2
    ensures var k := FlightLift(w, i);
            k.Some? ==> i <= k.value < 2 && w.InStance(k.value)
    decreases 2 - i
  {
    if i < 2 {
      FlightLiftFindsStance(w, i + 1);
    }
  }

  /** What one cycle does to one vleg: its clock starts at the lift, runs while it swings, and it
      touches down in the first cycle whose clock passes the planned swing time. */
  lemma StepVleg(cfg: WalkConfig, w: Walk, inp: GaitInput, i: nat)
    requires cfg.Valid() && w.Valid() && inp.Valid() && i < 2
    ensures var w', clock := Step(cfg, w, inp),
                             (if Lifts(cfg, w, inp, i) then 0.0 else w.vlegs[i].swingElapsed) + cfg.period;
            var swinging := Lifts(cfg, w, inp, i) || !w.InStance(i);
            && Feasible(cfg, inp.travel, w'.trot)
            && (Lifts(cfg, w, inp, i) ==> w.InStance(i))
            && (TouchesDown(cfg, w, inp, i) <==> swinging && clock > w'.trot.swing)
            && (w'.InStance(i) <==> !swinging || TouchesDown(cfg, w, inp, i))
            && (!w'.InStance(i) ==> w'.vlegs[i].swingElapsed == clock <= w'.trot.swing)
  {
    LiftsFromStance(cfg, w, inp);
    PlanIsFeasible(cfg, inp.maximizeFlight, inp.travel, inp.speed);
  }

  lemma StepGroundedVleg(cfg: WalkConfig, w: Walk, inp: GaitInput, i: nat)
    requires cfg.Valid() && w.Valid() && inp.Valid() && i < 2
    requires w.InStance(i) && !Lifts(cfg, w, inp, i)
    ensures var w' := Step(cfg, w, inp);
            && w'.InStance(i)
            && w'.vlegs[i].stanceElapsed ==
                 (if Lifts(cfg, w, inp, 1 - i) then 0.0 else w.vlegs[i].stanceElapsed) + cfg.period
            && w'.vlegs[i].phase == w'.trot.swing + w'.vlegs[i].stanceElapsed
  {
    StepVleg(cfg, w, inp, i);
    LiftsFromStance(cfg, w, inp);
  }

  // ---- runs -----------------------------------------------------------------------------------

  ghost predicate ValidInputs(ins: seq<GaitInput>) {
    forall t :: 0 <= t < |ins| ==> ins[t].Valid()
  }

  /** The state after the first `t` cycles of a run. */
  function StateAt(cfg: WalkConfig, w0: Walk, ins: seq<GaitInput>, t: nat): (w: Walk)
    requires cfg.Valid() && w0.Valid() && ValidInputs(ins) && t <= |ins|
    ensures w.Valid()
  {
    if t == 0 then w0 else Step(cfg, StateAt(cfg, w0, ins, t - 1), ins[t - 1])
  }

  ghost predicate LiftsAt(cfg: WalkConfig, w0: Walk, ins: seq<GaitInput>, t: nat, i: nat)
    requires cfg.Valid() && w0.Valid() && ValidInputs(ins) && t < |ins|
  {
    Lifts(cfg, StateAt(cfg, w0, ins, t), ins[t], i)
  }

  ghost predicate TouchesDownAt(cfg: WalkConfig, w0: Walk, ins: seq<GaitInput>, t: nat, i: nat)
    requires cfg.Valid() && w0.Valid() && ValidInputs(ins) && t < |ins| && i < 2
  {
    TouchesDown(cfg, StateAt(cfg, w0, ins, t), ins[t], i)
  }

  /** The duration of `n` cycles. */
  ghost function Elapsed(period: real, n: nat): real {
    if n == 0 then 0.0 else Elapsed(period, n - 1) + period
  }

  /** The least number of cycles that last longer than a duration. */
  function CyclesToExceed(duration: real, period: real): (n: nat)
    requires period > 0.0 && duration >= 0.0
    ensures n >= 1
  {
    QuotientBelow(0.0, duration, period);
    (duration / period).Floor + 1
  }

  lemma {:induction false} ElapsedIsProduct(period: real, n: nat)
    ensures Elapsed(period, n) == n as real * period
  {
    if n > 0 {
      ElapsedIsProduct(period, n - 1);
      assert n as real * period == (n - 1) as real * period + period;
    }
  }

  lemma CyclesExceed(n: nat, duration: real, period: real)
    requires period > 0.0 && duration >= 0.0
    ensures Elapsed(period, n) > duration <==> n >= CyclesToExceed(duration, period)
  {
    ElapsedIsProduct(period, n);
    assert (duration / period) * period == duration;
    ProductOrder(n as real, duration / period, period);
  }

  /** Lifted in cycle `a` and not down again by cycle `t`: the swing clock counts the cycles. */
  lemma {:induction false} SwingClock(cfg: WalkConfig, w0: Walk, ins: seq<GaitInput>, i: nat, a: nat, t: nat)
    requires cfg.Valid() && w0.Valid() && ValidInputs(ins) && i < 2 && a <= t < |ins|
    requires LiftsAt(cfg, w0, ins, a, i)
    requires forall u :: a <= u <= t ==> !TouchesDownAt(cfg, w0, ins, u, i)
    ensures var w := StateAt(cfg, w0, ins, t + 1);
            && !w.InStance(i)
            && w.vlegs[i].swingElapsed == Elapsed(cfg.period, t - a + 1) <= cfg.maxSwing
  {
    hide Step, Lifts, TouchesDown;
    if a < t {
      SwingClock(cfg, w0, ins, i, a, t - 1);
    }
    StepVleg(cfg, StateAt(cfg, w0, ins, t), ins[t], i);
    assert !TouchesDownAt(cfg, w0, ins, t, i);
  }

  /** Every completed swing lasts between floor(min_swing / period) + 1 and
      floor(max_swing / period) + 1 cycles, however the plan changes while it is under way. */
  lemma SwingDuration(cfg: WalkConfig, w0: Walk, ins: seq<GaitInput>, i: nat, a: nat, b: nat)
    requires cfg.Valid() && w0.Valid() && ValidInputs(ins) && i < 2 && a <= b < |ins|
    requires LiftsAt(cfg, w0, ins, a, i) && TouchesDownAt(cfg, w0, ins, b, i)
    requires forall u :: a <= u < b ==> !TouchesDownAt(cfg, w0, ins, u, i)
    ensures CyclesToExceed(cfg.minSwing, cfg.period) <= b - a + 1 <= CyclesToExceed(cfg.maxSwing, cfg.period)
  {
    hide Step, Lifts, TouchesDown;
    if a < b {
      SwingClock(cfg, w0, ins, i, a, b - 1);
    }
    StepVleg(cfg, StateAt(cfg, w0, ins, b), ins[b], i);
    CyclesExceed(b - a + 1, cfg.minSwing, cfg.period);
    CyclesExceed(b - a, cfg.maxSwing, cfg.period);
  }

  /** Every swing ends: a lifted vleg is down again within floor(max_swing / period) + 1 cycles. */
  lemma SwingEnds(cfg: WalkConfig, w0: Walk, ins: seq<GaitInput>, i: nat, a: nat)
    requires cfg.Valid() && w0.Valid() && ValidInputs(ins) && i < 2 && a < |ins|
    requires LiftsAt(cfg, w0, ins, a, i)
    requires a + CyclesToExceed(cfg.maxSwing, cfg.period) <= |ins|
    ensures exists b :: a <= b < a + CyclesToExceed(cfg.maxSwing, cfg.period)
                        && TouchesDownAt(cfg, w0, ins, b, i)
  {
    hide Step, TouchesDown;
    var n := CyclesToExceed(cfg.maxSwing, cfg.period);
    CyclesExceed(n, cfg.maxSwing, cfg.period);
    if forall b :: a <= b < a + n ==> !TouchesDownAt(cfg, w0, ins, b, i) {
      SwingClock(cfg, w0, ins, i, a, a + n - 1);
    }
  }

  /** While no flight is planned, at least one vleg stays on the ground. */
  lemma {:induction false} GroundSupport(cfg: WalkConfig, w0: Walk, ins: seq<GaitInput>, t: nat)
    requires cfg.Valid() && w0.Valid() && ValidInputs(ins) && t <= |ins|
    requires w0.InStance(0) || w0.InStance(1)
    requires forall u :: 0 < u <= t ==> StateAt(cfg, w0, ins, u).trot.flight == 0.0
    ensures var w := StateAt(cfg, w0, ins, t); w.InStance(0) || w.InStance(1)
  {
    if t > 0 {
      GroundSupport(cfg, w0, ins, t - 1);
      var w := StateAt(cfg, w0, ins, t - 1);
      assert StateAt(cfg, w0, ins, t).trot.flight == 0.0;
      StepVleg(cfg, w, ins[t - 1], 0);
      StepVleg(cfg, w, ins[t - 1], 1);
      CountTwo(Observe(cfg, w, ins[t - 1]).vlegs);
    }
  }

  lemma {:induction false} DoubleSupportClock(cfg: WalkConfig, w0: Walk, ins: seq<GaitInput>, a: nat, t: nat)
    requires cfg.Valid() && w0.Valid() && ValidInputs(ins) && a <= t < |ins|
    requires forall u :: a <= u <= t ==> StateAt(cfg, w0, ins, u).AllStance()
    ensures StateAt(cfg, w0, ins, t + 1).stanceElapsed >= Elapsed(cfg.period, t - a + 1)
  {
    if a < t {
      DoubleSupportClock(cfg, w0, ins, a, t - 1);
    }
    assert StateAt(cfg, w0, ins, t).AllStance();
  }

  /** Double support past the configured maximum forces a lift, whatever else the cycle sees. */
  lemma OverdueLifts(cfg: WalkConfig, w: Walk, inp: GaitInput) returns (i: nat)
    requires cfg.Valid() && w.Valid() && inp.Valid() && w.AllStance()
    requires Step(cfg, w, inp).stanceElapsed > cfg.maxStance
    ensures i < 2 && Lifts(cfg, w, inp, i)
  {
    var o := Observe(cfg, w, inp);
    CountTwo(o.vlegs);
    LiftsFromStance(cfg, w, inp);
    i := Lifted(cfg, o).value;
  }

  lemma DoubleSupportEndsIn(cfg: WalkConfig, w0: Walk, ins: seq<GaitInput>, a: nat, n: nat)
    returns (i: nat)
    requires cfg.Valid() && w0.Valid() && ValidInputs(ins) && 1 <= n && a + n <= |ins|
    requires Elapsed(cfg.period, n) > cfg.maxStance
    requires forall u :: a <= u < a + n ==> StateAt(cfg, w0, ins, u).AllStance()
    ensures i < 2 && LiftsAt(cfg, w0, ins, a + n - 1, i)
  {
    hide Step, Lifts;
    var last := a + n - 1;
    DoubleSupportClock(cfg, w0, ins, a, last);
    assert StateAt(cfg, w0, ins, last).AllStance();
    i := OverdueLifts(cfg, StateAt(cfg, w0, ins, last), ins[last]);
  }

  /** Unbroken double support ends with a lift within floor(max_stance / period) + 1 cycles. */
  lemma DoubleSupportEnds(cfg: WalkConfig, w0: Walk, ins: seq<GaitInput>, a: nat, n: nat)
    requires cfg.Valid() && w0.Valid() && ValidInputs(ins) && a + n <= |ins|
    requires n == CyclesToExceed(cfg.maxStance, cfg.period)
    requires forall u :: a <= u < a + n ==> StateAt(cfg, w0, ins, u).AllStance()
    ensures exists u, i :: a <= u < a + n && i < 2 && LiftsAt(cfg, w0, ins, u, i)
  {
    CyclesExceed(n, cfg.maxStance, cfg.period);
    var i := DoubleSupportEndsIn(cfg, w0, ins, a, n);
  }

  /** From the cycle in which the other vleg lifts until the next lift, the stance clock of a
      grounded vleg counts the cycles and its phase continues past the planned swing. */
  lemma {:induction false} StanceClock(cfg: WalkConfig, w0: Walk, ins: seq<GaitInput>, i: nat, a: nat, t: nat)
    requires cfg.Valid() && w0.Valid() && ValidInputs(ins) && i < 2 && a <= t < |ins|
    requires LiftsAt(cfg, w0, ins, a, 1 - i) && StateAt(cfg, w0, ins, a).InStance(i)
    requires forall u, j :: a < u <= t && 0 <= j < 2 ==> !LiftsAt(cfg, w0, ins, u, j)
    ensures var w := StateAt(cfg, w0, ins, t + 1);
            && w.InStance(i)
            && w.vlegs[i].stanceElapsed == Elapsed(cfg.period, t - a + 1)
            && w.vlegs[i].phase == w.trot.swing + w.vlegs[i].stanceElapsed
  {
    hide Step, Lifted;
    if a < t {
      StanceClock(cfg, w0, ins, i, a, t - 1);
      assert !LiftsAt(cfg, w0, ins, t, i) && !LiftsAt(cfg, w0, ins, t, 1 - i);
    }
    StepGroundedVleg(cfg, StateAt(cfg, w0, ins, t), ins[t], i);
  }

  // ---- the stance of the commanded legs ---------------------------------------------------------

  /** A leg is commanded off the ground exactly when its vleg swings. */
  ghost predicate LegsMatch(w: Walk, legs: seq<Leg>) {
    && |w.vlegs| == 2
    && FourLegs(legs)
    && forall i :: 0 <= i < 4 ==>
         && 0.0 <= legs[i].stance <= 1.0
         && (legs[i].stance == 0.0 <==> !w.InStance(VlegOf(i)))
  }

  /** What a gait cycle needs of the legs it starts from: those of grounded vlegs are grounded. */
  ghost predicate LegsUsable(w: Walk, legs: seq<Leg>) {
    && |w.vlegs| == 2
    && FourLegs(legs)
    && forall i :: 0 <= i < 4 && w.InStance(VlegOf(i)) ==> 0.0 < legs[i].stance <= 1.0
  }

  /** After every gait cycle the legs match the vlegs, even when the gait resumes with an old
      walk state on legs that stand fully. */
  lemma StepMatchesLegs(cfg: WalkConfig, w: Walk, inp: GaitInput, legs: seq<Leg>)
    requires cfg.Valid() && w.Valid() && inp.Valid()
    requires LegsUsable(w, legs)
    ensures LegsMatch(Step(cfg, w, inp), StepLegs(cfg, w, inp, legs))
  {
    StepVleg(cfg, w, inp, 0);
    StepVleg(cfg, w, inp, 1);
    assert cfg.stanceRestore * cfg.period >= 0.0;
  }

  lemma FullStanceMeansBothDown(w: Walk, legs: seq<Leg>)
    requires LegsMatch(w, legs)
    requires forall i :: 0 <= i < 4 ==> legs[i].stance == 1.0
    ensures w.AllStance()
  {
    assert legs[0].stance == 1.0 && legs[1].stance == 1.0;
    assert VlegOf(0) == 0 && VlegOf(1) == 1;
  }

  // ---- the cycle as the controller performs it ----------------------------------------------------

  class WalkContext {
    const cfg: WalkConfig
    var vlegs: seq<VLeg>
    var nextStepVleg: nat
    var stanceElapsed: real
    var trot: Trot
    var idleCount: nat
    var legs: seq<Leg>

    ghost predicate Valid()
      reads this
    {
      cfg.Valid() && State().Valid() && FourLegs(legs)
    }

    ghost function State(): Walk
      reads this
    {
      Walk(vlegs, nextStepVleg, stanceElapsed, trot, idleCount)
    }

    constructor (cfg: WalkConfig, w: Walk, legs: seq<Leg>)
      requires cfg.Valid() && w.Valid() && FourLegs(legs)
      ensures Valid() && this.cfg == cfg && State() == w && this.legs == legs
    {
      this.cfg := cfg;
      vlegs, nextStepVleg, stanceElapsed, trot, idleCount :=
        w.vlegs, w.nextStepVleg, w.stanceElapsed, w.trot, w.idleCount;
      this.legs := legs;
    }

    method Count() returns (n: nat)
      requires |vlegs| == 2
      ensures n == CountStance(vlegs, 2)
    {
      n := 0;
      for i := 0 to 2
        invariant n == CountStance(vlegs, i)
      {
        if vlegs[i].mode.Stance? {
          n := n + 1;
        }
      }
    }

    method UpdateGlobal()
      requires Valid()
      modifies this`stanceElapsed
      ensures stanceElapsed == if old(State()).AllStance() then old(stanceElapsed) + cfg.period else 0.0
    {
      var n := Count();
      CountTwo(vlegs);
      if n == 2 {
        stanceElapsed := stanceElapsed + cfg.period;
      } else {
        stanceElapsed := 0.0;
      }
    }

    method UpdateEstimates(inp: GaitInput)
      requires Valid() && inp.Valid()
      modifies this`vlegs
      ensures vlegs == [old(vlegs)[0].(remaining := inp.remaining[0], invalidTime := inp.invalidTime[0]),
                        old(vlegs)[1].(remaining := inp.remaining[1], invalidTime := inp.invalidTime[1])]
    {
      for i := 0 to 2
        invariant |vlegs| == 2
        invariant forall j :: 0 <= j < i ==>
          vlegs[j] == old(vlegs)[j].(remaining := inp.remaining[j], invalidTime := inp.invalidTime[j])
        invariant forall j :: i <= j < 2 ==> vlegs[j] == old(vlegs)[j]
      {
        vlegs := vlegs[i := vlegs[i].(remaining := inp.remaining[i])];
        vlegs := vlegs[i := vlegs[i].(invalidTime := inp.invalidTime[i])];
      }
    }

    method ChooseVleg() returns (choice: Option<int>)
      requires Valid()
      ensures choice == VlegToLift(cfg, State())
    {
      var biggestRemaining, smallestInvalid, smallest, totalInvalid := NegInf, PosInf, -1, Fin(0.0);
      for i := 0 to 2
        invariant Scan(biggestRemaining, smallestInvalid, smallest, totalInvalid) == ScanUpTo(vlegs, i)
      {
        if vlegs[i].mode.Stance? {
          if Lt(biggestRemaining, vlegs[i].remaining) {
            biggestRemaining := vlegs[i].remaining;
          }
          if Lt(vlegs[i].invalidTime, smallestInvalid) {
            smallestInvalid, smallest := vlegs[i].invalidTime, i;
          }
          totalInvalid := Add(totalInvalid, vlegs[i].invalidTime);
        }
      }
      if trot.twovleg >= cfg.minInvalidTime && smallestInvalid.Fin? && totalInvalid.Fin? {
        var otherInvalid := totalInvalid.r - smallestInvalid.r;
        if smallestInvalid.r < cfg.minInvalidTime || otherInvalid < trot.swing + cfg.minInvalidTime {
          if Lt(Abs(Sub(vlegs[0].invalidTime, vlegs[1].invalidTime)), Fin(0.75 * trot.swing)) {
            return Some(-1);
          }
          return Some(smallest);
        }
      }
      if stanceElapsed > cfg.maxStance {
        return Some(-1);
      }
      if trot.flight <= 0.0 {
        if !biggestRemaining.Fin? {
          if stanceElapsed >= trot.twovleg {
            return Some(-1);
          }
        } else if biggestRemaining.r < 0.5 * trot.swing {
          return Some(-1);
        }
      } else {
        for i := 0 to 2
          invariant FlightLift(State(), 0) == FlightLift(State(), i)
        {
          if FlightLiftDue(trot, vlegs[i], vlegs[(i + 1) % 2]) {
            return Some(i);
          }
        }
      }
      return None;
    }

    method Lift(i: nat)
      requires Valid() && i < 2
      modifies this`vlegs
      ensures State() == LiftVleg(old(State()), i)
    {
      vlegs := vlegs[i := vlegs[i].(swingElapsed := 0.0)];
      vlegs := vlegs[i := vlegs[i].(mode := Swing)];
      var alternate := (i + 1) % 2;
      vlegs := vlegs[alternate := vlegs[alternate].(stanceElapsed := 0.0)];
    }

    method MaybeLiftNow()
      requires Valid()
      requires Lifted(cfg, State()).Some? ==> Lifted(cfg, State()).value < 2
      modifies this`vlegs, this`nextStepVleg
      ensures State() == MaybeLift(cfg, old(State()))
    {
      var n := Count();
      if n == 0 || (n <= 1 && trot.flight <= 0.0) {
        return;
      }
      var choice := ChooseVleg();
      if choice.None? {
        return;
      }
      if choice.value >= 0 {
        nextStepVleg := choice.value;
      }
      Lift(nextStepVleg);
      nextStepVleg := (nextStepVleg + 1) % 2;
    }

    /** One vleg and its two legs. */
    method PropagateOne(i: nat, inp: GaitInput)
      requires Valid() && i < 2
      modifies this`vlegs, this`legs, this`idleCount
      ensures vlegs == old(vlegs)[i := PropagateVleg(cfg, trot, old(vlegs)[i])]
      ensures idleCount == CountIdle(Lands(cfg, trot, old(vlegs)[i]), inp, old(idleCount))
      ensures FourLegs(legs)
      ensures forall k :: 0 <= k < 4 ==>
                legs[k] == if VlegOf(k) == i
                           then Leg(k, PropagateStance(cfg, trot, old(vlegs)[i], old(legs)[k].stance))
                           else old(legs)[k]
    {
      var v := vlegs[i];
      if v.mode.Swing? {
        vlegs := vlegs[i := v.(swingElapsed := v.swingElapsed + cfg.period, stanceElapsed := 0.0)];
        vlegs := vlegs[i := vlegs[i].(phase := vlegs[i].swingElapsed)];
      } else {
        vlegs := vlegs[i := v.(stanceElapsed := v.stanceElapsed + cfg.period, swingElapsed := 0.0)];
        vlegs := vlegs[i := vlegs[i].(phase := trot.swing + vlegs[i].stanceElapsed)];
      }
      var first, second := VLEG_MAPPING[i][0], VLEG_MAPPING[i][1];
      if v.mode.Swing? {
        legs := legs[first := Leg(first, 0.0)][second := Leg(second, 0.0)];
      } else {
        legs := legs[first := Leg(first, RealMin(1.0, legs[first].stance + cfg.stanceRestore * cfg.period))];
        legs := legs[second := Leg(second, RealMin(1.0, legs[second].stance + cfg.stanceRestore * cfg.period))];
      }
      if vlegs[i].swingElapsed > trot.swing {
        vlegs := vlegs[i := vlegs[i].(mode := Stance, swingElapsed := 0.0)];
        if inp.speed == 0.0 && !inp.turning {
          idleCount := idleCount + 1;
        } else {
          idleCount := 0;
        }
        legs := legs[first := Leg(first, cfg.initialStance)][second := Leg(second, cfg.initialStance)];
      }
    }

    /** One cycle.  The new state and the new legs are those of the step functions, so everything
        proved about runs holds of every sequence of calls. */
    method Run(inp: GaitInput)
      requires Valid() && inp.Valid()
      modifies this
      ensures Valid()
      ensures State() == Step(cfg, old(State()), inp)
      ensures legs == StepLegs(cfg, old(State()), inp, old(legs))
      ensures LegsUsable(old(State()), old(legs)) ==> LegsMatch(State(), legs)
    {
      ghost var w, oldLegs := State(), legs;
      UpdateGlobal();
      UpdateEstimates(inp);
      trot := CalculateTrot(cfg, inp.maximizeFlight, inp.travel, inp.speed);
      assert State() == Observe(cfg, w, inp);
      LiftsFromStance(cfg, w, inp);
      MaybeLiftNow();
      ghost var m := State();
      assert m == MidStep(cfg, w, inp);
      for i := 0 to 2
        invariant State() == m.(vlegs := vlegs, idleCount := IdleUpTo(cfg, m, inp, i))
        invariant |vlegs| == 2 && FourLegs(legs)
        invariant forall j :: 0 <= j < 2 ==>
          vlegs[j] == if j < i then PropagateVleg(cfg, m.trot, m.vlegs[j]) else m.vlegs[j]
        invariant forall k :: 0 <= k < 4 ==>
          legs[k] == if VlegOf(k) < i then PropagateLegs(cfg, m, oldLegs)[k] else oldLegs[k]
      {
        PropagateOne(i, inp);
      }
      assert State() == Propagate(cfg, m, inp);
      assert legs == PropagateLegs(cfg, m, oldLegs);
      if LegsUsable(w, oldLegs) {
        StepMatchesLegs(cfg, w, inp, oldLegs);
      }
    }
  }
}
