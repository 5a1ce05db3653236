/** When the trot gait lifts a vleg and which one, what it plans, and how it loads the legs again:
    each said on the inputs and the state of a cycle, or over runs of cycles. */
module GaitLaws {
  import opened Wrappers
  import opened Doubles
  import opened TrotPlanner
  import opened TrotGait

  // ---- what one cycle takes over ------------------------------------------------------------------

  /** The plan in force is the one for this cycle's travel distance, speed and flight wish. */
  lemma PlanIsCurrent(cfg: WalkConfig, w: Walk, inp: GaitInput)
    requires cfg.Valid() && w.Valid() && inp.Valid()
    ensures Step(cfg, w, inp).trot == CalculateTrot(cfg, inp.maximizeFlight, inp.travel, inp.speed)
  {
    hide CalculateTrot, Lifted;
  }

  /** A lift makes the other vleg the next; without one the next vleg stays. */
  lemma NextAfterStep(cfg: WalkConfig, w: Walk, inp: GaitInput)
    requires cfg.Valid() && w.Valid() && inp.Valid()
    ensures Lifts(cfg, w, inp, 0) ==> Step(cfg, w, inp).nextStepVleg == 1
    ensures Lifts(cfg, w, inp, 1) ==> Step(cfg, w, inp).nextStepVleg == 0
    ensures !Lifts(cfg, w, inp, 0) && !Lifts(cfg, w, inp, 1) ==>
              Step(cfg, w, inp).nextStepVleg == w.nextStepVleg
  {
    LiftsFromStance(cfg, w, inp);
    hide CalculateTrot, Lifted;
  }

  /** The double-support clock, this cycle included. */
  function Clock(cfg: WalkConfig, w: Walk): real { w.stanceElapsed + cfg.period }

  /** The double-support clock runs while both vlegs are down and starts again otherwise. */
  lemma ClockAfterStep(cfg: WalkConfig, w: Walk, inp: GaitInput)
    requires cfg.Valid() && w.Valid() && inp.Valid()
    ensures Step(cfg, w, inp).stanceElapsed == if w.AllStance() then Clock(cfg, w) else 0.0
  {
    hide CalculateTrot, Lifted;
  }

  /** The phase of a vleg is its time in the air, and on the ground the planned swing and its time
      there. */
  lemma PhaseAfterStep(cfg: WalkConfig, w: Walk, inp: GaitInput, i: nat)
    requires cfg.Valid() && w.Valid() && inp.Valid() && i < 2
    ensures
      var w' := Step(cfg, w, inp);
      && (!w'.InStance(i) ==> w'.vlegs[i].phase == w'.vlegs[i].swingElapsed && w'.vlegs[i].stanceElapsed == 0.0)
      && (w'.InStance(i) && !TouchesDown(cfg, w, inp, i) ==>
            w'.vlegs[i].phase == w'.trot.swing + w'.vlegs[i].stanceElapsed)
      && (TouchesDown(cfg, w, inp, i) ==> w'.vlegs[i].phase > w'.trot.swing && w'.vlegs[i].stanceElapsed == 0.0)
  {
    PlanIsCurrent(cfg, w, inp);
    PlanIsFeasible(cfg, inp.maximizeFlight, inp.travel, inp.speed);
    hide CalculateTrot, Lifted;
  }

  // ---- when and what a cycle lifts ----------------------------------------------------------------

  /** With both vlegs down and at least the least invalid time of double support planned, some vleg
      will leave its valid region before the other could complete a swing. */
  predicate TravelShort(cfg: WalkConfig, trot: Trot, inp: GaitInput)
    requires |inp.invalidTime| == 2
  {
    var a, b := inp.invalidTime[0], inp.invalidTime[1];
    && trot.twovleg >= cfg.minInvalidTime
    && a.Fin? && b.Fin?
    && (a.r < cfg.minInvalidTime || b.r < cfg.minInvalidTime
        || (a.r < trot.swing + cfg.minInvalidTime && b.r < trot.swing + cfg.minInvalidTime))
  }

  /** ... and one does so three quarters of a swing before the other, so that it is lifted itself. */
  predicate NamesVleg(cfg: WalkConfig, trot: Trot, inp: GaitInput)
    requires |inp.invalidTime| == 2
  {
    && TravelShort(cfg, trot, inp)
    && var d := inp.invalidTime[0].r - inp.invalidTime[1].r;
       d >= 0.75 * trot.swing || d <= -0.75 * trot.swing
  }

  /** The balance asks for a lift: both vlegs reach the balance line within half a swing, or, when
      that cannot be told, the planned double support is over. */
  predicate BalanceDue(trot: Trot, inp: GaitInput, clock: real)
    requires |inp.remaining| == 2
  {
    var a, b := inp.remaining[0], inp.remaining[1];
    if a.PosInf? || b.PosInf? || (!a.Fin? && !b.Fin?) then clock >= trot.twovleg
    else (a.Fin? ==> a.r < 0.5 * trot.swing) && (b.Fin? ==> b.r < 0.5 * trot.swing)
  }

  lemma ScanTwo(cfg: WalkConfig, w: Walk, inp: GaitInput)
    requires cfg.Valid() && w.Valid() && inp.Valid() && w.AllStance()
    ensures
      var o := Observe(cfg, w, inp);
      var s := ScanUpTo(o.vlegs, 2);
      var a, b := inp.invalidTime[0], inp.invalidTime[1];
      && (RunningOut(cfg, o.trot, s) <==> TravelShort(cfg, o.trot, inp))
      && (a.Fin? && b.Fin? ==> s.smallest == if b.r < a.r then 1 else 0)
      && (if s.biggestRemaining.Fin? then
            BalanceDue(o.trot, inp, 0.0) <==> s.biggestRemaining.r < 0.5 * o.trot.swing
          else
            inp.remaining[0].PosInf? || inp.remaining[1].PosInf?
            || (!inp.remaining[0].Fin? && !inp.remaining[1].Fin?))
      && (s.biggestRemaining.Fin? ==>
            !inp.remaining[0].PosInf? && !inp.remaining[1].PosInf?
            && (inp.remaining[0].Fin? || inp.remaining[1].Fin?))
  {
    hide CalculateTrot;
    var o := Observe(cfg, w, inp);
    assert ScanUpTo(o.vlegs, 1) == ScanVleg(EMPTY_SCAN, 0, o.vlegs[0]);
  }

  /** Without planned flight a cycle lifts exactly from double support, and exactly when the travel
      runs short, the double support is overdue, or the balance asks for it; it lifts the vleg whose
      travel ends well before the other's, or else the next one. */
  lemma LiftIff(cfg: WalkConfig, w: Walk, inp: GaitInput, i: nat)
    requires cfg.Valid() && w.Valid() && inp.Valid() && i < 2
    requires Step(cfg, w, inp).trot.flight == 0.0
    ensures
      var trot := Step(cfg, w, inp).trot;
      Lifts(cfg, w, inp, i) <==>
        && w.AllStance()
        && (TravelShort(cfg, trot, inp) || Clock(cfg, w) > cfg.maxStance || BalanceDue(trot, inp, Clock(cfg, w)))
        && i == if NamesVleg(cfg, trot, inp) then (if inp.invalidTime[1].r < inp.invalidTime[0].r then 1 else 0)
                else w.nextStepVleg
  {
    PlanIsCurrent(cfg, w, inp);
    PlanIsFeasible(cfg, inp.maximizeFlight, inp.travel, inp.speed);
    hide CalculateTrot, Step;
    var o := Observe(cfg, w, inp);
    CountTwo(o.vlegs);
    if w.AllStance() {
      ScanTwo(cfg, w, inp);
      hide ScanUpTo, RunningOut;
    }
  }

  /** With planned flight a cycle lifts the next vleg when the double support is overdue, and else the
      first grounded vleg that is due: the one whose time on the ground, corrected by half of how far
      the other is from its place, reaches the planned single support. */
  lemma FlightLiftIff(cfg: WalkConfig, w: Walk, inp: GaitInput, i: nat)
    requires cfg.Valid() && w.Valid() && inp.Valid() && i < 2
    requires Step(cfg, w, inp).trot.flight > 0.0
    ensures
      var trot := Step(cfg, w, inp).trot;
      Lifts(cfg, w, inp, i) <==>
        if w.AllStance() && Clock(cfg, w) > cfg.maxStance then i == w.nextStepVleg
        else FlightDue(w, trot, i) && (i == 1 ==> !FlightDue(w, trot, 0))
  {
    PlanIsCurrent(cfg, w, inp);
    PlanIsFeasible(cfg, inp.maximizeFlight, inp.travel, inp.speed);
    hide CalculateTrot, Step;
    var o := Observe(cfg, w, inp);
    CountTwo(o.vlegs);
    assert !RunningOut(cfg, o.trot, ScanUpTo(o.vlegs, 2));
    hide ScanUpTo, RunningOut;
  }

  predicate FlightDue(w: Walk, trot: Trot, i: nat)
    requires |w.vlegs| == 2 && i < 2
  {
    && w.InStance(i)
    && w.vlegs[i].stanceElapsed >= trot.onevleg + 0.5 * (trot.swing - trot.flight - w.vlegs[1 - i].phase)
  }

  // ---- over runs ----------------------------------------------------------------------------------

  /** A cycle that lifts vleg `i` leaves the other one as the next. */
  lemma LiftMakesOtherNext(cfg: WalkConfig, w0: Walk, ins: seq<GaitInput>, t: nat, i: nat)
    requires cfg.Valid() && w0.Valid() && ValidInputs(ins) && t < |ins| && i < 2
    requires LiftsAt(cfg, w0, ins, t, i)
    ensures StateAt(cfg, w0, ins, t + 1).nextStepVleg == 1 - i
  {
    NextAfterStep(cfg, StateAt(cfg, w0, ins, t), ins[t]);
    hide Step, Lifted;
  }

  lemma {:induction false} NextWaits(cfg: WalkConfig, w0: Walk, ins: seq<GaitInput>, a: nat, b: nat, i: nat)
    requires cfg.Valid() && w0.Valid() && ValidInputs(ins) && a < b <= |ins| && i < 2
    requires LiftsAt(cfg, w0, ins, a, i)
    requires forall u, j :: a < u < b && 0 <= j < 2 ==> !LiftsAt(cfg, w0, ins, u, j)
    ensures StateAt(cfg, w0, ins, b).nextStepVleg == 1 - i
    decreases b
  {
    hide Step, Lifted;
    if b == a + 1 {
      LiftMakesOtherNext(cfg, w0, ins, a, i);
    } else {
      NextWaits(cfg, w0, ins, a, b - 1, i);
      assert !LiftsAt(cfg, w0, ins, b - 1, 0) && !LiftsAt(cfg, w0, ins, b - 1, 1);
      NextAfterStep(cfg, StateAt(cfg, w0, ins, b - 1), ins[b - 1]);
    }
  }

  /** Consecutive lifts are of different vlegs, unless flight is planned at the second or the travel
      of a specific vleg runs short there. */
  lemma LiftsAlternate(cfg: WalkConfig, w0: Walk, ins: seq<GaitInput>, a: nat, b: nat, i: nat, j: nat)
    requires cfg.Valid() && w0.Valid() && ValidInputs(ins) && a < b < |ins| && i < 2 && j < 2
    requires LiftsAt(cfg, w0, ins, a, i) && LiftsAt(cfg, w0, ins, b, j)
    requires forall u, k :: a < u < b && 0 <= k < 2 ==> !LiftsAt(cfg, w0, ins, u, k)
    requires var trot := StateAt(cfg, w0, ins, b + 1).trot;
             trot.flight == 0.0 && !NamesVleg(cfg, trot, ins[b])
    ensures j == 1 - i
  {
    NextWaits(cfg, w0, ins, a, b, i);
    hide Step, Lifted, TravelShort, BalanceDue;
    LiftIff(cfg, StateAt(cfg, w0, ins, b), ins[b], j);
  }

  // ---- idling -------------------------------------------------------------------------------------

  predicate AtRest(inp: GaitInput) { inp.speed == 0.0 && !inp.turning }

  /** Touchdowns at rest are counted, and one in motion starts the count again. */
  lemma IdleAfterStep(cfg: WalkConfig, w: Walk, inp: GaitInput)
    requires cfg.Valid() && w.Valid() && inp.Valid()
    ensures
      var landings := (if TouchesDown(cfg, w, inp, 0) then 1 else 0) + (if TouchesDown(cfg, w, inp, 1) then 1 else 0);
      Step(cfg, w, inp).idleCount == if landings == 0 then w.idleCount
                                     else if AtRest(inp) then w.idleCount + landings
                                     else 0
  {
    hide CalculateTrot, Lifted;
    var m := MidStep(cfg, w, inp);
    assert m.idleCount == w.idleCount;
    hide Lands;
    assert IdleUpTo(cfg, m, inp, 1) == CountIdle(Lands(cfg, m.trot, m.vlegs[0]), inp, m.idleCount);
  }

  /** The last touchdown before cycle `t` came at rest. */
  ghost predicate RestedAt(cfg: WalkConfig, w0: Walk, ins: seq<GaitInput>, u: nat, t: nat)
    requires cfg.Valid() && w0.Valid() && ValidInputs(ins) && t <= |ins|
  {
    && u < t && AtRest(ins[u])
    && (TouchesDownAt(cfg, w0, ins, u, 0) || TouchesDownAt(cfg, w0, ins, u, 1))
    && forall v, i :: u < v < t && 0 <= i < 2 ==> !TouchesDownAt(cfg, w0, ins, v, i)
  }

  /** Over runs, an idle count means that the last touchdown came at rest. */
  lemma {:induction false} IdleMeansRested(cfg: WalkConfig, w0: Walk, ins: seq<GaitInput>, t: nat)
    requires cfg.Valid() && w0.Valid() && ValidInputs(ins) && t <= |ins| && w0.idleCount == 0
    requires StateAt(cfg, w0, ins, t).idleCount > 0
    ensures exists u :: RestedAt(cfg, w0, ins, u, t)
    decreases t
  {
    hide Step, TouchesDown;
    if t > 0 {
      IdleAfterStep(cfg, StateAt(cfg, w0, ins, t - 1), ins[t - 1]);
      if TouchesDownAt(cfg, w0, ins, t - 1, 0) || TouchesDownAt(cfg, w0, ins, t - 1, 1) {
        assert RestedAt(cfg, w0, ins, t - 1, t);
      } else {
        IdleMeansRested(cfg, w0, ins, t - 1);
        var u :| RestedAt(cfg, w0, ins, u, t - 1);
        assert RestedAt(cfg, w0, ins, u, t);
      }
    }
  }

  // ---- loading the legs ---------------------------------------------------------------------------

  /** A leg whose vleg touches down starts at the initial stance, one in the air carries nothing, and
      one on the ground is loaded by the configured rate up to the full stance. */
  lemma StanceAfterStep(cfg: WalkConfig, w: Walk, inp: GaitInput, legs: seq<Leg>, k: nat)
    requires cfg.Valid() && w.Valid() && inp.Valid() && FourLegs(legs) && k < 4
    ensures
      var stance, i := StepLegs(cfg, w, inp, legs)[k].stance, VlegOf(k);
      && (TouchesDown(cfg, w, inp, i) ==> stance == cfg.initialStance)
      && (!TouchesDown(cfg, w, inp, i) && !Step(cfg, w, inp).InStance(i) ==> stance == 0.0)
      && (!TouchesDown(cfg, w, inp, i) && Step(cfg, w, inp).InStance(i) ==>
            stance == RealMin(1.0, legs[k].stance + cfg.stanceRestore * cfg.period))
  {
    hide CalculateTrot, Lifted;
  }

  function LegsAt(cfg: WalkConfig, w0: Walk, ins: seq<GaitInput>, legs0: seq<Leg>, t: nat): (legs: seq<Leg>)
    requires cfg.Valid() && w0.Valid() && ValidInputs(ins) && FourLegs(legs0) && t <= |ins|
    ensures FourLegs(legs)
  {
    if t == 0 then legs0
    else StepLegs(cfg, StateAt(cfg, w0, ins, t - 1), ins[t - 1], LegsAt(cfg, w0, ins, legs0, t - 1))
  }

  ghost predicate StaysDown(cfg: WalkConfig, w0: Walk, ins: seq<GaitInput>, u: nat, i: nat)
    requires cfg.Valid() && w0.Valid() && ValidInputs(ins) && u < |ins| && i < 2
  {
    !TouchesDownAt(cfg, w0, ins, u, i) && StateAt(cfg, w0, ins, u + 1).InStance(i)
  }

  /** From a touchdown on, while its vleg stays down, a leg's stance grows evenly to one. */
  lemma {:induction false} StanceRestores(cfg: WalkConfig, w0: Walk, ins: seq<GaitInput>, legs0: seq<Leg>,
                                          k: nat, a: nat, t: nat)
    requires cfg.Valid() && w0.Valid() && ValidInputs(ins) && FourLegs(legs0) && k < 4 && a < t <= |ins|
    requires TouchesDownAt(cfg, w0, ins, a, VlegOf(k))
    requires forall u :: a < u < t ==> StaysDown(cfg, w0, ins, u, VlegOf(k))
    ensures LegsAt(cfg, w0, ins, legs0, t)[k].stance
            == RealMin(1.0, cfg.initialStance + Elapsed(cfg.stanceRestore * cfg.period, t - a - 1))
    decreases t
  {
    hide Step, TouchesDown, StepLegs;
    var before := LegsAt(cfg, w0, ins, legs0, t - 1);
    StanceAfterStep(cfg, StateAt(cfg, w0, ins, t - 1), ins[t - 1], before, k);
    if t - 1 > a {
      StanceRestores(cfg, w0, ins, legs0, k, a, t - 1);
      assert StaysDown(cfg, w0, ins, t - 1, VlegOf(k));
      var rate, n := cfg.stanceRestore * cfg.period, t - a - 2;
      assert rate >= 0.0;
      assert Elapsed(rate, n + 1) == Elapsed(rate, n) + rate;
    }
  }
}
