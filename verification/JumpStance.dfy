/** What a jump tells the leg controller about the ground: which legs carry the robot in which
    phase, over every run, and what a fault in mid-air leaves behind. */
module JumpStance {
  import opened Wrappers
  import opened ModeSupervisor
  import G = TrotGait

  predicate Airborne(j: JumpMode) { j.Retracting? || j.Falling? }

  ghost predicate AllAt(legs: seq<G.Leg>, stance: real) {
    forall i :: 0 <= i < |legs| ==> legs[i].stance == stance
  }

  /** In the air no leg carries, before the push and from the landing on every leg does.  A push
      may find the legs either way: see PushStance. */
  ghost predicate PhaseLegs(j: JumpMode, legs: seq<G.Leg>) {
    && (Airborne(j) ==> AllAt(legs, 0.0))
    && (j.Lowering? || j.Landing? || j.Landed? ==> AllAt(legs, 1.0))
    && (j.Pushing? ==> AllAt(legs, 0.0) || AllAt(legs, 1.0))
  }

  /** The same for the legs that a phase starts from within a cycle, where a landing that has only
      just begun still sees the legs of the fall. */
  ghost predicate StartLegs(j: JumpMode, legs: seq<G.Leg>) {
    if j.Landing? then AllAt(legs, 0.0) || AllAt(legs, 1.0) else PhaseLegs(j, legs)
  }

  // ---- one cycle ----------------------------------------------------------------------------------

  lemma {:induction false} JumpEmits(s: State, cmd: Command, obs: Observation, phases: seq<bool>)
    requires G.FourLegs(s.oldLog) && StartLegs(s.jump, s.oldLog)
    ensures var r := HandleJump(s, cmd, obs, phases);
            r.Success? && r.value.mode == s.mode && PhaseLegs(r.value.jump, r.value.log)
    decreases |phases|
  {
    if !s.jump.Landed? && phases != [] && phases[0] {
      var legs := if s.jump.Landing? then WithStance(s.oldLog, 1.0) else s.oldLog;
      match s.jump
      case Lowering => JumpEmits(s.(jump := Pushing), cmd, obs, phases[1..]);
      case Pushing =>
        JumpEmits(s.(jump := Retracting, oldLog := WithStance(legs, 0.0)), cmd, obs, phases[1..]);
      case Retracting => JumpEmits(s.(jump := Falling), cmd, obs, phases[1..]);
      case Falling => JumpEmits(s.(jump := Landing), cmd, obs, phases[1..]);
      case Landing =>
        if s.jumpRepeat && cmd.mode.Jump? {
          JumpEmits((if cmd.jump.Some? then LatchJump(s, cmd) else s).(jump := Pushing), cmd, obs, phases[1..]);
        }
    }
  }

  /** How many phases a cycle completes. */
  function Completed(phases: seq<bool>): nat {
    if phases == [] || !phases[0] then 0 else 1 + Completed(phases[1..])
  }

  /** How many completed phases lead to the next push; the phases repeat every four. */
  function ToPush(j: JumpMode): nat {
    match j
    case Pushing => 0
    case Lowering => 1
    case Landing => 1
    case Falling => 2
    case Retracting => 3
    case Landed => 0
  }

  function Rank(j: JumpMode): nat {
    match j
    case Lowering => 0
    case Pushing => 1
    case Retracting => 2
    case Falling => 3
    case Landing => 4
    case Landed => 5
  }

  /** The rank of the phase after `n` phases from the lowering on.  A jump that repeats goes from
      the landing back to the push for ever, one that does not ends there, and one that has `last`
      to be its last repetition ends after one further jump. */
  function Reached(n: nat, repeats: bool, last: bool): nat {
    if !repeats then (if n < 5 then n else 5)
    else if n <= 4 then n
    else if last then (if n < 9 then n - 4 else 5)
    else 1 + (n - 1) % 4
  }

  lemma LandingLeadsOn(n: nat, last: bool)
    requires n >= 5
    ensures Reached(n, false, last) == 5
    ensures Reached(n, true, last) == Reached(n - 4, !last, last)
  {}

  lemma NotYetLanded(n: nat, repeats: bool, last: bool)
    requires n <= 4
    ensures Reached(n, repeats, last) == n
  {}

  /** Each completed phase leads to the next one; the current command says whether the jump repeats. */
  lemma {:induction false} JumpProgress(s: State, cmd: Command, obs: Observation, phases: seq<bool>)
    requires G.FourLegs(s.oldLog) && !s.jump.Landed?
    ensures
      var r, n := HandleJump(s, cmd, obs, phases), Rank(s.jump) + Completed(phases);
      r.Success? && Rank(r.value.jump) == Reached(n, s.jumpRepeat && cmd.mode.Jump?, cmd.jump == Some(false))
    decreases |phases|
  {
    hide Reached;
    var repeats, last := s.jumpRepeat && cmd.mode.Jump?, cmd.jump == Some(false);
    if phases == [] || !phases[0] {
      NotYetLanded(Rank(s.jump), repeats, last);
    } else {
      var legs := if s.jump.Landing? then WithStance(s.oldLog, 1.0) else s.oldLog;
      if s.jump.Landing? {
        LandingLeadsOn(4 + Completed(phases), last);
      }
      match s.jump
      case Lowering => JumpProgress(s.(jump := Pushing), cmd, obs, phases[1..]);
      case Pushing =>
        JumpProgress(s.(jump := Retracting, oldLog := WithStance(legs, 0.0)), cmd, obs, phases[1..]);
      case Retracting => JumpProgress(s.(jump := Falling), cmd, obs, phases[1..]);
      case Falling => JumpProgress(s.(jump := Landing), cmd, obs, phases[1..]);
      case Landing =>
        if s.jumpRepeat && cmd.mode.Jump? {
          JumpProgress((if cmd.jump.Some? then LatchJump(s, cmd) else s).(jump := Pushing), cmd, obs, phases[1..]);
        }
    }
  }

  lemma PushIsReached(j: JumpMode, n: nat, repeats: bool, last: bool)
    requires !j.Landed? && Reached(Rank(j) + n, repeats, last) == 1
    ensures n >= ToPush(j) && (n - ToPush(j)) % 4 == 0
  {}

  /** The phases come in order: a cycle ends in a push only after that many completed phases. */
  lemma PushCount(s: State, cmd: Command, obs: Observation, phases: seq<bool>)
    ensures var r := HandleJump(s, cmd, obs, phases);
            r.Success? && r.value.jump.Pushing? ==>
              Completed(phases) >= ToPush(s.jump) && (Completed(phases) - ToPush(s.jump)) % 4 == 0
  {
    if G.FourLegs(s.oldLog) && !s.jump.Landed? {
      JumpProgress(s, cmd, obs, phases);
      hide HandleJump, Reached;
      if HandleJump(s, cmd, obs, phases).value.jump.Pushing? {
        PushIsReached(s.jump, Completed(phases), s.jumpRepeat && cmd.mode.Jump?, cmd.jump == Some(false));
      }
    }
  }

  /** A push sees unloaded legs exactly when the cycle started from unloaded legs or went through
      a whole jump: the landing loads the legs only in the cycles it emits itself. */
  lemma {:induction false} PushStance(s: State, cmd: Command, obs: Observation, phases: seq<bool>)
    requires G.FourLegs(s.oldLog) && StartLegs(s.jump, s.oldLog)
    ensures var r := HandleJump(s, cmd, obs, phases);
            r.Success? && r.value.jump.Pushing? ==>
              (AllAt(r.value.log, 0.0) <==> AllAt(s.oldLog, 0.0) || Completed(phases) >= 4)
    decreases |phases|
  {
    PushCount(s, cmd, obs, phases);
    if !s.jump.Landed? && phases != [] && phases[0] {
      var legs := if s.jump.Landing? then WithStance(s.oldLog, 1.0) else s.oldLog;
      match s.jump
      case Lowering => PushStance(s.(jump := Pushing), cmd, obs, phases[1..]);
      case Pushing =>
        PushStance(s.(jump := Retracting, oldLog := WithStance(legs, 0.0)), cmd, obs, phases[1..]);
      case Retracting => PushStance(s.(jump := Falling), cmd, obs, phases[1..]);
      case Falling => PushStance(s.(jump := Landing), cmd, obs, phases[1..]);
      case Landing =>
        if s.jumpRepeat && cmd.mode.Jump? {
          PushStance((if cmd.jump.Some? then LatchJump(s, cmd) else s).(jump := Pushing), cmd, obs, phases[1..]);
        }
    }
  }

  // ---- runs ---------------------------------------------------------------------------------------

  /** The legs fit the phase; outside of a jump no mid-air phase is left over. */
  ghost predicate Settled(s: State) {
    if s.mode.Jump? then PhaseLegs(s.jump, s.log) else !Airborne(s.jump)
  }

  /** A fault that cuts a jump off in mid-air. */
  ghost predicate CutsOff(s: State, c: Cycle) { c.fault && s.mode.Jump? && Airborne(s.jump) }

  /** A mode change into a jump finds loaded legs; one out of it forgets the phase. */
  lemma ChangeModeSettles(s: State, cmd: Command, configured: bool, u: State)
    requires Inv(s) && Settled(s) && ChangeMode(SwapLogs(s), cmd, configured) == Success(u)
    ensures if u.mode.Jump? then G.FourLegs(u.oldLog) && StartLegs(u.jump, u.oldLog) else !Airborne(u.jump)
  {
    ChangeModeEffect(SwapLogs(s), cmd, configured);
    assert AllLegsStance(s.log) ==> AllAt(s.log, 1.0);
    if cmd.mode != s.mode && u.mode != s.mode && u.mode.Jump? {
      assert AllLegsStance(s.log);
    }
  }

  lemma HandleSettles(cfg: Config, s: State, cmd: Command, obs: Observation)
    requires cfg.Valid() && s.walk.Valid() && obs.gait.Valid()
    requires if s.mode.Jump? then G.FourLegs(s.oldLog) && StartLegs(s.jump, s.oldLog) else !Airborne(s.jump)
    ensures var r := Handle(cfg, s, cmd, obs); r.Success? ==> Settled(r.value)
  {
    if s.mode.Jump? {
      hide HandleJump;
      JumpEmits(s, cmd, obs, obs.phases);
    }
  }

  lemma CycleSettles(cfg: Config, s: State, c: Cycle, s': State)
    requires cfg.Valid() && Inv(s) && Settled(s) && (c.Run? ==> c.obs.gait.Valid())
    requires !CutsOff(s, c) && DoCycle(cfg, s, c) == Success(s')
    ensures Settled(s')
  {
    if c.Run? {
      var t := RaiseFault(s, c.fault);
      var u := ChangeMode(SwapLogs(t), c.cmd, c.obs.configured).value;
      ChangeModeEffect(SwapLogs(t), c.cmd, c.obs.configured);
      ChangeModeSettles(t, c.cmd, c.obs.configured, u);
      hide ChangeMode, Handle;
      HandleSettles(cfg, u, c.cmd, c.obs);
    }
  }

  /** A cut-off always leaves the phase behind, in the fault or, with a command to stop, past it. */
  lemma CutOffUnsettles(cfg: Config, s: State, c: Cycle, s': State)
    requires cfg.Valid() && s.walk.Valid() && (c.Run? ==> c.obs.gait.Valid())
    requires CutsOff(s, c) && DoCycle(cfg, s, c) == Success(s')
    ensures (s'.mode.Fault? || s'.mode.Stopped?) && s'.jump == s.jump && !Settled(s')
  {}

  lemma {:induction false} SettledUntilCutOff(cfg: Config, ss: seq<State>, cs: seq<Cycle>, t: nat)
    requires IsRun(cfg, ss, cs) && t < |ss|
    requires forall u :: 0 <= u < t ==> !CutsOff(ss[u], cs[u])
    ensures Settled(ss[t])
  {
    if t > 0 {
      SettledUntilCutOff(cfg, ss, cs, t - 1);
      RunKeepsInv(cfg, ss, cs, t - 1);
      assert StepsAt(cfg, ss, cs, t - 1);
      CycleSettles(cfg, ss[t - 1], cs[t - 1], ss[t]);
    }
  }

  /** In every run the legs always fit the phase (unloaded in the air, loaded before the push and
      from the landing on, and no mid-air phase left over outside of a jump) if and only if no fault
      cuts a jump off in mid-air. */
  lemma JumpsAreSettledIff(cfg: Config, ss: seq<State>, cs: seq<Cycle>)
    requires IsRun(cfg, ss, cs)
    ensures (forall t :: 0 <= t < |ss| ==> Settled(ss[t])) <==> (forall u :: 0 <= u < |cs| ==> !CutsOff(ss[u], cs[u]))
  {
    hide Settled, CutsOff;
    if forall u :: 0 <= u < |cs| ==> !CutsOff(ss[u], cs[u]) {
      forall t | 0 <= t < |ss| ensures Settled(ss[t]) {
        SettledUntilCutOff(cfg, ss, cs, t);
      }
    } else {
      var u :| 0 <= u < |cs| && CutsOff(ss[u], cs[u]);
      assert StepsAt(cfg, ss, cs, u);
      CutOffUnsettles(cfg, ss[u], cs[u], ss[u + 1]);
    }
  }

  // ---- what a cut-off leads to --------------------------------------------------------------------

  function Seen(prepositioned: bool, moved: bool, phases: seq<bool>, gait: G.GaitInput): Observation {
    Observation(true, false, prepositioned, moved, phases, gait)
  }

  function StopCycle(gait: G.GaitInput): Cycle {
    Run(false, Command(Mode.Stopped, None, []), Seen(false, false, [], gait))
  }

  function StandCycle(gait: G.GaitInput): Cycle {
    Run(false, Command(Mode.Jump, None, []), Seen(true, true, [], gait))
  }

  function JumpCycle(fault: bool, phases: seq<bool>, gait: G.GaitInput): Cycle {
    Run(fault, Command(Mode.Jump, None, []), Seen(false, false, phases, gait))
  }

  /** From a stopped robot: stand up at once, and be told to jump. */
  lemma StandAndJump(cfg: Config, s: State, gait: G.GaitInput) returns (up: State)
    requires cfg.Valid() && s.walk.Valid() && gait.Valid() && s.mode.Stopped? && s.log == []
    ensures DoCycle(cfg, s, StandCycle(gait)) == Success(up)
    ensures up == s.(mode := Mode.StandUp, standUp := StoodUp, oldLog := [], log := FRESH_LEGS)
  {
    up := s.(mode := Mode.StandUp, standUp := StoodUp, oldLog := [], log := FRESH_LEGS);
  }

  /** Whatever else the state, a phase cut off in mid-air resurfaces when the robot is stopped,
      stands up and is told to jump again, and then runs on standing legs. */
  lemma CutOffResurfaces(cfg: Config, s: State, gait: G.GaitInput) returns (stopped: State, up: State, jumping: State)
    requires cfg.Valid() && Inv(s) && (s.mode.Fault? || s.mode.Stopped?) && Airborne(s.jump) && gait.Valid()
    ensures stopped.walk.Valid() && up.walk.Valid()
    ensures DoCycle(cfg, s, StopCycle(gait)) == Success(stopped)
    ensures DoCycle(cfg, stopped, StandCycle(gait)) == Success(up)
    ensures DoCycle(cfg, up, JumpCycle(false, [], gait)) == Success(jumping)
    ensures jumping.mode.Jump? && jumping.jump == s.jump && jumping.log == FRESH_LEGS && !Settled(jumping)
  {
    stopped := s.(mode := Mode.Stopped, oldLog := s.log, log := []);
    up := StandAndJump(cfg, stopped, gait);
    jumping := up.(mode := Mode.Jump, standUp := Prepositioning, jumpRepeat := false, oldLog := FRESH_LEGS);
    assert jumping.log[0].stance == 1.0;
  }

  /** The jump of a run that a fault cuts off while the legs are being retracted. */
  lemma JumpAndFault(cfg: Config, up: State, gait: G.GaitInput) returns (air: State, fault: State)
    requires cfg.Valid() && up.walk.Valid() && gait.Valid()
    requires Stood(up) && up.jump.Lowering? && up.log == FRESH_LEGS
    ensures air.walk.Valid() && CutsOff(air, JumpCycle(true, [], gait))
    ensures DoCycle(cfg, up, JumpCycle(false, [true, true], gait)) == Success(air)
    ensures DoCycle(cfg, air, JumpCycle(true, [], gait)) == Success(fault)
    ensures fault.mode.Fault? && fault.jump.Retracting?
  {
    var entered := up.(
      mode := Mode.Jump, standUp := Prepositioning, jumpRepeat := false, oldLog := FRESH_LEGS, log := []);
    var obs := Seen(false, false, [true, true], gait);
    assert ChangeMode(SwapLogs(up), Command(Mode.Jump, None, []), true) == Success(entered);
    var cmd := Command(Mode.Jump, None, []);
    var legs := WithStance(FRESH_LEGS, 0.0);
    var air1 := entered.(jump := Retracting, oldLog := legs);
    air := air1.(log := legs);
    assert [true, true][1..] == [true] && [true][1..] == [];
    assert HandleJump(air1, cmd, obs, []) == Success(air);
    assert HandleJump(entered.(jump := Pushing), cmd, obs, [true]) == HandleJump(air1, cmd, obs, []);
    assert HandleJump(entered, cmd, obs, [true, true]) == Success(air);
    fault := air.(mode := Mode.Fault, oldLog := legs, log := []);
  }

  lemma CutOffStart(cfg: Config, gait: G.GaitInput) returns (ss: seq<State>, cs: seq<Cycle>)
    requires cfg.Valid() && gait.Valid()
    ensures |ss| == 5 && |cs| == 4 && IsRun(cfg, ss, cs) && CutsOff(ss[3], cs[3])
    ensures ss[4].mode.Fault? && ss[4].jump.Retracting? && ss[4].walk.Valid()
  {
    var s1 := FirstStop(cfg, gait);
    var s2 := StandAndJump(cfg, s1, gait);
    var s3, s4 := JumpAndFault(cfg, s2, gait);
    ss, cs := [INITIAL], [];
    hide DoCycle, Settled, CutsOff, IsRun;
    RunStarts(cfg);
    ss, cs := Extend(cfg, ss, cs, StopCycle(gait), s1);
    ss, cs := Extend(cfg, ss, cs, StandCycle(gait), s2);
    ss, cs := Extend(cfg, ss, cs, JumpCycle(false, [true, true], gait), s3);
    ss, cs := Extend(cfg, ss, cs, JumpCycle(true, [], gait), s4);
  }

  /** A run from power-on that a fault in mid-air unsettles: stop, stand up, jump, fault, stop, stand
      up, jump. */
  lemma CutOffRun(cfg: Config, gait: G.GaitInput) returns (ss: seq<State>, cs: seq<Cycle>)
    requires cfg.Valid() && gait.Valid()
    ensures IsRun(cfg, ss, cs) && |cs| == 7 && CutsOff(ss[3], cs[3])
    ensures ss[7].mode.Jump? && ss[7].jump.Retracting? && ss[7].log == FRESH_LEGS && !Settled(ss[7])
  {
    ss, cs := CutOffStart(cfg, gait);
    hide DoCycle, Settled, CutsOff, IsRun;
    RunKeepsInv(cfg, ss, cs, 4);
    var s5, s6, s7 := CutOffResurfaces(cfg, ss[4], gait);
    ss, cs := Extend(cfg, ss, cs, StopCycle(gait), s5);
    ss, cs := Extend(cfg, ss, cs, StandCycle(gait), s6);
    ss, cs := Extend(cfg, ss, cs, JumpCycle(false, [], gait), s7);
  }

  lemma FirstStop(cfg: Config, gait: G.GaitInput) returns (s: State)
    requires cfg.Valid() && gait.Valid()
    ensures INITIAL.walk.Valid() && DoCycle(cfg, INITIAL, StopCycle(gait)) == Success(s)
    ensures s == INITIAL.(mode := Mode.Stopped)
  {
    s := INITIAL.(mode := Mode.Stopped);
  }

  lemma RunStarts(cfg: Config)
    requires cfg.Valid()
    ensures IsRun(cfg, [INITIAL], [])
  {}

  lemma Extend(cfg: Config, ss: seq<State>, cs: seq<Cycle>, c: Cycle, s: State)
    returns (ss': seq<State>, cs': seq<Cycle>)
    requires cfg.Valid() && |ss| == |cs| + 1 && IsRun(cfg, ss, cs) && ss[|cs|].walk.Valid()
    requires (c.Run? ==> c.obs.gait.Valid()) && DoCycle(cfg, ss[|cs|], c) == Success(s)
    ensures ss' == ss + [s] && cs' == cs + [c] && IsRun(cfg, ss', cs')
  {
    ss', cs' := ss + [s], cs + [c];
    forall t | 0 <= t < |cs'| ensures StepsAt(cfg, ss', cs', t) {
      if t < |cs| { assert StepsAt(cfg, ss, cs, t); }
    }
  }
}
