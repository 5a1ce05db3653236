/** The mode supervisor of the quadruped controller: what one completed status reply does.

    A cycle may raise faults, swaps the two control logs, may change the mode on command, and
    runs the handler of the resulting mode.  The sensors, the clock and the leg motions enter as
    arbitrary observations; of the control logs only the commanded legs (`legs_R`) are kept.
    A failed assertion in the controller ends the run with an `Abort`. */
module ModeSupervisor {
  import opened Wrappers
  import G = TrotGait
  import P = TrotPlanner

  datatype Mode =
    | Configuring | Stopped | Fault | ZeroVelocity | Joint | Leg
    | StandUp | Rest | Jump | Walk | Backflip

  datatype StandUpMode = Prepositioning | Standing | StoodUp
  datatype JumpMode = Lowering | Pushing | Retracting | Falling | Landing | Landed
  datatype FlipMode = FlipLowering | FrontPush | BackPush | Flight | Flipped

  datatype State = State(
    mode: Mode,
    standUp: StandUpMode,
    restDone: bool,
    jump: JumpMode,
    jumpRepeat: bool,
    walk: G.Walk,
    flip: FlipMode,
    log: seq<G.Leg>,
    oldLog: seq<G.Leg>)

  const INITIAL := State(
    Mode.Configuring, Prepositioning, false, Lowering, false, G.INITIAL_WALK, FlipLowering, [], [])

  /** The current command: its mode, whether its jump repeats if that is set, and the ids of the
      legs that it positions in the body frame. */
  datatype Command = Command(mode: Mode, jump: Option<bool>, legs: seq<int>)

  /** What the handlers learn from the robot during a cycle. */
  datatype Observation = Observation(
    configured: bool,     // IsConfiguringDone()
    timeout: bool,        // standing up has taken too long
    prepositioned: bool,  // CheckPrepositioning()
    moved: bool,          // the commanded leg motion is complete
    phases: seq<bool>,    // outcomes of the successive jump or backflip phase checks
    gait: G.GaitInput)

  datatype Cycle =
    | Skip(fault: bool)   // the reply was incomplete, no control runs
    | Run(fault: bool, cmd: Command, obs: Observation)

  datatype Abort = BadCommand | RestWithoutLegs | MissingLeg | NoRearLeg | UnknownLeg | PastLegPds

  datatype Config = Config(walk: P.WalkConfig, rear: seq<bool>) {
    ghost predicate Valid() { walk.Valid() && |rear| == 4 }

    predicate HasRear() requires |rear| == 4 { rear[0] || rear[1] || rear[2] || rear[3] }
  }

  predicate Locomotion(m: Mode) { m.Rest? || m.Jump? || m.Walk? || m.Backflip? }

  /** The modes in which the robot may be lying down or limp. */
  predicate Grounded(m: Mode) {
    m.Configuring? || m.Stopped? || m.Fault? || m.ZeroVelocity? || m.Joint? || m.Leg?
  }

  /** The robot stands: stand_up has reported done and the mode has not been left. */
  predicate Stood(s: State) { s.mode.StandUp? && s.standUp.StoodUp? }

  // ---- mode changes ---------------------------------------------------------------------------

  predicate AllLegsStance(legs: seq<G.Leg>) {
    forall i :: 0 <= i < |legs| ==> legs[i].stance == 1.0
  }

  function LatchJump(s: State, cmd: Command): State {
    s.(jumpRepeat := cmd.jump.Some? && cmd.jump.value)
  }

  /** The mode that the command leads to, before the sub-state of the old mode is cleared. */
  function Enter(s: State, cmd: Command): (r: Result<State, Abort>)
    ensures r.Success? ==> r.value.walk == s.walk
  {
    match cmd.mode
    case Configuring => Failure(BadCommand)
    case Fault => Failure(BadCommand)
    case Stopped => Success(s.(mode := Mode.Stopped))
    case ZeroVelocity => Success(if s.mode.Fault? then s else s.(mode := cmd.mode))
    case Joint => Success(if s.mode.Fault? then s else s.(mode := cmd.mode))
    case Leg => Success(if s.mode.Fault? then s else s.(mode := cmd.mode))
    case StandUp =>
      Success(if s.mode.Stopped? || s.mode.ZeroVelocity?
              then s.(mode := Mode.StandUp, standUp := Prepositioning) else s)
    case _ => Success(EnterLocomotion(s, cmd))
  }

  /** Rest, jump, walk and backflip need all four legs on the ground; from a robot that lies
      down the command leads to standing up first. */
  function EnterLocomotion(s: State, cmd: Command): (u: State)
    ensures u.walk == s.walk
  {
    match s.mode
    case Stopped => s.(mode := Mode.StandUp, standUp := Prepositioning)
    case ZeroVelocity => s.(mode := Mode.StandUp, standUp := Prepositioning)
    case Rest => if s.restDone then LatchJump(s, cmd).(mode := cmd.mode) else s
    case StandUp => if s.standUp.StoodUp? then LatchJump(s, cmd).(mode := cmd.mode) else s
    case Jump =>
      // IsRestAndSteadyState() needs the mode to be kRest already, so it is false here.
      if s.jump.Landed? then s.(mode := Mode.Rest) else s
    case Walk =>
      if s.walk.idleCount >= 2 && AllLegsStance(s.oldLog)
      then LatchJump(s, cmd).(mode := cmd.mode) else s
    case Backflip => if s.flip.Flipped? then s.(mode := cmd.mode) else s
    case _ => s
  }

  /** Leaving a mode clears its sub-state. */
  function Leave(oldMode: Mode, s: State): (u: State)
    ensures u.walk == s.walk || u.walk == G.INITIAL_WALK
  {
    if s.mode == oldMode then s
    else match oldMode
      case StandUp => s.(standUp := Prepositioning)
      case Jump => s.(jump := Lowering, jumpRepeat := false)
      case Walk => s.(walk := G.INITIAL_WALK)
      case Backflip => s.(flip := FlipLowering)
      case Rest => s.(restDone := false)
      case _ => s
  }

  function ChangeMode(s: State, cmd: Command, configured: bool): (r: Result<State, Abort>)
    ensures r.Success? && s.walk.Valid() ==> r.value.walk.Valid()
  {
    if cmd.mode == s.mode || (s.mode.Configuring? && !configured) then Success(s)
    else
      var s' :- Enter(s, cmd);
      Success(Leave(s.mode, s'))
  }

  // ---- mode handlers --------------------------------------------------------------------------

  function WithStance(legs: seq<G.Leg>, stance: real): (r: seq<G.Leg>)
    ensures |r| == |legs| && forall i :: 0 <= i < |r| ==> r[i] == G.Leg(legs[i].id, stance)
  {
    seq(|legs|, i requires 0 <= i < |legs| => G.Leg(legs[i].id, stance))
  }

  const FRESH_LEGS: seq<G.Leg> := [G.Leg(0, 1.0), G.Leg(1, 1.0), G.Leg(2, 1.0), G.Leg(3, 1.0)]

  function HandleStandUp(s: State, obs: Observation): Result<State, Abort> {
    if !s.standUp.StoodUp? && obs.timeout then Success(s.(mode := Mode.Fault))
    else
      var stage := if s.standUp.Prepositioning? && obs.prepositioned then Standing else s.standUp;
      if stage.Prepositioning? then Success(s.(standUp := stage))
      else
        var legs := if s.oldLog == [] then FRESH_LEGS else s.oldLog;
        if !G.FourLegs(legs) then Failure(MissingLeg)
        else Success(s.(standUp := if obs.moved then StoodUp else stage, log := legs))
  }

  function HandleRest(s: State, obs: Observation): Result<State, Abort> {
    if s.oldLog == [] then Failure(RestWithoutLegs)
    else if !G.FourLegs(s.oldLog) then Failure(MissingLeg)
    else Success(s.(restDone := obs.moved, log := WithStance(s.oldLog, 1.0)))
  }

  /** The jump phases; `phases` answers the successive phase checks, and an exhausted answer
      means the phase goes on and this cycle's legs are emitted. */
  function HandleJump(s: State, cmd: Command, obs: Observation, phases: seq<bool>): Result<State, Abort>
    decreases |phases|
  {
    if s.jump.Landed? then HandleRest(s, obs)
    else if !G.FourLegs(s.oldLog) then Failure(MissingLeg)
    else
      var legs := if s.jump.Landing? then WithStance(s.oldLog, 1.0) else s.oldLog;
      if phases == [] || !phases[0] then Success(s.(log := legs))
      else
        match s.jump
        case Lowering => HandleJump(s.(jump := Pushing), cmd, obs, phases[1..])
        case Pushing =>
          HandleJump(s.(jump := Retracting, oldLog := WithStance(legs, 0.0)), cmd, obs, phases[1..])
        case Retracting => HandleJump(s.(jump := Falling), cmd, obs, phases[1..])
        case Falling => HandleJump(s.(jump := Landing), cmd, obs, phases[1..])
        case Landing =>
          if s.jumpRepeat && cmd.mode.Jump? then
            HandleJump((if cmd.jump.Some? then LatchJump(s, cmd) else s).(jump := Pushing),
                       cmd, obs, phases[1..])
          else Success(s.(jump := Landed, log := legs))
  }

  function HandleWalk(cfg: Config, s: State, obs: Observation): Result<State, Abort>
    requires cfg.Valid() && s.walk.Valid() && obs.gait.Valid()
  {
    if !G.FourLegs(s.oldLog) then Failure(MissingLeg)
    else Success(s.(walk := G.Step(cfg.walk, s.walk, obs.gait),
                    log := G.StepLegs(cfg.walk, s.walk, obs.gait, s.oldLog)))
  }

  /** In the push phases the stance is set by the phase; only the rear legs push back. */
  function HandleFlip(cfg: Config, s: State, obs: Observation): Result<State, Abort>
    requires cfg.Valid()
  {
    var done := obs.phases != [] && obs.phases[0];
    if s.flip.Flipped? then HandleRest(s, obs)
    else if !G.FourLegs(s.oldLog) then Failure(MissingLeg)
    else match s.flip
      case FlipLowering =>
        Success(if !done then s.(log := s.oldLog)
                else PushFront(s, |obs.phases| > 1 && obs.phases[1]))
      case FrontPush => Success(PushFront(s, done))
      case BackPush =>
        if !cfg.HasRear() then Failure(NoRearLeg)
        else Success(if done then s.(flip := Flight, log := WithStance(s.oldLog, 0.0))
                else s.(log := seq(4, i requires 0 <= i < 4 => G.Leg(i, if cfg.rear[i] then 1.0 else 0.0))))
      case Flight => Success(s.(log := s.oldLog))
  }

  function PushFront(s: State, pitched: bool): State {
    s.(flip := if pitched then BackPush else FrontPush, log := WithStance(s.oldLog, 1.0))
  }

  /** ControlLegs_B looks every commanded leg up by its id, and then writes to the entry with that
      number of an array that is as long as the command. */
  predicate Stray(legs: seq<int>, id: int) { !(0 <= id < 4) || id >= |legs| }

  /** The least of the first `n` ids that goes wrong: the legs are taken in the order of their ids. */
  function FirstStray(legs: seq<int>, n: nat): Option<int>
    requires n <= |legs|
  {
    if n == 0 then None
    else
      var before := FirstStray(legs, n - 1);
      var id := legs[n - 1];
      if Stray(legs, id) && (before.None? || id < before.value) then Some(id) else before
  }

  function LegAbort(legs: seq<int>): Option<Abort> {
    match FirstStray(legs, |legs|)
    case None => None
    case Some(id) => Some(if 0 <= id < 4 then PastLegPds else UnknownLeg)
  }

  function HandleLeg(s: State, cmd: Command): Result<State, Abort> {
    match LegAbort(cmd.legs)
    case None => Success(s)
    case Some(abort) => Failure(abort)
  }

  function Handle(cfg: Config, s: State, cmd: Command, obs: Observation): Result<State, Abort>
    requires cfg.Valid() && s.walk.Valid() && obs.gait.Valid()
  {
    match s.mode
    case StandUp => HandleStandUp(s, obs)
    case Rest => HandleRest(s, obs)
    case Jump => HandleJump(s, cmd, obs, obs.phases)
    case Walk => HandleWalk(cfg, s, obs)
    case Backflip => HandleFlip(cfg, s, obs)
    case Leg => HandleLeg(s, cmd)
    case _ => Success(s)  // these handlers command joints only
  }

  // ---- a cycle --------------------------------------------------------------------------------

  function RaiseFault(s: State, fault: bool): State {
    if fault then s.(mode := Mode.Fault) else s
  }

  function SwapLogs(s: State): State { s.(oldLog := s.log, log := []) }

  function DoCycle(cfg: Config, s: State, c: Cycle): Result<State, Abort>
    requires cfg.Valid() && s.walk.Valid() && (c.Run? ==> c.obs.gait.Valid())
  {
    match c
    case Skip(fault) => Success(RaiseFault(s, fault))
    case Run(fault, cmd, obs) =>
      var s' :- ChangeMode(SwapLogs(RaiseFault(s, fault)), cmd, obs.configured);
      Handle(cfg, s', cmd, obs)
  }

  // ---- the invariant --------------------------------------------------------------------------

  /** All four legs, each at full stance. */
  ghost predicate Standing4(legs: seq<G.Leg>) { G.FourLegs(legs) && AllLegsStance(legs) }

  /** What every reachable state keeps.  The leg log of the last cycle holds the four legs
      whenever a mode that reads it may run next, and is empty where standing up starts afresh. */
  ghost predicate Inv(s: State) {
    && s.walk.Valid()
    && !s.flip.Flipped?
    && (s.mode.Stopped? || s.mode.ZeroVelocity? ==> s.log == [])
    && (s.mode.StandUp? ==> Standing4(s.log) || (s.log == [] && !s.standUp.StoodUp?))
    && (s.mode.Rest? ==> Standing4(s.log))
    && (s.mode.Walk? ==> G.LegsMatch(s.walk, s.log))
    && (Locomotion(s.mode) ==> G.FourLegs(s.log))
  }

  /** What holds after the mode change, when the handler of the mode is about to run. */
  ghost predicate Ready(s: State) {
    && s.walk.Valid()
    && !s.flip.Flipped?
    && s.log == []
    && (s.mode.StandUp? ==> Standing4(s.oldLog) || (s.oldLog == [] && !s.standUp.StoodUp?))
    && (s.mode.Walk? ==> G.LegsUsable(s.walk, s.oldLog))
    && (Locomotion(s.mode) ==> G.FourLegs(s.oldLog))
  }

  /** The only cycles on which the controller aborts: a command for a mode that may not be
      commanded, while a mode change is possible. */
  predicate Rejected(s: State, c: Cycle) {
    && c.Run?
    && var mode := RaiseFault(s, c.fault).mode;
       && c.cmd.mode != mode
       && (mode.Configuring? ==> c.obs.configured)
       && (c.cmd.mode.Configuring? || c.cmd.mode.Fault?)
  }

  /** The back push of a flip looks for a standing rear leg, and a robot configured without any
      aborts there. */
  predicate NoFooting(cfg: Config, s: State)
    requires |cfg.rear| == 4
  {
    s.mode.Backflip? && s.flip.BackPush? && !cfg.HasRear()
  }

  /** What the handler of a mode aborts with, if it does. */
  function HandlerAbort(cfg: Config, s: State, cmd: Command): Option<Abort>
    requires |cfg.rear| == 4
  {
    if NoFooting(cfg, s) then Some(NoRearLeg)
    else if s.mode.Leg? then LegAbort(cmd.legs)
    else None
  }

  function Unsupported(cfg: Config, s: State, c: Cycle): Option<Abort>
    requires |cfg.rear| == 4
  {
    if c.Skip? then None
    else
      var u := ChangeMode(SwapLogs(RaiseFault(s, c.fault)), c.cmd, c.obs.configured);
      if u.Failure? then None else HandlerAbort(cfg, u.value, c.cmd)
  }

  lemma {:induction false} FirstStrayIsLeast(legs: seq<int>, n: nat)
    requires n <= |legs|
    ensures FirstStray(legs, n).None? <==> forall i :: 0 <= i < n ==> !Stray(legs, legs[i])
    ensures FirstStray(legs, n).Some? ==>
              var id := FirstStray(legs, n).value;
              id in legs && Stray(legs, id) && forall i :: 0 <= i < n && Stray(legs, legs[i]) ==> id <= legs[i]
  {
    if n > 0 {
      FirstStrayIsLeast(legs, n - 1);
    }
  }

  /** A command for single legs aborts the controller if and only if it names a leg that the robot
      does not have, or one whose number is not below the number of legs in the command. */
  lemma LegAbortIff(legs: seq<int>)
    ensures LegAbort(legs).Some? <==> exists i :: 0 <= i < |legs| && (!(0 <= legs[i] < 4) || legs[i] >= |legs|)
    ensures LegAbort(legs) == Some(UnknownLeg) ==> exists i :: 0 <= i < |legs| && !(0 <= legs[i] < 4)
    ensures LegAbort(legs) == Some(PastLegPds) ==> exists i :: 0 <= i < |legs| && |legs| <= legs[i] < 4
  {
    FirstStrayIsLeast(legs, |legs|);
  }

  /** For instance a leg 7, or leg 3 on its own. */
  lemma LegAbortExamples()
    ensures LegAbort([7]) == Some(UnknownLeg) && LegAbort([3]) == Some(PastLegPds)
    ensures LegAbort([0, 1, 2, 3]) == None
  {
    FirstStrayIsLeast([7], 1);
    FirstStrayIsLeast([3], 1);
    FirstStrayIsLeast([0, 1, 2, 3], 4);
  }

  /** Which mode changes a command can bring about, and what they leave alone. */
  ghost predicate ModeChange(s: State, cmd: Command, u: State) {
    && u.log == s.log && u.oldLog == s.oldLog
    && (u.flip.Flipped? ==> s.flip.Flipped?)
    && (u.mode == s.mode ==> u == s)
    && (u.mode != s.mode ==>
          && (u.mode.StandUp? ==> (s.mode.Stopped? || s.mode.ZeroVelocity?) && u.standUp.Prepositioning?)
          && (Locomotion(u.mode) ==>
                || s.mode.Rest? || Stood(s)
                || (s.mode.Jump? && u.mode.Rest?)
                || (s.mode.Walk? && s.walk.idleCount >= 2 && AllLegsStance(s.oldLog))
                || (s.mode.Backflip? && s.flip.Flipped?))
          && (s.mode.Fault? ==> u.mode.Stopped? && cmd.mode.Stopped?))
    && (u.walk == s.walk || u.walk == G.INITIAL_WALK)
  }

  lemma ChangeModeEffect(s: State, cmd: Command, configured: bool)
    ensures var r := ChangeMode(s, cmd, configured);
            r.Success? ==> ModeChange(s, cmd, r.value)
  {
    var r := Enter(s, cmd);
    if r.Success? && r.value.mode != s.mode && cmd.mode != s.mode {
      if Locomotion(cmd.mode) {
        assert r.value == EnterLocomotion(s, cmd);
        EnterLocomotionEffect(s, cmd);
      } else if cmd.mode.Stopped? {
        LeaveEffect(s, cmd, s.(mode := Mode.Stopped));
      } else {
        LeaveEffect(s, cmd, r.value);
      }
    }
  }

  lemma LeaveEffect(s: State, cmd: Command, e: State)
    requires e.mode != s.mode && !Locomotion(e.mode)
    requires e == s.(mode := e.mode) || (e == s.(mode := Mode.StandUp, standUp := Prepositioning)
                                         && (s.mode.Stopped? || s.mode.ZeroVelocity?))
    requires e.mode.StandUp? ==> e.standUp.Prepositioning? && (s.mode.Stopped? || s.mode.ZeroVelocity?)
    requires s.mode.Fault? ==> e.mode.Stopped? && cmd.mode.Stopped?
    ensures ModeChange(s, cmd, Leave(s.mode, e))
  {}

  lemma EnterLocomotionEffect(s: State, cmd: Command)
    requires Locomotion(cmd.mode) && cmd.mode != s.mode
    ensures ModeChange(s, cmd, Leave(s.mode, EnterLocomotion(s, cmd)))
  {}

  lemma ChangeModeIsReady(s: State, cmd: Command, u: State)
    requires Inv(s) && ModeChange(SwapLogs(s), cmd, u)
    ensures Ready(u)
  {
    if u.mode.Walk? {
      assert s.mode.Walk? || s.mode.Rest? || Stood(s);
    }
  }

  lemma {:induction false} JumpKeepsInv(s: State, cmd: Command, obs: Observation, phases: seq<bool>)
    requires Ready(s) && s.mode.Jump?
    ensures var r := HandleJump(s, cmd, obs, phases);
            r.Success? && Inv(r.value) && r.value.mode.Jump?
    decreases |phases|
  {
    if !s.jump.Landed? && phases != [] && phases[0] {
      var legs := if s.jump.Landing? then WithStance(s.oldLog, 1.0) else s.oldLog;
      match s.jump
      case Lowering => JumpKeepsInv(s.(jump := Pushing), cmd, obs, phases[1..]);
      case Pushing =>
        JumpKeepsInv(s.(jump := Retracting, oldLog := WithStance(legs, 0.0)), cmd, obs, phases[1..]);
      case Retracting => JumpKeepsInv(s.(jump := Falling), cmd, obs, phases[1..]);
      case Falling => JumpKeepsInv(s.(jump := Landing), cmd, obs, phases[1..]);
      case Landing =>
        if s.jumpRepeat && cmd.mode.Jump? {
          JumpKeepsInv((if cmd.jump.Some? then LatchJump(s, cmd) else s).(jump := Pushing),
                       cmd, obs, phases[1..]);
        }
    }
  }

  lemma HandleKeepsInv(cfg: Config, s: State, cmd: Command, obs: Observation)
    requires cfg.Valid() && obs.gait.Valid() && Ready(s)
    ensures var r, abort := Handle(cfg, s, cmd, obs), HandlerAbort(cfg, s, cmd);
            if abort.Some? then r == Failure(abort.value) else r.Success? && Inv(r.value)
  {
    hide HandleStandUp, HandleJump, HandleWalk, HandleFlip;
    match s.mode {
      case StandUp => StandUpKeepsInv(s, obs);
      case Jump => JumpKeepsInv(s, cmd, obs, obs.phases);
      case Walk => WalkKeepsInv(cfg, s, obs);
      case Backflip => FlipKeepsInv(cfg, s, obs);
      case _ =>
    }
  }

  lemma StandUpKeepsInv(s: State, obs: Observation)
    requires Ready(s) && s.mode.StandUp?
    ensures var r := HandleStandUp(s, obs);
            r.Success? && Inv(r.value)
  {}

  lemma FlipKeepsInv(cfg: Config, s: State, obs: Observation)
    requires cfg.Valid() && Ready(s) && s.mode.Backflip?
    ensures var r := HandleFlip(cfg, s, obs);
            if NoFooting(cfg, s) then r == Failure(NoRearLeg) else r.Success? && Inv(r.value)
  {}

  lemma WalkKeepsInv(cfg: Config, s: State, obs: Observation)
    requires cfg.Valid() && obs.gait.Valid() && Ready(s) && s.mode.Walk?
    ensures var r := HandleWalk(cfg, s, obs);
            r.Success? && Inv(r.value)
  {
    G.StepMatchesLegs(cfg.walk, s.walk, obs.gait, s.oldLog);
  }

  /** From a good state a cycle aborts exactly on a rejected command, on a leg command that
      LegAbortIff describes, and on the back push of a robot without rear legs.  In particular the
      assertion in DoControl_Rest that the last cycle commanded legs never fires, whatever faults
      and skipped cycles came before. */
  lemma CycleIsSafe(cfg: Config, s: State, c: Cycle)
    requires cfg.Valid() && Inv(s) && (c.Run? ==> c.obs.gait.Valid())
    ensures var r := DoCycle(cfg, s, c);
            && (r.Failure? <==> Rejected(s, c) || Unsupported(cfg, s, c).Some?)
            && (r.Failure? ==> r.error == if Rejected(s, c) then BadCommand else Unsupported(cfg, s, c).value)
            && (r.Success? ==> Inv(r.value))
  {
    if c.Run? {
      var t := RaiseFault(s, c.fault);
      ChangeModeEffect(SwapLogs(t), c.cmd, c.obs.configured);
      var u := ChangeMode(SwapLogs(t), c.cmd, c.obs.configured);
      if u.Success? {
        ChangeModeIsReady(t, c.cmd, u.value);
        HandleKeepsInv(cfg, u.value, c.cmd, c.obs);
      }
    }
  }

  // ---- runs -----------------------------------------------------------------------------------

  /** Cycle `t` leads from state `t` to the next. */
  ghost predicate StepsAt(cfg: Config, ss: seq<State>, cs: seq<Cycle>, t: nat)
    requires cfg.Valid() && |ss| == |cs| + 1 && t < |cs|
  {
    && (cs[t].Run? ==> cs[t].obs.gait.Valid())
    && ss[t].walk.Valid()
    && DoCycle(cfg, ss[t], cs[t]) == Success(ss[t + 1])
  }

  ghost predicate IsRun(cfg: Config, ss: seq<State>, cs: seq<Cycle>) {
    && cfg.Valid()
    && |ss| == |cs| + 1
    && ss[0] == INITIAL
    && forall t :: 0 <= t < |cs| ==> StepsAt(cfg, ss, cs, t)
  }

  lemma {:induction false} RunKeepsInv(cfg: Config, ss: seq<State>, cs: seq<Cycle>, t: nat)
    requires IsRun(cfg, ss, cs) && t < |ss|
    ensures Inv(ss[t])
  {
    if t > 0 {
      RunKeepsInv(cfg, ss, cs, t - 1);
      assert StepsAt(cfg, ss, cs, t - 1);
      CycleIsSafe(cfg, ss[t - 1], cs[t - 1]);
    }
  }

  /** In every run, whatever cycle comes next, the previous cycle's leg log satisfies the handler
      that runs: it aborts neither for an empty log nor for a leg missing from it. */
  lemma LegLogNeverMissing(cfg: Config, ss: seq<State>, cs: seq<Cycle>, c: Cycle)
    requires IsRun(cfg, ss, cs) && (c.Run? ==> c.obs.gait.Valid())
    ensures ss[|cs|].walk.Valid()
    ensures var r := DoCycle(cfg, ss[|cs|], c);
            && (r.Failure? <==> Rejected(ss[|cs|], c) || Unsupported(cfg, ss[|cs|], c).Some?)
            && r != Failure(RestWithoutLegs) && r != Failure(MissingLeg)
  {
    RunKeepsInv(cfg, ss, cs, |cs|);
    CycleIsSafe(cfg, ss[|cs|], c);
  }

  lemma {:induction false} JumpKeepsMode(s: State, cmd: Command, obs: Observation, phases: seq<bool>)
    ensures var r := HandleJump(s, cmd, obs, phases);
            r.Success? ==> r.value.mode == s.mode && r.value.standUp == s.standUp
    decreases |phases|
  {
    if !s.jump.Landed? && G.FourLegs(s.oldLog) && phases != [] && phases[0] {
      var legs := if s.jump.Landing? then WithStance(s.oldLog, 1.0) else s.oldLog;
      match s.jump
      case Lowering => JumpKeepsMode(s.(jump := Pushing), cmd, obs, phases[1..]);
      case Pushing =>
        JumpKeepsMode(s.(jump := Retracting, oldLog := WithStance(legs, 0.0)), cmd, obs, phases[1..]);
      case Retracting => JumpKeepsMode(s.(jump := Falling), cmd, obs, phases[1..]);
      case Falling => JumpKeepsMode(s.(jump := Landing), cmd, obs, phases[1..]);
      case Landing =>
        if s.jumpRepeat && cmd.mode.Jump? {
          JumpKeepsMode((if cmd.jump.Some? then LatchJump(s, cmd) else s).(jump := Pushing),
                        cmd, obs, phases[1..]);
        }
    }
  }

  lemma HandleModes(cfg: Config, s: State, cmd: Command, obs: Observation)
    requires cfg.Valid() && s.walk.Valid() && obs.gait.Valid()
    ensures var r := Handle(cfg, s, cmd, obs);
            r.Success? ==>
              && (r.value.mode == s.mode || (s.mode.StandUp? && r.value.mode.Fault?))
              && (Stood(r.value) ==> Stood(s) || obs.moved)
  {
    if s.mode.Jump? {
      JumpKeepsMode(s, cmd, obs, obs.phases);
    }
  }

  /** How a cycle can bring about the modes that need the robot standing, and how it can leave
      a fault. */
  lemma CycleModes(cfg: Config, s: State, c: Cycle, s': State)
    requires cfg.Valid() && s.walk.Valid() && (c.Run? ==> c.obs.gait.Valid())
    requires DoCycle(cfg, s, c) == Success(s')
    ensures Locomotion(s'.mode) ==> Locomotion(s.mode) || Stood(s)
    ensures Stood(s') ==> Stood(s) || (c.Run? && c.obs.moved)
    ensures s.mode.Fault? && !s'.mode.Fault? ==> s'.mode.Stopped? && c.Run? && c.cmd.mode.Stopped?
  {
    if c.Run? {
      var t := SwapLogs(RaiseFault(s, c.fault));
      ChangeModeEffect(t, c.cmd, c.obs.configured);
      HandleModes(cfg, ChangeMode(t, c.cmd, c.obs.configured).value, c.cmd, c.obs);
    }
  }

  /** At cycle `u` standing up reported done, and no mode since has let the robot down. */
  ghost predicate StoodSince(ss: seq<State>, cs: seq<Cycle>, u: nat, t: nat)
    requires |ss| == |cs| + 1
  {
    && 1 <= u <= t < |ss|
    && cs[u - 1].Run? && cs[u - 1].obs.moved && Stood(ss[u])
    && forall k :: u <= k <= t ==> !Grounded(ss[k].mode)
  }

  /** Whenever the robot rests, jumps, walks or flips (or has just stood up), standing up was
      completed since the last visit to any mode in which the robot may be down. */
  lemma {:induction false} LocomotionFollowsStanding(cfg: Config, ss: seq<State>, cs: seq<Cycle>, t: nat)
    requires IsRun(cfg, ss, cs) && t < |ss|
    requires Locomotion(ss[t].mode) || Stood(ss[t])
    ensures exists u :: StoodSince(ss, cs, u, t)
  {
    var s, c := ss[t - 1], cs[t - 1];
    assert StepsAt(cfg, ss, cs, t - 1);
    CycleModes(cfg, s, c, ss[t]);
    if Locomotion(s.mode) || Stood(s) {
      LocomotionFollowsStanding(cfg, ss, cs, t - 1);
      var u :| StoodSince(ss, cs, u, t - 1);
      assert StoodSince(ss, cs, u, t);
    } else {
      assert StoodSince(ss, cs, t, t);
    }
  }

  /** A fault is latched: the only way out is a command to stop. */
  lemma FaultIsLatched(cfg: Config, ss: seq<State>, cs: seq<Cycle>, t: nat)
    requires IsRun(cfg, ss, cs) && t < |cs|
    requires ss[t].mode.Fault? && !ss[t + 1].mode.Fault?
    ensures ss[t + 1].mode.Stopped? && cs[t].Run? && cs[t].cmd.mode.Stopped?
  {
    assert StepsAt(cfg, ss, cs, t);
    CycleModes(cfg, ss[t], cs[t], ss[t + 1]);
  }

  /** Walking is only left for another locomotion mode with both vlegs on the ground and all
      four legs commanded at full stance. */
  lemma WalkExit(cfg: Config, ss: seq<State>, cs: seq<Cycle>, k: nat)
    requires IsRun(cfg, ss, cs) && k < |cs|
    requires ss[k].mode.Walk? && Locomotion(ss[k + 1].mode) && !ss[k + 1].mode.Walk?
    ensures ss[k].walk.Valid() && ss[k].walk.AllStance() && ss[k].walk.idleCount >= 2
    ensures Standing4(ss[k].log)
  {
    RunKeepsInv(cfg, ss, cs, k);
    assert StepsAt(cfg, ss, cs, k);
    var s, c := ss[k], cs[k];
    var t := SwapLogs(RaiseFault(s, c.fault));
    ChangeModeEffect(t, c.cmd, c.obs.configured);
    HandleModes(cfg, ChangeMode(t, c.cmd, c.obs.configured).value, c.cmd, c.obs);
    G.FullStanceMeansBothDown(s.walk, s.log);
  }

  /** Configuration is no gate for faults: besides a completed configuration, any fault leads
      out of it, in a skipped cycle too, and together with a command to stop even to kStopped. */
  lemma LeavingConfiguring(cfg: Config, s: State, c: Cycle, s': State)
    requires cfg.Valid() && s.walk.Valid() && (c.Run? ==> c.obs.gait.Valid())
    requires s.mode.Configuring? && DoCycle(cfg, s, c) == Success(s')
    ensures !s'.mode.Configuring? <==>
              c.fault || (c.Run? && c.obs.configured && (c.cmd.mode.Stopped? || c.cmd.mode.ZeroVelocity?
                                                         || c.cmd.mode.Joint? || c.cmd.mode.Leg?))
    ensures s'.mode.Stopped? <==> c.Run? && c.cmd.mode.Stopped? && (c.fault || c.obs.configured)
  {
    if c.Run? {
      var t := SwapLogs(RaiseFault(s, c.fault));
      ChangeModeEffect(t, c.cmd, c.obs.configured);
      HandleModes(cfg, ChangeMode(t, c.cmd, c.obs.configured).value, c.cmd, c.obs);
    }
  }

  // ---- the controller that performs the cycles ----------------------------------------------------

  /** A method ended as the function says: with its state, or with its abort. */
  ghost predicate Agrees(abort: Option<Abort>, s: State, spec: Result<State, Abort>) {
    match spec
    case Success(s') => abort.None? && s == s'
    case Failure(e) => abort == Some(e)
  }

  class QuadrupedControl {
    const cfg: Config
    var mode: Mode
    var standUp: StandUpMode
    var restDone: bool
    var jump: JumpMode
    var jumpRepeat: bool
    var walk: G.Walk
    var flip: FlipMode
    var log: seq<G.Leg>
    var oldLog: seq<G.Leg>

    ghost function View(): State
      reads this
    {
      State(mode, standUp, restDone, jump, jumpRepeat, walk, flip, log, oldLog)
    }

    constructor (cfg: Config)
      requires cfg.Valid()
      ensures this.cfg == cfg && View() == INITIAL && Inv(View())
    {
      this.cfg := cfg;
      mode, standUp, restDone := Mode.Configuring, Prepositioning, false;
      jump, jumpRepeat, walk, flip := Lowering, false, G.INITIAL_WALK, FlipLowering;
      log, oldLog := [], [];
    }

    method MaybeChangeMode(cmd: Command, configured: bool) returns (abort: Option<Abort>)
      requires cmd.mode != mode
      modifies this
      ensures Agrees(abort, View(), ChangeMode(old(View()), cmd, configured))
    {
      var oldMode := mode;
      if mode.Configuring? && !configured {
        return None;
      }
      match cmd.mode {
      case Configuring => return Some(BadCommand);
      case Fault => return Some(BadCommand);
      case Stopped => mode := Mode.Stopped;
      case StandUp =>
        if !(mode.Stopped? || mode.ZeroVelocity?) {
          return None;
        }
        mode, standUp := Mode.StandUp, Prepositioning;
      case ZeroVelocity =>
        if mode.Fault? { return None; }
        mode := cmd.mode;
      case Joint =>
        if mode.Fault? { return None; }
        mode := cmd.mode;
      case Leg =>
        if mode.Fault? { return None; }
        mode := cmd.mode;
      case _ => EnterStanding(cmd);
      }
      ClearLeft(oldMode);
      return None;
    }

    method EnterStanding(cmd: Command)
      modifies this
      ensures View() == EnterLocomotion(old(View()), cmd)
    {
      if mode.Stopped? || mode.ZeroVelocity? {
        mode, standUp := Mode.StandUp, Prepositioning;
      } else if (mode.Rest? && restDone) || (mode.StandUp? && standUp.StoodUp?) {
        mode, jumpRepeat := cmd.mode, cmd.jump.Some? && cmd.jump.value;
      } else if mode.Jump? && jump.Landed? {
        mode := Mode.Rest;
      } else if mode.Walk? {
        if walk.idleCount >= 2 && AllLegsStance(oldLog) {
          jumpRepeat := cmd.jump.Some? && cmd.jump.value;
          mode := cmd.mode;
        }
      } else if mode.Backflip? && flip.Flipped? {
        mode := cmd.mode;
      }
    }

    method ClearLeft(oldMode: Mode)
      modifies this
      ensures View() == Leave(oldMode, old(View()))
    {
      if mode != oldMode {
        match oldMode
        case StandUp => standUp := Prepositioning;
        case Jump => jump, jumpRepeat := Lowering, false;
        case Walk => walk := G.INITIAL_WALK;
        case Backflip => flip := FlipLowering;
        case Rest => restDone := false;
        case _ =>
      }
    }

    method DoControlStandUp(obs: Observation) returns (abort: Option<Abort>)
      modifies this
      ensures Agrees(abort, View(), HandleStandUp(old(View()), obs))
    {
      if !standUp.StoodUp? && obs.timeout {
        mode := Mode.Fault;
        return None;
      }
      if standUp.Prepositioning? && obs.prepositioned {
        standUp := Standing;
      }
      if standUp.Prepositioning? {
        return None;
      }
      var legs := oldLog;
      if legs == [] {
        legs := FRESH_LEGS;
      }
      if !G.FourLegs(legs) {
        return Some(MissingLeg);
      }
      if obs.moved {
        standUp := StoodUp;
      }
      log := legs;
      return None;
    }

    method DoControlRest(obs: Observation) returns (abort: Option<Abort>)
      modifies this
      ensures Agrees(abort, View(), HandleRest(old(View()), obs))
    {
      if oldLog == [] {
        return Some(RestWithoutLegs);
      }
      if !G.FourLegs(oldLog) {
        return Some(MissingLeg);
      }
      var legs := oldLog;
      for i := 0 to |legs|
        invariant |legs| == |oldLog| && View() == old(View())
        invariant forall j :: 0 <= j < |legs| ==>
          legs[j] == if j < i then G.Leg(oldLog[j].id, 1.0) else oldLog[j]
      {
        legs := legs[i := legs[i].(stance := 1.0)];
      }
      restDone, log := obs.moved, legs;
      assert log == WithStance(oldLog, 1.0);
      return None;
    }

    method DoControlJump(cmd: Command, obs: Observation) returns (abort: Option<Abort>)
      modifies this
      ensures Agrees(abort, View(), HandleJump(old(View()), cmd, obs, obs.phases))
    {
      var i := 0;
      while true
        invariant 0 <= i <= |obs.phases|
        invariant HandleJump(old(View()), cmd, obs, obs.phases) == HandleJump(View(), cmd, obs, obs.phases[i..])
        decreases |obs.phases| - i
      {
        if jump.Landed? {
          abort := DoControlRest(obs);
          return;
        }
        if !G.FourLegs(oldLog) {
          return Some(MissingLeg);
        }
        var legs := if jump.Landing? then WithStance(oldLog, 1.0) else oldLog;
        if i == |obs.phases| || !obs.phases[i] {
          log := legs;
          return None;
        }
        assert obs.phases[i..][1..] == obs.phases[i + 1..];
        match jump {
        case Lowering => jump := Pushing;
        case Pushing => jump, oldLog := Retracting, WithStance(legs, 0.0);
        case Retracting => jump := Falling;
        case Falling => jump := Landing;
        case Landing =>
          if !(jumpRepeat && cmd.mode.Jump?) {
            jump, log := Landed, legs;
            return None;
          }
          jump := Pushing;
          if cmd.jump.Some? {
            jumpRepeat := cmd.jump.value;
          }
        }
        i := i + 1;
      }
    }

    method DoControlWalk(obs: Observation) returns (abort: Option<Abort>)
      requires cfg.Valid() && walk.Valid() && obs.gait.Valid()
      modifies this
      ensures Agrees(abort, View(), HandleWalk(cfg, old(View()), obs))
    {
      if !G.FourLegs(oldLog) {
        return Some(MissingLeg);
      }
      var context := new G.WalkContext(cfg.walk, walk, oldLog);
      context.Run(obs.gait);
      walk := G.Walk.Walk(context.vlegs, context.nextStepVleg, context.stanceElapsed, context.trot,
                          context.idleCount);
      log := context.legs;
      return None;
    }

    /** HandleStatus: it aborts exactly as CycleIsSafe says, and otherwise the invariant is
        kept, so every sequence of calls is one of the runs above. */
    method HandleStatus(c: Cycle) returns (abort: Option<Abort>)
      requires cfg.Valid() && Inv(View()) && (c.Run? ==> c.obs.gait.Valid())
      modifies this
      ensures Agrees(abort, View(), DoCycle(cfg, old(View()), c))
      ensures abort.Some? <==> Rejected(old(View()), c) || Unsupported(cfg, old(View()), c).Some?
      ensures abort.None? ==> Inv(View())
    {
      CycleIsSafe(cfg, View(), c);
      abort := PerformCycle(c);
    }

    method PerformCycle(c: Cycle) returns (abort: Option<Abort>)
      requires cfg.Valid() && walk.Valid() && (c.Run? ==> c.obs.gait.Valid())
      modifies this
      ensures Agrees(abort, View(), DoCycle(cfg, old(View()), c))
    {
      ghost var start := View();
      abort := None;
      if c.fault {
        mode := Mode.Fault;
      }
      if c.Run? {
        log, oldLog := oldLog, log;
        log := [];
        ghost var swapped := View();
        assert swapped == SwapLogs(RaiseFault(start, c.fault));
        if c.cmd.mode != mode {
          abort := MaybeChangeMode(c.cmd, c.obs.configured);
        }
        assert Agrees(abort, View(), ChangeMode(swapped, c.cmd, c.obs.configured));
        if abort.None? {
          ChangeModeEffect(swapped, c.cmd, c.obs.configured);
          abort := RunControl(c.cmd, c.obs);
        }
      }
    }

    method RunControl(cmd: Command, obs: Observation) returns (abort: Option<Abort>)
      requires cfg.Valid() && walk.Valid() && obs.gait.Valid()
      modifies this
      ensures Agrees(abort, View(), Handle(cfg, old(View()), cmd, obs))
    {
      abort := None;
      match mode
      case StandUp => abort := DoControlStandUp(obs);
      case Rest => abort := DoControlRest(obs);
      case Jump => abort := DoControlJump(cmd, obs);
      case Walk => abort := DoControlWalk(obs);
      case Backflip => abort := DoControlBackflip(obs);
      case Leg => abort := DoControlLeg(cmd);
      case _ =>
    }

    /** The commanded legs in the order of their ids, up to the first that goes wrong. */
    method DoControlLeg(cmd: Command) returns (abort: Option<Abort>)
      ensures Agrees(abort, View(), HandleLeg(View(), cmd))
    {
      var first: Option<int> := None;
      for n := 0 to |cmd.legs|
        invariant first == FirstStray(cmd.legs, n)
      {
        var id := cmd.legs[n];
        if (!(0 <= id < 4) || id >= |cmd.legs|) && (first.None? || id < first.value) {
          first := Some(id);
        }
      }
      match first
      case None => return None;
      case Some(id) => return Some(if 0 <= id < 4 then PastLegPds else UnknownLeg);
    }

    method DoControlBackflip(obs: Observation) returns (abort: Option<Abort>)
      requires cfg.Valid()
      modifies this
      ensures Agrees(abort, View(), HandleFlip(cfg, old(View()), obs))
    {
      var i := 0;
      if flip.Flipped? {
        abort := DoControlRest(obs);
        return;
      }
      if !G.FourLegs(oldLog) {
        return Some(MissingLeg);
      }
      if flip.FlipLowering? {
        if obs.phases == [] || !obs.phases[0] {
          log := oldLog;
          return None;
        }
        flip, i := FrontPush, 1;
      }
      var done := i < |obs.phases| && obs.phases[i];
      match flip {
      case FrontPush =>
        log := WithStance(oldLog, 1.0);
        if done { flip := BackPush; }
      case BackPush =>
        if !cfg.HasRear() {
          return Some(NoRearLeg);
        }
        log := seq(4, i requires 0 <= i < 4 => G.Leg(i, if cfg.rear[i] then 1.0 else 0.0));
        if done {
          log := WithStance(oldLog, 0.0);
          flip := Flight;
        }
      case Flight => log := oldLog;
      }
      return None;
    }
  }
}
