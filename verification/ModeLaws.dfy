/** Which commands the supervisor obeys, what it forgets when a mode is left, and how its handlers
    get on: each said of a whole control cycle. */
module ModeLaws {
  import opened Wrappers
  import opened ModeSupervisor
  import G = TrotGait
  import J = JumpStance

  /** The mode in which the command finds the robot: a fault raised in the cycle comes first. */
  function Found(s: State, c: Cycle): Mode { if c.fault then Mode.Fault else s.mode }

  /** An unfinished configuration is not left for a command. */
  predicate Held(s: State, c: Cycle)
    requires c.Run?
  {
    Found(s, c).Configuring? && !c.obs.configured
  }

  ghost predicate Cycles(cfg: Config, s: State, c: Cycle, s': State) {
    && cfg.Valid() && s.walk.Valid() && (c.Run? ==> c.obs.gait.Valid())
    && DoCycle(cfg, s, c) == Success(s')
  }

  /** The state in which the handler runs. */
  function Entered(s: State, c: Cycle): Result<State, Abort>
    requires c.Run?
  {
    ChangeMode(SwapLogs(RaiseFault(s, c.fault)), c.cmd, c.obs.configured)
  }

  /** Standing up that takes too long ends in a fault, and no other handler changes the mode. */
  lemma HandledMode(cfg: Config, s: State, c: Cycle, s': State)
    requires Cycles(cfg, s, c, s') && c.Run?
    ensures var u := Entered(s, c);
            && u.Success?
            && s'.mode == if u.value.mode.StandUp? && !u.value.standUp.StoodUp? && c.obs.timeout then Mode.Fault
                          else u.value.mode
  {
    ChangeModeEffect(SwapLogs(RaiseFault(s, c.fault)), c.cmd, c.obs.configured);
    hide ChangeMode, Handle;
    HandlerMode(cfg, Entered(s, c).value, c.cmd, c.obs);
  }

  lemma HandlerMode(cfg: Config, u: State, cmd: Command, obs: Observation)
    requires cfg.Valid() && u.walk.Valid() && obs.gait.Valid()
    ensures var r := Handle(cfg, u, cmd, obs);
            r.Success? ==>
              r.value.mode == if u.mode.StandUp? && !u.standUp.StoodUp? && obs.timeout then Mode.Fault else u.mode
  {
    hide HandleJump, G.Step, G.StepLegs;
    if u.mode.Jump? {
      JumpKeepsMode(u, cmd, obs, obs.phases);
    }
  }

  // ---- which commands are obeyed ------------------------------------------------------------------

  /** A command to stop is always obeyed, once the configuration is complete. */
  lemma StopIsObeyed(cfg: Config, s: State, c: Cycle, s': State)
    requires Cycles(cfg, s, c, s') && c.Run? && c.cmd.mode.Stopped?
    ensures s'.mode.Stopped? <==> !Held(s, c)
    ensures Held(s, c) ==> s'.mode.Configuring?
  {
    HandledMode(cfg, s, c, s');
    hide DoCycle;
  }

  /** A command for zero velocity, joints or single legs is obeyed unless faulted. */
  lemma DirectIsObeyed(cfg: Config, s: State, c: Cycle, s': State)
    requires Cycles(cfg, s, c, s') && c.Run?
    requires c.cmd.mode.ZeroVelocity? || c.cmd.mode.Joint? || c.cmd.mode.Leg?
    ensures s'.mode == c.cmd.mode <==> !Found(s, c).Fault? && !Held(s, c)
    ensures s'.mode != c.cmd.mode ==> s'.mode == Found(s, c)
  {
    HandledMode(cfg, s, c, s');
    hide DoCycle;
  }

  predicate Limp(m: Mode) { m.Stopped? || m.ZeroVelocity? }

  /** A command to stand up is obeyed exactly from a limp robot, which then starts afresh, or while
      standing up; it does not outlast the time allowed. */
  lemma StandUpIsObeyed(cfg: Config, s: State, c: Cycle, s': State)
    requires Cycles(cfg, s, c, s') && c.Run? && c.cmd.mode.StandUp?
    ensures
      var m := Found(s, c);
      var late := c.obs.timeout && !(m.StandUp? && s.standUp.StoodUp?);
      && (s'.mode.StandUp? <==> (m.StandUp? || Limp(m)) && !late)
      && (!s'.mode.StandUp? ==> s'.mode == if m.StandUp? || Limp(m) then Mode.Fault else m)
      && (Limp(m) && !late && !c.obs.prepositioned ==> s'.standUp.Prepositioning? && s'.log == [])
  {
    HandledMode(cfg, s, c, s');
  }

  /** The robot stands on four legs and has finished what it did. */
  predicate Settled(m: Mode, s: State) {
    || (m.Rest? && s.restDone)
    || (m.StandUp? && s.standUp.StoodUp?)
    || (m.Walk? && s.walk.idleCount >= 2 && AllLegsStance(s.log))
    || (m.Backflip? && s.flip.Flipped?)
  }

  /** The mode that a command to rest, jump, walk or flip leads to. */
  lemma LocomotionEntered(s: State, c: Cycle)
    requires c.Run? && Locomotion(c.cmd.mode)
    ensures
      var m, u := Found(s, c), Entered(s, c);
      && u.Success?
      && u.value.mode == (if m == c.cmd.mode || Settled(m, s) then c.cmd.mode
                          else if Limp(m) then Mode.StandUp
                          else if m.Jump? && s.jump.Landed? then Mode.Rest
                          else m)
      && (m.StandUp? && u.value.mode.StandUp? ==> u.value.standUp == s.standUp)
      && (Limp(m) ==> u.value.standUp.Prepositioning?)
  {}

  /** A command to rest, jump, walk or flip is obeyed exactly when the robot already does so, has
      finished a rest, a stand-up or a flip, or walks idly on four standing legs, and a command to
      rest also after a finished jump. */
  lemma LocomotionIsObeyed(cfg: Config, s: State, c: Cycle, s': State)
    requires Cycles(cfg, s, c, s') && c.Run? && Locomotion(c.cmd.mode)
    ensures
      var m := Found(s, c);
      s'.mode == c.cmd.mode <==>
        m == c.cmd.mode || Settled(m, s) || (c.cmd.mode.Rest? && m.Jump? && s.jump.Landed?)
  {
    HandledMode(cfg, s, c, s');
    LocomotionEntered(s, c);
    hide Cycles, Entered;
  }

  /** Where such a command is not obeyed, a limp robot stands up first, a finished jump rests first,
      and everything else goes on. */
  lemma LocomotionIsPrepared(cfg: Config, s: State, c: Cycle, s': State)
    requires Cycles(cfg, s, c, s') && c.Run? && Locomotion(c.cmd.mode) && s'.mode != c.cmd.mode
    ensures
      var m := Found(s, c);
      s'.mode == if Limp(m) || m.StandUp? then (if c.obs.timeout then Mode.Fault else Mode.StandUp)
                 else if m.Jump? && s.jump.Landed? then Mode.Rest
                 else m
  {
    HandledMode(cfg, s, c, s');
    LocomotionEntered(s, c);
    hide Cycles, Entered;
  }

  /** Entering one of these modes takes over whether a jump is to repeat. */
  lemma RepeatIsCommanded(cfg: Config, s: State, c: Cycle, s': State)
    requires Cycles(cfg, s, c, s') && c.Run? && Locomotion(c.cmd.mode) && s'.mode == c.cmd.mode
    requires Found(s, c) != s'.mode && !Found(s, c).Jump? && !Found(s, c).Backflip?
    ensures s'.jumpRepeat <==> c.cmd.jump == Some(true)
  {
    var u := Entered(s, c).value;
    LocomotionIsObeyed(cfg, s, c, s');
    assert u.jumpRepeat == (c.cmd.jump == Some(true));
    if u.mode.Jump? {
      RepeatLasts(u, c.cmd, c.obs, c.obs.phases);
    }
    hide ChangeMode, HandleJump;
  }

  /** Within a cycle a jump that repeats takes the flag over from the command again. */
  lemma {:induction false} RepeatLasts(s: State, cmd: Command, obs: Observation, phases: seq<bool>)
    ensures var r := HandleJump(s, cmd, obs, phases);
            r.Success? && s.jumpRepeat == (cmd.jump == Some(true)) ==> r.value.jumpRepeat == s.jumpRepeat
    decreases |phases|
  {
    if !s.jump.Landed? && G.FourLegs(s.oldLog) && phases != [] && phases[0] {
      var legs := if s.jump.Landing? then WithStance(s.oldLog, 1.0) else s.oldLog;
      match s.jump
      case Lowering => RepeatLasts(s.(jump := Pushing), cmd, obs, phases[1..]);
      case Pushing =>
        RepeatLasts(s.(jump := Retracting, oldLog := WithStance(legs, 0.0)), cmd, obs, phases[1..]);
      case Retracting => RepeatLasts(s.(jump := Falling), cmd, obs, phases[1..]);
      case Falling => RepeatLasts(s.(jump := Landing), cmd, obs, phases[1..]);
      case Landing =>
        if s.jumpRepeat && cmd.mode.Jump? {
          RepeatLasts((if cmd.jump.Some? then LatchJump(s, cmd) else s).(jump := Pushing), cmd, obs, phases[1..]);
        }
    }
  }

  // ---- what is forgotten --------------------------------------------------------------------------

  /** A mode left for a command is forgotten: the next time it starts afresh. */
  lemma LeavingForgets(cfg: Config, s: State, c: Cycle, s': State)
    requires Cycles(cfg, s, c, s') && c.Run? && Entered(s, c).Success?
    requires Entered(s, c).value.mode != Found(s, c)
    ensures
      var m := Found(s, c);
      && (m.StandUp? ==> s'.standUp.Prepositioning?)
      && (m.Walk? ==> s'.walk == G.INITIAL_WALK)
      && (m.Jump? ==> s'.jump.Lowering? && !s'.jumpRepeat)
      && (m.Backflip? ==> s'.flip.FlipLowering?)
      && (m.Rest? && !s'.mode.Jump? && !s'.mode.Backflip? ==> !s'.restDone)
  {
    var u := Entered(s, c).value;
    EntryForgets(s, c);
    HandledMode(cfg, s, c, s');
    hide ChangeMode, Handle;
    assert u.walk.Valid();
    HandlerKeepsOthers(cfg, u, c.cmd, c.obs);
  }

  lemma EntryForgets(s: State, c: Cycle)
    requires c.Run? && Entered(s, c).Success? && Entered(s, c).value.mode != Found(s, c)
    ensures
      var m, u := Found(s, c), Entered(s, c).value;
      && (m.StandUp? ==> u.standUp.Prepositioning? && !u.mode.StandUp?)
      && (m.Walk? ==> u.walk == G.INITIAL_WALK && !u.mode.Walk?)
      && (m.Jump? ==> u.jump.Lowering? && !u.jumpRepeat && !u.mode.Jump?)
      && (m.Backflip? ==> u.flip.FlipLowering? && !u.mode.Backflip?)
      && (m.Rest? ==> !u.restDone && !u.mode.Rest?)
  {}

  lemma HandlerKeepsOthers(cfg: Config, u: State, cmd: Command, obs: Observation)
    requires cfg.Valid() && u.walk.Valid() && obs.gait.Valid()
    ensures var r := Handle(cfg, u, cmd, obs);
            r.Success? ==>
              && (!u.mode.StandUp? ==> r.value.standUp == u.standUp)
              && (!u.mode.Walk? ==> r.value.walk == u.walk)
              && (!u.mode.Jump? ==> r.value.jump == u.jump && r.value.jumpRepeat == u.jumpRepeat)
              && (!u.mode.Backflip? ==> r.value.flip == u.flip)
              && (!u.mode.Rest? && !u.mode.Jump? && !u.mode.Backflip? ==> r.value.restDone == u.restDone)
  {
    hide HandleJump, G.Step, G.StepLegs;
    if u.mode.Jump? {
      JumpKeepsOthers(u, cmd, obs, obs.phases);
    }
  }

  lemma {:induction false} JumpKeepsOthers(s: State, cmd: Command, obs: Observation, phases: seq<bool>)
    ensures var r := HandleJump(s, cmd, obs, phases);
            r.Success? ==>
              r.value.standUp == s.standUp && r.value.walk == s.walk && r.value.flip == s.flip
    decreases |phases|
  {
    if !s.jump.Landed? && G.FourLegs(s.oldLog) && phases != [] && phases[0] {
      var legs := if s.jump.Landing? then WithStance(s.oldLog, 1.0) else s.oldLog;
      match s.jump
      case Lowering => JumpKeepsOthers(s.(jump := Pushing), cmd, obs, phases[1..]);
      case Pushing =>
        JumpKeepsOthers(s.(jump := Retracting, oldLog := WithStance(legs, 0.0)), cmd, obs, phases[1..]);
      case Retracting => JumpKeepsOthers(s.(jump := Falling), cmd, obs, phases[1..]);
      case Falling => JumpKeepsOthers(s.(jump := Landing), cmd, obs, phases[1..]);
      case Landing =>
        if s.jumpRepeat && cmd.mode.Jump? {
          JumpKeepsOthers((if cmd.jump.Some? then LatchJump(s, cmd) else s).(jump := Pushing), cmd, obs, phases[1..]);
        }
    }
  }

  /** A fault forgets nothing: whatever was under way stays as it was. */
  lemma FaultRemembers(cfg: Config, s: State, c: Cycle, s': State)
    requires Cycles(cfg, s, c, s') && c.fault
    ensures s'.mode.Fault? || s'.mode.Stopped?
    ensures s'.standUp == s.standUp && s'.restDone == s.restDone && s'.jump == s.jump && s'.jumpRepeat == s.jumpRepeat
    ensures s'.walk == s.walk && s'.flip == s.flip
  {}

  // ---- how the handlers get on --------------------------------------------------------------------

  /** Standing up: once the joints are in place the legs move, and when they have arrived it is done. */
  lemma StandUpProgress(cfg: Config, s: State, c: Cycle, s': State)
    requires Cycles(cfg, s, c, s') && c.Run? && Found(s, c).StandUp? && s'.mode.StandUp?
    ensures
      var inPlace := !s.standUp.Prepositioning? || c.obs.prepositioned;
      && (s'.standUp.Prepositioning? <==> !inPlace)
      && (s'.standUp.StoodUp? <==> s.standUp.StoodUp? || (inPlace && c.obs.moved))
      && (s'.log == [] <==> !inPlace)
  {
    HandledMode(cfg, s, c, s');
  }

  /** A rest is done when the legs have arrived. */
  lemma RestProgress(cfg: Config, s: State, c: Cycle, s': State)
    requires Cycles(cfg, s, c, s') && c.Run? && s'.mode.Rest?
    ensures s'.restDone <==> c.obs.moved
    ensures |s'.log| == |s.log| && forall i :: 0 <= i < |s.log| ==> s'.log[i] == G.Leg(s.log[i].id, 1.0)
  {
    HandledMode(cfg, s, c, s');
  }

  /** A walk that goes on takes exactly one gait cycle, on the legs last commanded. */
  lemma WalkProgress(cfg: Config, s: State, c: Cycle, s': State)
    requires Cycles(cfg, s, c, s') && c.Run? && Found(s, c).Walk? && s'.mode.Walk?
    ensures G.FourLegs(s.log)
    ensures s'.walk == G.Step(cfg.walk, s.walk, c.obs.gait)
    ensures s'.log == G.StepLegs(cfg.walk, s.walk, c.obs.gait, s.log)
  {
    HandledMode(cfg, s, c, s');
    hide G.Step, G.StepLegs;
  }

  /** How many of the answers the flip's phases wait for came true, one after the other. */
  function Passed(phases: seq<bool>): nat {
    if phases == [] || !phases[0] then 0 else if |phases| == 1 || !phases[1] then 1 else 2
  }

  function FlipRank(f: FlipMode): nat {
    match f
    case FlipLowering => 0
    case FrontPush => 1
    case BackPush => 2
    case Flight => 3
    case Flipped => 4
  }

  /** The phases of a flip follow one another: the lowering may lead through the front push in one
      cycle, every other phase to the next at most, and the flight goes on.  In the front push all
      legs carry, in the back push exactly the rear ones, and the flight starts with none. */
  lemma FlipProgress(cfg: Config, s: State, c: Cycle, s': State)
    requires Cycles(cfg, s, c, s') && c.Run? && Found(s, c).Backflip? && s'.mode.Backflip? && !s.flip.Flipped?
    ensures
      var done := if Passed(c.obs.phases) >= 1 then 1 else 0;
      && FlipRank(s'.flip) == (if s.flip.FlipLowering? then Passed(c.obs.phases)
                               else if s.flip.Flight? then 3
                               else FlipRank(s.flip) + done)
      && |s'.log| == 4
      && (s.flip.FrontPush? || (s.flip.FlipLowering? && done == 1) ==> J.AllAt(s'.log, 1.0))
      && (s.flip.BackPush? && done == 0 ==>
            forall i :: 0 <= i < 4 ==> s'.log[i] == G.Leg(i, if cfg.rear[i] then 1.0 else 0.0))
      && (s.flip.BackPush? && done == 1 ==> J.AllAt(s'.log, 0.0))
      && (s.flip.Flight? || (s.flip.FlipLowering? && done == 0) ==> s'.log == s.log)
  {
    HandledMode(cfg, s, c, s');
  }
}
