/** Joint commands on their way to a servo: the controller's register writes (EmitControl) and
    the simulator's decoder (Servo::Write and Servo::Update). */
module ServoCodec {
  import opened Wrappers
  import opened Doubles
  import opened Moteus

  // ---- the sender -------------------------------------------------------------------------------

  datatype Joint = Joint(
    power: bool,
    zeroVelocity: bool,
    angle: Double,
    velocity: Double,
    torque: Double,
    kpScale: Option<Double>,
    kdScale: Option<Double>,
    maxTorque: Option<Double>,
    stopAngle: Option<Double>)

  datatype Write = Write(reg: nat, value: Value)

  predicate IsSign(s: real) { s == 1.0 || s == -1.0 }

  function ValueOr(o: Option<Double>, default: Double): Double {
    if o.Some? then o.value else default
  }

  /** The torque limit that applies: the smaller of the controller's and the joint's, if any. */
  function MaxTorque(limit: real, joint: Joint): Option<Double> {
    if limit >= 0.0 || joint.maxTorque.Some?
    then Some(Min(if limit < 0.0 then PosInf else Fin(limit), ValueOr(joint.maxTorque, PosInf)))
    else None
  }

  function ServoMode(joint: Joint): int {
    if !joint.power then MODE_STOPPED
    else if joint.zeroVelocity then MODE_ZERO_VELOCITY
    else MODE_POSITION
  }

  /** How many of the consecutive command registers must be written. */
  function CommandLength(joint: Joint, maxTorque: Option<Double>): nat {
    if joint.stopAngle.Some? then 7
    else if maxTorque.Some? then 6
    else if joint.torque != Fin(0.0) then 3
    else if joint.velocity != Fin(0.0) then 2
    else if joint.angle != Fin(0.0) then 1
    else 0
  }

  function CommandValue(joint: Joint, maxTorque: Option<Double>, sign: real, i: nat): Value
    requires i < 7 && sign != 0.0
  {
    match i
    case 0 => WritePosition(Times(sign, joint.angle), TypeInt16)
    case 1 => WriteVelocity(Times(sign, joint.velocity), TypeInt16)
    case 2 => WriteTorque(Times(sign, joint.torque), TypeInt16)
    case 5 => WriteTorque(ValueOr(maxTorque, PosInf), TypeInt16)
    case 6 => WritePosition(Times(sign, ValueOr(joint.stopAngle, NaN)), TypeInt16)
    case _ => WritePwm(Fin(1.0), TypeInt16)
  }

  function Clip(gain: Double): Double { if Lt(gain, Fin(0.0)) then Fin(0.0) else gain }

  function GainLength(joint: Joint): nat {
    if joint.kdScale.Some? then 2 else if joint.kpScale.Some? then 1 else 0
  }

  function GainValue(joint: Joint, i: nat): Value {
    WritePwm(Clip(ValueOr(if i == 0 then joint.kpScale else joint.kdScale, Fin(1.0))), TypeFloat)
  }

  /** The first `n` command registers, from kCommandPosition on. */
  function CommandWrites(joint: Joint, maxTorque: Option<Double>, sign: real, n: nat): seq<Write>
    requires n <= 7 && sign != 0.0
  {
    if n == 0 then []
    else CommandWrites(joint, maxTorque, sign, n - 1)
         + [Write(REG_COMMAND_POSITION + (n - 1), CommandValue(joint, maxTorque, sign, n - 1))]
  }

  function GainWrites(joint: Joint, n: nat): seq<Write> {
    if n == 0 then [] else GainWrites(joint, n - 1) + [Write(REG_COMMAND_KP_SCALE + (n - 1), GainValue(joint, n - 1))]
  }

  /** The writes for one joint; `sign` is missing for a servo that is not configured. */
  function Emit(limit: real, sign: Option<real>, joint: Joint): seq<Write>
    requires sign.Some? ==> IsSign(sign.value)
  {
    var mode := [Write(REG_MODE, Int8(ServoMode(joint)))];
    if ServoMode(joint) != MODE_POSITION || sign.None? then mode
    else
      var maxTorque := MaxTorque(limit, joint);
      mode
      + CommandWrites(joint, maxTorque, sign.value, CommandLength(joint, maxTorque))
      + GainWrites(joint, GainLength(joint))
  }

  // ---- the receiver -----------------------------------------------------------------------------

  /** The decoder's command; positions are in revolutions. */
  datatype Command = Command(
    mode: int,
    position: Double,
    velocity: Double,
    maxTorque: Double,
    stopPosition: Double,
    feedforward: Double,
    kpScale: Double,
    kdScale: Double,
    timeout: Double)

  const DEFAULT := Command(
    MODE_STOPPED, Fin(0.0), Fin(0.0), Fin(100.0), NaN, Fin(0.0), Fin(1.0), Fin(1.0), Fin(0.0))

  /** ReadInt: every value type converts to an integer. */
  function ReadInt(v: Value): int {
    match v
    case Float(x) => if x.Fin? then Truncate(x.r) else 0
    case _ => v.n
  }

  function Revolutions(sign: real, degrees: Double): Double
    requires sign != 0.0
  {
    Times(1.0 / 360.0, Times(sign, degrees))
  }

  /** Servo::Write on the staged command. */
  function Accept(c: Command, sign: real, w: Write): Command
    requires sign != 0.0
  {
    if w.reg == REG_MODE then
      if ReadInt(w.value) >= NUM_MODES then c else DEFAULT.(mode := ReadInt(w.value))
    else if w.reg == REG_COMMAND_POSITION then c.(position := Revolutions(sign, ReadPosition(w.value)))
    else if w.reg == REG_COMMAND_VELOCITY then c.(velocity := Revolutions(sign, ReadVelocity(w.value)))
    else if w.reg == REG_COMMAND_MAX_TORQUE then c.(maxTorque := ReadTorque(w.value))
    else if w.reg == REG_COMMAND_STOP_POSITION then c.(stopPosition := Revolutions(sign, ReadPosition(w.value)))
    else if w.reg == REG_COMMAND_TIMEOUT then c.(timeout := ReadTime(w.value))
    else if w.reg == REG_COMMAND_FEEDFORWARD then c.(feedforward := Times(sign, ReadTorque(w.value)))
    else if w.reg == REG_COMMAND_KP_SCALE then c.(kpScale := ReadPwm(w.value))
    else if w.reg == REG_COMMAND_KD_SCALE then c.(kdScale := ReadPwm(w.value))
    else c
  }

  function AcceptAll(c: Command, sign: real, ws: seq<Write>): Command
    requires sign != 0.0
  {
    if ws == [] then c else Accept(AcceptAll(c, sign, ws[..|ws| - 1]), sign, ws[|ws| - 1])
  }

  lemma {:induction false} AcceptSplit(c: Command, sign: real, a: seq<Write>, b: seq<Write>)
    requires sign != 0.0
    ensures AcceptAll(c, sign, a + b) == AcceptAll(AcceptAll(c, sign, a), sign, b)
  {
    if b == [] {
      assert a + b == a;
    } else {
      AcceptSplit(c, sign, a, b[..|b| - 1]);
      assert (a + b)[..|a + b| - 1] == a + b[..|b| - 1];
    }
  }

  // ---- round trips of single fields ---------------------------------------------------------------

  const POSITION_QUANTUM := 0.0001
  const VELOCITY_QUANTUM := 0.00025
  const TORQUE_QUANTUM := 0.01

  /** A double field through an int16 register: within one quantum, or saturated, or NaN. */
  ghost predicate Carried(d: Double, x: Double, quantum: real) {
    Approximates(d, x, quantum, 32767.0 * quantum)
  }

  lemma SignedCarry(sign: real, other: real, n: int, x: Double, quantum: real)
    requires IsSign(sign) && IsSign(other) && quantum > 0.0
    requires n == ScaleSaturate(INT16_MAX, Times(sign, x), quantum)
    ensures Carried(Times(other, ReadInteger(INT16_MAX, n, quantum)), Times(sign * other, x), quantum)
  {
    hide ScaleSaturate, ReadInteger;
    SaturateRoundTrip(INT16_MAX, Times(sign, x), quantum);
    TimesTimes(other, sign, x);
    Mirror(ReadInteger(INT16_MAX, n, quantum), Times(sign, x), other, quantum, 32767.0 * quantum);
  }

  /** Approximation is symmetric about zero. */
  lemma Mirror(d: Double, x: Double, sign: real, quantum: real, limit: real)
    requires IsSign(sign) && Approximates(d, x, quantum, limit) && limit >= 0.0
    ensures Approximates(Times(sign, d), Times(sign, x), quantum, limit)
  {
    hide Times;
    TimesSign(sign, d);
    TimesSign(sign, x);
  }

  lemma TimesSign(sign: real, x: Double)
    requires IsSign(sign)
    ensures Times(sign, x) == if sign == 1.0 then x else Neg(x)
  {
    if x.Fin? {
      assert 1.0 * x.r == x.r && -1.0 * x.r == -x.r;
    }
  }

  lemma TimesTimes(a: real, b: real, x: Double)
    requires a != 0.0 && b != 0.0 && a * b != 0.0
    ensures Times(a, Times(b, x)) == Times(a * b, x) == Times(b, Times(a, x))
  {
    if x.Fin? {
      assert a * (b * x.r) == (a * b) * x.r == b * (a * x.r);
    } else if a > 0.0 {
      assert b > 0.0 <==> a * b > 0.0;
    } else {
      assert b > 0.0 <==> a * b < 0.0;
    }
  }

  lemma DegreesAndBack(sign: real, x: Double)
    requires IsSign(sign)
    ensures Revolutions(sign, Times(360.0, x)) == Times(sign, x)
    ensures Times(1.0 / 360.0, Times(sign, x)) == Times(sign, Times(1.0 / 360.0, x))
  {
    TimesTimes(1.0 / 360.0, sign, Times(360.0, x));
    TimesTimes(1.0 / 360.0, 360.0, x);
    assert 1.0 / 360.0 * 360.0 == 1.0;
    TimesSign(1.0, x);
    TimesTimes(1.0 / 360.0, sign, x);
  }

  /** A position given in degrees arrives in revolutions, counted with both signs. */
  lemma PositionCarry(sign: real, other: real, x: Double)
    requires IsSign(sign) && IsSign(other)
    ensures Carried(Revolutions(other, ReadPosition(WritePosition(Times(sign, x), TypeInt16))),
                    Times(1.0 / 360.0, Times(sign * other, x)), POSITION_QUANTUM)
  {
    hide Times, Revolutions, Carried, ScaleSaturate, ReadInteger;
    var v := WritePosition(Times(sign, x), TypeInt16);
    DegreesAndBack(sign, x);
    SignedCarry(sign, other, v.n, Times(1.0 / 360.0, x), POSITION_QUANTUM);
    DegreesAndBack(other, ReadInteger(INT16_MAX, v.n, POSITION_QUANTUM));
    DegreesAndBack(sign * other, x);
  }

  lemma VelocityCarry(sign: real, other: real, x: Double)
    requires IsSign(sign) && IsSign(other)
    ensures Carried(Revolutions(other, ReadVelocity(WriteVelocity(Times(sign, x), TypeInt16))),
                    Times(1.0 / 360.0, Times(sign * other, x)), VELOCITY_QUANTUM)
  {
    hide Times, Revolutions, Carried, ScaleSaturate, ReadInteger;
    var v := WriteVelocity(Times(sign, x), TypeInt16);
    DegreesAndBack(sign, x);
    SignedCarry(sign, other, v.n, Times(1.0 / 360.0, x), VELOCITY_QUANTUM);
    DegreesAndBack(other, ReadInteger(INT16_MAX, v.n, VELOCITY_QUANTUM));
    DegreesAndBack(sign * other, x);
  }

  lemma TorqueCarry(sign: real, other: real, x: Double)
    requires IsSign(sign) && IsSign(other)
    ensures Carried(Times(other, ReadTorque(WriteTorque(Times(sign, x), TypeInt16))),
                    Times(sign * other, x), TORQUE_QUANTUM)
  {
    SignedCarry(sign, other, WriteTorque(Times(sign, x), TypeInt16).n, x, TORQUE_QUANTUM);
  }

  lemma UnitGain()
    ensures ReadPwm(WritePwm(Fin(1.0), TypeInt16)) == Fin(1.0)
  {
    assert 1.0 / (1.0 / 32767.0) == 32767.0;
    assert Truncate(32767.0) == 32767;
  }

  /** A zero that is not written decodes to the default as well as one that is. */
  lemma ZeroCarry(s: real, quantum: real)
    requires IsSign(s) && quantum > 0.0
    ensures Carried(Fin(0.0), Times(1.0 / 360.0, Times(s, Fin(0.0))), quantum)
    ensures Carried(Fin(0.0), Times(s, Fin(0.0)), quantum)
  {}

  // ---- the whole command --------------------------------------------------------------------------

  /** What the decoder holds after the first `n` command registers. */
  function Decoded(joint: Joint, maxTorque: Option<Double>, sign: real, other: real, n: nat): Command
    requires n <= 7 && sign != 0.0 && other != 0.0
  {
    DEFAULT.(
      mode := MODE_POSITION,
      position := if n > 0 then Revolutions(other, ReadPosition(CommandValue(joint, maxTorque, sign, 0))) else Fin(0.0),
      velocity := if n > 1 then Revolutions(other, ReadVelocity(CommandValue(joint, maxTorque, sign, 1))) else Fin(0.0),
      feedforward := if n > 2 then Times(other, ReadTorque(CommandValue(joint, maxTorque, sign, 2))) else Fin(0.0),
      kpScale := if n > 3 then ReadPwm(CommandValue(joint, maxTorque, sign, 3)) else Fin(1.0),
      kdScale := if n > 4 then ReadPwm(CommandValue(joint, maxTorque, sign, 4)) else Fin(1.0),
      maxTorque := if n > 5 then ReadTorque(CommandValue(joint, maxTorque, sign, 5)) else Fin(100.0),
      stopPosition := if n > 6 then Revolutions(other, ReadPosition(CommandValue(joint, maxTorque, sign, 6))) else NaN)
  }

  lemma {:induction false} CommandDecodes(joint: Joint, maxTorque: Option<Double>, sign: real, other: real, n: nat)
    requires n <= 7 && sign != 0.0 && other != 0.0
    ensures AcceptAll(DEFAULT.(mode := MODE_POSITION), other, CommandWrites(joint, maxTorque, sign, n))
            == Decoded(joint, maxTorque, sign, other, n)
  {
    hide Revolutions, ReadPosition, ReadVelocity, ReadTorque, ReadPwm, CommandValue, Times;
    if n > 0 {
      CommandDecodes(joint, maxTorque, sign, other, n - 1);
      var ws := CommandWrites(joint, maxTorque, sign, n);
      assert ws[..|ws| - 1] == CommandWrites(joint, maxTorque, sign, n - 1);
    }
  }

  lemma GainsDecode(c: Command, joint: Joint, other: real, n: nat)
    requires n <= 2 && other != 0.0
    ensures AcceptAll(c, other, GainWrites(joint, n))
            == c.(kpScale := if n > 0 then ReadPwm(GainValue(joint, 0)) else c.kpScale,
                  kdScale := if n > 1 then ReadPwm(GainValue(joint, 1)) else c.kdScale)
  {
    hide ReadPwm, GainValue;
    if n > 0 {
      GainsDecode(c, joint, other, n - 1);
      var ws := GainWrites(joint, n);
      assert ws[..|ws| - 1] == GainWrites(joint, n - 1);
    }
  }

  /** Whatever was staged before, the decoder ends with the fields of the emitted command. */
  lemma EmitDecodes(limit: real, sign: real, other: real, joint: Joint, staged: Command)
    requires IsSign(sign) && IsSign(other) && ServoMode(joint) == MODE_POSITION
    ensures var mt := MaxTorque(limit, joint);
            var d := Decoded(joint, mt, sign, other, CommandLength(joint, mt));
            AcceptAll(staged, other, Emit(limit, Some(sign), joint))
            == d.(kpScale := if GainLength(joint) > 0 then ReadPwm(GainValue(joint, 0)) else d.kpScale,
                  kdScale := if GainLength(joint) > 1 then ReadPwm(GainValue(joint, 1)) else d.kdScale)
  {
    hide Decoded, CommandWrites, GainWrites, CommandLength, GainValue, ReadPwm;
    var mt := MaxTorque(limit, joint);
    var n := CommandLength(joint, mt);
    assert n <= 7 by { LengthAtMostSeven(joint, mt); }
    var mode := [Write(REG_MODE, Int8(MODE_POSITION))];
    var block, gains := CommandWrites(joint, mt, sign, n), GainWrites(joint, GainLength(joint));
    assert AcceptAll(staged, other, mode) == DEFAULT.(mode := MODE_POSITION) by {
      assert mode[..0] == [];
    }
    AcceptSplit(staged, other, mode, block);
    AcceptSplit(staged, other, mode + block, gains);
    CommandDecodes(joint, mt, sign, other, n);
    GainsDecode(Decoded(joint, mt, sign, other, n), joint, other, GainLength(joint));
  }

  lemma LengthAtMostSeven(joint: Joint, maxTorque: Option<Double>)
    ensures CommandLength(joint, maxTorque) <= 7
  {}

  /** The torque limit that arrives: the smaller one of the controller's, which is off below zero,
      and the joint's; without any, the default, or none where the stop angle is sent behind it. */
  ghost predicate LimitArrives(m: Double, limit: real, joint: Joint) {
    var own := joint.maxTorque;
    if limit < 0.0 && own.None? then (if joint.stopAngle.Some? then m.NaN? else m == Fin(100.0))
    else if own.None? then Carried(m, Fin(limit), TORQUE_QUANTUM)
    else if limit < 0.0 || own.value.NegInf? || (own.value.Fin? && own.value.r < limit)
    then Carried(m, own.value, TORQUE_QUANTUM)
    else Carried(m, Fin(limit), TORQUE_QUANTUM)
  }

  /** A gain arrives as it is, negative ones as zero, and one where none is given. */
  ghost predicate GainArrives(g: Double, gain: Option<Double>) {
    if gain.None? then g == Fin(1.0)
    else if gain.value.NegInf? || (gain.value.Fin? && gain.value.r < 0.0) then g == Fin(0.0)
    else g == gain.value
  }

  /** The joint command as the servo understands it, with `s` the product of both signs. */
  ghost predicate Understood(c: Command, joint: Joint, limit: real, s: real)
    requires IsSign(s)
  {
    && c.mode == 10
    && Carried(c.position, Times(1.0 / 360.0, Times(s, joint.angle)), POSITION_QUANTUM)
    && Carried(c.velocity, Times(1.0 / 360.0, Times(s, joint.velocity)), VELOCITY_QUANTUM)
    && Carried(c.feedforward, Times(s, joint.torque), TORQUE_QUANTUM)
    && (if joint.stopAngle.Some?
        then Carried(c.stopPosition, Times(1.0 / 360.0, Times(s, joint.stopAngle.value)), POSITION_QUANTUM)
        else c.stopPosition.NaN?)
    && LimitArrives(c.maxTorque, limit, joint)
    && GainArrives(c.kpScale, joint.kpScale)
    && GainArrives(c.kdScale, joint.kdScale)
    && c.timeout == Fin(0.0)
  }

  /** Round trip: position, velocity, torque, stop angle and any torque limit arrive within one
      int16 quantum or saturated, NaN stays NaN, gains arrive exactly with negative ones as zero,
      and every field left out of the variable-length command arrives as its default. */
  lemma JointRoundTrip(limit: real, sign: real, other: real, joint: Joint, staged: Command)
    requires IsSign(sign) && IsSign(other) && joint.power && !joint.zeroVelocity
    ensures Understood(AcceptAll(staged, other, Emit(limit, Some(sign), joint)), joint, limit, sign * other)
  {
    hide Emit, AcceptAll, Carried, Times, Revolutions, ReadPosition, ReadVelocity, ReadTorque,
         WritePosition, WriteVelocity, WriteTorque, MaxTorque, LimitArrives, GainArrives;
    var mt := MaxTorque(limit, joint);
    EmitDecodes(limit, sign, other, joint, staged);
    LengthAtMostSeven(joint, mt);
    PositionCarry(sign, other, joint.angle);
    VelocityCarry(sign, other, joint.velocity);
    TorqueCarry(sign, other, joint.torque);
    PositionCarry(sign, other, ValueOr(joint.stopAngle, NaN));
    ZeroCarry(sign * other, POSITION_QUANTUM);
    ZeroCarry(sign * other, VELOCITY_QUANTUM);
    ZeroCarry(sign * other, TORQUE_QUANTUM);
    UnitGain();
    LimitDecodes(limit, joint);
    GainClips(joint.kpScale);
    GainClips(joint.kdScale);
  }

  /** What the decoder holds as the torque limit. */
  lemma LimitDecodes(limit: real, joint: Joint)
    ensures var mt := MaxTorque(limit, joint);
            var sent := mt.Some? || joint.stopAngle.Some?;
            LimitArrives(if sent then ReadTorque(WriteTorque(ValueOr(mt, PosInf), TypeInt16)) else Fin(100.0),
                         limit, joint)
  {
    hide ReadTorque, WriteTorque;
    TorqueLimitCarry(ValueOr(MaxTorque(limit, joint), PosInf));
    UnlimitedTorque();
  }

  lemma GainClips(gain: Option<Double>)
    ensures GainArrives(Clip(ValueOr(gain, Fin(1.0))), gain)
  {}

  lemma TorqueLimitCarry(x: Double)
    ensures Carried(ReadTorque(WriteTorque(x, TypeInt16)), x, TORQUE_QUANTUM)
  {
    SaturateRoundTrip(INT16_MAX, x, TORQUE_QUANTUM);
  }

  lemma UnlimitedTorque()
    ensures ReadTorque(WriteTorque(PosInf, TypeInt16)) == NaN
  {}

  /** The number of the mode that arrives: stopped exactly without power, zero velocity where that is
      asked of a powered joint, and position otherwise. */
  lemma ModeArrives(limit: real, sign: Option<real>, other: real, joint: Joint, staged: Command)
    requires IsSign(other) && (sign.Some? ==> IsSign(sign.value))
    ensures var mode := AcceptAll(staged, other, Emit(limit, sign, joint)).mode;
            && (mode == 0 <==> !joint.power)
            && (mode == 12 <==> joint.power && joint.zeroVelocity)
            && (mode == 10 <==> joint.power && !joint.zeroVelocity)
  {
    if sign.None? || !joint.power || joint.zeroVelocity {
      assert Emit(limit, sign, joint)[..0] == [];
    } else {
      hide Emit, AcceptAll, CommandLength;
      LengthAtMostSeven(joint, MaxTorque(limit, joint));
      EmitDecodes(limit, sign.value, other, joint, staged);
    }
  }

  /** A joint without power, at zero velocity, or of an unknown servo sends its mode alone, and
      everything else arrives as the default. */
  lemma ModeOnlyRoundTrip(limit: real, sign: Option<real>, other: real, joint: Joint, staged: Command)
    requires IsSign(other) && (sign.Some? ==> IsSign(sign.value))
    requires sign.None? || !joint.power || joint.zeroVelocity
    ensures var c := AcceptAll(staged, other, Emit(limit, sign, joint));
            && c.mode == (if !joint.power then 0 else if joint.zeroVelocity then 12 else 10)
            && c.position == Fin(0.0) && c.velocity == Fin(0.0) && c.feedforward == Fin(0.0)
            && c.maxTorque == Fin(100.0) && c.stopPosition.NaN? && c.timeout == Fin(0.0)
            && c.kpScale == Fin(1.0) && c.kdScale == Fin(1.0)
  {
    assert Emit(limit, sign, joint)[..0] == [];
  }

  // ---- sender and receiver in place -------------------------------------------------------------

  /** EmitControl for one joint: the value list is resized field by field and then filled. */
  method EmitJoint(limit: real, sign: Option<real>, joint: Joint) returns (request: seq<Write>)
    requires sign.Some? ==> IsSign(sign.value)
    ensures request == Emit(limit, sign, joint)
  {
    hide CommandValue, GainValue;
    var maxTorque := MaxTorque(limit, joint);
    var mode := ServoMode(joint);
    request := [Write(REG_MODE, Int8(mode))];
    if mode != MODE_POSITION || sign.None? {
      return;
    }
    var size := 0;
    if joint.angle != Fin(0.0) { size := 1; }
    if joint.velocity != Fin(0.0) { size := 2; }
    if joint.torque != Fin(0.0) { size := 3; }
    if maxTorque.Some? { size := 6; }
    if joint.stopAngle.Some? { size := 7; }
    assert size == CommandLength(joint, maxTorque);
    var start := request;
    for i := 0 to size
      invariant request == start + CommandWrites(joint, maxTorque, sign.value, i)
    {
      request := request + [Write(REG_COMMAND_POSITION + i, CommandValue(joint, maxTorque, sign.value, i))];
    }
    size := 0;
    if joint.kpScale.Some? { size := 1; }
    if joint.kdScale.Some? { size := 2; }
    start := request;
    for i := 0 to size
      invariant request == start + GainWrites(joint, i)
    {
      request := request + [Write(REG_COMMAND_KP_SCALE + i, GainValue(joint, i))];
    }
  }

  /** Servo::Update: a moving command without a position heads for its stop position. */
  function Aim(c: Command, position: real): Command {
    if c.position.NaN? && !c.stopPosition.NaN? && !c.velocity.NaN? && c.velocity != Fin(0.0)
    then c.(velocity := Times(if Lt(Fin(position), c.stopPosition) then 1.0 else -1.0, Abs(c.velocity)))
    else c
  }

  /** A command that moves without a position keeps its speed and heads for its stop position; every
      other command is taken as it is. */
  lemma AimHeadsForStop(c: Command, position: real)
    ensures
      var moving := c.position.NaN? && !c.stopPosition.NaN? && !c.velocity.NaN? && c.velocity != Fin(0.0);
      var up := c.stopPosition.PosInf? || (c.stopPosition.Fin? && position < c.stopPosition.r);
      && (!moving ==> Aim(c, position) == c)
      && (moving ==> Aim(c, position) == c.(velocity := Aim(c, position).velocity))
      && (moving && c.velocity.Fin? ==>
            var v := c.velocity.r;
            Aim(c, position).velocity == Fin(if (v > 0.0) == up then v else -v))
  {}

  class Servo {
    const sign: real
    var staged: Command
    var stagedValid: bool
    var command: Command

    constructor (sign: real)
      ensures this.sign == sign && staged == DEFAULT && !stagedValid && command == DEFAULT
    {
      this.sign := sign;
      staged, stagedValid, command := DEFAULT, false, DEFAULT;
    }

    method WriteRegister(w: Write) returns (err: int)
      requires sign != 0.0
      modifies this`staged, this`stagedValid
      ensures staged == Accept(old(staged), sign, w)
      ensures err == 3 <==> w.reg == REG_MODE && ReadInt(w.value) >= NUM_MODES
      ensures stagedValid <==> old(stagedValid) || (w.reg == REG_MODE && ReadInt(w.value) < NUM_MODES)
    {
      hide Revolutions, ReadPosition, ReadVelocity, ReadTorque, ReadPwm, ReadTime, Times;
      err := 0;
      if w.reg == REG_MODE {
        if ReadInt(w.value) >= NUM_MODES {
          return 3;
        }
        stagedValid := true;
        staged := DEFAULT;
        staged := staged.(mode := ReadInt(w.value));
      } else if w.reg == REG_COMMAND_POSITION {
        staged := staged.(position := Revolutions(sign, ReadPosition(w.value)));
      } else if w.reg == REG_COMMAND_VELOCITY {
        staged := staged.(velocity := Revolutions(sign, ReadVelocity(w.value)));
      } else if w.reg == REG_COMMAND_MAX_TORQUE {
        staged := staged.(maxTorque := ReadTorque(w.value));
      } else if w.reg == REG_COMMAND_STOP_POSITION {
        staged := staged.(stopPosition := Revolutions(sign, ReadPosition(w.value)));
      } else if w.reg == REG_COMMAND_TIMEOUT {
        staged := staged.(timeout := ReadTime(w.value));
      } else if w.reg == REG_COMMAND_FEEDFORWARD {
        staged := staged.(feedforward := Times(sign, ReadTorque(w.value)));
      } else if w.reg == REG_COMMAND_KP_SCALE {
        staged := staged.(kpScale := ReadPwm(w.value));
      } else if w.reg == REG_COMMAND_KD_SCALE {
        staged := staged.(kdScale := ReadPwm(w.value));
      }
    }

    method Update(position: real)
      modifies this
      ensures command == if old(stagedValid) then Aim(old(staged), position) else old(command)
      ensures staged == DEFAULT && !stagedValid
    {
      if stagedValid {
        stagedValid := false;
        command := Aim(staged, position);
      }
      staged := DEFAULT;
    }

    /** A request that carries an emitted joint command: whatever was staged before, the servo
        ends up with that command, aimed at its stop position where it has no position. */
    method Receive(ghost limit: real, ghost jointSign: real, ghost joint: Joint, request: seq<Write>, position: real)
      requires IsSign(sign) && IsSign(jointSign) && joint.power && !joint.zeroVelocity
      requires request == Emit(limit, Some(jointSign), joint)
      modifies this
      ensures exists c :: Understood(c, joint, limit, jointSign * sign) && command == Aim(c, position)
      ensures staged == DEFAULT && !stagedValid
    {
      hide Accept, Understood, Aim;
      ghost var before := staged;
      for i := 0 to |request|
        invariant staged == AcceptAll(before, sign, request[..i])
        invariant i > 0 ==> stagedValid
      {
        var err := WriteRegister(request[i]);
        assert request[..i + 1][..i] == request[..i];
        assert request[0] == Write(REG_MODE, Int8(MODE_POSITION));
      }
      assert request[..|request|] == request;
      JointRoundTrip(limit, jointSign, sign, joint, before);
      Update(position);
    }
  }
}
