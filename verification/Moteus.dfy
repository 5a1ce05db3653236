/** The servo protocol's fixed point values (mech/moteus.h): saturating writers and readers. */
module Moteus {
  import opened Doubles

  datatype Value = Int8(n: int) | Int16(n: int) | Int32(n: int) | Float(x: Double)

  datatype RegisterType = TypeInt8 | TypeInt16 | TypeInt32 | TypeFloat

  const INT8_MAX := 127
  const INT16_MAX := 32767
  const INT32_MAX := 2147483647

  const REG_MODE := 0x000
  const REG_COMMAND_POSITION := 0x020
  const REG_COMMAND_VELOCITY := 0x021
  const REG_COMMAND_FEEDFORWARD := 0x022
  const REG_COMMAND_KP_SCALE := 0x023
  const REG_COMMAND_KD_SCALE := 0x024
  const REG_COMMAND_MAX_TORQUE := 0x025
  const REG_COMMAND_STOP_POSITION := 0x026
  const REG_COMMAND_TIMEOUT := 0x027

  const MODE_STOPPED := 0
  const MODE_POSITION := 10
  const MODE_ZERO_VELOCITY := 12
  const NUM_MODES := 13

  /** Conversion to an integer drops the fraction. */
  function Truncate(r: real): int {
    if r >= 0.0 then r.Floor else -((-r).Floor)
  }

  function Saturate(max: int, s: real): int {
    if s < -(max as real) then -max else if s > max as real then max else Truncate(s)
  }

  /** ScaleSaturate for the type whose largest value is `max`; the smallest value, one below
      `-max`, is reserved for NaN. */
  function ScaleSaturate(max: int, value: Double, scale: real): int
    requires max > 0 && scale > 0.0
  {
    if !value.Fin? then -max - 1 else Saturate(max, value.r / scale)
  }

  function ScaleMapping(value: Double, int8: real, int16: real, int32: real, reg: RegisterType): Value
    requires int8 > 0.0 && int16 > 0.0 && int32 > 0.0
  {
    match reg
    case TypeInt8 => Int8(ScaleSaturate(INT8_MAX, value, int8))
    case TypeInt16 => Int16(ScaleSaturate(INT16_MAX, value, int16))
    case TypeInt32 => Int32(ScaleSaturate(INT32_MAX, value, int32))
    case TypeFloat => Float(value)
  }

  function WritePosition(degrees: Double, reg: RegisterType): Value {
    ScaleMapping(Times(1.0 / 360.0, degrees), 0.01, 0.0001, 0.00001, reg)
  }

  function WriteVelocity(dps: Double, reg: RegisterType): Value {
    ScaleMapping(Times(1.0 / 360.0, dps), 0.1, 0.00025, 0.00001, reg)
  }

  function WriteTorque(torque: Double, reg: RegisterType): Value {
    ScaleMapping(torque, 0.5, 0.01, 0.001, reg)
  }

  function WritePwm(ratio: Double, reg: RegisterType): Value {
    ScaleMapping(ratio, 1.0 / 127.0, 1.0 / 32767.0, 1.0 / 2147483647.0, reg)
  }

  function Product(a: real, scale: real): real { a * scale }

  /** ValueScaler for an integer type. */
  function ReadInteger(max: int, n: int, scale: real): Double {
    if n == -max - 1 then NaN else Fin(Product(n as real, scale))
  }

  function ReadScale(value: Value, int8: real, int16: real, int32: real): Double {
    match value
    case Int8(n) => ReadInteger(INT8_MAX, n, int8)
    case Int16(n) => ReadInteger(INT16_MAX, n, int16)
    case Int32(n) => ReadInteger(INT32_MAX, n, int32)
    case Float(x) => x
  }

  function ReadPosition(value: Value): Double { Times(360.0, ReadScale(value, 0.01, 0.0001, 0.00001)) }
  function ReadVelocity(value: Value): Double { Times(360.0, ReadScale(value, 0.01, 0.00025, 0.00001)) }
  function ReadTorque(value: Value): Double { ReadScale(value, 0.5, 0.01, 0.001) }
  function ReadPwm(value: Value): Double { ReadScale(value, 1.0 / 127.0, 1.0 / 32767.0, 1.0 / 2147483647.0) }
  function ReadTime(value: Value): Double { ReadScale(value, 0.01, 0.001, 0.000001) }

  // ---- what survives the fixed point ------------------------------------------------------------

  /** `d` stands for `x` after a trip through steps of `quantum` that end at `limit`: within one
      step and no larger in magnitude, or saturated; what is not finite becomes NaN. */
  ghost predicate Approximates(d: Double, x: Double, quantum: real, limit: real) {
    if !x.Fin? then d.NaN?
    else
      && d.Fin?
      && (x.r > limit ==> d.r == limit)
      && (x.r < -limit ==> d.r == -limit)
      && (-limit <= x.r <= limit ==>
            && -quantum < d.r - x.r < quantum
            && (if x.r >= 0.0 then 0.0 <= d.r <= x.r else x.r <= d.r <= 0.0))
  }

  lemma TruncateBounds(r: real)
    ensures if r >= 0.0 then 0.0 <= Truncate(r) as real <= r < Truncate(r) as real + 1.0
            else Truncate(r) as real - 1.0 < r <= Truncate(r) as real <= 0.0
  {}

  lemma ProductOrder(a: real, b: real, scale: real)
    requires scale > 0.0
    ensures a <= b ==> Product(a, scale) <= Product(b, scale)
    ensures a < b ==> Product(a, scale) < Product(b, scale)
  {}

  lemma ProductShifts(a: real, scale: real)
    ensures Product(a - 1.0, scale) == Product(a, scale) - scale
    ensures Product(a + 1.0, scale) == Product(a, scale) + scale
    ensures Product(-a, scale) == -Product(a, scale)
    ensures Product(0.0, scale) == 0.0
  {}

  lemma Rescaled(r: real, scale: real)
    requires scale > 0.0
    ensures Product(r / scale, scale) == r
  {}

  /** Writing and reading back loses less than one step. */
  lemma SaturateRoundTrip(max: int, value: Double, scale: real)
    requires max > 0 && scale > 0.0
    ensures Approximates(ReadInteger(max, ScaleSaturate(max, value, scale), scale), value, scale,
                         Product(max as real, scale))
  {
    if value.Fin? {
      hide Saturate, Approximates, Product;
      var s := value.r / scale;
      Rescaled(value.r, scale);
      SaturateScaled(max, s, scale);
      assert value == Fin(value.r);
    }
  }

  lemma SaturateScaled(max: int, s: real, scale: real)
    requires max > 0 && scale > 0.0
    ensures -max <= Saturate(max, s) <= max
    ensures Approximates(Fin(Product(Saturate(max, s) as real, scale)), Fin(Product(s, scale)),
                         scale, Product(max as real, scale))
  {
    hide Product, Approximates;
    var m := max as real;
    TruncateBounds(s);
    ProductShifts(m, scale);
    ProductOrder(0.0, m, scale);
    ProductOrder(m, s, scale);
    ProductOrder(s, -m, scale);
    if s > m {
      AtLimit(Product(s, scale), scale, Product(m, scale));
    } else if s < -m {
      assert Saturate(max, s) as real == -m;
      AtLimit(Product(s, scale), scale, Product(m, scale));
    } else {
      ProductOrder(s, m, scale);
      ProductOrder(-m, s, scale);
      TruncateScaled(s, scale);
      WithinLimit(Product(Truncate(s) as real, scale), Product(s, scale), scale, Product(m, scale));
    }
  }

  lemma AtLimit(x: real, quantum: real, limit: real)
    requires limit >= 0.0 && (x > limit || x < -limit)
    ensures Approximates(Fin(if x > limit then limit else -limit), Fin(x), quantum, limit)
  {}

  lemma WithinLimit(d: real, x: real, quantum: real, limit: real)
    requires -limit <= x <= limit && -quantum < d - x < quantum
    requires if x >= 0.0 then 0.0 <= d <= x else x <= d <= 0.0
    ensures Approximates(Fin(d), Fin(x), quantum, limit)
  {}

  lemma TruncateScaled(s: real, scale: real)
    requires scale > 0.0
    ensures var d, x := Product(Truncate(s) as real, scale), Product(s, scale);
            && -scale < d - x < scale
            && (if x >= 0.0 then 0.0 <= d <= x else x <= d <= 0.0)
  {
    hide Product;
    TruncateBounds(s);
    var t := Truncate(s) as real;
    ProductShifts(t, scale);
    ProductOrder(0.0, s, scale);
    ProductOrder(s, 0.0, scale);
    ProductOrder(0.0, t, scale);
    ProductOrder(t, 0.0, scale);
    ProductOrder(t, s, scale);
    ProductOrder(s, t, scale);
    ProductOrder(s, t + 1.0, scale);
    ProductOrder(t - 1.0, s, scale);
  }

  /** Reading and writing back is exact for every value of the type, the NaN marker included. */
  lemma ReadRoundTrip(max: int, n: int, scale: real)
    requires max > 0 && scale > 0.0 && -max - 1 <= n <= max
    ensures ScaleSaturate(max, ReadInteger(max, n, scale), scale) == n
  {
    if n != -max - 1 {
      assert (n as real * scale) / scale == n as real;
      if n < 0 {
        assert -(n as real) == (-n) as real;
      }
    }
  }
}
