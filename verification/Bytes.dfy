/** Unsigned bytes and their exclusive or, defined bit by bit. */
module Bytes {

  type Byte = b: int | 0 <= b < 256

  function XorBits(a: nat, b: nat): nat
    decreases a + b
  {
    if a == 0 && b == 0 then 0 else 2 * XorBits(a / 2, b / 2) + (a + b) % 2
  }

  /** `a ^ b` */
  function Xor(a: Byte, b: Byte): Byte {
    assert Pow2(8) == 256 by { assert Pow2(4) == 16; }
    XorBelow(a, b, 8);
    XorBits(a, b)
  }

  function Pow2(n: nat): nat { if n == 0 then 1 else 2 * Pow2(n - 1) }

  lemma {:induction false} XorBelow(a: nat, b: nat, n: nat)
    requires a < Pow2(n) && b < Pow2(n)
    ensures XorBits(a, b) < Pow2(n)
  {
    if n > 0 {
      XorBelow(a / 2, b / 2, n - 1);
    }
  }

  lemma XorHalf(a: nat, b: nat)
    ensures XorBits(a, b) / 2 == XorBits(a / 2, b / 2)
    ensures XorBits(a, b) % 2 == (a + b) % 2
  {}

  lemma SameHalf(x: nat, y: nat)
    requires x / 2 == y / 2 && x % 2 == y % 2
    ensures x == y
  {}

  lemma ParityOfThree(a: nat, b: nat, c: nat, ab: nat, bc: nat)
    requires ab % 2 == (a + b) % 2 && bc % 2 == (b + c) % 2
    ensures (ab + c) % 2 == (a + bc) % 2
  {}

  lemma {:induction false} XorAssociates(a: nat, b: nat, c: nat)
    ensures XorBits(XorBits(a, b), c) == XorBits(a, XorBits(b, c))
    decreases a + b + c
  {
    if a + b + c > 0 {
      XorAssociates(a / 2, b / 2, c / 2);
      XorAssociatesFromHalves(a, b, c);
    }
  }

  lemma XorAssociatesFromHalves(a: nat, b: nat, c: nat)
    requires XorBits(XorBits(a / 2, b / 2), c / 2) == XorBits(a / 2, XorBits(b / 2, c / 2))
    ensures XorBits(XorBits(a, b), c) == XorBits(a, XorBits(b, c))
  {
    hide XorBits;
    var ab, bc := XorBits(a, b), XorBits(b, c);
    XorHalf(a, b);
    XorHalf(b, c);
    XorHalf(ab, c);
    XorHalf(a, bc);
    ParityOfThree(a, b, c, ab, bc);
    SameHalf(XorBits(ab, c), XorBits(a, bc));
  }

  lemma {:induction false} XorCommutes(a: nat, b: nat)
    ensures XorBits(a, b) == XorBits(b, a)
    decreases a + b
  {
    if a + b > 0 {
      XorCommutes(a / 2, b / 2);
    }
  }

  lemma {:induction false} XorSelf(a: nat)
    ensures XorBits(a, a) == 0 && XorBits(a, 0) == a == XorBits(0, a)
  {
    if a > 0 {
      XorSelf(a / 2);
    }
  }

  /** Exchanging the operand `d` for `c` is the same as adding their difference. */
  lemma XorExchange(x: nat, d: nat, c: nat)
    ensures XorBits(x, c) == XorBits(XorBits(x, d), XorBits(d, c))
  {
    XorAssociates(x, d, XorBits(d, c));
    XorAssociates(d, d, c);
    XorSelf(d);
    XorSelf(c);
  }

  lemma XorSwap(x: nat, d: nat, b: nat)
    ensures XorBits(XorBits(x, d), b) == XorBits(XorBits(x, b), d)
  {
    XorAssociates(x, d, b);
    XorAssociates(x, b, d);
    XorCommutes(d, b);
  }

  lemma XorDiffers(x: nat, d: nat)
    ensures XorBits(x, d) == x <==> d == 0
  {
    XorSelf(x);
    if XorBits(x, d) == x {
      XorAssociates(x, x, d);
      XorSelf(d);
    }
  }

  lemma {:induction false} XorZero(a: nat, b: nat)
    ensures XorBits(a, b) == 0 <==> a == b
  {
    XorSelf(a);
    if XorBits(a, b) == 0 {
      XorAssociates(a, a, b);
      XorSelf(b);
    }
  }
}
