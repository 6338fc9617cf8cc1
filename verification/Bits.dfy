/** Bitwise operations on the unbounded non-negative integers that Python's `^` and `&` work on,
    and the byte and byte-string types of the wire. */
module Bits {
  type byte = x: int | 0 <= x < 256
  type bytes = seq<byte>

  /** Python's `a ^ b`. */
  function Xor(a: nat, b: nat): nat
    decreases a + b
  {
    if a == 0 && b == 0 then 0
    else 2 * Xor(a / 2, b / 2) + (if a % 2 != b % 2 then 1 else 0)
  }

  function Pow2(n: nat): (r: nat)
    ensures r > 0
  {
    if n == 0 then 1 else 2 * Pow2(n - 1)
  }

  lemma Pow2Widths()
    ensures Pow2(8) == 0x100 && Pow2(15) == 0x8000 && Pow2(16) == 0x10000
  {
    assert Pow2(4) == 16;
    assert Pow2(8) == 256;
    assert Pow2(12) == 4096;
  }

  lemma XorHalf(a: nat, b: nat)
    ensures Xor(a, b) / 2 == Xor(a / 2, b / 2)
    ensures Xor(a, b) % 2 == 1 <==> a % 2 != b % 2
  {}

  lemma {:induction false} XorZero(a: nat)
    ensures Xor(a, 0) == a && Xor(0, a) == a
  {
    if a > 0 { XorZero(a / 2); }
  }

  lemma {:induction false} XorSelf(a: nat)
    ensures Xor(a, a) == 0
  {
    if a > 0 { XorSelf(a / 2); }
  }

  lemma {:induction false} XorCommutes(a: nat, b: nat)
    ensures Xor(a, b) == Xor(b, a)
    decreases a + b
  {
    if a + b > 0 { XorCommutes(a / 2, b / 2); }
  }

  lemma {:induction false} XorAssociates(a: nat, b: nat, c: nat)
    ensures Xor(Xor(a, b), c) == Xor(a, Xor(b, c))
    decreases a + b + c
  {
    if a + b + c > 0 { XorAssociates(a / 2, b / 2, c / 2); }
  }

  /** `^` stays within the width of its operands. */
  lemma {:induction false} XorFits(a: nat, b: nat, n: nat)
    requires a < Pow2(n) && b < Pow2(n)
    ensures Xor(a, b) < Pow2(n)
    decreases n
  {
    if n > 0 { XorFits(a / 2, b / 2, n - 1); }
  }

  lemma XorCancels(a: nat, b: nat)
    ensures Xor(Xor(a, b), b) == a
  {
    XorAssociates(a, b, b);
    XorSelf(b);
    XorZero(a);
  }

  lemma XorMoves(a: nat, b: nat, c: nat)
    ensures Xor(a, b) == c <==> Xor(a, c) == b
  {
    hide Xor;
    XorCommutes(a, b);
    XorCommutes(a, c);
    XorCancels(b, a);
    XorCancels(c, a);
  }

  /** Operands with no bit in common: `^` is `+`. */
  lemma {:induction false} XorDisjoint(h: nat, low: nat, n: nat)
    requires low < Pow2(n)
    ensures Xor(Pow2(n) * h, low) == Pow2(n) * h + low
    decreases n
  {
    if n == 0 {
      XorZero(h);
    } else {
      var k := Pow2(n - 1);
      assert Pow2(n) * h == 2 * (k * h);
      XorDisjoint(h, low / 2, n - 1);
    }
  }

  lemma XorLowBit(q: nat)
    ensures Xor(if q % 2 == 1 then 1 else 0, 2 * (q / 2)) == q
  {
    var low := if q % 2 == 1 then 1 else 0;
    assert Pow2(1) == 2;
    XorDisjoint(q / 2, low, 1);
    XorCommutes(2 * (q / 2), low);
  }

  lemma XorEven(a: nat, b: nat, c: nat)
    requires b == 2 * c
    ensures Xor(a, b) == 2 * Xor(a / 2, c) + a % 2
  {
    hide Xor;
    XorHalf(a, b);
    assert b / 2 == c && b % 2 == 0;
  }

  lemma XorOdd(a: nat, b: nat, c: nat)
    requires b == 2 * c + 1
    ensures Xor(a, b) == 2 * Xor(a / 2, c) + 1 - a % 2
  {
    hide Xor;
    XorHalf(a, b);
    assert b / 2 == c && b % 2 == 1;
  }

  lemma {:induction false} Pow2Monotone(m: nat, n: nat)
    requires m <= n
    ensures Pow2(m) <= Pow2(n)
    decreases n
  {
    if m < n { Pow2Monotone(m, n - 1); }
  }

  /** Rearranging a four-way exclusive or. */
  lemma XorInterchange(a: nat, b: nat, c: nat, d: nat)
    ensures Xor(Xor(a, b), Xor(c, d)) == Xor(Xor(a, c), Xor(b, d))
  {
    XorAssociates(a, b, Xor(c, d));
    XorAssociates(b, c, d);
    XorCommutes(b, c);
    XorAssociates(c, b, d);
    XorAssociates(a, c, Xor(b, d));
  }
}
