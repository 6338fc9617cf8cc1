/** The frame check sequence: CRC-16/X.25, table-driven as in Appendix C.2 of RFC 1662,
    against its definition as a shift register clocked once per message bit. */
module Fcs {
  import opened Bits

  const POLYNOMIAL := 0x8408
  const INIT := 0xFFFF
  const RESIDUE := 0xF0B8

  type register = x: int | 0 <= x < 0x10000

  /** One turn of the register with no input: the inner loop of the table builder. */
  function BitStep(c: register): register
  {
    Pow2Widths();
    XorFits(c / 2, POLYNOMIAL, 16);
    if c % 2 == 1 then Xor(c / 2, POLYNOMIAL) else c / 2
  }

  /** The register takes in one message bit. */
  function Clock(c: register, bit: bool): register
  {
    BitStep(WithBit(c, bit))
  }

  function WithBit(c: register, bit: bool): (r: register)
    ensures r == Xor(c, if bit then 1 else 0)
  {
    XorZero(c);
    XorZero(c / 2);
    assert Xor(c, 1) == 2 * Xor(c / 2, 0) + (if c % 2 != 1 then 1 else 0);
    if !bit then c else if c % 2 == 0 then c + 1 else c - 1
  }

  function Fold<S, A>(f: (S, A) -> S, c: S, xs: seq<A>): S
  {
    if xs == [] then c else Fold(f, f(c, xs[0]), xs[1..])
  }

  /** The bits of a byte in the order they go over the line: least significant first. */
  function LineBits(b: nat, n: nat): (r: seq<bool>)
    ensures |r| == n
    decreases n, b
  {
    if n == 0 then [] else [b % 2 == 1] + LineBits(b / 2, n - 1)
  }

  function BitsOf(data: bytes): (r: seq<bool>)
    ensures |r| == 8 * |data|
  {
    if data == [] then [] else LineBits(data[0], 8) + BitsOf(data[1..])
  }

  /** The register after `data`, one bit at a time: the definition the table must reproduce. */
  function Register(data: bytes): register
  {
    Fold<register, bool>(Clock, INIT, BitsOf(data))
  }

  function Complement(c: register): register
  {
    Pow2Widths();
    XorFits(c, INIT, 16);
    Xor(c, INIT)
  }

  /** The value sent in the FCS field after `data`. */
  function Fcs(data: bytes): register
  {
    Complement(Register(data))
  }

  function FcsBytes(data: bytes): (r: bytes)
    ensures |r| == 2
  {
    var crc: register := Fcs(data);
    [crc % 256, crc / 256]
  }

  /** A little-endian pair of bytes. */
  function Word(low: byte, high: byte): register
  {
    low as int + 256 * high as int
  }

  /** The receiver's test on an unstuffed body that carries its FCS in the last two bytes. */
  predicate FcsOk(body: bytes)
    requires |body| >= 2
  {
    var n := |body| - 2;
    Fcs(body[..n]) == Word(body[n], body[n + 1])
  }

  // ----- the register is linear, and one turn of it loses nothing -----

  /** The feedback term: `poly` when a one falls out of the register. */
  function Gated(gate: bool, poly: nat): nat
  {
    if gate then poly else 0
  }

  lemma GatedLinear(p: bool, q: bool, poly: nat)
    ensures Gated(p != q, poly) == Xor(Gated(p, poly), Gated(q, poly))
  {
    XorSelf(poly);
    XorSelf(0);
    XorZero(poly);
  }

  lemma BitStepGated(c: register)
    ensures BitStep(c) == Xor(c / 2, Gated(c % 2 == 1, POLYNOMIAL))
  {
    XorZero(c / 2);
  }

  lemma BitStepLinear(x: register, y: register)
    ensures Xor(x, y) < 0x10000
    ensures BitStep(Xor(x, y)) == Xor(BitStep(x), BitStep(y))
  {
    Pow2Widths();
    XorFits(x, y, 16);
    BitStepGated(x);
    BitStepGated(y);
    BitStepGated(Xor(x, y));
    XorHalf(x, y);
    var p, q := x % 2 == 1, y % 2 == 1;
    GatedLinear(p, q, POLYNOMIAL);
    XorInterchange(x / 2, Gated(p, POLYNOMIAL), y / 2, Gated(q, POLYNOMIAL));
  }

  // The feedback polynomial toggled into a register, a few binary digits at a time.

  lemma LowDigits(a: nat)
    ensures Xor(a, POLYNOMIAL) == 8 * Xor(a / 8, 0x1081) + a % 8
  {
    hide Xor;
    XorEven(a, POLYNOMIAL, 0x4204);
    XorEven(a / 2, 0x4204, 0x2102);
    XorEven(a / 4, 0x2102, 0x1081);
  }

  lemma MiddleDigits(a: nat)
    ensures Xor(a, 0x1081) == 16 * Xor(a / 16, 0x108) + a % 16 + (if a % 2 == 0 then 1 else -1)
  {
    hide Xor;
    XorOdd(a, 0x1081, 0x840);
    XorEven(a / 2, 0x840, 0x420);
    XorEven(a / 4, 0x420, 0x210);
    XorEven(a / 8, 0x210, 0x108);
  }

  lemma UpperDigits(a: nat)
    ensures Xor(a, 0x108) == 8 * Xor(a / 8, 0x21) + a % 8
  {
    hide Xor;
    XorEven(a, 0x108, 0x84);
    XorEven(a / 2, 0x84, 0x42);
    XorEven(a / 4, 0x42, 0x21);
  }

  lemma HighDigits(a: nat)
    requires a < 8
    ensures Xor(a, 8) == 8 + a
  {
    hide Xor;
    XorEven(a, 8, 4);
    XorEven(a / 2, 4, 2);
    XorEven(a / 4, 2, 1);
    XorZero(1);
  }

  lemma TopDigits(a: nat)
    requires a < 32
    ensures Xor(a, 0x21) == 32 + a + (if a % 2 == 0 then 1 else -1)
  {
    hide Xor;
    XorOdd(a, 0x21, 0x10);
    XorEven(a / 2, 0x10, 8);
    HighDigits(a / 4);
  }

  /** The feedback sets the top bit, which a shift alone leaves clear, and toggles two more. */
  lemma Feedback(a: nat) returns (top: int, middle: int, c: int)
    requires a < 0x8000
    ensures top == 32 + a / 0x400 + (if a / 0x400 % 2 == 0 then 1 else -1)
    ensures middle == 128 * top + a / 8 % 128 + (if a / 8 % 2 == 0 then 1 else -1)
    ensures c == 8 * middle + a % 8
    ensures Xor(a, POLYNOMIAL) == c >= 0x8000
  {
    hide Xor;
    top := 32 + a / 0x400 + (if a / 0x400 % 2 == 0 then 1 else -1);
    middle := 128 * top + a / 8 % 128 + (if a / 8 % 2 == 0 then 1 else -1);
    c := 8 * middle + a % 8;
    LowDigits(a);
    MiddleDigits(a / 8);
    UpperDigits(a / 128);
    TopDigits(a / 0x400);
    assert a / 8 / 128 == a / 0x400;
  }

  lemma BitStepInjective(x: register, y: register)
    requires BitStep(x) == BitStep(y)
    ensures x == y
  {
    var t, m, c := Feedback(x / 2);
    t, m, c := Feedback(y / 2);
    XorCancels(x / 2, POLYNOMIAL);
    XorCancels(y / 2, POLYNOMIAL);
  }

  // ----- the table-driven step -----

  function Turns(c: register, n: nat): register
    decreases n, c
  {
    if n == 0 then c else Turns(BitStep(c), n - 1)
  }

  /** Entry `k` of the table. */
  function Entry(k: byte): register
  {
    Turns(k, 8)
  }

  function WithByte(c: register, b: byte): (r: register)
    ensures r == Xor(c, b)
  {
    Pow2Widths();
    XorFits(c, b, 16);
    Xor(c, b)
  }

  /** The register takes in one message byte. */
  function ByteStep(c: register, b: byte): register
  {
    Turns(WithByte(c, b), 8)
  }

  lemma {:induction false} TurnsLinear(x: register, y: register, n: nat)
    ensures Xor(x, y) < 0x10000
    ensures Turns(Xor(x, y), n) == Xor(Turns(x, n), Turns(y, n))
    decreases n
  {
    BitStepLinear(x, y);
    if n > 0 { TurnsLinear(BitStep(x), BitStep(y), n - 1); }
  }

  /** Turning a register whose low bits are clear only shifts it. */
  lemma {:induction false} TurnsShift(h: nat, n: nat)
    requires Pow2(n) * h < 0x10000
    ensures Turns(Pow2(n) * h, n) == h
    decreases n
  {
    if n > 0 {
      assert Pow2(n) * h == 2 * (Pow2(n - 1) * h);
      TurnsShift(h, n - 1);
    }
  }

  /** Which table entry a byte selects, and the high byte it leaves behind. */
  lemma ByteOfRegister(c: register, b: byte)
    ensures WithByte(c, b) / 256 == c / 256
    ensures Xor(256 * (c / 256), WithByte(c, b) % 256) == WithByte(c, b)
  {
    Pow2Widths();
    var h, low := c / 256, c % 256;
    var t := Xor(low, b);
    XorDisjoint(h, low, 8);
    XorAssociates(256 * h, low, b);
    XorFits(low, b, 8);
    XorDisjoint(h, t, 8);
    Quotient(h, t);
  }

  lemma Quotient(h: nat, t: nat)
    requires t < 256
    ensures (256 * h + t) / 256 == h && (256 * h + t) % 256 == t
  {}

  /** One table look-up does the work of eight turns. */
  lemma TableStep(c: register, b: byte)
    ensures ByteStep(c, b) == Xor(c / 256, Entry(WithByte(c, b) % 256))
  {
    var x := WithByte(c, b);
    ByteOfRegister(c, b);
    TurnsLinear(256 * (c / 256), x % 256, 8);
    Pow2Widths();
    TurnsShift(c / 256, 8);
  }

  /** Turning once with several bits waiting takes in the first and leaves the rest. */
  lemma TakeBit(c: register, q: nat)
    requires q < 0x10000
    ensures Xor(c, q) < 0x10000 && Xor(Clock(c, q % 2 == 1), q / 2) < 0x10000
    ensures BitStep(Xor(c, q)) == Xor(Clock(c, q % 2 == 1), q / 2)
  {
    hide Xor;
    Pow2Widths();
    XorFits(c, q, 16);
    var head := if q % 2 == 1 then 1 else 0;
    XorLowBit(q);
    XorAssociates(c, head, 2 * (q / 2));
    BitStepLinear(WithBit(c, q % 2 == 1), 2 * (q / 2));
  }

  /** ... and of the eight bits of the byte fed in one after another. */
  lemma {:induction false} TurnsClock(c: register, q: nat, n: nat)
    requires q < Pow2(n) && q < 0x10000
    ensures Xor(c, q) < 0x10000
    ensures Turns(Xor(c, q), n) == Fold<register, bool>(Clock, c, LineBits(q, n))
    decreases n
  {
    TakeBit(c, q);
    if n == 0 {
      XorZero(c);
    } else {
      TurnsClock(Clock(c, q % 2 == 1), q / 2, n - 1);
    }
  }

  lemma {:induction false} FoldAppend<S, A>(f: (S, A) -> S, c: S, xs: seq<A>, ys: seq<A>)
    ensures Fold(f, c, xs + ys) == Fold(f, Fold(f, c, xs), ys)
  {
    if xs == [] {
      assert xs + ys == ys;
    } else {
      assert (xs + ys)[1..] == xs[1..] + ys;
      FoldAppend(f, f(c, xs[0]), xs[1..], ys);
    }
  }

  lemma FoldLast<S, A>(f: (S, A) -> S, c: S, xs: seq<A>, x: A)
    ensures Fold(f, c, xs + [x]) == f(Fold(f, c, xs), x)
  {
    FoldAppend(f, c, xs, [x]);
  }

  lemma {:induction false} BytesAreBits(c: register, data: bytes)
    ensures Fold<register, byte>(ByteStep, c, data) == Fold<register, bool>(Clock, c, BitsOf(data))
    decreases |data|
  {
    if data != [] {
      Pow2Widths();
      TurnsClock(c, data[0], 8);
      FoldAppend<register, bool>(Clock, c, LineBits(data[0], 8), BitsOf(data[1..]));
      BytesAreBits(ByteStep(c, data[0]), data[1..]);
    }
  }

  ghost predicate IsTable(table: seq<register>)
  {
    |table| == 256 && forall k: nat | k < 256 :: table[k] == Entry(k)
  }

  /** One entry of the module-level table, by the source's inner loop. */
  method BuildEntry(b: byte) returns (c: register)
    ensures c == Entry(b)
  {
    c := b;
    for k := 0 to 8
      invariant Turns(c, 8 - k) == Entry(b)
    {
      var next := if c % 2 == 1 then Xor(c / 2, 0x8408) else c / 2;
      assert next == BitStep(c);
      c := next;
    }
  }

  method BuildTable() returns (table: seq<register>)
    ensures IsTable(table)
  {
    table := [];
    for b := 0 to 256
      invariant |table| == b
      invariant forall k: nat | k < b :: table[k] == Entry(k)
    {
      var c := BuildEntry(b);
      table := table + [c];
    }
  }

  method UpdateFcs(table: seq<register>, crc: register, b: byte) returns (next: register)
    requires IsTable(table)
    ensures next == ByteStep(crc, b)
  {
    TableStep(crc, b);
    var index: byte := Xor(crc, b) % 256;
    next := Xor(crc / 256, table[index]);
  }

  /** `fcs16`: the table-driven loop computes the bit-by-bit check sequence. */
  method Fcs16(table: seq<register>, data: bytes) returns (crc: register)
    requires IsTable(table)
    ensures crc == Fcs(data)
  {
    crc := INIT;
    for i := 0 to |data|
      invariant Fold<register, byte>(ByteStep, crc, data[i..]) == Fold<register, byte>(ByteStep, INIT, data)
    {
      assert data[i..][1..] == data[i + 1..];
      crc := UpdateFcs(table, crc, data[i]);
    }
    BytesAreBits(INIT, data);
    crc := Complement(crc);
  }

  // ----- the residue -----

  lemma RegisterAppend(data: bytes, lo: byte, hi: byte)
    ensures Register(data + [lo, hi]) == ByteStep(ByteStep(Register(data), lo), hi)
  {
    BytesAreBits(INIT, data);
    BytesAreBits(INIT, data + [lo, hi]);
    assert data + [lo, hi] == data + [lo] + [hi];
    FoldLast<register, byte>(ByteStep, INIT, data + [lo], hi);
    FoldLast<register, byte>(ByteStep, INIT, data, lo);
  }

  /** Two byte steps are sixteen turns of the register with both bytes mixed in at once. */
  lemma TwoByteSteps(c: register, lo: byte, hi: byte)
    ensures Xor(c, Word(lo, hi)) < 0x10000
    ensures ByteStep(ByteStep(c, lo), hi) == Turns(Turns(Xor(c, Word(lo, hi)), 8), 8)
  {
    Pow2Widths();
    XorFits(c, Word(lo, hi), 16);
    XorDisjoint(hi, lo, 8);
    XorCommutes(256 * hi, lo);
    XorAssociates(c, lo, 256 * hi);
    TurnsLinear(WithByte(c, lo), 256 * hi, 8);
    TurnsShift(hi, 8);
  }

  lemma {:induction false} TurnsInjective(x: register, y: register, n: nat)
    requires Turns(x, n) == Turns(y, n)
    ensures x == y
    decreases n
  {
    if n > 0 {
      TurnsInjective(BitStep(x), BitStep(y), n - 1);
      BitStepInjective(x, y);
    }
  }


  lemma TurnTo(c: register, d: register)
    requires c % 2 == 0 ==> d == c / 2
    requires c % 2 == 1 ==>
               var a := c / 2;
               var top := 32 + a / 0x400 + (if a / 0x400 % 2 == 0 then 1 else -1);
               var middle := 128 * top + a / 8 % 128 + (if a / 8 % 2 == 0 then 1 else -1);
               d == 8 * middle + a % 8
    ensures BitStep(c) == d
  {
    var t, m, f := Feedback(c / 2);
  }

  lemma TurnsTo(c: register, d: register, n: nat)
    requires n > 0 && BitStep(c) == d
    ensures Turns(c, n) == Turns(d, n - 1)
  {
    hide BitStep;
  }

  // An all-ones register, turned four times, and again, up to sixteen.

  lemma TurnOnesTo4(n: nat)
    requires n >= 4
    ensures Turns(0xFFFF, n) == Turns(0xF870, n - 4)
  {
    hide BitStep, Turns;
    TurnTo(0xFFFF, 0xFBF7);
    TurnsTo(0xFFFF, 0xFBF7, n);
    TurnTo(0xFBF7, 0xF9F3);
    TurnsTo(0xFBF7, 0xF9F3, n - 1);
    TurnTo(0xF9F3, 0xF8F1);
    TurnsTo(0xF9F3, 0xF8F1, n - 2);
    TurnTo(0xF8F1, 0xF870);
    TurnsTo(0xF8F1, 0xF870, n - 3);
  }

  lemma TurnOnesTo8(n: nat)
    requires n >= 4
    ensures Turns(0xF870, n) == Turns(0x0F87, n - 4)
  {
    hide BitStep, Turns;
    TurnTo(0xF870, 0x7C38);
    TurnsTo(0xF870, 0x7C38, n);
    TurnTo(0x7C38, 0x3E1C);
    TurnsTo(0x7C38, 0x3E1C, n - 1);
    TurnTo(0x3E1C, 0x1F0E);
    TurnsTo(0x3E1C, 0x1F0E, n - 2);
    TurnTo(0x1F0E, 0x0F87);
    TurnsTo(0x1F0E, 0x0F87, n - 3);
  }

  lemma TurnOnesTo12(n: nat)
    requires n >= 4
    ensures Turns(0x0F87, n) == Turns(0x737F, n - 4)
  {
    hide BitStep, Turns;
    TurnTo(0x0F87, 0x83CB);
    TurnsTo(0x0F87, 0x83CB, n);
    TurnTo(0x83CB, 0xC5ED);
    TurnsTo(0x83CB, 0xC5ED, n - 1);
    TurnTo(0xC5ED, 0xE6FE);
    TurnsTo(0xC5ED, 0xE6FE, n - 2);
    TurnTo(0xE6FE, 0x737F);
    TurnsTo(0xE6FE, 0x737F, n - 3);
  }

  lemma TurnOnesTo16(n: nat)
    requires n >= 4
    ensures Turns(0x737F, n) == Turns(0xF0B8, n - 4)
  {
    hide BitStep, Turns;
    TurnTo(0x737F, 0xBDB7);
    TurnsTo(0x737F, 0xBDB7, n);
    TurnTo(0xBDB7, 0xDAD3);
    TurnsTo(0xBDB7, 0xDAD3, n - 1);
    TurnTo(0xDAD3, 0xE961);
    TurnsTo(0xDAD3, 0xE961, n - 2);
    TurnTo(0xE961, 0xF0B8);
    TurnsTo(0xE961, 0xF0B8, n - 3);
  }

  lemma NoTurns(c: register, n: nat)
    requires n == 0
    ensures Turns(c, n) == c
  {}

  lemma TurnsOfOnes()
    ensures Turns(Turns(0xFFFF, 8), 8) == RESIDUE
  {
    hide BitStep, Turns;
    TurnOnesTo4(8);
    TurnOnesTo8(4);
    NoTurns(0x0F87, 0);
    TurnOnesTo12(8);
    TurnOnesTo16(4);
    NoTurns(0xF0B8, 0);
  }

  /** The receiver need not compare: a body is good exactly when it leaves the constant residue. */
  lemma ResidueLaw(body: bytes)
    requires |body| >= 2
    ensures FcsOk(body) <==> Register(body) == RESIDUE
  {
    hide Xor, Turns, BitStep, ByteStep, Register;
    var n := |body| - 2;
    var c, lo, hi := Register(body[..n]), body[n], body[n + 1];
    assert body == body[..n] + [lo, hi];
    RegisterAppend(body[..n], lo, hi);
    TwoByteSteps(c, lo, hi);
    TurnsOfOnes();
    var x: register := Xor(c, Word(lo, hi));
    if Register(body) == RESIDUE {
      TurnsInjective(Turns(x, 8), Turns(0xFFFF, 8), 8);
      TurnsInjective(x, 0xFFFF, 8);
    }
    XorMoves(c, Word(lo, hi), 0xFFFF);
  }

  /** What the sender appends passes the receiver's test. */
  lemma FcsAccepted(data: bytes)
    ensures FcsOk(data + FcsBytes(data))
  {
    var body := data + FcsBytes(data);
    assert body[..|data|] == data;
  }

  // ----- error bursts -----

  function Differ(us: seq<bool>, vs: seq<bool>): (r: seq<bool>)
    requires |us| == |vs|
    ensures |r| == |us|
    ensures forall k | 0 <= k < |us| :: r[k] == (us[k] != vs[k])
  {
    if us == [] then [] else [us[0] != vs[0]] + Differ(us[1..], vs[1..])
  }

  lemma ClockLinear(c: register, d: register, b: bool, e: bool)
    ensures Xor(c, d) < 0x10000
    ensures Xor(Clock(c, b), Clock(d, e)) == Clock(Xor(c, d), b != e)
  {
    Pow2Widths();
    XorFits(c, d, 16);
    BitStepLinear(WithBit(c, b), WithBit(d, e));
    XorInterchange(c, Gated(b, 1), d, Gated(e, 1));
    GatedLinear(b, e, 1);
  }

  /** Two messages side by side: the difference of the registers is the register of the difference. */
  lemma {:induction false} FoldDifference(c: register, d: register, us: seq<bool>, vs: seq<bool>)
    requires |us| == |vs|
    ensures Xor(c, d) < 0x10000
    ensures Xor(Fold<register, bool>(Clock, c, us), Fold<register, bool>(Clock, d, vs))
         == Fold<register, bool>(Clock, Xor(c, d), Differ(us, vs))
    decreases |us|
  {
    Pow2Widths();
    XorFits(c, d, 16);
    if us != [] {
      ClockLinear(c, d, us[0], vs[0]);
      FoldDifference(Clock(c, us[0]), Clock(d, vs[0]), us[1..], vs[1..]);
    }
  }

  /** Whatever comes in, the highest set bit of the register moves down by at most one. */
  lemma ClockKeepsHighBit(d: register, bit: bool, n: nat)
    requires 1 <= n <= 15 && d >= Pow2(n)
    ensures Clock(d, bit) >= Pow2(n - 1)
  {
    var x := WithBit(d, bit);
    assert x / 2 == d / 2;
    Pow2Widths();
    Pow2Monotone(n - 1, 15);
    var t, m, c := Feedback(x / 2);
  }

  lemma ClockOfNothing(d: register)
    ensures d > 0 ==> Clock(d, false) > 0
    ensures Clock(0, false) == 0 && Clock(0, true) >= 0x8000
  {
    var t, m, c := Feedback(d / 2);
    t, m, c := Feedback(0);
  }

  lemma {:induction false} DifferenceSurvives(d: register, es: seq<bool>, n: nat)
    requires n <= 15 && d >= Pow2(n)
    requires forall k | n <= k < |es| :: !es[k]
    ensures Fold<register, bool>(Clock, d, es) > 0
    decreases |es|
  {
    if es != [] {
      ClockOfNothing(d);
      if n > 0 { ClockKeepsHighBit(d, es[0], n); }
      DifferenceSurvives(Clock(d, es[0]), es[1..], if n > 0 then n - 1 else 0);
    }
  }

  lemma {:induction false} BurstLeavesTrace(es: seq<bool>, i: nat)
    requires exists k :: 0 <= k < |es| && es[k]
    requires forall k | 0 <= k < |es| && !(i <= k < i + 16) :: !es[k]
    ensures Fold<register, bool>(Clock, 0, es) > 0
    decreases |es|
  {
    ClockOfNothing(0);
    var rest := es[1..];
    if es[0] {
      Pow2Widths();
      assert forall k | 15 <= k < |rest| :: rest[k] == es[k + 1];
      DifferenceSurvives(Clock(0, true), rest, 15);
    } else {
      var k :| 0 <= k < |es| && es[k];
      assert rest[k - 1];
      assert forall j | 0 <= j < |rest| :: rest[j] == es[j + 1];
      BurstLeavesTrace(rest, if i > 0 then i - 1 else 0);
    }
  }

  lemma {:induction false} LineBitsInjective(a: nat, b: nat, n: nat)
    requires a < Pow2(n) && b < Pow2(n) && LineBits(a, n) == LineBits(b, n)
    ensures a == b
    decreases n
  {
    if n > 0 {
      assert LineBits(a, n)[0] == LineBits(b, n)[0];
      assert LineBits(a, n)[1..] == LineBits(a / 2, n - 1);
      assert LineBits(b, n)[1..] == LineBits(b / 2, n - 1);
      LineBitsInjective(a / 2, b / 2, n - 1);
    }
  }

  lemma {:induction false} BitsOfInjective(u: bytes, v: bytes)
    requires |u| == |v| && BitsOf(u) == BitsOf(v)
    ensures u == v
  {
    if u != [] {
      assert BitsOf(u)[..8] == LineBits(u[0], 8) && BitsOf(u)[8..] == BitsOf(u[1..]);
      assert BitsOf(v)[..8] == LineBits(v[0], 8) && BitsOf(v)[8..] == BitsOf(v[1..]);
      Pow2Widths();
      LineBitsInjective(u[0], v[0], 8);
      BitsOfInjective(u[1..], v[1..]);
    }
  }

  /** Two different bodies of one length that differ only within sixteen consecutive bits on the line
      are never both good: every such error burst is caught, wherever it lies, FCS field included. */
  lemma BurstDetected(u: bytes, v: bytes, i: nat)
    requires |u| == |v| >= 2 && u != v
    requires forall k | 0 <= k < 8 * |u| && !(i <= k < i + 16) :: BitsOf(u)[k] == BitsOf(v)[k]
    ensures !(FcsOk(u) && FcsOk(v))
  {
    var us, vs := BitsOf(u), BitsOf(v);
    var es := Differ(us, vs);
    if forall k | 0 <= k < |es| :: !es[k] {
      assert us == vs;
      BitsOfInjective(u, v);
      assert false;
    }
    FoldDifference(INIT, INIT, us, vs);
    XorSelf(INIT);
    BurstLeavesTrace(es, i);
    ResidueLaw(u);
    ResidueLaw(v);
    XorSelf(RESIDUE);
  }

  lemma {:induction false} BitsOfAgree(u: bytes, v: bytes, j: nat, k: nat)
    requires |u| == |v| && k < 8 * |u|
    requires forall m | 0 <= m < |u| && m != j && m != j + 1 :: u[m] == v[m]
    requires !(8 * j <= k < 8 * j + 16)
    ensures BitsOf(u)[k] == BitsOf(v)[k]
    decreases |u|
  {
    if k < 8 {
      assert u[0] == v[0];
    } else {
      assert forall m | 0 <= m < |u| - 1 :: u[1..][m] == u[m + 1] && v[1..][m] == v[m + 1];
      if j == 0 {
        // the burst has been passed: what is left agrees everywhere but at most in its first byte
        BitsOfAgreeAfter(u[1..], v[1..], k - 8);
      } else {
        BitsOfAgree(u[1..], v[1..], j - 1, k - 8);
      }
    }
  }

  lemma BitsOfAgreeAfter(u: bytes, v: bytes, k: nat)
    requires |u| == |v| && 8 <= k < 8 * |u|
    requires forall m | 1 <= m < |u| :: u[m] == v[m]
    ensures BitsOf(u)[k] == BitsOf(v)[k]
  {
    assert u[1..] == v[1..];
  }

  /** The byte-aligned case: damage confined to two adjacent bytes. */
  lemma AdjacentBytesDetected(u: bytes, v: bytes, j: nat)
    requires |u| == |v| >= 2 && u != v
    requires forall m | 0 <= m < |u| && m != j && m != j + 1 :: u[m] == v[m]
    ensures !(FcsOk(u) && FcsOk(v))
  {
    forall k | 0 <= k < 8 * |u| && !(8 * j <= k < 8 * j + 16)
      ensures BitsOf(u)[k] == BitsOf(v)[k]
    {
      BitsOfAgree(u, v, j, k);
    }
    BurstDetected(u, v, 8 * j);
  }

  // ----- by value -----

  /** A register of fifteen digits with digit 15 set and digits 10 and 3 toggled: what the feedback does to it. */
  function Toggled(a: nat): (r: register)
    requires a < 0x8000
  {
    0x8000 + a + (if a / 0x400 % 2 == 0 then 0x400 else -0x400) + (if a / 8 % 2 == 0 then 8 else -8)
  }

  /** The register takes in one message bit, in plain arithmetic. */
  function Taken(c: register, bit: bool): register
  {
    if (c % 2 == 1) != bit then Toggled(c / 2) else c / 2
  }

  lemma ToggledDigits(a: nat)
    requires a < 0x8000
    ensures var top := 32 + a / 0x400 + (if a / 0x400 % 2 == 0 then 1 else -1);
      var middle := 128 * top + a / 8 % 128 + (if a / 8 % 2 == 0 then 1 else -1);
      Toggled(a) == 8 * middle + a % 8
  {
    assert a / 8 / 128 == a / 0x400;
    assert a / 8 == 128 * (a / 0x400) + a / 8 % 128;
  }

  lemma TakenIsClock(c: register, bit: bool)
    ensures Clock(c, bit) == Taken(c, bit)
  {
    hide Xor, BitStep, Toggled;
    var d := WithBit(c, bit);
    WithBitDigits(c, bit);
    ToggledDigits(c / 2);
    TurnTo(d, Taken(c, bit));
  }

  lemma WithBitDigits(c: register, bit: bool)
    ensures var d := WithBit(c, bit); d / 2 == c / 2 && (d % 2 == 1 <==> (c % 2 == 1) != bit)
  {
    hide Xor;
  }

  /** Eight bits, least significant first, are an octet. */
  lemma OctetBy(b: byte, c0: register, c1: register, c2: register, c3: register, c4: register, c5: register,
                c6: register, c7: register, c8: register)
    requires c1 == Taken(c0, b % 2 == 1) && c2 == Taken(c1, b / 2 % 2 == 1) && c3 == Taken(c2, b / 4 % 2 == 1)
    requires c4 == Taken(c3, b / 8 % 2 == 1) && c5 == Taken(c4, b / 16 % 2 == 1) && c6 == Taken(c5, b / 32 % 2 == 1)
    requires c7 == Taken(c6, b / 64 % 2 == 1) && c8 == Taken(c7, b / 128 % 2 == 1)
    ensures ByteStep(c0, b) == c8
  {
    hide Xor, Turns, Taken, Clock, Fold, LineBits;
    Pow2Widths();
    TurnsClock(c0, b, 8);
    NextBit(c0, b, 8);
    NextBit(c1, b / 2, 7);
    NextBit(c2, b / 4, 6);
    NextBit(c3, b / 8, 5);
    NextBit(c4, b / 16, 4);
    NextBit(c5, b / 32, 3);
    NextBit(c6, b / 64, 2);
    NextBit(c7, b / 128, 1);
    NoBit(c8, b / 256);
    Halvings(b);
  }

  lemma Halvings(b: byte)
    ensures b / 2 / 2 == b / 4 && b / 4 / 2 == b / 8 && b / 8 / 2 == b / 16 && b / 16 / 2 == b / 32
    ensures b / 32 / 2 == b / 64 && b / 64 / 2 == b / 128 && b / 128 / 2 == b / 256
  {}

  lemma NextBit(c: register, b: nat, n: nat)
    requires n > 0
    ensures Fold<register, bool>(Clock, c, LineBits(b, n))
         == Fold<register, bool>(Clock, Taken(c, b % 2 == 1), LineBits(b / 2, n - 1))
  {
    hide Clock, Taken;
    TakenIsClock(c, b % 2 == 1);
    assert LineBits(b, n)[1..] == LineBits(b / 2, n - 1);
  }

  lemma NoBit(c: register, b: nat)
    ensures Fold<register, bool>(Clock, c, LineBits(b, 0)) == c
  {}

  // The nine digits, bit by bit.

  lemma OneToThree()
    ensures ByteStep(0xFFFF, 0x31) == 0x2F8D
    ensures ByteStep(0x2F8D, 0x32) == 0x4D53
    ensures ByteStep(0x4D53, 0x33) == 0x634B
  {
    hide ByteStep;
    OctetBy(0x31, 0xFFFF, 0x7FFF, 0xBBF7, 0xD9F3, 0xE8F1, 0x7478, 0xBE34, 0x5F1A, 0x2F8D);
    OctetBy(0x32, 0x2F8D, 0x93CE, 0xCDEF, 0xE2FF, 0xF577, 0x7ABB, 0x3D5D, 0x9AA6, 0x4D53);
    OctetBy(0x33, 0x4D53, 0x26A9, 0x1354, 0x09AA, 0x04D5, 0x026A, 0x853D, 0xC696, 0x634B);
  }

  lemma FourToSix()
    ensures ByteStep(0x634B, 0x34) == 0x8B13
    ensures ByteStep(0x8B13, 0x35) == 0x44BF
    ensures ByteStep(0x44BF, 0x36) == 0x198D
  {
    hide ByteStep;
    OctetBy(0x34, 0x634B, 0xB5AD, 0xDEDE, 0xEB67, 0xF1BB, 0x78DD, 0x3C6E, 0x1E37, 0x8B13);
    OctetBy(0x35, 0x8B13, 0x4589, 0xA6CC, 0xD76E, 0x6BB7, 0x35DB, 0x1AED, 0x897E, 0x44BF);
    OctetBy(0x36, 0x44BF, 0xA657, 0x532B, 0x2995, 0x90C2, 0xCC69, 0x6634, 0x331A, 0x198D);
  }

  lemma SevenToNine()
    ensures ByteStep(0x198D, 0x37) == 0x1AC8
    ensures ByteStep(0x1AC8, 0x38) == 0xF795
    ensures ByteStep(0xF795, 0x39) == 0x6F91
  {
    hide ByteStep;
    OctetBy(0x37, 0x198D, 0x0CC6, 0x826B, 0x4135, 0xA492, 0xD641, 0x6B20, 0x3590, 0x1AC8);
    OctetBy(0x38, 0x1AC8, 0x0D64, 0x06B2, 0x0359, 0x01AC, 0x84DE, 0xC667, 0xE73B, 0xF795);
    OctetBy(0x39, 0xF795, 0x7BCA, 0x3DE5, 0x9AFA, 0xC975, 0x64BA, 0xB655, 0xDF22, 0x6F91);
  }

  /** The check value of this code: over the digits one to nine. */
  lemma CheckValue()
    ensures Fcs([0x31, 0x32, 0x33, 0x34, 0x35, 0x36, 0x37, 0x38, 0x39]) == 0x906E
  {
    hide ByteStep, Clock, Xor, Complement, Fold;
    var digits: bytes := [0x31, 0x32, 0x33, 0x34, 0x35, 0x36, 0x37, 0x38, 0x39];
    OneToThree();
    FourToSix();
    SevenToNine();
    BytesAreBits(INIT, digits);
    assert digits[0..] == digits;
    ThreeOctets(0xFFFF, digits, 0);
    ThreeOctets(0x634B, digits, 3);
    ThreeOctets(0x198D, digits, 6);
    NoOctet(0x6F91, digits[9..]);
    ComplementIs(0x6F91);
  }

  lemma SnrmOctets()
    ensures ByteStep(0xFFFF, 0x01) == 0x1E0E && ByteStep(0x1E0E, 0x93) == 0x4F72
  {
    hide ByteStep;
    OctetBy(0x01, 0xFFFF, 0x7FFF, 0xBBF7, 0xD9F3, 0xE8F1, 0xF070, 0x7838, 0x3C1C, 0x1E0E);
    OctetBy(0x93, 0x1E0E, 0x8B0F, 0x4587, 0xA6CB, 0xD76D, 0x6BB6, 0x35DB, 0x9EE5, 0x4F72);
  }

  /** A frame with nothing in it: SNRM to the first address, as it goes over the line. */
  lemma CheckSnrm()
    ensures Fcs([0x01, 0x93]) == 0xB08D
  {
    hide ByteStep, Clock, Xor, Complement, Fold;
    SnrmOctets();
    var body: bytes := [0x01, 0x93];
    BytesAreBits(INIT, body);
    assert body[0..] == body;
    NextOctet(0xFFFF, body, 0);
    NextOctet(0x1E0E, body, 1);
    NoOctet(0x4F72, body[2..]);
    ComplementIs(0x4F72);
  }

  lemma NextOctet(c: register, data: bytes, i: nat)
    requires i < |data|
    ensures Fold<register, byte>(ByteStep, c, data[i..])
         == Fold<register, byte>(ByteStep, ByteStep(c, data[i]), data[i + 1..])
  {
    hide ByteStep;
    assert data[i..][1..] == data[i + 1..];
  }

  lemma NoOctet(c: register, data: bytes)
    requires data == []
    ensures Fold<register, byte>(ByteStep, c, data) == c
  {}

  lemma ThreeOctets(c: register, data: bytes, i: nat)
    requires i + 3 <= |data|
    ensures Fold<register, byte>(ByteStep, c, data[i..])
         == Fold<register, byte>(
              ByteStep, ByteStep(ByteStep(ByteStep(c, data[i]), data[i + 1]), data[i + 2]), data[i + 3..])
  {
    hide ByteStep, Fold;
    NextOctet(c, data, i);
    NextOctet(ByteStep(c, data[i]), data, i + 1);
    NextOctet(ByteStep(ByteStep(c, data[i]), data[i + 1]), data, i + 2);
  }

  /** Every digit is turned over. */
  lemma {:induction false} TurnedOver(c: nat, n: nat)
    requires c < Pow2(n)
    ensures Xor(c, Pow2(n) - 1) == Pow2(n) - 1 - c
  {
    if n > 0 { TurnedOver(c / 2, n - 1); }
  }

  lemma ComplementIs(c: register)
    ensures Complement(c) == 0xFFFF - c
  {
    hide Xor;
    Pow2Widths();
    TurnedOver(c, 16);
  }

  /** An octet of zeros in front does not go unnoticed, whatever follows: the register does not start at zero. */
  lemma ZeroInFront(data: bytes)
    ensures Fcs([0] + data) != Fcs(data)
  {
    hide ByteStep, Clock, Xor, Fold;
    OctetBy(0x00, 0xFFFF, 0xFBF7, 0xF9F3, 0xF8F1, 0xF870, 0x7C38, 0x3E1C, 0x1F0E, 0x0F87);
    BytesAreBits(INIT, data);
    BytesAreBits(INIT, [0] + data);
    assert ([0] + data)[0..] == [0] + data && ([0] + data)[1..] == data;
    NextOctet(0xFFFF, [0] + data, 0);
    if Fcs([0] + data) == Fcs(data) {
      ComplementIs(Register([0] + data));
      ComplementIs(Register(data));
      FoldInjective(0x0F87, 0xFFFF, data);
    }
  }

  /** Registers that differ stay different whatever is taken in. */
  lemma {:induction false} FoldInjective(c: register, d: register, data: bytes)
    requires Fold<register, byte>(ByteStep, c, data) == Fold<register, byte>(ByteStep, d, data)
    ensures c == d
    decreases |data|
  {
    hide ByteStep;
    if data != [] {
      FoldInjective(ByteStep(c, data[0]), ByteStep(d, data[0]), data[1..]);
      ByteStepInjective(c, d, data[0]);
    }
  }

  lemma ByteStepInjective(c: register, d: register, b: byte)
    requires ByteStep(c, b) == ByteStep(d, b)
    ensures c == d
  {
    hide Xor, Turns;
    TurnsInjective(WithByte(c, b), WithByte(d, b), 8);
    XorCancels(c, b);
    XorCancels(d, b);
  }
}
