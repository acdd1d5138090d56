/** What chains of the 8-bit operations compute on numbers of any length. Byte sequences are
    little-endian; a chain works from the low byte up, or down from the high byte for RR. */
module CpuChains {
  import opened Bits
  import opened CpuState

  /** ADC or SBC, plain or followed by DAA. */
  datatype Op = Op(subtract: bool, decimal: bool)

  function StepAcc(op: Op, x: u8, y: u8, c: bool): Acc {
    var r := if op.subtract then SbcAcc(x, y, c) else AdcAcc(x, y, c);
    if op.decimal then DaaAcc(r) else r
  }

  /** The bytes and the final carry of a chain. */
  function Chain(op: Op, xs: seq<u8>, ys: seq<u8>, c: bool): (r: (seq<u8>, bool))
    requires |xs| == |ys|
    ensures |r.0| == |xs|
  {
    if xs == [] then ([], c)
    else
      var step := StepAcc(op, xs[0], ys[0], c);
      var rest := Chain(op, xs[1..], ys[1..], step.c);
      ([step.a] + rest.0, rest.1)
  }

  function Base(decimal: bool): nat { if decimal then 100 else 256 }

  function Power(base: nat, n: nat): nat { if n == 0 then 1 else base * Power(base, n - 1) }

  predicate IsBcd(b: u8) { b / 16 < 10 && b % 16 < 10 }

  /** The two-digit number a byte stands for. */
  function Digit(decimal: bool, b: u8): nat { if decimal then b / 16 * 10 + b % 16 else b }

  predicate IsNumber(decimal: bool, xs: seq<u8>) {
    decimal ==> forall i :: 0 <= i < |xs| ==> IsBcd(xs[i])
  }

  function Value(decimal: bool, xs: seq<u8>): nat {
    if xs == [] then 0 else Digit(decimal, xs[0]) + Base(decimal) * Value(decimal, xs[1..])
  }

  function Sign(op: Op): int { if op.subtract then -1 else 1 }

  // One step.

  lemma {:induction false} DecimalDigits(hi: nat, lo: nat)
    requires hi < 10 && lo < 10
    ensures var b := 16 * hi + lo; b / 16 == hi && b % 16 == lo && b < 256 && IsBcd(b) && Digit(true, b) == 10 * hi + lo
  {
  }

  /** ADC then DAA on two-digit decimal numbers, by the digits. */
  lemma {:induction false} DecimalAdd(x: u8, y: u8, c: bool)
    requires IsBcd(x) && IsBcd(y)
    ensures var r := StepAcc(Op(false, true), x, y, c);
      IsBcd(r.a) && Digit(true, r.a) + 100 * B2N(r.c) == Digit(true, x) + Digit(true, y) + B2N(c)
  {
    var xh, xl, yh, yl := x / 16, x % 16, y / 16, y % 16;
    var l, h := xl + yl + B2N(c), xh + yh;
    var hi := h + B2N(l > 9);
    DecimalDigits(if hi > 9 then hi - 10 else hi, if l > 9 then l - 10 else l);
    assert 16 * h + l == x as int + y + B2N(c);
    assert StepAcc(Op(false, true), x, y, c) == DaaAcc(AdcAcc(x, y, c));
    DecimalAddAdjust(h, l);
    hide DaaAcc;
  }

  /** DAA after adding digit sums `h` and `l`. */
  lemma {:induction false} DecimalAddAdjust(h: nat, l: nat)
    requires h <= 18 && l <= 19
    ensures var t := 16 * h + l;
      var r := DaaAcc(Acc(t % 256, false, l > 15, t > 255));
      var digitLo := if l > 9 then l - 10 else l;
      var hi := h + B2N(l > 9);
      r.a == 16 * (if hi > 9 then hi - 10 else hi) + digitLo && r.c == (hi > 9)
  {
    var t := 16 * h + l;
    var a: u8 := if t > 255 then t - 256 else t;
    var high, low := if l > 15 then h + 1 else h, if l > 15 then l - 16 else l;
    assert t % 256 == a;
    LowDigit(if t > 255 then high - 16 else high, low);
    assert Correction(Acc(a, false, l > 15, t > 255)) == 6 * B2N(l > 9) + 96 * B2N(h + B2N(l > 9) > 9);
  }

  lemma LowDigit(high: int, low: nat)
    requires low < 16
    ensures (16 * high + low) % 16 == low
  {
  }

  /** SBC then DAA on two-digit decimal numbers. */
  lemma {:induction false} DecimalSub(x: u8, y: u8, c: bool)
    requires IsBcd(x) && IsBcd(y)
    ensures var r := StepAcc(Op(true, true), x, y, c);
      IsBcd(r.a) && Digit(true, r.a) - 100 * B2N(r.c) == Digit(true, x) - Digit(true, y) - B2N(c)
  {
    var xh, xl, yh, yl: int := x / 16, x % 16, y / 16, y % 16;
    var l, h := xl - yl - B2N(c), xh - yh;
    var hi := h - B2N(l < 0);
    DecimalDigits(if hi < 0 then hi + 10 else hi, if l < 0 then l + 10 else l);
    assert 16 * h + l == x as int - y as int - B2N(c);
    assert StepAcc(Op(true, true), x, y, c) == DaaAcc(SbcAcc(x, y, c));
    DecimalSubAdjust(h, l);
  }

  lemma {:induction false} DecimalSubAdjust(h: int, l: int)
    requires -9 <= h <= 9 && -10 <= l <= 9
    ensures var t := 16 * h + l;
      var r := DaaAcc(Acc(t % 256, true, l < 0, t < 0));
      var hi := h - B2N(l < 0);
      r.a == 16 * (if hi < 0 then hi + 10 else hi) + (if l < 0 then l + 10 else l) && r.c == (hi < 0)
  {
    var t := 16 * h + l;
    var a: u8 := if t < 0 then t + 256 else t;
    assert t % 256 == a;
    assert Correction(Acc(a, true, l < 0, t < 0)) == 6 * B2N(l < 0) + 96 * B2N(t < 0);
  }

  /** One step of any chain: the digit, the carry and the operands balance. */
  lemma {:induction false} StepBalance(op: Op, x: u8, y: u8, c: bool)
    requires op.decimal ==> IsBcd(x) && IsBcd(y)
    ensures var r := StepAcc(op, x, y, c);
      && (op.decimal ==> IsBcd(r.a))
      && Digit(op.decimal, r.a) + Sign(op) * (Base(op.decimal) * B2N(r.c))
         == Digit(op.decimal, x) + Sign(op) * (Digit(op.decimal, y) + B2N(c))
  {
    if op.decimal && op.subtract {
      DecimalSub(x, y, c);
    } else if op.decimal {
      DecimalAdd(x, y, c);
    } else {
      var t: int := if op.subtract then x as int - y as int - B2N(c) else x as int + y as int + B2N(c);
      assert t % 256 == if t < 0 then t + 256 else if t > 255 then t - 256 else t;
    }
  }

  lemma {:induction false} ChainIsNumber(op: Op, xs: seq<u8>, ys: seq<u8>, c: bool)
    requires |xs| == |ys| && IsNumber(op.decimal, xs) && IsNumber(op.decimal, ys)
    ensures IsNumber(op.decimal, Chain(op, xs, ys, c).0)
  {
    hide StepAcc, Digit, IsBcd;
    if xs != [] {
      StepBalance(op, xs[0], ys[0], c);
      ChainIsNumber(op, xs[1..], ys[1..], StepAcc(op, xs[0], ys[0], c).c);
    }
  }

  /** A balanced digit on top of a balanced rest. */
  lemma Balance(base: int, sign: int, r: int, c1: int, x: int, y: int, rest: int, p: int, c2: int, xs: int, ys: int)
    requires sign == 1 || sign == -1
    requires r + sign * (base * c1) == x + sign * y
    requires rest + sign * (p * c2) == xs + sign * (ys + c1)
    ensures r + base * rest + sign * (base * p * c2) == x + base * xs + sign * (y + base * ys)
  {
    assert base * (rest + sign * (p * c2)) == base * (xs + sign * (ys + c1));
    if sign == 1 {
      assert base * (p * c2) == base * p * c2;
    } else {
      assert base * (rest - p * c2) == base * rest - base * (p * c2);
      assert base * (xs - (ys + c1)) == base * xs - base * ys - base * c1;
      assert base * (p * c2) == base * p * c2;
    }
  }

  lemma ValueCons(decimal: bool, b: u8, xs: seq<u8>)
    ensures Value(decimal, [b] + xs) == Digit(decimal, b) + Base(decimal) * Value(decimal, xs)
  {
    assert ([b] + xs)[1..] == xs;
  }

  lemma PowerOfNone(base: nat)
    ensures Power(base, 0) == 1
  {
  }

  lemma PowerNext(base: nat, n: nat)
    ensures Power(base, n + 1) == base * Power(base, n)
  {
  }

  /** A chain of any length adds, or subtracts, whole numbers with an exact final carry. */
  lemma {:induction false} ChainBalance(op: Op, xs: seq<u8>, ys: seq<u8>, c: bool)
    requires |xs| == |ys| && IsNumber(op.decimal, xs) && IsNumber(op.decimal, ys)
    ensures var (out, carry) := Chain(op, xs, ys, c);
      Value(op.decimal, out) + Sign(op) * (Power(Base(op.decimal), |xs|) * B2N(carry))
         == Value(op.decimal, xs) + Sign(op) * (Value(op.decimal, ys) + B2N(c))
  {
    hide StepAcc, Digit, IsBcd, Power, Base;
    if xs == [] {
      PowerOfNone(Base(op.decimal));
    } else {
      var step := StepAcc(op, xs[0], ys[0], c);
      StepBalance(op, xs[0], ys[0], c);
      ChainBalance(op, xs[1..], ys[1..], step.c);
      var (rest, carry) := Chain(op, xs[1..], ys[1..], step.c);
      ValueCons(op.decimal, step.a, rest);
      PowerNext(Base(op.decimal), |xs| - 1);
      Balance(Base(op.decimal), Sign(op), Digit(op.decimal, step.a), B2N(step.c), Digit(op.decimal, xs[0]),
              Digit(op.decimal, ys[0]) + B2N(c), Value(op.decimal, rest), Power(Base(op.decimal), |xs| - 1), B2N(carry),
              Value(op.decimal, xs[1..]), Value(op.decimal, ys[1..]));
    }
  }

  lemma {:induction false} ValueBound(decimal: bool, xs: seq<u8>)
    requires IsNumber(decimal, xs)
    ensures Value(decimal, xs) < Power(Base(decimal), |xs|)
  {
    if xs != [] {
      ValueBound(decimal, xs[1..]);
    }
  }

  /** The chain's bytes are the sum or difference modulo 100^n or 256^n, and its carry says
      whether it left that range. */
  lemma {:induction false} ChainIsModular(op: Op, xs: seq<u8>, ys: seq<u8>, c: bool)
    requires |xs| == |ys| && IsNumber(op.decimal, xs) && IsNumber(op.decimal, ys)
    ensures var m := Power(Base(op.decimal), |xs|);
      var (out, carry) := Chain(op, xs, ys, c);
      var t := Value(op.decimal, xs) + Sign(op) * (Value(op.decimal, ys) + B2N(c));
      && m > 0 && IsNumber(op.decimal, out)
      && Value(op.decimal, out) == t % m
      && carry == (if op.subtract then t < 0 else t >= m)
  {
    hide StepAcc, Digit, IsBcd, IsNumber, Value, Power, Base, Chain;
    ChainBalance(op, xs, ys, c);
    ChainIsNumber(op, xs, ys, c);
    var m := Power(Base(op.decimal), |xs|);
    var (out, carry) := Chain(op, xs, ys, c);
    ValueBound(op.decimal, out);
    ValueBound(op.decimal, xs);
    ValueBound(op.decimal, ys);
    var t := Value(op.decimal, xs) + Sign(op) * (Value(op.decimal, ys) + B2N(c));
    ModByShift(t, m, Value(op.decimal, out), Sign(op) * B2N(carry));
  }

  lemma ModByShift(t: int, m: nat, r: nat, q: int)
    requires r < m && -1 <= q <= 1 && t == r + m * q
    ensures t % m == r
  {
  }

  // Shifts and rotates.

  /** RL from the low byte up. */
  function RotateLeft(xs: seq<u8>, c: bool): (r: (seq<u8>, bool))
    ensures |r.0| == |xs|
  {
    if xs == [] then ([], c)
    else
      var (b, c1) := ShiftByte(RL, xs[0], c);
      var (rest, c2) := RotateLeft(xs[1..], c1);
      ([b] + rest, c2)
  }

  /** RR from the high byte down. */
  function RotateRight(xs: seq<u8>, c: bool): (r: (seq<u8>, bool))
    ensures |r.0| == |xs|
  {
    if xs == [] then ([], c)
    else
      var (rest, c1) := RotateRight(xs[1..], c);
      var (b, c2) := ShiftByte(RR, xs[0], c1);
      ([b] + rest, c2)
  }

  /** A sweep that opens with another shift: SLA at the low byte, or SRL or SRA at the high one. */
  function ShiftLeft(xs: seq<u8>): (seq<u8>, bool)
    requires xs != []
  {
    var (b, c1) := ShiftByte(SLA, xs[0], false);
    var (rest, c2) := RotateLeft(xs[1..], c1);
    ([b] + rest, c2)
  }

  function ShiftRight(k: Shift, xs: seq<u8>): (r: (seq<u8>, bool))
    requires xs != [] && (k == SRL || k == SRA)
    ensures |r.0| == |xs|
  {
    var n := |xs| - 1;
    var (b, c1) := ShiftByte(k, xs[n], false);
    var (rest, c2) := RotateRight(xs[..n], c1);
    (rest + [b], c2)
  }

  lemma DoubleStep(b: int, c1: int, x: int, c: int, rest: int, p: int, c2: int, xs: int)
    requires b + 256 * c1 == 2 * x + c && rest + p * c2 == 2 * xs + c1
    ensures b + 256 * rest + 256 * p * c2 == 2 * (x + 256 * xs) + c
  {
    assert 256 * (p * c2) == 256 * p * c2;
  }

  lemma {:induction false} RotateLeftDoubles(xs: seq<u8>, c: bool)
    ensures var (out, carry) := RotateLeft(xs, c);
      Value(false, out) + Power(256, |xs|) * B2N(carry) == 2 * Value(false, xs) + B2N(c)
  {
    hide ShiftByte, Power;
    if xs == [] {
      PowerOfNone(256);
    } else {
      var (b, c1) := ShiftByte(RL, xs[0], c);
      LeftByte(xs[0], c);
      RotateLeftDoubles(xs[1..], c1);
      var (rest, c2) := RotateLeft(xs[1..], c1);
      ValueCons(false, b, rest);
      PowerNext(256, |xs| - 1);
      DoubleStep(b, B2N(c1), xs[0], B2N(c), Value(false, rest), Power(256, |xs| - 1), B2N(c2), Value(false, xs[1..]));
    }
  }

  lemma LeftByte(x: u8, c: bool)
    ensures var (b, c1) := ShiftByte(RL, x, c); b + 256 * B2N(c1) == 2 * x as int + B2N(c)
  {
  }

  lemma RightByte(x: u8, c: bool)
    ensures var (b, c2) := ShiftByte(RR, x, c); 2 * b as int + B2N(c2) == x as int + 256 * B2N(c)
  {
  }

  lemma HalfStep(b: int, c2: int, x: int, c1: int, rest: int, p: int, c: int, xs: int)
    requires 2 * b + c2 == x + 256 * c1 && 2 * rest + c1 == xs + p * c
    ensures 2 * (b + 256 * rest) + c2 == x + 256 * xs + 256 * p * c
  {
    assert 256 * (p * c) == 256 * p * c;
  }

  lemma {:induction false} RotateRightHalves(xs: seq<u8>, c: bool)
    ensures var (out, carry) := RotateRight(xs, c);
      2 * Value(false, out) + B2N(carry) == Value(false, xs) + Power(256, |xs|) * B2N(c)
  {
    hide ShiftByte, Power;
    if xs == [] {
      PowerOfNone(256);
    } else {
      RotateRightHalves(xs[1..], c);
      var (rest, c1) := RotateRight(xs[1..], c);
      var (b, c2) := ShiftByte(RR, xs[0], c1);
      RightByte(xs[0], c1);
      ValueCons(false, b, rest);
      PowerNext(256, |xs| - 1);
      HalfStep(b, B2N(c2), xs[0], B2N(c1), Value(false, rest), Power(256, |xs| - 1), B2N(c), Value(false, xs[1..]));
    }
  }

  /** An RL sweep followed by the RR sweep back restores every byte and the carry. */
  lemma {:induction false} RotateRoundTrip(xs: seq<u8>, c: bool)
    ensures var (out, carry) := RotateLeft(xs, c);
      RotateRight(out, carry) == (xs, c)
  {
    if xs != [] {
      var (b, c1) := ShiftByte(RL, xs[0], c);
      RotateRoundTrip(xs[1..], c1);
      var (rest, c2) := RotateLeft(xs[1..], c1);
      assert ([b] + rest)[1..] == rest;
      assert ShiftByte(RR, b, c1) == (xs[0], c);
      assert [xs[0]] + xs[1..] == xs;
    }
  }

  /** SLA then RL doubles an n-byte number; the carry is the bit shifted out. */
  lemma {:induction false} ShiftLeftDoubles(xs: seq<u8>)
    requires xs != []
    ensures var (out, carry) := ShiftLeft(xs);
      Value(false, out) + Power(256, |xs|) * B2N(carry) == 2 * Value(false, xs)
  {
    assert ShiftLeft(xs) == RotateLeft(xs, false);
    RotateLeftDoubles(xs, false);
  }

  lemma {:induction false} ValueConcat(xs: seq<u8>, b: u8)
    ensures Value(false, xs + [b]) == Value(false, xs) + Power(256, |xs|) * b
  {
    if xs == [] {
      assert xs + [b] == [b];
      assert Value(false, [b][1..]) == 0;
    } else {
      assert (xs + [b])[1..] == xs[1..] + [b];
      ValueConcat(xs[1..], b);
      PowerStep(|xs|, b);
    }
  }

  lemma PowerStep(n: nat, b: nat)
    requires n > 0
    ensures 256 * (Power(256, n - 1) * b) == Power(256, n) * b
  {
  }

  /** An n-byte two's complement number. */
  function SignedValue(xs: seq<u8>): int
    requires xs != []
  {
    Value(false, xs) - Power(256, |xs|) * B2N(xs[|xs| - 1] >= 128)
  }

  /** SRL then RR halves an n-byte number; the carry is the remainder. */
  lemma {:induction false} ShiftRightHalves(xs: seq<u8>)
    requires xs != []
    ensures var (out, carry) := ShiftRight(SRL, xs);
      2 * Value(false, out) + B2N(carry) == Value(false, xs)
  {
    var n := |xs| - 1;
    var (b, c1) := ShiftByte(SRL, xs[n], false);
    var (rest, c2) := RotateRight(xs[..n], c1);
    RotateRightHalves(xs[..n], c1);
    ValueConcat(rest, b);
    ValueConcat(xs[..n], xs[n]);
    assert xs[..n] + [xs[n]] == xs;
    TopByte(Power(256, n), b, B2N(c1), xs[n]);
  }

  lemma TopByte(p: nat, b: int, c: int, x: int)
    requires 2 * b + c == x
    ensures 2 * (p * b) + p * c == p * x
  {
    assert p * (2 * b + c) == p * x;
  }

  /** SRA then RR is floor division by two of a two's complement number. */
  lemma {:induction false} ArithmeticShiftHalves(xs: seq<u8>)
    requires xs != []
    ensures var (out, carry) := ShiftRight(SRA, xs);
      out != [] && SignedValue(out) == SignedValue(xs) / 2 && carry == (SignedValue(xs) % 2 == 1)
  {
    var n := |xs| - 1;
    var (b, c1) := ShiftByte(SRA, xs[n], false);
    ArithmeticByte(xs[n]);
    hide ShiftByte;
    var (rest, c2) := RotateRight(xs[..n], c1);
    RotateRightHalves(xs[..n], c1);
    ValueConcat(rest, b);
    ValueConcat(xs[..n], xs[n]);
    assert xs[..n] + [xs[n]] == xs;
    SignedHalf(Power(256, n), b, B2N(c1), xs[n], B2N(xs[n] >= 128), Value(false, rest), B2N(c2), Value(false, xs[..n]));
    HalfOf(SignedValue(rest + [b]), B2N(c2), SignedValue(xs));
  }

  lemma ArithmeticByte(x: u8)
    ensures var (b, c1) := ShiftByte(SRA, x, false);
      2 * (b - 256 * B2N(x >= 128)) + B2N(c1) == x - 256 * B2N(x >= 128) && (b >= 128) == (x >= 128)
  {
  }

  lemma SignedHalf(p: int, b: int, c1: int, x: int, sign: int, rest: int, c2: int, low: int)
    requires 2 * (b - 256 * sign) + c1 == x - 256 * sign
    requires 2 * rest + c2 == low + p * c1
    ensures 2 * (rest + p * b - 256 * p * sign) + c2 == low + p * x - 256 * p * sign
  {
    assert p * (2 * (b - 256 * sign) + c1) == p * (x - 256 * sign);
    assert p * (2 * (b - 256 * sign) + c1) == 2 * (p * b) - 2 * (p * (256 * sign)) + p * c1;
    assert p * (x - 256 * sign) == p * x - p * (256 * sign);
    assert p * (256 * sign) == 256 * p * sign;
  }

  lemma HalfOf(h: int, c: int, t: int)
    requires 0 <= c <= 1 && 2 * h + c == t
    ensures h == t / 2 && c == t % 2
  {
  }
}
