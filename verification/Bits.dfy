/** Bytes, 16-bit words and the bit operations of `src/utils.h`, written as arithmetic on the
    binary digits. The last lemmas tie this reading to the machine operators on `bv8`. */
module Bits {
  type u8 = x: int | 0 <= x < 0x100
  type u16 = x: int | 0 <= x < 0x10000

  /** 1 << i. */
  function Pow2(i: nat): (w: nat)
    ensures w >= 1
  {
    if i == 0 then 1 else 2 * Pow2(i - 1)
  }

  function B2N(v: bool): nat { if v then 1 else 0 }

  /** IsBitSet: binary digit `i` of `b`. */
  predicate Bit(b: nat, i: nat)
    decreases i
  {
    if i == 0 then b % 2 == 1 else Bit(b / 2, i - 1)
  }

  /** SetBit: replace binary digit `i` of `b`. */
  function SetBit(b: nat, v: bool, i: nat): (r: nat)
    decreases i
  {
    if i == 0 then b - b % 2 + B2N(v) else b % 2 + 2 * SetBit(b / 2, v, i - 1)
  }

  lemma SetBitHalves(b: nat, v: bool, i: nat)
    ensures SetBit(b, v, i) / 2 == if i == 0 then b / 2 else SetBit(b / 2, v, i - 1)
    ensures SetBit(b, v, i) % 2 == if i == 0 then B2N(v) else b % 2
  {
  }

  /** SetBit writes the digit it is given and leaves every other digit alone. */
  lemma {:induction false} SetBitFrame(b: nat, v: bool, i: nat, j: nat)
    ensures Bit(SetBit(b, v, i), j) == if i == j then v else Bit(b, j)
    decreases i
  {
    SetBitHalves(b, v, i);
    if i > 0 && j > 0 {
      SetBitFrame(b / 2, v, i - 1, j - 1);
    }
  }

  lemma DoublePow2(w: nat)
    requires w > 0
    ensures Pow2(w) == 2 * Pow2(w - 1)
  {
  }

  /** A digit written inside a `w`-digit number keeps it a `w`-digit number. */
  lemma {:induction false} SetBitRange(b: nat, v: bool, i: nat, w: nat)
    requires i < w && b < Pow2(w)
    ensures SetBit(b, v, i) < Pow2(w)
    decreases i
  {
    hide Pow2;
    DoublePow2(w);
    if i > 0 {
      SetBitRange(b / 2, v, i - 1, w - 1);
    }
  }

  lemma ModIs(n: nat, k: nat, q: nat, r: nat)
    requires (k == 4 || k == 8 || k == 16) && n == k * q + r && r < k
    ensures n % k == r
  {
  }

  lemma {:induction false} ModDouble(x: nat, y: nat, p: nat)
    requires x < 2 && (p == 1 || p == 2 || p == 4 || p == 8)
    ensures (x + 2 * y) % (2 * p) == x + 2 * (y % p)
  {
    if p == 2 {
      ModIs(x + 2 * y, 4, y / 2, x + 2 * (y % 2));
    } else if p == 4 {
      ModIs(x + 2 * y, 8, y / 4, x + 2 * (y % 4));
    } else if p == 8 {
      ModIs(x + 2 * y, 16, y / 8, x + 2 * (y % 8));
    }
  }

  /** Writing a digit leaves the digits below it alone. */
  lemma {:induction false} SetBitLowDigits(b: nat, v: bool, i: nat, w: nat)
    requires w <= i && w <= 4
    ensures SetBit(b, v, i) % Pow2(w) == b % Pow2(w)
    decreases w
  {
    if w > 0 {
      SetBitLowDigits(b / 2, v, i - 1, w - 1);
      assert Pow2(0) == 1 && Pow2(1) == 2 && Pow2(2) == 4 && Pow2(3) == 8;
      ModDouble(b % 2, SetBit(b / 2, v, i - 1), Pow2(w - 1));
      ModDouble(b % 2, b / 2, Pow2(w - 1));
    }
  }

  /** SetBit on a byte is a byte. */
  function SetBit8(b: u8, v: bool, i: nat): (r: u8)
    requires i < 8
  {
    assert Pow2(8) == 256;
    SetBitRange(b, v, i, 8);
    SetBit(b, v, i)
  }

  function Lo(w: u16): u8 { w % 0x100 }
  function Hi(w: u16): u8 { w / 0x100 }
  function Word(hi: u8, lo: u8): u16 { hi * 0x100 + lo }

  function Inc8(b: u8): u8 { (b as int + 1) % 0x100 }
  function Dec8(b: u8): u8 { (b as int - 1) % 0x100 }

  /** Machine increments and decrements of a 16-bit register. */
  function Inc16(w: u16): u16 { (w as int + 1) % 0x10000 }
  function Dec16(w: u16): u16 { (w as int - 1) % 0x10000 }

  /** Wrap-around of an 8-bit value. */
  function Wrap(x: int): u8 { x % 0x100 }

  lemma WrapAgain(x: int, y: int)
    ensures Wrap(Wrap(x) as int + y) == Wrap(x + y)
  {
  }

  // The arithmetic above agrees with the machine's own operators.

  lemma LowestDigit(b: bv8)
    ensures (b & 1 != 0) == Bit(b as int, 0)
  {
  }

  lemma ShiftIsHalving(b: bv8)
    ensures (b >> 1) as int == b as int / 2
  {
  }

  lemma MaskOfShifted(b: bv8, i: nat)
    requires 0 < i < 8
    ensures (b & (1 << i) != 0) == ((b >> 1) & (1 << (i - 1)) != 0)
  {
    if i == 1 {
    } else if i == 2 {
    } else if i == 3 {
    } else if i == 4 {
    } else if i == 5 {
    } else if i == 6 {
    } else {
    }
  }

  /** A binary digit is what the mask test of the source finds. */
  lemma {:induction false} DigitIsMask(b: bv8, i: nat)
    requires i < 8
    ensures Bit(b as int, i) == (b & (1 << i) != 0)
    decreases i
  {
    if i == 0 {
      LowestDigit(b);
    } else {
      ShiftIsHalving(b);
      MaskOfShifted(b, i);
      DigitIsMask(b >> 1, i - 1);
    }
  }

  lemma MasksDiffer(i: nat, j: nat)
    requires i < 8 && j < 8 && i != j
    ensures (1 as bv8 << i) & (1 << j) == 0
  {
  }

  lemma MaskSetsOne(b: bv8, v: bool, m: bv8, n: bv8)
    requires m & n == 0
    ensures ((b & !m) | (if v then m else 0)) & n == b & n
  {
  }

  lemma {:induction false} SameDigits(a: nat, b: nat, w: nat)
    requires a < Pow2(w) && b < Pow2(w) && forall i :: 0 <= i < w ==> Bit(a, i) == Bit(b, i)
    ensures a == b
  {
    if w > 0 {
      assert Bit(a, 0) == Bit(b, 0);
      forall i | 0 <= i < w - 1 ensures Bit(a / 2, i) == Bit(b / 2, i) {
        assert Bit(a, i + 1) == Bit(b, i + 1);
      }
      SameDigits(a / 2, b / 2, w - 1);
    }
  }

  /** SetBit with the masks of the source. */
  function MaskedSet(b: bv8, v: bool, i: nat): bv8
    requires i < 8
  {
    (b & !(1 << i)) | (if v then 1 << i else 0)
  }

  lemma {:induction false} MaskedDigit(b: bv8, v: bool, i: nat, j: nat)
    requires i < 8 && j < 8
    ensures Bit(MaskedSet(b, v, i) as int, j) == if i == j then v else Bit(b as int, j)
  {
    DigitIsMask(MaskedSet(b, v, i), j);
    DigitIsMask(b, j);
    if i != j {
      MasksDiffer(i, j);
      MaskSetsOne(b, v, 1 << i, 1 << j);
    } else {
      MaskNotZero(i);
      MaskSetsThis(b, v, 1 << i);
    }
  }

  lemma MaskNotZero(i: nat)
    requires i < 8
    ensures 1 as bv8 << i != 0
  {
  }

  lemma MaskSetsThis(b: bv8, v: bool, m: bv8)
    ensures ((b & !m) | (if v then m else 0)) & m == if v then m else 0
  {
  }

  /** Setting a digit is what the masks of the source compute. */
  lemma {:induction false} SetBitIsMask(b: bv8, v: bool, i: nat)
    requires i < 8
    ensures SetBit(b as int, v, i) == MaskedSet(b, v, i) as int
  {
    hide MaskedSet, Bit, SetBit;
    var n, r: u8 := b as int, MaskedSet(b, v, i) as int;
    forall j | 0 <= j < 8 ensures Bit(r, j) == if i == j then v else Bit(n, j) {
      MaskedDigit(b, v, i, j);
    }
    SetBitFromDigits(n, v, i, r);
  }

  lemma {:induction false} SetBitFromDigits(b: u8, v: bool, i: nat, r: u8)
    requires i < 8 && forall j :: 0 <= j < 8 ==> Bit(r, j) == if i == j then v else Bit(b, j)
    ensures SetBit(b, v, i) == r
  {
    hide Bit, SetBit;
    assert Pow2(8) == 256;
    SetBitRange(b, v, i, 8);
    forall j | 0 <= j < 8 ensures Bit(SetBit(b, v, i), j) == Bit(r, j) {
      SetBitFrame(b, v, i, j);
    }
    SameDigits(SetBit(b, v, i), r, 8);
  }
}
