/** A bus write to the IO block 0xFF10-0xFF7F, as a function on the block (`src/io_registers.cpp`).
    The copy that a write to 0xFF46 starts is part of `GbTop`; the boot ROM and sound signals are
    not modelled. */
module IoBlockWrites {
  import opened Bits
  import opened Pixels

  const NR52 := 0x16
  const DMA := 0x36
  const BOOT := 0x40
  const MAPPED := 0x70

  /** Turning the sound unit off clears its registers except 0xFF1A and the wave table. */
  function SoundOff(io: IoBlock): IoBlock {
    seq(0x80, i requires 0 <= i < 0x80 => if i < 0x20 && i != 0xA then 0 else io[i])
  }

  function WriteReg(io: IoBlock, adr: nat, v: u8): IoBlock
    requires adr < MAPPED
  {
    var d := if adr == NR52 && !Bit(v, 7) then SoundOff(io) else io;
    if adr < 0x20 && adr != NR52 && !Bit(d[NR52], 7) then d
    else if adr == NR52 then d[NR52 := if Bit(v, 7) then 0x80 else 0]
    else if adr == STAT then d[STAT := v / 8 % 16 * 8 + d[STAT] % 8]
    else if adr == DMA || adr == BOOT then d
    else d[adr := v]
  }

  /** Bits that read as ones, by register. */
  function ReadMask(adr: nat): u8 {
    if adr == 0x00 then 0x80 else if adr == 0x01 || adr == 0x06 then 0x3F
    else if adr == 0x04 || adr == 0x09 || adr == 0x0E || adr == 0x13 then 0xBF
    else if adr == 0x0A then 0x7F else if adr == 0x0C then 0x9F else if adr == 0x16 then 0x70
    else if adr == 0x03 || adr == 0x05 || adr == 0x08 || adr == 0x0B || adr == 0x0D || adr == 0x0F || adr == 0x10
         || 0x17 <= adr <= 0x1F then 0xFF
    else 0
  }

  /** Bitwise or of `n` binary digits. */
  function Or(a: nat, b: nat, n: nat): nat {
    if n == 0 then 0 else B2N(a % 2 == 1 || b % 2 == 1) + 2 * Or(a / 2, b / 2, n - 1)
  }

  lemma {:induction false} OrRange(a: nat, b: nat, n: nat)
    ensures Or(a, b, n) < Pow2(n)
    decreases n
  {
    if n > 0 {
      OrRange(a / 2, b / 2, n - 1);
    }
  }

  function ReadReg(io: IoBlock, adr: nat): u8
    requires adr < MAPPED
  {
    OrRange(io[adr], ReadMask(adr), 8);
    assert Pow2(8) == 256;
    Or(io[adr], ReadMask(adr), 8)
  }

  /** The mode and coincidence bits of STAT are read-only to the bus. */
  lemma {:induction false} StatusBitsReadOnly(io: IoBlock, adr: nat, v: u8)
    requires adr < MAPPED
    ensures WriteReg(io, adr, v)[STAT] % 8 == io[STAT] % 8
    ensures adr != LY ==> WriteReg(io, adr, v)[LY] == io[LY]
  {
    if adr == STAT {
      assert (v / 8 % 16 * 8 + io[STAT] % 8) % 8 == io[STAT] % 8;
    }
  }

  lemma {:induction false} OrDigits(a: nat, b: nat, n: nat, i: nat)
    requires i < n
    ensures Bit(Or(a, b, n), i) == (Bit(a, i) || Bit(b, i))
    decreases n
  {
    if i > 0 {
      OrDigits(a / 2, b / 2, n - 1, i - 1);
      assert Or(a, b, n) / 2 == Or(a / 2, b / 2, n - 1);
    }
  }

  /** A read shows the stored bits, and ones where the register cannot be read. */
  lemma {:induction false} ReadBits(io: IoBlock, adr: nat, i: nat)
    requires adr < MAPPED && i < 8
    ensures Bit(ReadReg(io, adr), i) == (Bit(io[adr], i) || Bit(ReadMask(adr), i))
  {
    hide Or, Bit;
    OrDigits(io[adr], ReadMask(adr), 8, i);
  }

  lemma {:induction false} NoBits(i: nat)
    ensures !Bit(0, i)
  {
    if i > 0 {
      NoBits(i - 1);
    }
  }

  lemma {:induction false} AllBits(i: nat)
    requires i < 8
    ensures Bit(0xFF, i)
  {
    assert Bit(0xFF, 0) && Bit(0x7F, 0) && Bit(0x3F, 0) && Bit(0x1F, 0);
    assert Bit(0xF, 0) && Bit(7, 0) && Bit(3, 0) && Bit(1, 0);
    assert i > 0 ==> Bit(0xFF, i) == Bit(0x7F, i - 1);
    assert i > 1 ==> Bit(0x7F, i - 1) == Bit(0x3F, i - 2);
    assert i > 2 ==> Bit(0x3F, i - 2) == Bit(0x1F, i - 3);
    assert i > 3 ==> Bit(0x1F, i - 3) == Bit(0xF, i - 4);
    assert i > 4 ==> Bit(0xF, i - 4) == Bit(7, i - 5);
    assert i > 5 ==> Bit(7, i - 5) == Bit(3, i - 6);
    assert i > 6 ==> Bit(3, i - 6) == Bit(1, i - 7);
  }

  /** Registers without a mask, those of the picture among them, read as they are stored; the
      write-only ones read 0xFF. */
  lemma {:induction false} PlainRead(io: IoBlock, adr: nat)
    requires adr < MAPPED
    ensures ReadMask(adr) == 0 ==> ReadReg(io, adr) == io[adr]
    ensures ReadMask(adr) == 0xFF ==> ReadReg(io, adr) == 0xFF
    ensures 0x30 <= adr < 0x3C || 0x20 <= adr < 0x30 ==> ReadMask(adr) == 0
  {
    hide Bit, ReadReg;
    assert Pow2(8) == 256;
    if ReadMask(adr) == 0 || ReadMask(adr) == 0xFF {
      var r := if ReadMask(adr) == 0 then io[adr] else 0xFF;
      forall i | 0 <= i < 8 ensures Bit(ReadReg(io, adr), i) == Bit(r, i) {
        ReadBits(io, adr, i);
        NoBits(i);
        AllBits(i);
      }
      SameDigits(ReadReg(io, adr), r, 8);
    }
  }

  /** A picture register holds what was stored, STAT its lower bits, LYC and palettes included. */
  lemma {:induction false} StoreThenLoad(io: IoBlock, adr: nat, v: u8)
    requires 0x30 <= adr < 0x3C && adr != DMA
    ensures ReadReg(WriteReg(io, adr, v), adr) == if adr == 0x31 then v / 8 % 16 * 8 + io[0x31] % 8 else v
  {
    PlainRead(WriteReg(io, adr, v), adr);
    hide ReadReg;
  }

  /** A store to one register leaves the others alone, but for switching the sound off, which clears
      0xFF10-0xFF2F except 0xFF1A; while it is off its registers ignore stores. */
  lemma {:induction false} StoreElsewhere(io: IoBlock, adr: nat, v: u8, b: nat)
    requires adr < MAPPED && b < 0x80 && b != adr
    ensures WriteReg(io, adr, v)[b] == if adr == 0x16 && v < 0x80 && b < 0x20 && b != 0x0A then 0 else io[b]
    ensures adr < 0x20 && adr != 0x16 && io[0x16] < 0x80 ==> WriteReg(io, adr, v) == io
  {
    TopBit(v);
    TopBit(io[0x16]);
    hide Bit;
  }

  lemma {:induction false} TopBit(b: u8)
    ensures Bit(b, 7) == (b >= 0x80)
  {
    assert Bit(b, 7) == Bit(b / 2, 6) == Bit(b / 2 / 2, 5) == Bit(b / 2 / 2 / 2, 4);
    var c := b / 2 / 2 / 2;
    assert Bit(c, 4) == Bit(c / 2, 3) == Bit(c / 2 / 2, 2) == Bit(c / 2 / 2 / 2, 1) == Bit(c / 2 / 2 / 2 / 2, 0);
  }

  /** The bits of 0xFF10-0xFF2F that read as ones, in the order of the registers. */
  const UNREADABLE: seq<u8> := [
    0x80, 0x3F, 0x00, 0xFF, 0xBF, 0xFF, 0x3F, 0x00, 0xFF, 0xBF, 0x7F, 0xFF, 0x9F, 0xFF, 0xBF, 0xFF,
    0xFF, 0x00, 0x00, 0xBF, 0x00, 0x00, 0x70, 0xFF, 0xFF, 0xFF, 0xFF, 0xFF, 0xFF, 0xFF, 0xFF, 0xFF]

  lemma {:induction false} MasksByRegister(adr: nat)
    requires adr < MAPPED
    ensures ReadMask(adr) == if adr < 0x20 then UNREADABLE[adr] else 0
  {
  }
}
