/** The MBC1 bank registers as values: what a sequence of register writes maps. */
module Banking {
  import opened Wrappers
  import opened Bits

  datatype Registers = Registers(lowBits: u8, twoBits: u8, moreRam: bool, ramEnabled: bool)

  const RESET := Registers(0, 0, false, false)

  /** A write to 0x0000-0x7FFF reaches one of four registers. */
  function WriteRegister(r: Registers, adr: u16, v: u8): Registers
    requires adr < 0x8000
  {
    if adr <= 0x1FFF then r.(ramEnabled := Bit(v, 1) && Bit(v, 3))
    else if adr <= 0x3FFF then r.(lowBits := v % 32)
    else if adr <= 0x5FFF then r.(twoBits := v % 4)
    else r.(moreRam := Bit(v, 0))
  }

  /** The ROM bank seen at 0x4000-0x7FFF. */
  function RomBank(r: Registers): int {
    var ind: int := r.lowBits as int + (if r.moreRam then 0 else r.twoBits as int * 32);
    if ind == 0 || ind == 0x20 || ind == 0x40 || ind == 0x60 then ind + 1 else ind
  }

  function RamBank(r: Registers): u8 { if r.moreRam then r.twoBits else 0 }

  datatype Write = Write(adr: u16, v: u8)

  predicate IsHistory(h: seq<Write>) { forall i :: 0 <= i < |h| ==> h[i].adr < 0x8000 }

  function After(h: seq<Write>): Registers
    requires IsHistory(h)
  {
    if h == [] then RESET else WriteRegister(After(h[..|h| - 1]), h[|h| - 1].adr, h[|h| - 1].v)
  }

  /** The last value written in the window of 0x2000 addresses numbered `w`. */
  function LastIn(h: seq<Write>, w: nat): Option<u8> {
    if h == [] then None
    else if h[|h| - 1].adr / 0x2000 == w then Some(h[|h| - 1].v)
    else LastIn(h[..|h| - 1], w)
  }

  function ValueOr0(o: Option<u8>): u8 { if o.Some? then o.value else 0 }

  /** Bank, RAM bank and RAM enable from the last write of each window, with no state between. */
  function SpecRomBank(h: seq<Write>): int {
    var low := ValueOr0(LastIn(h, 1)) % 32;
    var high := if Bit(ValueOr0(LastIn(h, 3)), 0) then 0 else ValueOr0(LastIn(h, 2)) % 4;
    32 * high as int + (if low == 0 then 1 else low)
  }

  function SpecRamBank(h: seq<Write>): u8 {
    if Bit(ValueOr0(LastIn(h, 3)), 0) then ValueOr0(LastIn(h, 2)) % 4 else 0
  }

  predicate SpecRamEnabled(h: seq<Write>) {
    Bit(ValueOr0(LastIn(h, 0)), 1) && Bit(ValueOr0(LastIn(h, 0)), 3)
  }

  lemma {:induction false} RegistersAreLastWrites(h: seq<Write>)
    requires IsHistory(h)
    ensures After(h).lowBits == ValueOr0(LastIn(h, 1)) % 32 && After(h).twoBits == ValueOr0(LastIn(h, 2)) % 4
    ensures After(h).moreRam == Bit(ValueOr0(LastIn(h, 3)), 0)
    ensures After(h).ramEnabled == (Bit(ValueOr0(LastIn(h, 0)), 1) && Bit(ValueOr0(LastIn(h, 0)), 3))
  {
    if h != [] {
      RegistersAreLastWrites(h[..|h| - 1]);
      hide Bit;
      var a := h[|h| - 1].adr;
      assert a / 0x2000 == if a <= 0x1FFF then 0 else if a <= 0x3FFF then 1 else if a <= 0x5FFF then 2 else 3;
    } else {
      assert !Bit(0, 0) && !Bit(0, 1);
    }
  }

  /** For every history the mapping is the pure function of the last writes, and in range: the
      bank number is 1..127, never 0x20, 0x40 or 0x60, and both bank switches hit a bank. */
  lemma {:induction false} HistorySpecification(h: seq<Write>)
    requires IsHistory(h)
    ensures RomBank(After(h)) == SpecRomBank(h) && RamBank(After(h)) == SpecRamBank(h)
    ensures After(h).ramEnabled == SpecRamEnabled(h)
    ensures 1 <= RomBank(After(h)) <= 127 && RomBank(After(h)) % 32 != 0
    ensures 0 <= RomBank(After(h)) - 1 < 128 && RamBank(After(h)) < 4
  {
    RegistersAreLastWrites(h);
    hide LastIn, Bit;
  }

  /** Offset in the ROM file of the byte mapped at `adr`. */
  function FileOffset(r: Registers, adr: u16): int
    requires adr < 0x8000
  {
    if adr < 0x4000 then adr else RomBank(r) * 0x4000 + adr % 0x4000
  }

  function ByteAt(file: seq<u8>, offset: int): u8
    requires offset >= 0
  {
    if offset < |file| then file[offset] else 0
  }

  // Loading a file into a memory.

  /** Bytes `LoadFromFile` reads: a file that is too long loses the offset once more. */
  function LoadLength(size: nat, offset: nat, memory: nat): int
    requires offset <= size
  {
    if size - offset > memory then memory - offset else size - offset
  }

  /** The memory is filled as far as file and memory allow exactly when the rest of the file fits
      or nothing is skipped. */
  lemma {:induction false} LoadsEverything(size: nat, offset: nat, memory: nat)
    requires offset <= size
    ensures LoadLength(size, offset, memory) == (if size - offset < memory then size - offset else memory)
       <==> size - offset <= memory || offset == 0
  {
  }

  /** A 128 KiB file loaded behind its first bank into one 16 KiB bank loads nothing. */
  lemma LongFileIsCut()
    ensures LoadLength(0x20000, 0x4000, 0x4000) == 0
  {
  }

  /** RAM is enabled by the mask 0xA. */
  lemma {:induction false} EnableMask(v: bv8)
    ensures (Bit(v as int, 1) && Bit(v as int, 3)) == (v & 0x0A == 0x0A)
  {
    DigitIsMask(v, 1);
    DigitIsMask(v, 3);
    hide Bit;
  }
}
