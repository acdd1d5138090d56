/** The MBC1 cartridge: bank-switched memories, the boot ROM laid over the game and taken off in
    place, the CPU's direct pointer to bank 0, and the access tracer. */
module Cartridge {
  import opened Bits
  import opened Banking
  import opened Tracer

  const ROM_BANK := 0x4000
  const RAM_BANK := 0x2000
  const ROM_BANKS := 128
  const RAM_BANKS := 4

  /** Why the CPU reads: instruction fetches are not traced. */
  datatype Command = ReadInst | ReadData

  /** Copy a file, behind an offset, over the start of a memory. The read fails, and the original
      throws, if the length comes out negative. */
  method LoadFromFile(data: array<u8>, file: seq<u8>, offset: nat) returns (ok: bool)
    requires offset <= |file|
    modifies data
    ensures ok == (0 <= LoadLength(|file|, offset, data.Length))
    ensures forall k :: 0 <= k < data.Length ==>
      data[k] == if k < LoadLength(|file|, offset, data.Length) then file[offset + k] else old(data[k])
  {
    var size := |file| as int;
    if size - offset > data.Length {
      size := data.Length - offset;
    } else {
      size := size - offset;
    }
    if size < 0 {
      return false;
    }
    ok := true;
    for i := 0 to size
      invariant forall k :: 0 <= k < data.Length ==> data[k] == if k < i then file[offset + k] else old(data[k])
    {
      data[i] := file[offset + i];
    }
  }

  /** A memory of several banks with one of them mapped through an offset. */
  class BankSwitchedMem {
    const data: array<u8>
    const numBanks: nat
    const bankSize: nat
    var current: nat

    ghost predicate Valid()
      reads this
    {
      data.Length == numBanks * bankSize && current < numBanks
    }

    constructor (numBanks: nat, bankSize: nat)
      requires numBanks > 0
      ensures Valid() && fresh(data) && this.numBanks == numBanks && this.bankSize == bankSize && current == 0
      ensures forall i :: 0 <= i < data.Length ==> data[i] == 0
    {
      data := new u8[numBanks * bankSize](_ => 0);
      this.numBanks, this.bankSize, current := numBanks, bankSize, 0;
    }

    method DoBankSwitch(index: nat)
      requires Valid() && index < numBanks
      modifies `current
      ensures Valid() && current == index
    {
      current := index;
    }

    lemma InBank(adr: nat)
      requires Valid() && adr < bankSize
      ensures current * bankSize + adr < data.Length
    {
      assert (current + 1) * bankSize <= numBanks * bankSize;
    }

    method Read(adr: nat) returns (v: u8)
      requires Valid() && adr < bankSize
      ensures current * bankSize + adr < data.Length && v == data[current * bankSize + adr]
    {
      InBank(adr);
      v := data[current * bankSize + adr];
    }

    method Write(adr: nat, v: u8)
      requires Valid() && adr < bankSize
      modifies data
      ensures current * bankSize + adr < data.Length
      ensures data[..] == old(data[..])[current * bankSize + adr := v]
    {
      InBank(adr);
      data[current * bankSize + adr] := v;
    }
  }

  class Mbc1 {
    const romLow: array<u8>
    const romHigh: BankSwitchedMem
    const extRam: BankSwitchedMem
    const tracer: SymfileTracer?
    var regs: Registers
    ghost var history: seq<Write>

    /** The mapped banks follow the registers, and the registers follow the writes. */
    ghost predicate Valid()
      reads this, romHigh, extRam
    {
      && romLow.Length == ROM_BANK && romHigh != extRam
      && romHigh.Valid() && romHigh.numBanks == ROM_BANKS && romHigh.bankSize == ROM_BANK
      && extRam.Valid() && extRam.numBanks == RAM_BANKS && extRam.bankSize == RAM_BANK
      && romLow != romHigh.data && romLow != extRam.data && romHigh.data != extRam.data
      && (tracer != null ==> tracer.Valid())
      && IsHistory(history) && regs == After(history)
      && romHigh.current == RomBank(regs) - 1 && extRam.current == RamBank(regs)
    }

    /** The lower and upper ROM hold `file`, zero behind its end. */
    ghost predicate Shows(file: seq<u8>)
      requires Valid()
      reads this, romHigh, extRam, romLow, romHigh.data
    {
      && (forall a :: 0 <= a < ROM_BANK ==> romLow[a] == ByteAt(file, a))
      && ShowsUpper(file)
    }

    ghost predicate ShowsUpper(file: seq<u8>)
      requires Valid()
      reads this, romHigh, extRam, romHigh.data
    {
      forall a :: 0 <= a < ROM_BANKS * ROM_BANK ==> romHigh.data[a] == ByteAt(file, ROM_BANK + a)
    }

    /** A game of at least one bank, with the boot ROM over its start. A game that is longer than the
        banks is cut one bank short of them. */
    constructor (file: seq<u8>, boot: seq<u8>, symbolFile: bool)
      requires ROM_BANK <= |file|
      ensures Valid() && history == [] && (tracer != null <==> symbolFile)
      ensures forall a :: 0 <= a < ROM_BANK ==> romLow[a] == if a < |boot| then boot[a] else file[a]
      ensures |file| <= ROM_BANK + ROM_BANKS * ROM_BANK ==> ShowsUpper(file)
      ensures |file| > ROM_BANK + ROM_BANKS * ROM_BANK ==> ShowsUpper(file[..ROM_BANKS * ROM_BANK])
    {
      romLow := new u8[ROM_BANK](_ => 0);
      romHigh := new BankSwitchedMem(ROM_BANKS, ROM_BANK);
      extRam := new BankSwitchedMem(RAM_BANKS, RAM_BANK);
      var t: SymfileTracer? := null;
      if symbolFile {
        t := new SymfileTracer();
      }
      tracer := t;
      regs := RESET;
      history := [];
      new;
      var _ := LoadFromFile(romLow, file, 0);
      var _ := LoadFromFile(romLow, boot, 0);
      var _ := LoadFromFile(romHigh.data, file, ROM_BANK);
    }

    method SetRegister(adr: u16, v: u8)
      requires adr < 0x8000
      modifies `regs
      ensures regs == WriteRegister(old(regs), adr, v)
    {
      if adr <= 0x1FFF {
        regs := regs.(ramEnabled := Bit(v, 1) && Bit(v, 3));
      } else if adr <= 0x3FFF {
        regs := regs.(lowBits := v % 32);
      } else if adr <= 0x5FFF {
        regs := regs.(twoBits := v % 4);
      } else {
        regs := regs.(moreRam := Bit(v, 0));
      }
    }

    /** Bank numbers from the registers. */
    method MapBanks()
      requires romHigh.Valid() && extRam.Valid() && romHigh != extRam
      requires romHigh.numBanks == ROM_BANKS && extRam.numBanks == RAM_BANKS
      requires 1 <= RomBank(regs) <= 127 && RamBank(regs) < 4
      modifies romHigh`current, extRam`current
      ensures romHigh.Valid() && extRam.Valid()
      ensures romHigh.current == RomBank(regs) - 1 && extRam.current == RamBank(regs)
    {
      var romInd: int := regs.lowBits as int + (if regs.moreRam then 0 else regs.twoBits as int * 32);
      if romInd == 0 || romInd == 0x20 || romInd == 0x40 || romInd == 0x60 {
        romInd := romInd + 1;
      }
      var ramInd := if regs.moreRam then regs.twoBits else 0;
      romHigh.DoBankSwitch(romInd - 1);
      extRam.DoBankSwitch(ramInd);
    }

    /** A register write: every one of them switches both memories anew. */
    method WriteRom(adr: u16, v: u8)
      requires Valid() && adr < 0x8000
      modifies this, romHigh`current, extRam`current
      ensures Valid() && history == old(history) + [Write(adr, v)]
      ensures regs == WriteRegister(old(regs), adr, v)
    {
      hide RomBank, RamBank, WriteRegister, LastIn, SpecRomBank, SpecRamBank, SpecRamEnabled;
      SetRegister(adr, v);
      history := history + [Write(adr, v)];
      assert history[..|history| - 1] == old(history);
      HistorySpecification(history);
      MapBanks();
    }

    /** The byte the bus sees. */
    function RomByte(adr: u16): u8
      requires Valid() && adr < 0x8000
      reads this, romHigh, extRam, romLow, romHigh.data
    {
      if adr < 0x4000 then romLow[adr] else romHigh.data[romHigh.current * ROM_BANK + adr % 0x4000]
    }

    /** A bus read. With tracing on, a data read marks the file offset of the byte it returns. */
    method ReadRom(adr: u16, cmd: Command) returns (v: u8)
      requires Valid() && adr < 0x8000
      modifies if tracer == null then {} else {tracer.accessArr}
      ensures v == RomByte(adr)
      ensures 0 <= FileOffset(regs, adr) < MAX_BANKS * BANK_SIZE
      ensures forall file :: Shows(file) ==> v == ByteAt(file, FileOffset(regs, adr))
      ensures tracer != null ==> (tracer.accessArr[..] ==
        if cmd == ReadData then old(tracer.accessArr[..])[FileOffset(regs, adr) := true] else old(tracer.accessArr[..]))
    {
      HistorySpecification(history);
      if adr <= 0x3FFF {
        if tracer != null && cmd == ReadData {
          tracer.TraceAccess(0, adr);
        }
        v := romLow[adr];
      } else {
        if tracer != null && cmd == ReadData {
          tracer.TraceAccess(romHigh.current, adr);
        }
        v := romHigh.Read(adr - 0x4000);
      }
    }

    /** A direct pointer to the byte at `adr`, offered for the lower bank only and never while tracing. */
    method GetDirectMemPtr(adr: u16) returns (p: array?<u8>, offset: nat)
      requires Valid()
      ensures p == (if adr < 0x4000 && tracer == null then romLow else null)
      ensures p != null ==> offset == adr < p.Length
    {
      if adr >= 0x4000 || tracer != null {
        return null, 0;
      }
      p, offset := romLow, adr;
    }

    /** Taking the boot ROM off reloads the game's first bank into the same bytes. */
    method UnmapBootRom(file: seq<u8>)
      requires Valid() && |file| >= ROM_BANK && ShowsUpper(file)
      modifies romLow
      ensures Valid() && Shows(file)
    {
      var _ := LoadFromFile(romLow, file, 0);
    }

    method WriteRam(adr: u16, v: u8)
      requires Valid() && adr < RAM_BANK
      modifies extRam.data
      ensures 0 <= RamBank(regs) * RAM_BANK + adr < extRam.data.Length
      ensures extRam.data[..] ==
        if regs.ramEnabled then old(extRam.data[..])[RamBank(regs) * RAM_BANK + adr := v] else old(extRam.data[..])
    {
      extRam.InBank(adr);
      if regs.ramEnabled {
        extRam.Write(adr, v);
      }
    }

    /** A read of disabled RAM leaves the caller's byte as it was. */
    method ReadRam(adr: u16, before: u8) returns (v: u8)
      requires Valid() && adr < RAM_BANK
      ensures 0 <= RamBank(regs) * RAM_BANK + adr < extRam.data.Length
      ensures v == if regs.ramEnabled then extRam.data[RamBank(regs) * RAM_BANK + adr] else before
    {
      extRam.InBank(adr);
      v := before;
      if regs.ramEnabled {
        v := extRam.Read(adr);
      }
    }
  }

  /** The CPU's way to the ROM: a pointer fetched once at start-up, else the bus. */
  class RomPort {
    const mbc: Mbc1
    const romBank0: array?<u8>

    /** The pointer, if there is one, is the controller's own lower bank. */
    ghost predicate Valid()
      reads mbc, mbc.romHigh, mbc.extRam
    {
      mbc.Valid() && (romBank0 == null || romBank0 == mbc.romLow) && (romBank0 == null <==> mbc.tracer != null)
    }

    constructor (mbc: Mbc1)
      requires mbc.Valid()
      ensures Valid() && this.mbc == mbc
    {
      this.mbc := mbc;
      var p, _ := mbc.GetDirectMemPtr(0);
      romBank0 := p;
    }

    /** Both paths give the byte the bus sees, before and after the boot ROM is taken off, and no
        data read escapes the tracer. */
    method ReadBus(addr: u16, cmd: Command) returns (data: u8)
      requires Valid() && addr < 0x8000
      modifies if mbc.tracer == null then {} else {mbc.tracer.accessArr}
      ensures Valid() && data == mbc.RomByte(addr)
      ensures 0 <= FileOffset(mbc.regs, addr) < MAX_BANKS * BANK_SIZE
      ensures forall file :: mbc.Shows(file) ==> data == ByteAt(file, FileOffset(mbc.regs, addr))
      ensures mbc.tracer != null ==> (mbc.tracer.accessArr[..] ==
        if cmd == ReadData then old(mbc.tracer.accessArr[..])[FileOffset(mbc.regs, addr) := true]
        else old(mbc.tracer.accessArr[..]))
    {
      if addr <= 0x3FFF && romBank0 != null {
        HistorySpecification(mbc.history);
        return romBank0[addr];
      }
      data := mbc.ReadRom(addr, cmd);
    }
  }
}
