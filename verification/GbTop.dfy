/** The concrete memory map: which memories the bus reaches, work RAM mapped a second time as
    echo RAM over the same bytes, and the DMA copy that runs over that map. */
module GbTop {
  import opened Wrappers
  import opened Bits
  import opened Bus
  import opened Pixels
  import opened IoBlockWrites
  import opened Banking
  import Cartridge
  import Timing

  const MEMORY_MAP: seq<Slave> := [
    Slave(0x0000, 0x7FFF, CartRom), Slave(0x8000, 0x9FFF, VideoRam), Slave(0xA000, 0xBFFF, CartRam),
    Slave(0xC000, 0xCFFF, WorkRam), Slave(0xD000, 0xDFFF, WorkRamN), Slave(0xE000, 0xEFFF, EchoRam),
    Slave(0xF000, 0xFDFF, EchoRamN), Slave(0xFE00, 0xFE9F, ObjAttrMem), Slave(0xFF00, 0xFF00, Joypad),
    Slave(0xFF01, 0xFF03, Serial), Slave(0xFF04, 0xFF07, Timer), Slave(0xFF0F, 0xFF0F, IntrFlag),
    Slave(0xFF10, 0xFF7F, IoRegs), Slave(0xFF80, 0xFFFE, HighRam), Slave(0xFFFF, 0xFFFF, IntrEnable)]

  lemma {:induction false} MapIsDisjoint()
    ensures Disjoint(MEMORY_MAP)
  {
    forall a, b | a in MEMORY_MAP && b in MEMORY_MAP && a != b ensures a.to < b.from || b.to < a.from {
      var i :| 0 <= i < |MEMORY_MAP| && MEMORY_MAP[i] == a;
      var j :| 0 <= j < |MEMORY_MAP| && MEMORY_MAP[j] == b;
      Ascending(i, j);
    }
  }

  lemma Ascending(i: nat, j: nat)
    requires i < |MEMORY_MAP| && j < |MEMORY_MAP|
    ensures i < j ==> MEMORY_MAP[i].to < MEMORY_MAP[j].from
    ensures j < i ==> MEMORY_MAP[j].to < MEMORY_MAP[i].from
  {
  }

  /** Plain memory: every mapped cell that is neither cartridge, IO block nor device register. */
  predicate Plain(adr: u16) {
    0x8000 <= adr < 0xA000 || 0xC000 <= adr < 0xFEA0 || adr == 0xFF0F || 0xFF80 <= adr
  }

  predicate Device(adr: u16) { 0xFF00 <= adr <= 0xFF07 }
  predicate TimerRegister(adr: u16) { 0xFF04 <= adr <= 0xFF07 }
  predicate Mapped(adr: u16) { adr < 0xFEA0 || Device(adr) || 0xFF0F <= adr }

  /** Echo RAM is work RAM seen 0x2000 higher. */
  function Canonical(adr: u16): u16 { if 0xE000 <= adr < 0xFE00 then adr - 0x2000 else adr }

  function SlaveIndex(adr: u16): (i: nat)
    requires Mapped(adr)
    ensures i < |MEMORY_MAP| && Holds(MEMORY_MAP[i], adr)
  {
    if adr < 0x8000 then 0 else if adr < 0xA000 then 1 else if adr < 0xC000 then 2 else if adr < 0xD000 then 3
    else if adr < 0xE000 then 4 else if adr < 0xF000 then 5 else if adr < 0xFE00 then 6 else if adr < 0xFEA0 then 7
    else if adr == 0xFF00 then 8 else if adr < 0xFF04 then 9 else if adr < 0xFF08 then 10 else if adr == 0xFF0F then 11
    else if adr < 0xFF80 then 12 else if adr < 0xFFFF then 13 else 14
  }

  /** The concrete map decodes every mapped address to its slave and nothing else. */
  lemma {:induction false} MapDecodes(adr: u16)
    ensures Mapped(adr) ==> Decode(MEMORY_MAP, adr) == Some(MEMORY_MAP[SlaveIndex(adr)])
    ensures !Mapped(adr) ==> Decode(MEMORY_MAP, adr) == None
  {
    if Mapped(adr) {
      MapIsDisjoint();
      DecodeFinds(MEMORY_MAP, adr, MEMORY_MAP[SlaveIndex(adr)]);
    } else {
      DecodeMisses(MEMORY_MAP, adr);
    }
  }

  lemma TargetWindows(adr: u16)
    requires Mapped(adr) && !Plain(adr)
    ensures var s := MEMORY_MAP[SlaveIndex(adr)];
      && (s.target == CartRom <==> adr < 0x8000) && (s.target == CartRam <==> 0xA000 <= adr < 0xC000)
      && (s.target == CartRom ==> s.from == 0) && (s.target == CartRam ==> s.from == 0xA000)
  {
  }

  /** The slave behind a plain cell. */
  function PlainSlave(adr: u16): Slave
    requires Plain(adr)
  {
    if adr < 0xA000 then Slave(0x8000, 0x9FFF, VideoRam)
    else if adr < 0xD000 then Slave(0xC000, 0xCFFF, WorkRam)
    else if adr < 0xE000 then Slave(0xD000, 0xDFFF, WorkRamN)
    else if adr < 0xF000 then Slave(0xE000, 0xEFFF, EchoRam)
    else if adr < 0xFE00 then Slave(0xF000, 0xFDFF, EchoRamN)
    else if adr < 0xFEA0 then Slave(0xFE00, 0xFE9F, ObjAttrMem)
    else if adr == 0xFF0F then Slave(0xFF0F, 0xFF0F, IntrFlag)
    else if adr < 0xFFFF then Slave(0xFF80, 0xFFFE, HighRam)
    else Slave(0xFFFF, 0xFFFF, IntrEnable)
  }

  lemma {:induction false} PlainDecodes(adr: u16)
    requires Plain(adr)
    ensures Decode(MEMORY_MAP, adr) == Some(PlainSlave(adr))
  {
    hide Decode;
    MapDecodes(adr);
  }

  class GbTop {
    const cart: Cartridge.Mbc1
    const bus: Bus
    const videoRam: array<u8>
    const workRam: array<u8>
    const workRamN: array<u8>
    const echoRam: array<u8>
    const echoRamN: array<u8>
    const objAttrMem: array<u8>
    const timer: Timing.Timer
    /** What the joypad answers next; its keys are not part of the model. */
    var joypad: u8
    var serialControl: u8
    const intrFlag: array<u8>
    const io: array<u8>
    const highRam: array<u8>
    const intrEnable: array<u8>

    ghost predicate Valid()
      reads this, bus, cart, cart.romHigh, cart.extRam
    {
      && bus.slaves == MEMORY_MAP && cart.Valid()
      && videoRam.Length == 0x2000 && workRam.Length == 0x1000 && workRamN.Length == 0x1000
      && echoRam == workRam && echoRamN == workRamN && workRam != workRamN
      && objAttrMem.Length == 160 && io.Length == 0x80 && highRam.Length == 127
      && timer.Valid() && timer.ifReg == intrFlag
      && intrFlag.Length == 1 && intrEnable.Length == 1 && intrFlag != intrEnable
    }

    /** The timer is wired to the interrupt flags themselves; its registers start as they are found. */
    constructor (cart: Cartridge.Mbc1, div: u8, tima: u8, tma: u8, tac: u8)
      requires cart.Valid()
      ensures Valid() && this.cart == cart
    {
      this.cart := cart;
      bus := new Bus();
      videoRam := new u8[8192];
      workRam := new u8[4096];
      workRamN := new u8[4096];
      echoRam := workRam;
      echoRamN := workRamN;
      objAttrMem := new u8[160];
      var flags := new u8[1];
      intrFlag := flags;
      timer := new Timing.Timer(flags, div, tima, tma, tac);
      joypad, serialControl := 0x3F, 0;
      io := new u8[0x80];
      highRam := new u8[127];
      intrEnable := new u8[1];
      new;
      Connect(bus);
    }

    static method Connect(bus: Bus)
      requires bus.slaves == []
      modifies bus
      ensures bus.slaves == MEMORY_MAP
    {
      bus.AddBusSlave(CartRom, 0x0000, 0x7FFF);
      bus.AddBusSlave(VideoRam, 0x8000, 0x9FFF);
      bus.AddBusSlave(CartRam, 0xA000, 0xBFFF);
      bus.AddBusSlave(WorkRam, 0xC000, 0xCFFF);
      bus.AddBusSlave(WorkRamN, 0xD000, 0xDFFF);
      bus.AddBusSlave(EchoRam, 0xE000, 0xEFFF);
      bus.AddBusSlave(EchoRamN, 0xF000, 0xFDFF);
      bus.AddBusSlave(ObjAttrMem, 0xFE00, 0xFE9F);
      bus.AddBusSlave(Joypad, 0xFF00, 0xFF00);
      bus.AddBusSlave(Serial, 0xFF01, 0xFF03);
      bus.AddBusSlave(Timer, 0xFF04, 0xFF07);
      bus.AddBusSlave(IntrFlag, 0xFF0F, 0xFF0F);
      bus.AddBusSlave(IoRegs, 0xFF10, 0xFF7F);
      bus.AddBusSlave(HighRam, 0xFF80, 0xFFFE);
      bus.AddBusSlave(IntrEnable, 0xFFFF, 0xFFFF);
    }

    /** What a plain cell holds, through the canonical address only. */
    function Peek(adr: u16): u8
      requires Valid() && Plain(adr)
      reads this, bus, cart, cart.romHigh, cart.extRam, videoRam, workRam, workRamN, objAttrMem, intrFlag,
        highRam, intrEnable
    {
      var a := Canonical(adr);
      if a < 0xA000 then videoRam[a - 0x8000]
      else if a < 0xD000 then workRam[a - 0xC000]
      else if a < 0xE000 then workRamN[a - 0xD000]
      else if a < 0xFEA0 then objAttrMem[a - 0xFE00]
      else if a == 0xFF0F then intrFlag[0]
      else if a < 0xFFFF then highRam[a - 0xFF80]
      else intrEnable[0]
    }

    /** The memory behind a slave. */
    function MemoryOf(target: Target): array?<u8> {
      match target
      case VideoRam => videoRam
      case WorkRam => workRam
      case WorkRamN => workRamN
      case EchoRam => echoRam
      case EchoRamN => echoRamN
      case ObjAttrMem => objAttrMem
      case IntrFlag => intrFlag
      case HighRam => highRam
      case IntrEnable => intrEnable
      case _ => null
    }

    lemma CellExists(adr: u16)
      requires Valid() && Plain(adr)
      ensures var s := PlainSlave(adr); var m := MemoryOf(s.target); m != null && 0 <= adr - s.from < m.Length
    {
    }

    /** A plain cell by the bus's own way: decode, then index the slave's memory. */
    function BusByte(adr: u16): u8
      requires Valid() && Plain(adr)
      reads this, bus, cart, cart.romHigh, cart.extRam, videoRam, workRam, workRamN, objAttrMem, intrFlag,
        highRam, intrEnable
    {
      hide Decode, PlainSlave, MemoryOf;
      PlainDecodes(adr);
      CellExists(adr);
      var slave := Decode(bus.slaves, adr).value;
      MemoryOf(slave.target)[adr - slave.from]
    }

    lemma {:induction false} PeekIsBusByte(adr: u16)
      requires Valid() && Plain(adr)
      ensures Peek(adr) == BusByte(adr)
    {
      hide Decode;
      PlainDecodes(adr);
    }

    /** A read over the bus, without the command extension the tracer looks for. A target that
        does not answer leaves the caller's byte as it was. */
    method Read(adr: u16, before: u8) returns (v: u8)
      requires Valid()
      ensures Plain(adr) ==> v == Peek(adr) == BusByte(adr)
      ensures adr < 0x8000 ==> v == cart.RomByte(adr)
      ensures 0xA000 <= adr < 0xC000 ==> cart.extRam.Valid() && v == CartRamByte(adr, before)
      ensures adr == 0xFF01 ==> v == 0xFF
      ensures adr == 0xFF02 ==> v == serialControl
      ensures TimerRegister(adr) ==> v == timer.Register(adr - 0xFF04)
      ensures 0xFF10 <= adr < 0xFF80 ==> v == ReadReg(io[..], adr - 0xFF10)
      ensures !Mapped(adr) ==> v == before
    {
      hide Peek, ReadReg, CartRamByte, BusByte;
      MapDecodes(adr);
      var slave, a := bus.FindSlave(adr);
      v := before;
      if slave.Some? {
        if Plain(adr) {
          v := ReadMemory(slave.value.target, a, adr);
          PeekIsBusByte(adr);
        } else {
          v := ReadOther(slave.value.target, a, adr, before);
        }
      }
    }

    /** The targets that are not plain memory. */
    method ReadOther(target: Target, a: u16, adr: u16, before: u8) returns (v: u8)
      requires Valid() && Mapped(adr) && !Plain(adr)
      requires target == MEMORY_MAP[SlaveIndex(adr)].target && a == adr - MEMORY_MAP[SlaveIndex(adr)].from
      ensures adr < 0x8000 ==> v == cart.RomByte(adr)
      ensures 0xA000 <= adr < 0xC000 ==> cart.extRam.Valid() && v == CartRamByte(adr, before)
      ensures adr == 0xFF01 ==> v == 0xFF
      ensures adr == 0xFF02 ==> v == serialControl
      ensures TimerRegister(adr) ==> v == timer.Register(adr - 0xFF04)
      ensures 0xFF10 <= adr < 0xFF80 ==> v == ReadReg(io[..], adr - 0xFF10)
    {
      hide ReadReg;
      match target
      case CartRom => v := ReadCartRom(adr);
      case CartRam => v := cart.ReadRam(a, before);
      case Joypad => v := joypad;
      case Serial => v := if a == 0 then 0xFF else if a == 1 then serialControl else before;
      case Timer => v := timer.Read(a);
      case IoRegs => v := ReadReg(io[..], a);
    }

    /** The generic memories. */
    method ReadMemory(target: Target, a: u16, adr: u16) returns (v: u8)
      requires Valid() && Plain(adr)
      requires target == MEMORY_MAP[SlaveIndex(adr)].target && a == adr - MEMORY_MAP[SlaveIndex(adr)].from
      ensures v == Peek(adr)
    {
      match target
      case VideoRam => v := videoRam[a];
      case WorkRam => v := workRam[a];
      case WorkRamN => v := workRamN[a];
      case EchoRam => v := echoRam[a];
      case EchoRamN => v := echoRamN[a];
      case ObjAttrMem => v := objAttrMem[a];
      case IntrFlag => v := intrFlag[a];
      case HighRam => v := highRam[a];
      case IntrEnable => v := intrEnable[a];
    }

    /** The cartridge's ROM read when no command extension is attached: nothing is traced. */
    method ReadCartRom(adr: u16) returns (v: u8)
      requires Valid() && adr < 0x8000
      ensures v == cart.RomByte(adr)
    {
      if adr < 0x4000 {
        v := cart.romLow[adr];
      } else {
        v := cart.romHigh.Read(adr - 0x4000);
      }
    }

    function CartRamByte(adr: u16, before: u8): u8
      requires Valid() && 0xA000 <= adr < 0xC000 && cart.extRam.Valid()
      reads this, bus, cart, cart.romHigh, cart.extRam, cart.extRam.data
    {
      cart.extRam.InBank(adr - 0xA000);
      if cart.regs.ramEnabled then cart.extRam.data[cart.extRam.current * 0x2000 + (adr - 0xA000)] else before
    }

    /** A store to a generic memory changes its cell under every address that reaches it, and no
        other plain cell. */
    method WriteMemory(target: Target, a: u16, adr: u16, v: u8)
      requires Valid() && Plain(adr)
      requires target == MEMORY_MAP[SlaveIndex(adr)].target && a == adr - MEMORY_MAP[SlaveIndex(adr)].from
      modifies videoRam, workRam, workRamN, objAttrMem, intrFlag, highRam, intrEnable
      ensures Valid()
      ensures forall b :: Plain(b) ==> Peek(b) == if Canonical(b) == Canonical(adr) then v else old(Peek(b))
    {
      match target
      case VideoRam => videoRam[a] := v;
      case WorkRam => workRam[a] := v;
      case WorkRamN => workRamN[a] := v;
      case EchoRam => echoRam[a] := v;
      case EchoRamN => echoRamN[a] := v;
      case ObjAttrMem => objAttrMem[a] := v;
      case IntrFlag => intrFlag[a] := v;
      case HighRam => highRam[a] := v;
      case IntrEnable => intrEnable[a] := v;
    }

    /** The byte the DMA unit finds at a source address; `junk` is what its buffer held. */
    function SourceByte(adr: u16, junk: u8): u8
      requires Valid() && adr < 0xFEA0
      reads this, bus, cart, cart.romHigh, cart.extRam, cart.romLow, cart.romHigh.data, cart.extRam.data,
        videoRam, workRam, workRamN, objAttrMem, intrFlag, highRam, intrEnable
    {
      if adr < 0x8000 then cart.RomByte(adr)
      else if 0xA000 <= adr < 0xC000 then CartRamByte(adr, junk)
      else Peek(adr)
    }

    method ReadSource(from: u16, before: u8) returns (v: u8)
      requires Valid() && from < 0xFEA0
      ensures v == SourceByte(from, before)
    {
      hide Peek, CartRamByte, BusByte, ReadReg;
      v := Read(from, before);
    }

    /** DMA copies the 160 old source bytes to OAM and touches no other memory. With cartridge RAM
        as its source and that RAM switched off, OAM is filled with the buffer's old byte. */
    method DmaTransfer(page: u8, junk: u8)
      requires Valid() && page < 0xFF
      modifies objAttrMem
      ensures Valid()
      ensures forall i :: 0 <= i < 160 ==> objAttrMem[i] == old(SourceByte(page as int * 0x100 + i, junk))
    {
      var readData := junk;
      for i := 0 to 160
        invariant Valid()
        invariant 0xA0 <= page < 0xC0 && !cart.regs.ramEnabled ==> readData == junk
        invariant forall k :: 0 <= k < i ==> objAttrMem[k] == old(SourceByte(page as int * 0x100 + k, junk))
        invariant forall k :: i <= k < 160 ==> objAttrMem[k] == old(objAttrMem[k])
      {
        var from := page as int * 0x100 + i;
        readData := ReadSource(from, readData);
        objAttrMem[i] := readData;
      }
    }

    /** A store to the IO block, DMA excepted. */
    method WriteIo(adr: nat, v: u8)
      requires Valid() && adr < MAPPED && adr != DMA
      modifies io
      ensures Valid() && io[..] == WriteReg(old(io[..]), adr, v)
    {
      if adr == NR52 && !Bit(v, 7) {
        ClearSound();
      }
      if adr < 0x20 && adr != NR52 && !Bit(io[NR52], 7) {
        return;
      }
      if adr == NR52 {
        io[adr] := if Bit(v, 7) then 0x80 else 0;
      } else if adr == STAT {
        io[adr] := v / 8 % 16 * 8 + io[adr] % 8;
      } else if adr != BOOT {
        io[adr] := v;
      }
    }

    method ClearSound()
      requires Valid()
      modifies io
      ensures Valid() && io[..] == SoundOff(old(io[..]))
    {
      var tmp := io[0xA];
      for i := 0 to 0x20
        invariant forall k :: 0 <= k < 0x80 ==> io[k] == if k < i then 0 else old(io[k])
      {
        io[i] := 0;
      }
      io[0xA] := tmp;
    }

    /** No plain cell differs from what it was. */
    twostate predicate PlainKept()
      requires old(Valid()) && Valid()
      reads this, bus, cart, cart.romHigh, cart.extRam, videoRam, workRam, workRamN, objAttrMem, intrFlag,
        highRam, intrEnable
    {
      forall b :: Plain(b) ==> Peek(b) == old(Peek(b))
    }

    method WriteCartRom(adr: u16, v: u8)
      requires Valid() && adr < 0x8000
      modifies cart, cart.romHigh`current, cart.extRam`current
      ensures Valid() && PlainKept() && cart.history == old(cart.history) + [Banking.Write(adr, v)]
    {
      cart.WriteRom(adr, v);
    }

    method WriteCartRam(a: u16, v: u8)
      requires Valid() && a < 0x2000
      modifies cart.extRam.data
      ensures Valid() && PlainKept() && cart.extRam.data[..] == old(CartRamAfter(0xA000 + a as int, v))
    {
      cart.WriteRam(a, v);
    }

    /** Cartridge RAM after a store to it. */
    ghost function CartRamAfter(adr: u16, v: u8): seq<u8>
      requires Valid() && 0xA000 <= adr < 0xC000
      reads this, bus, cart, cart.romHigh, cart.extRam, cart.extRam.data
    {
      cart.extRam.InBank(adr - 0xA000);
      var all := cart.extRam.data[..];
      if cart.regs.ramEnabled then all[cart.extRam.current * 0x2000 + (adr - 0xA000) := v] else all
    }

    /** The timer after the CPU has stored to `adr` at time `at`. */
    ghost function TimerAfter(adr: u16, v: u8, at: nat): Timing.State
      requires Valid()
      reads this, bus, cart, cart.romHigh, cart.extRam, timer, intrFlag
    {
      if TimerRegister(adr) then Timing.Step(timer.Model(), Timing.Write(adr - 0xFF04, v, at)) else timer.Model()
    }

    /** No thread of the timer is overdue when the CPU stores to it. */
    ghost predicate OnTime(adr: u16, v: u8, at: nat)
      requires Valid()
      reads this, bus, cart, cart.romHigh, cart.extRam, timer, intrFlag
    {
      TimerRegister(adr) ==> Timing.Possible(timer.Model(), Timing.Write(adr - 0xFF04, v, at))
    }

    /** Device registers and the IO block. What the joypad makes of a store is left open. */
    method WriteDevice(target: Target, a: u16, adr: u16, v: u8, ghost at: nat)
      requires Valid() && (Device(adr) || 0xFF10 <= adr < 0xFF80) && adr != 0xFF46 && OnTime(adr, v, at)
      requires target == MEMORY_MAP[SlaveIndex(adr)].target && a == adr - MEMORY_MAP[SlaveIndex(adr)].from
      modifies this`joypad, this`serialControl, timer, io
      ensures Valid() && PlainKept()
      ensures timer.Model() == old(TimerAfter(adr, v, at))
      ensures serialControl == if adr == 0xFF02 then v else old(serialControl)
      ensures io[..] == if Device(adr) then old(io[..]) else WriteReg(old(io[..]), adr - 0xFF10, v)
    {
      hide WriteReg;
      match target
      case Joypad => joypad := *;
      case Serial =>
        if a == 1 {
          serialControl := v;
        }
      case Timer => timer.Write(a, v, at);
      case IoRegs => WriteIo(a, v);
    }

    /** The targets that are not plain memory. */
    method WriteOther(target: Target, a: u16, adr: u16, v: u8, ghost at: nat)
      requires Valid() && Mapped(adr) && !Plain(adr) && adr != 0xFF46 && OnTime(adr, v, at)
      requires target == MEMORY_MAP[SlaveIndex(adr)].target && a == adr - MEMORY_MAP[SlaveIndex(adr)].from
      modifies cart, cart.romHigh`current, cart.extRam`current, cart.extRam.data, this`joypad,
        this`serialControl, timer, io
      ensures Valid() && PlainKept()
      ensures cart.history == old(cart.history) + (if adr < 0x8000 then [Banking.Write(adr, v)] else [])
      ensures cart.extRam.data[..] == if 0xA000 <= adr < 0xC000 then old(CartRamAfter(adr, v))
        else old(cart.extRam.data[..])
      ensures timer.Model() == old(TimerAfter(adr, v, at))
      ensures serialControl == if adr == 0xFF02 then v else old(serialControl)
      ensures io[..] == if 0xFF10 <= adr < 0xFF80 then WriteReg(old(io[..]), adr - 0xFF10, v) else old(io[..])
    {
      hide WriteReg, Peek, CartRamAfter, SlaveIndex;
      TargetWindows(adr);
      if target == CartRom {
        WriteCartRom(a, v);
      } else if target == CartRam {
        WriteCartRam(a, v);
      } else {
        WriteDevice(target, a, adr, v, at);
      }
    }

    /** A write over the bus at time `at`, DMA excepted: what each kind of address changes, and that
        it changes nothing else. */
    method Write(adr: u16, v: u8, ghost at: nat)
      requires Valid() && adr != 0xFF46 && OnTime(adr, v, at)
      modifies cart, cart.romHigh`current, cart.extRam`current, cart.extRam.data, this`joypad,
        this`serialControl, timer, io,
        videoRam, workRam, workRamN, objAttrMem, intrFlag, highRam, intrEnable
      ensures Valid()
      ensures Plain(adr) ==> forall b :: Plain(b) ==>
        Peek(b) == if Canonical(b) == Canonical(adr) then v else old(Peek(b))
      ensures !Plain(adr) ==> PlainKept()
      ensures cart.history == old(cart.history) + (if adr < 0x8000 then [Banking.Write(adr, v)] else [])
      ensures cart.extRam.data[..] == if 0xA000 <= adr < 0xC000 then old(CartRamAfter(adr, v))
        else old(cart.extRam.data[..])
      ensures timer.Model() == old(TimerAfter(adr, v, at)).(flags := intrFlag[0])
      ensures serialControl == if adr == 0xFF02 then v else old(serialControl)
      ensures io[..] == if 0xFF10 <= adr < 0xFF80 then WriteReg(old(io[..]), adr - 0xFF10, v) else old(io[..])
    {
      hide WriteReg, Peek, Canonical, CartRamAfter, Decode, SlaveIndex;
      MapDecodes(adr);
      var slave, a := bus.FindSlave(adr);
      if slave.Some? {
        if Plain(adr) {
          WriteMemory(slave.value.target, a, adr, v);
        } else {
          WriteOther(slave.value.target, a, adr, v, at);
        }
      }
    }

    /** A store and a load over the bus: what a game finds in a picture register it has just written. */
    method StoreLoad(adr: u16, v: u8, before: u8, ghost at: nat) returns (r: u8)
      requires Valid() && 0xFF40 <= adr < 0xFF4C && adr != 0xFF46
      modifies cart, cart.romHigh`current, cart.extRam`current, cart.extRam.data, this`joypad, this`serialControl,
        timer, io, videoRam, workRam, workRamN, objAttrMem, intrFlag, highRam, intrEnable
      ensures Valid()
      ensures r == if adr == 0xFF41 then v / 8 % 16 * 8 + old(io[0x31]) % 8 else v
    {
      StoreThenLoad(io[..], adr - 0xFF10, v);
      hide WriteReg, ReadReg, Peek, BusByte, CartRamByte, Canonical, CartRamAfter, TimerAfter;
      Write(adr, v, at);
      r := Read(adr, before);
    }

    /** A cell of work RAM and its echo decode to different slaves and different indices; the bus
        finds one byte behind both, in every state. */
    lemma {:induction false} EchoAgrees(a: u16)
      requires Valid() && 0xC000 <= a < 0xDE00
      ensures Decode(bus.slaves, a) != Decode(bus.slaves, a + 0x2000)
      ensures BusByte(a) == BusByte(a + 0x2000)
    {
      hide Decode;
      PlainDecodes(a);
      PlainDecodes(a + 0x2000);
    }
  }
}
