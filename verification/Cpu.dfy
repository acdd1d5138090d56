/** The CPU as the source has it: registers that share the bytes of one array, a memory behind a
    bus, and instruction methods that change both in place. The ghost field `s` is the value
    `CpuState` speaks about; `Valid` ties it to the arrays. */
module Cpu {
  import opened Wrappers
  import opened Bits
  import opened CpuState

  class Cpu {
    /** F A C B E D L H SPlsb SPmsb PClsb PCmsb. */
    const dat: array<u8>
    const mem: array<u8>
    /** The direct pointer to the lower ROM; on a flat memory it is the memory itself. */
    const romBank0: array?<u8>
    var intrMasterEnable: bool
    /** Clock cycles the current instruction waits. */
    var wait: nat
    ghost var s: State

    ghost predicate Valid()
      reads this, dat, mem
    {
      && dat.Length == 12 && mem.Length == 0x10000 && dat != mem && (romBank0 == null || romBank0 == mem)
      && Stores(dat, s)
      && mem[..] == s.mem && intrMasterEnable == s.ime && wait == s.wait
    }

    /** The shared bytes hold the registers of `s`. */
    static ghost predicate Stores(dat: array<u8>, s: State)
      requires dat.Length == 12
      reads dat
    {
      && dat[0] == FByte(s.f) && dat[1] == s.a
      && dat[2] == s.c && dat[3] == s.b && dat[4] == s.e && dat[5] == s.d && dat[6] == s.l && dat[7] == s.h
      && Word(dat[9], dat[8]) == s.sp && Word(dat[11], dat[10]) == s.pc
    }

    /** A CPU with cleared registers on a memory, with interrupts off. */
    constructor (memory: array<u8>, direct: bool)
      requires memory.Length == 0x10000
      ensures Valid() && mem == memory && fresh(dat) && s == PowerOn(memory[..])
    {
      hide Stores;
      var registers := Cleared();
      ClearedStores(registers, memory[..]);
      dat := registers;
      mem := memory;
      romBank0 := if direct then memory else null;
      intrMasterEnable := false;
      wait := 0;
      s := PowerOn(memory[..]);
    }

    static method Cleared() returns (registers: array<u8>)
      ensures fresh(registers) && registers.Length == 12 && forall i :: 0 <= i < 12 ==> registers[i] == 0
    {
      registers := new u8[12](_ => 0);
    }

    static lemma ClearedStores(registers: array<u8>, m: Memory)
      requires registers.Length == 12 && forall i :: 0 <= i < 12 ==> registers[i] == 0
      ensures Stores(registers, PowerOn(m))
    {
    }

    /** Offset of a 16-bit register in the shared bytes; its low byte comes first. */
    static function Offset(r: Reg16): nat {
      match r case AF => 0 case BC => 2 case DE => 4 case HL => 6 case SP => 8 case PC => 10
    }

    method Read16(r: Reg16) returns (v: u16)
      requires Valid()
      ensures v == Get16(s, r)
    {
      v := Word(dat[Offset(r) + 1], dat[Offset(r)]);
    }

    method Write16(r: Reg16, v: u16)
      requires Valid()
      modifies dat, `s
      ensures Valid() && s == Set16(old(s), r, v)
    {
      FlagsRoundTrip(Lo(v));
      dat[Offset(r)] := Lo(v);
      dat[Offset(r) + 1] := Hi(v);
      s := Set16(s, r, v);
    }

    method SetA(v: u8)
      requires Valid()
      modifies dat, `s
      ensures Valid() && s == old(s).(a := v)
    {
      dat[1] := v;
      s := s.(a := v);
    }

    method GetA() returns (v: u8)
      requires Valid()
      ensures v == s.a
    {
      v := dat[1];
    }

    method SetWait(cycles: nat)
      requires Valid()
      modifies `wait, `s
      ensures Valid() && s == old(s).(wait := cycles)
    {
      wait := cycles;
      s := s.(wait := cycles);
    }

    static lemma {:induction false} FlagOfDigit(b: u8, v: bool, i: nat)
      requires 4 <= i < 8
      ensures FlagsOf(SetBit8(b, v, i)) ==
        Flags(if i == 7 then v else Bit(b, 7), if i == 6 then v else Bit(b, 6),
              if i == 5 then v else Bit(b, 5), if i == 4 then v else Bit(b, 4), b % 16)
    {
      SetBitFrame(b, v, i, 4);
      SetBitFrame(b, v, i, 5);
      SetBitFrame(b, v, i, 6);
      SetBitFrame(b, v, i, 7);
      SetBitLowDigits(b, v, i, 4);
      assert Pow2(4) == 16;
    }

    /** Setting one binary digit of F sets one flag and leaves the rest, low nibble included. */
    static lemma {:induction false} FlagWritten(f: Flags, v: bool, i: nat)
      requires 4 <= i < 8
      ensures SetBit8(FByte(f), v, i) == FByte(Flags(if i == 7 then v else f.z, if i == 6 then v else f.n,
                                                     if i == 5 then v else f.h, if i == 4 then v else f.c, f.low))
    {
      hide FByte, SetBit8, Bit;
      FByteRoundTrip(f);
      FlagOfDigit(FByte(f), v, i);
      FlagsRoundTrip(SetBit8(FByte(f), v, i));
    }

    method SetFlagC(val: bool)
      requires Valid()
      modifies dat, `s
      ensures Valid() && s == old(s).(f := old(s).f.(c := val))
    {
      FlagWritten(s.f, val, 4);
      dat[0] := SetBit8(dat[0], val, 4);
      s := s.(f := s.f.(c := val));
    }

    method SetFlagH(val: bool)
      requires Valid()
      modifies dat, `s
      ensures Valid() && s == old(s).(f := old(s).f.(h := val))
    {
      FlagWritten(s.f, val, 5);
      dat[0] := SetBit8(dat[0], val, 5);
      s := s.(f := s.f.(h := val));
    }

    method SetFlagN(val: bool)
      requires Valid()
      modifies dat, `s
      ensures Valid() && s == old(s).(f := old(s).f.(n := val))
    {
      FlagWritten(s.f, val, 6);
      dat[0] := SetBit8(dat[0], val, 6);
      s := s.(f := s.f.(n := val));
    }

    method SetFlagZ(val: bool)
      requires Valid()
      modifies dat, `s
      ensures Valid() && s == old(s).(f := old(s).f.(z := val))
    {
      FlagWritten(s.f, val, 7);
      dat[0] := SetBit8(dat[0], val, 7);
      s := s.(f := s.f.(z := val));
    }

    method SetFlags(z: bool, n: bool, h: bool, c: bool)
      requires Valid()
      modifies dat, `s
      ensures Valid() && s == old(s).(f := Flags(z, n, h, c, old(s).f.low))
    {
      hide Valid;
      SetFlagH(h);
      SetFlagN(n);
      SetFlagC(c);
      SetFlagZ(z);
    }

    method GetFlags() returns (z: bool, n: bool, h: bool, c: bool)
      requires Valid()
      ensures z == s.f.z && n == s.f.n && h == s.f.h && c == s.f.c
    {
      FByteRoundTrip(s.f);
      z, n, h, c := Bit(dat[0], 7), Bit(dat[0], 6), Bit(dat[0], 5), Bit(dat[0], 4);
    }

    /** Reads below 0x4000 take the direct pointer when there is one. */
    method ReadBus(addr: u16) returns (data: u8)
      requires Valid()
      ensures data == s.mem[addr]
    {
      if addr <= 0x3FFF && romBank0 != null {
        return romBank0[addr];
      }
      data := mem[addr];
    }

    method WriteBus(addr: u16, data: u8)
      requires Valid()
      modifies mem, `s
      ensures Valid() && s == Store(old(s), addr, data)
    {
      mem[addr] := data;
      s := Store(s, addr, data);
    }

    method FetchNextInstrByte() returns (val: u8)
      requires Valid()
      modifies dat, `s
      ensures Valid() && val == old(s).mem[old(s).pc] && s == Fetch(old(s))
    {
      hide Valid;
      var pc := Read16(PC);
      val := ReadBus(pc);
      Write16(PC, Inc16(pc));
    }

    method FetchNext2InstrBytes() returns (val: u16)
      requires Valid()
      modifies dat, `s
      ensures Valid() && val == Operand(old(s)) && s == SkipOperand(old(s))
    {
      hide Valid;
      var lsb := FetchNextInstrByte();
      var msb := FetchNextInstrByte();
      val := Word(msb, lsb);
    }

    // Arithmetic.

    /** The source finds the carry by comparing the sum with an operand. */
    static method AddBytes(a: u8, v: u8, carryAdd: nat) returns (sum: u8, h: bool, c: bool)
      requires carryAdd <= 1
      ensures Acc(sum, false, h, c) == AdcAcc(a, v, carryAdd == 1)
    {
      h := a as int % 16 + v % 16 + carryAdd > 15;
      sum := (a as int + v + carryAdd) % 256;
      c := sum < a || (sum == a && carryAdd == 1);
      assert sum == if a as int + v + carryAdd > 255 then a as int + v + carryAdd - 256 else a as int + v + carryAdd;
    }

    static method SubBytes(a: u8, v: u8, carrySub: nat) returns (diff: u8, h: bool, c: bool)
      requires carrySub <= 1
      ensures Acc(diff, true, h, c) == SbcAcc(a, v, carrySub == 1)
    {
      diff := (a as int - (v as int + carrySub)) % 256;
      c := diff > a || (diff == a && carrySub == 1);
      h := a as int % 16 - v as int % 16 - carrySub < 0;
    }

    method InstrAddA(addrReg: Reg16)
      requires Valid()
      modifies dat, `wait, `s
      ensures Valid() && s == Adc(old(s), At(old(s), addrReg), false).(wait := 8)
    {
      hide Valid;
      var a := GetA();
      var addr := Read16(addrReg);
      var reg := ReadBus(addr);
      var sum, h, c := AddBytes(a, reg, 0);
      SetA(sum);
      SetFlags(sum == 0, false, h, c);
      SetWait(8);
    }

    method InstrAddACarry(addrReg: Reg16)
      requires Valid()
      modifies dat, `wait, `s
      ensures Valid() && s == Adc(old(s), At(old(s), addrReg), old(s).f.c).(wait := 8)
    {
      hide Valid;
      var a := GetA();
      var addr := Read16(addrReg);
      var reg := ReadBus(addr);
      var _, _, _, carry := GetFlags();
      var sum, h, c := AddBytes(a, reg, B2N(carry));
      SetA(sum);
      SetFlags(sum == 0, false, h, c);
      SetWait(8);
    }

    method InstrSub(addrReg: Reg16)
      requires Valid()
      modifies dat, `wait, `s
      ensures Valid() && s == Sbc(old(s), At(old(s), addrReg), false).(wait := 8)
    {
      hide Valid;
      var a := GetA();
      var addr := Read16(addrReg);
      var reg := ReadBus(addr);
      var diff, h, c := SubBytes(a, reg, 0);
      SetA(diff);
      SetFlags(diff == 0, true, h, c);
      SetWait(8);
    }

    method InstrSubCarry(addrReg: Reg16)
      requires Valid()
      modifies dat, `wait, `s
      ensures Valid() && s == Sbc(old(s), At(old(s), addrReg), old(s).f.c).(wait := 8)
    {
      hide Valid;
      var a := GetA();
      var addr := Read16(addrReg);
      var reg := ReadBus(addr);
      var _, _, _, carry := GetFlags();
      var diff, h, c := SubBytes(a, reg, B2N(carry));
      SetA(diff);
      SetFlags(diff == 0, true, h, c);
      SetWait(8);
    }

    static method DecimalAdjust(a: u8, n: bool, h: bool, c: bool) returns (reg: u8, carry: bool)
      ensures Acc(reg, n, false, carry) == DaaAcc(Acc(a, n, h, c))
    {
      var correction := if c then 0x60 else 0x00;
      if h || (!n && a % 16 > 9) {
        correction := correction + 0x06;
      }
      if !c && !n && a > 0x99 {
        correction := correction + 0x60;
      }
      reg := (if n then a as int - correction else a as int + correction) % 256;
      carry := c;
      if correction >= 0x40 {
        carry := true;
      }
    }

    method InstrDAA()
      requires Valid()
      modifies dat, `wait, `s
      ensures Valid() && s == Daa(old(s)).(wait := 4)
    {
      hide Valid;
      var a := GetA();
      var _, n, h, c := GetFlags();
      var reg, carry := DecimalAdjust(a, n, h, c);
      SetA(reg);
      SetFlags(reg == 0, n, false, carry);
      SetWait(4);
    }

    method InstrDecB()
      requires Valid()
      modifies dat, `wait, `s
      ensures Valid() && s == DecB(old(s))
    {
      dat[3] := Dec8(dat[3]);
      s := s.(b := Dec8(s.b));
      SetFlagH(dat[3] % 16 == 15);
      SetFlagN(true);
      SetFlagZ(dat[3] == 0);
      SetWait(4);
    }

    method InstrInc(reg: Reg16)
      requires Valid()
      modifies dat, `wait, `s
      ensures Valid() && s == Set16(old(s), reg, Inc16(Get16(old(s), reg))).(wait := 8)
    {
      hide Valid;
      var v := Read16(reg);
      Write16(reg, Inc16(v));
      SetWait(8);
    }

    method InstrDec(reg: Reg16)
      requires Valid()
      modifies dat, `wait, `s
      ensures Valid() && s == Set16(old(s), reg, Dec16(Get16(old(s), reg))).(wait := 8)
    {
      hide Valid;
      var v := Read16(reg);
      Write16(reg, Dec16(v));
      SetWait(8);
    }

    method InstrLoadA(addrReg: Reg16)
      requires Valid()
      modifies dat, `wait, `s
      ensures Valid() && s == old(s).(a := At(old(s), addrReg), wait := 8)
    {
      hide Valid;
      var addr := Read16(addrReg);
      var v := ReadBus(addr);
      SetA(v);
      SetWait(8);
    }

    method InstrStoreA(addrReg: Reg16)
      requires Valid()
      modifies mem, `wait, `s
      ensures Valid() && s == Store(old(s), Get16(old(s), addrReg), old(s).a).(wait := 8)
    {
      hide Valid;
      var a := GetA();
      var addr := Read16(addrReg);
      WriteBus(addr, a);
      SetWait(8);
    }

    method InstrJumpIf(cond: bool)
      requires Valid()
      modifies dat, `wait, `s
      ensures Valid() && s == JumpIf(old(s), cond)
    {
      hide Valid;
      if cond {
        var tmpPc := Read16(PC);
        var byte := FetchNextInstrByte();
        var tmpInstr := if byte < 128 then byte as int else byte as int - 256;
        Write16(PC, (tmpPc as int + tmpInstr + 1) % 0x10000);
        SetWait(12);
      } else {
        var _ := FetchNextInstrByte();
        SetWait(8);
      }
    }

    static method ShiftValue(k: Shift, v: u8, oldCarry: bool) returns (dat: u8, carry: bool)
      ensures (dat, carry) == ShiftByte(k, v, oldCarry)
    {
      match k {
        case RL =>
          carry := v >= 128;
          dat := v as int * 2 % 256;
          dat := dat + B2N(oldCarry);
        case RR =>
          carry := v % 2 == 1;
          dat := v / 2;
          dat := dat + (if oldCarry then 128 else 0);
        case SLA =>
          carry := v >= 128;
          dat := v as int * 2 % 256;
        case SRA =>
          carry := v % 2 == 1;
          var topBit := if v >= 128 then 128 else 0;
          dat := v / 2 + topBit;
        case SRL =>
          carry := v % 2 == 1;
          dat := v / 2;
      }
    }

    /** RL, RR, SLA, SRA and SRL of a memory byte. */
    method InstrShift(k: Shift, addrReg: Reg16)
      requires Valid()
      modifies dat, mem, `wait, `s
      ensures Valid() && s == ShiftAt(old(s), k, addrReg).(wait := 16)
    {
      hide Valid;
      var addr := Read16(addrReg);
      var v := ReadBus(addr);
      var _, _, _, oldCarry := GetFlags();
      var res, carry := ShiftValue(k, v, oldCarry);
      WriteBus(addr, res);
      SetFlags(res == 0, false, false, carry);
      SetWait(16);
    }

    // Stack.

    method PushByte(v: u8)
      requires Valid()
      modifies dat, mem, `s
      ensures Valid() && s == CpuState.PushByte(old(s), v)
    {
      hide Valid;
      var sp := Read16(SP);
      Write16(SP, Dec16(sp));
      WriteBus(Dec16(sp), v);
    }

    method PopByte() returns (v: u8)
      requires Valid()
      modifies dat, `s
      ensures Valid() && v == old(s).mem[old(s).sp] && s == DropByte(old(s))
    {
      hide Valid;
      var sp := Read16(SP);
      v := ReadBus(sp);
      Write16(SP, Inc16(sp));
    }

    method InstrPush(reg: Reg16)
      requires Valid()
      modifies dat, mem, `wait, `s
      ensures Valid() && s == PushWord(old(s), Get16(old(s), reg)).(wait := 16)
    {
      hide Valid;
      var v := Read16(reg);
      PushByte(Hi(v));
      PushByte(Lo(v));
      SetWait(16);
    }

    method GetLowNibble() returns (low: Nibble)
      requires Valid()
      ensures low == s.f.low
    {
      low := dat[0] % 16;
    }

    method SetLowNibble(low: Nibble)
      requires Valid()
      modifies dat, `s
      ensures Valid() && s == old(s).(f := old(s).f.(low := low))
    {
      dat[0] := dat[0] / 16 * 16 + low;
      s := s.(f := s.f.(low := low));
    }

    method InstrPop(reg: Reg16)
      requires Valid() && (reg.BC? || reg.DE? || reg.HL? || reg.AF?)
      modifies dat, `wait, `s
      ensures Valid() && s == Pop(old(s), reg).(wait := 12)
    {
      hide Valid;
      var fTmp := GetLowNibble();
      var lsb := PopByte();
      var msb := PopByte();
      Write16(reg, Word(msb, lsb));
      SetLowNibble(fTmp);
      SetWait(12);
    }

    method InstrCall()
      requires Valid()
      modifies dat, mem, `wait, `s
      ensures Valid() && s == Call(old(s)).(wait := 24)
    {
      hide Valid;
      var jmpAddr := FetchNext2InstrBytes();
      var pc := Read16(PC);
      PushByte(Hi(pc));
      PushByte(Lo(pc));
      Write16(PC, jmpAddr);
      SetWait(24);
    }

    method InstrRet()
      requires Valid()
      modifies dat, `wait, `s
      ensures Valid() && s == Return(old(s)).(wait := 16)
    {
      hide Valid;
      var lsb := PopByte();
      var msb := PopByte();
      Write16(PC, Word(msb, lsb));
      SetWait(16);
    }

    method SetIme(v: bool)
      requires Valid()
      modifies `intrMasterEnable, `s
      ensures Valid() && s == old(s).(ime := v)
    {
      intrMasterEnable := v;
      s := s.(ime := v);
    }

    method InstrRetI()
      requires Valid()
      modifies dat, `intrMasterEnable, `wait, `s
      ensures Valid() && s == Return(old(s)).(ime := true, wait := 16)
    {
      hide Valid;
      var lsb := PopByte();
      var msb := PopByte();
      Write16(PC, Word(msb, lsb));
      SetIme(true);
      SetWait(16);
    }

    method InstrRST(addr: u8)
      requires Valid()
      modifies dat, mem, `wait, `s
      ensures Valid() && s == Restart(old(s), addr).(wait := 16)
    {
      hide Valid;
      var pc := Read16(PC);
      PushByte(Hi(pc));
      PushByte(Lo(pc));
      Write16(PC, addr);
      SetWait(16);
    }

    // Interrupts and the main loop's body.

    /** The direct pointers to IE and IF, and the test of one bit of their conjunction. */
    method IsPending(i: nat) returns (b: bool)
      requires Valid() && i < 8
      ensures b == Pending(s, i)
    {
      b := Bit(mem[IE_ADDR], i) && Bit(mem[IF_ADDR], i);
    }

    method EnterVector(vector: u8, i: nat)
      requires Valid() && i < 8
      modifies dat, mem, `s
      ensures Valid() && s == Store(old(s), IF_ADDR, SetBit8(old(s).mem[IF_ADDR], false, i)).(pc := vector)
    {
      Write16(PC, vector);
      WriteBus(IF_ADDR, SetBit8(mem[IF_ADDR], false, i));
    }

    method HandleInterrupts()
      requires Valid()
      modifies dat, mem, `intrMasterEnable, `wait, `s
      ensures Valid() && s == CpuState.HandleInterrupts(old(s))
    {
      var ime := GetIme();
      hide Valid;
      FirstPendingCases(s);
      if !ime {
        return;
      }
      var p0 := IsPending(0);
      var p1 := IsPending(1);
      var p2 := IsPending(2);
      var p3 := IsPending(3);
      var p4 := IsPending(4);
      var p5 := IsPending(5);
      var p6 := IsPending(6);
      var p7 := IsPending(7);
      if p0 || p1 || p2 || p3 || p4 || p5 || p6 || p7 {
        SetIme(false);
        InstrPush(PC);
        if p0 {
          EnterVector(0x40, 0);
          return;
        }
        if p1 {
          EnterVector(0x48, 1);
          return;
        }
        if p2 {
          EnterVector(0x50, 2);
          return;
        }
        if p3 {
          EnterVector(0x58, 3);
          return;
        }
        if p4 {
          EnterVector(0x60, 4);
          return;
        }
      }
    }

    static lemma {:induction false} FirstPendingCases(s: State)
      ensures FirstPending(s, 0) == if Pending(s, 0) then 0 else if Pending(s, 1) then 1 else if Pending(s, 2) then 2
        else if Pending(s, 3) then 3 else if Pending(s, 4) then 4 else if Pending(s, 5) then 5
        else if Pending(s, 6) then 6 else if Pending(s, 7) then 7 else 8
    {
      var k := FirstPending(s, 0);
      assert k > 0 ==> !Pending(s, 0);
      assert k > 1 ==> !Pending(s, 1);
      assert k > 2 ==> !Pending(s, 2);
      assert k > 3 ==> !Pending(s, 3);
      assert k > 4 ==> !Pending(s, 4);
      assert k > 5 ==> !Pending(s, 5);
      assert k > 6 ==> !Pending(s, 6);
      assert k > 7 ==> !Pending(s, 7);
    }

    method GetIme() returns (b: bool)
      requires Valid()
      ensures b == s.ime
    {
      b := intrMasterEnable;
    }

    /** The modelled cases of the opcode switch. */
    method Execute(op: u8) returns (known: bool)
      requires Valid()
      modifies dat, mem, `intrMasterEnable, `wait, `s
      ensures Valid() && known == CpuState.Execute(old(s), op).Some?
      ensures if known then Some(s) == CpuState.Execute(old(s), op) else s == old(s)
    {
      hide Valid;
      known := true;
      if op == 0x00 {
        SetWait(4);
      } else if op == 0x05 {
        InstrDecB();
      } else if op == 0x12 {
        InstrStoreA(DE);
      } else if op == 0x13 {
        InstrInc(DE);
      } else if op == 0x1A {
        InstrLoadA(DE);
      } else if op == 0x20 {
        var z, _, _, _ := GetFlags();
        InstrJumpIf(!z);
      } else if op == 0x23 {
        InstrInc(HL);
      } else if op == 0x27 {
        InstrDAA();
      } else if op == 0x2B {
        InstrDec(HL);
      } else if op == 0x86 {
        InstrAddA(HL);
      } else if op == 0x8E {
        InstrAddACarry(HL);
      } else if op == 0x96 {
        InstrSub(HL);
      } else if op == 0x9E {
        InstrSubCarry(HL);
      } else if op == 0xC1 {
        InstrPop(BC);
      } else if op == 0xD1 {
        InstrPop(DE);
      } else if op == 0xE1 {
        InstrPop(HL);
      } else if op == 0xF1 {
        InstrPop(AF);
      } else if op == 0xC5 {
        InstrPush(BC);
      } else if op == 0xD5 {
        InstrPush(DE);
      } else if op == 0xE5 {
        InstrPush(HL);
      } else if op == 0xF5 {
        InstrPush(AF);
      } else if op == 0xC9 {
        InstrRet();
      } else if op == 0xCD {
        InstrCall();
      } else if op == 0xD9 {
        InstrRetI();
      } else if op == 0xF3 {
        SetIme(false);
        SetWait(4);
      } else if op == 0xFB {
        SetIme(true);
        SetWait(4);
      } else if op % 8 == 7 && op >= 0xC7 {
        InstrRST(op - 0xC7);
      } else if op == 0xCB {
        known := ExecuteShift();
      } else {
        known := false;
      }
    }

    /** The modelled cases behind the 0xCB prefix; an unknown one is not fetched. */
    method ExecuteShift() returns (known: bool)
      requires Valid()
      modifies dat, mem, `wait, `s
      ensures Valid() && known == CpuState.ExecuteShift(Fetch(old(s)), old(s).mem[old(s).pc]).Some?
      ensures if known then Some(s) == CpuState.ExecuteShift(Fetch(old(s)), old(s).mem[old(s).pc]) else s == old(s)
    {
      hide Valid;
      var pc := Read16(PC);
      var op := ReadBus(pc);
      known := op == 0x16 || op == 0x1E || op == 0x26 || op == 0x2E || op == 0x3E;
      if known {
        var _ := FetchNextInstrByte();
        var k := if op == 0x16 then RL else if op == 0x1E then RR else if op == 0x26 then SLA
          else if op == 0x2E then SRA else SRL;
        InstrShift(k, HL);
      }
    }

    /** One round of the main loop up to the waiting: interrupts, fetch, decode and execute. */
    method DoMachineCycle() returns (known: bool)
      requires Valid()
      modifies dat, mem, `intrMasterEnable, `wait, `s
      ensures Valid() && known == Cycle(old(s)).Some?
      ensures known ==> Some(s) == Cycle(old(s))
    {
      hide Valid;
      SetWait(0);
      HandleInterrupts();
      var instrByte := FetchNextInstrByte();
      known := Execute(instrByte);
    }
  }
}
