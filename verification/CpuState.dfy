/** The CPU as a value: registers, flags, a flat 64 KiB memory, and what each instruction the
    proofs use does to them. The class `Cpu` is proved to behave like this. */
module CpuState {
  import opened Wrappers
  import opened Bits

  type Nibble = x: int | 0 <= x < 16
  type Memory = m: seq<u8> | |m| == 0x10000 witness seq(0x10000, _ => 0)

  const IF_ADDR: u16 := 0xFF0F
  const IE_ADDR: u16 := 0xFFFF

  /** The F register: four flags and the low nibble no arithmetic touches. */
  datatype Flags = Flags(z: bool, n: bool, h: bool, c: bool, low: Nibble)

  function FByte(f: Flags): u8 {
    128 * B2N(f.z) + 64 * B2N(f.n) + 32 * B2N(f.h) + 16 * B2N(f.c) + f.low
  }

  function FlagsOf(b: u8): Flags {
    Flags(Bit(b, 7), Bit(b, 6), Bit(b, 5), Bit(b, 4), b % 16)
  }

  /** The flags are the binary digits of the upper nibble. */
  lemma {:induction false} UpperNibble(b: u8, i: nat)
    requires i < 4
    ensures Bit(b, i + 4) == Bit(b / 16, i)
  {
    assert Bit(b, i + 4) == Bit(b / 2, i + 3) == Bit(b / 2 / 2, i + 2);
    assert Bit(b / 2 / 2, i + 2) == Bit(b / 2 / 2 / 2, i + 1) == Bit(b / 2 / 2 / 2 / 2, i);
    assert b / 2 / 2 / 2 / 2 == b / 16;
  }

  lemma {:induction false} NibbleDigits(q: nat)
    requires q < 16
    ensures q == B2N(Bit(q, 0)) + 2 * B2N(Bit(q, 1)) + 4 * B2N(Bit(q, 2)) + 8 * B2N(Bit(q, 3))
  {
    assert Bit(q, 1) == Bit(q / 2, 0) && Bit(q, 2) == Bit(q / 2 / 2, 0) && Bit(q, 3) == Bit(q / 2 / 2 / 2, 0);
  }

  lemma {:induction false} DigitsOfNibble(c: bool, h: bool, n: bool, z: bool)
    ensures var q := B2N(c) + 2 * B2N(h) + 4 * B2N(n) + 8 * B2N(z);
      Bit(q, 0) == c && Bit(q, 1) == h && Bit(q, 2) == n && Bit(q, 3) == z
  {
    var q := B2N(c) + 2 * B2N(h) + 4 * B2N(n) + 8 * B2N(z);
    assert q / 2 == B2N(h) + 2 * B2N(n) + 4 * B2N(z);
    assert q / 2 / 2 == B2N(n) + 2 * B2N(z) && q / 2 / 2 / 2 == B2N(z);
    assert Bit(q, 1) == Bit(q / 2, 0) && Bit(q, 2) == Bit(q / 2 / 2, 0) && Bit(q, 3) == Bit(q / 2 / 2 / 2, 0);
  }

  lemma {:induction false} FlagsRoundTrip(b: u8)
    ensures FByte(FlagsOf(b)) == b
  {
    hide Bit;
    UpperNibble(b, 0);
    UpperNibble(b, 1);
    UpperNibble(b, 2);
    UpperNibble(b, 3);
    NibbleDigits(b / 16);
  }

  lemma {:induction false} FByteRoundTrip(f: Flags)
    ensures FlagsOf(FByte(f)) == f
  {
    hide Bit;
    var b := FByte(f);
    UpperNibble(b, 0);
    UpperNibble(b, 1);
    UpperNibble(b, 2);
    UpperNibble(b, 3);
    DigitsOfNibble(f.c, f.h, f.n, f.z);
    assert b / 16 == B2N(f.c) + 2 * B2N(f.h) + 4 * B2N(f.n) + 8 * B2N(f.z);
  }

  datatype Reg16 = AF | BC | DE | HL | SP | PC

  /** `wait` is the clock cycles the last instruction asked for. */
  datatype State = State(a: u8, f: Flags, b: u8, c: u8, d: u8, e: u8, h: u8, l: u8,
                         sp: u16, pc: u16, mem: Memory, ime: bool, wait: nat)

  function Get16(s: State, r: Reg16): u16 {
    match r
    case AF => Word(s.a, FByte(s.f))
    case BC => Word(s.b, s.c)
    case DE => Word(s.d, s.e)
    case HL => Word(s.h, s.l)
    case SP => s.sp
    case PC => s.pc
  }

  function Set16(s: State, r: Reg16, v: u16): State {
    match r
    case AF => s.(a := Hi(v), f := FlagsOf(Lo(v)))
    case BC => s.(b := Hi(v), c := Lo(v))
    case DE => s.(d := Hi(v), e := Lo(v))
    case HL => s.(h := Hi(v), l := Lo(v))
    case SP => s.(sp := v)
    case PC => s.(pc := v)
  }

  function At(s: State, r: Reg16): u8 { s.mem[Get16(s, r)] }
  function Store(s: State, adr: u16, v: u8): State { s.(mem := s.mem[adr := v]) }

  // Arithmetic on the accumulator: what an instruction leaves in A, N, H and C.

  datatype Acc = Acc(a: u8, n: bool, h: bool, c: bool)

  function AdcAcc(a: u8, v: u8, carry: bool): Acc {
    var t: int := a as int + v + B2N(carry);
    Acc(t % 256, false, a as int % 16 + v % 16 + B2N(carry) > 15, t > 255)
  }

  function SbcAcc(a: u8, v: u8, carry: bool): Acc {
    var t: int := a as int - v as int - B2N(carry);
    Acc(t % 256, true, a as int % 16 - v as int % 16 - B2N(carry) < 0, t < 0)
  }

  /** What DAA adds, or subtracts after a subtraction. */
  function Correction(r: Acc): u8 {
    (if r.h || (!r.n && r.a % 16 > 9) then 0x06 else 0) + (if r.c || (!r.n && r.a > 0x99) then 0x60 else 0)
  }

  function DaaAcc(r: Acc): Acc {
    var k := Correction(r);
    Acc((if r.n then r.a as int - k else r.a as int + k) % 256, r.n, false, r.c || k >= 0x60)
  }

  function WithAcc(s: State, r: Acc): State { s.(a := r.a, f := Flags(r.a == 0, r.n, r.h, r.c, s.f.low)) }
  function Adc(s: State, v: u8, carry: bool): State { WithAcc(s, AdcAcc(s.a, v, carry)) }
  function Sbc(s: State, v: u8, carry: bool): State { WithAcc(s, SbcAcc(s.a, v, carry)) }
  function Daa(s: State): State { WithAcc(s, DaaAcc(Acc(s.a, s.f.n, s.f.h, s.f.c))) }

  /** DEC B touches Z, N and H but not C. */
  function DecB(s: State): State {
    var v := Dec8(s.b);
    s.(b := v, f := s.f.(z := v == 0, n := true, h := v % 16 == 15), wait := 4)
  }

  // Rotates and shifts of one byte: the new byte and the carry out.

  datatype Shift = RL | RR | SLA | SRA | SRL

  function ShiftByte(k: Shift, v: u8, carry: bool): (u8, bool) {
    match k
    case RL => ((2 * v + B2N(carry)) % 256, v >= 128)
    case RR => (v / 2 + 128 * B2N(carry), v % 2 == 1)
    case SLA => (2 * v % 256, v >= 128)
    case SRA => (v / 2 + v / 128 * 128, v % 2 == 1)
    case SRL => (v / 2, v % 2 == 1)
  }

  function ShiftAt(s: State, k: Shift, r: Reg16): State {
    var (v, carry) := ShiftByte(k, At(s, r), s.f.c);
    Store(s, Get16(s, r), v).(f := s.f.(z := v == 0, n := false, h := false, c := carry))
  }

  // Stack.

  function PushByte(s: State, v: u8): State { Store(s.(sp := Dec16(s.sp)), Dec16(s.sp), v) }

  /** The high byte goes first, to the higher address. */
  function PushWord(s: State, v: u16): State { PushByte(PushByte(s, Hi(v)), Lo(v)) }

  function TopWord(s: State): u16 { Word(s.mem[Inc16(s.sp)], s.mem[s.sp]) }
  function DropByte(s: State): State { s.(sp := Inc16(s.sp)) }
  function DropWord(s: State): State { DropByte(DropByte(s)) }

  /** POP keeps the low nibble of F whatever was on the stack. */
  function Pop(s: State, r: Reg16): State {
    var s' := Set16(DropWord(s), r, TopWord(s));
    s'.(f := s'.f.(low := s.f.low))
  }

  function Return(s: State): State { DropWord(s).(pc := TopWord(s)) }

  /** The two operand bytes at PC, and the state after fetching them. */
  function Operand(s: State): u16 { Word(s.mem[Inc16(s.pc)], s.mem[s.pc]) }
  function SkipOperand(s: State): State { s.(pc := Inc16(Inc16(s.pc))) }

  function Call(s: State): State {
    PushWord(SkipOperand(s), SkipOperand(s).pc).(pc := Operand(s))
  }

  function Restart(s: State, vector: u8): State { PushWord(s, s.pc).(pc := vector) }

  /** JR cond: the displacement counts from the byte after it. */
  function JumpIf(s: State, cond: bool): State {
    var d := s.mem[s.pc];
    if cond then s.(pc := (s.pc as int + (if d < 128 then d as int else d as int - 256) + 1) % 0x10000, wait := 12)
    else s.(pc := Inc16(s.pc), wait := 8)
  }

  // Interrupts.

  predicate Pending(s: State, i: nat) { Bit(s.mem[IE_ADDR], i) && Bit(s.mem[IF_ADDR], i) }

  /** The first of bits `i`..7 that is requested and enabled; 8 if there is none. */
  function FirstPending(s: State, i: nat): (k: nat)
    requires i <= 8
    ensures i <= k <= 8
    ensures k < 8 ==> Pending(s, k)
    ensures forall j :: i <= j < k ==> !Pending(s, j)
    decreases 8 - i
  {
    if i == 8 || Pending(s, i) then i else FirstPending(s, i + 1)
  }

  /** Interrupt entry. Bits 5-7 push PC but have no vector. */
  function HandleInterrupts(s: State): State {
    var k := FirstPending(s, 0);
    if !s.ime || k == 8 then s
    else
      var s := PushWord(s.(ime := false), s.pc).(wait := 16);
      if k >= 5 then s
      else Store(s, IF_ADDR, SetBit8(s.mem[IF_ADDR], false, k)).(pc := 0x40 + 8 * k)
  }

  // Fetch, decode, execute.

  function Fetch(s: State): State { s.(pc := Inc16(s.pc)) }

  /** The modelled part of the opcode table; `s` is the state after the fetch. */
  function Execute(s: State, op: u8): Option<State> {
    if op == 0x00 then Some(s.(wait := 4))
    else if op == 0x05 then Some(DecB(s))
    else if op == 0x12 then Some(Store(s, Get16(s, DE), s.a).(wait := 8))
    else if op == 0x13 then Some(Set16(s, DE, Inc16(Get16(s, DE))).(wait := 8))
    else if op == 0x1A then Some(s.(a := At(s, DE), wait := 8))
    else if op == 0x20 then Some(JumpIf(s, !s.f.z))
    else if op == 0x23 then Some(Set16(s, HL, Inc16(Get16(s, HL))).(wait := 8))
    else if op == 0x27 then Some(Daa(s).(wait := 4))
    else if op == 0x2B then Some(Set16(s, HL, Dec16(Get16(s, HL))).(wait := 8))
    else if op == 0x86 then Some(Adc(s, At(s, HL), false).(wait := 8))
    else if op == 0x8E then Some(Adc(s, At(s, HL), s.f.c).(wait := 8))
    else if op == 0x96 then Some(Sbc(s, At(s, HL), false).(wait := 8))
    else if op == 0x9E then Some(Sbc(s, At(s, HL), s.f.c).(wait := 8))
    else if op == 0xC1 then Some(Pop(s, BC).(wait := 12))
    else if op == 0xD1 then Some(Pop(s, DE).(wait := 12))
    else if op == 0xE1 then Some(Pop(s, HL).(wait := 12))
    else if op == 0xF1 then Some(Pop(s, AF).(wait := 12))
    else if op == 0xC5 then Some(PushWord(s, Get16(s, BC)).(wait := 16))
    else if op == 0xD5 then Some(PushWord(s, Get16(s, DE)).(wait := 16))
    else if op == 0xE5 then Some(PushWord(s, Get16(s, HL)).(wait := 16))
    else if op == 0xF5 then Some(PushWord(s, Get16(s, AF)).(wait := 16))
    else if op == 0xC9 then Some(Return(s).(wait := 16))
    else if op == 0xCD then Some(Call(s).(wait := 24))
    else if op == 0xD9 then Some(Return(s).(ime := true, wait := 16))
    else if op == 0xF3 then Some(s.(ime := false, wait := 4))
    else if op == 0xFB then Some(s.(ime := true, wait := 4))
    else if op % 8 == 7 && op >= 0xC7 then Some(Restart(s, op - 0xC7).(wait := 16))
    else if op == 0xCB then ExecuteShift(Fetch(s), s.mem[s.pc])
    else None
  }

  function ExecuteShift(s: State, op: u8): Option<State> {
    if op == 0x16 then Some(ShiftAt(s, RL, HL).(wait := 16))
    else if op == 0x1E then Some(ShiftAt(s, RR, HL).(wait := 16))
    else if op == 0x26 then Some(ShiftAt(s, SLA, HL).(wait := 16))
    else if op == 0x2E then Some(ShiftAt(s, SRA, HL).(wait := 16))
    else if op == 0x3E then Some(ShiftAt(s, SRL, HL).(wait := 16))
    else None
  }

  /** One machine cycle of the main loop: interrupts, fetch, execute. */
  function Cycle(s: State): Option<State> {
    var t := HandleInterrupts(s.(wait := 0));
    Execute(Fetch(t), t.mem[t.pc])
  }

  function RunFor(s: State, n: nat): Option<State>
    decreases n
  {
    if n == 0 then Some(s)
    else
      var t := Cycle(s);
      if t.Some? then RunFor(t.value, n - 1) else None
  }

  /** Every modelled instruction asks for 4 to 24 clock cycles, interrupt entry included. */
  lemma {:induction false} CycleCost(s: State)
    requires Cycle(s).Some?
    ensures 4 <= Cycle(s).value.wait <= 24
  {
    hide HandleInterrupts, Get16, Set16, Hi, Lo, Word, AdcAcc, SbcAcc, DaaAcc, ShiftByte, PushWord, TopWord, Operand;
  }

  /** An instruction sets its own wait, whatever was asked for before it. */
  lemma {:induction false} ExecuteSetsWait(s: State, op: u8, w: nat)
    ensures Execute(s.(wait := w), op) == Execute(s, op)
  {
    hide Execute;
    if op == 0xCB {
      PrefixSetsWait(s, w);
    } else if op < 0xC0 {
      LowerHalfSetsWait(s, op, w);
    } else {
      UpperHalfSetsWait(s, op, w);
    }
  }

  lemma PrefixSetsWait(s: State, w: nat)
    ensures Execute(s.(wait := w), 0xCB) == Execute(s, 0xCB)
  {
    hide Hi, Lo, Word, ShiftByte, Inc16;
  }

  lemma LowerHalfSetsWait(s: State, op: u8, w: nat)
    requires op < 0xC0
    ensures Execute(s.(wait := w), op) == Execute(s, op)
  {
    hide Hi, Lo, Word, AdcAcc, SbcAcc, DaaAcc, FByte, FlagsOf, Inc16, Dec16, Dec8;
  }

  lemma UpperHalfSetsWait(s: State, op: u8, w: nat)
    requires 0xC0 <= op != 0xCB
    ensures Execute(s.(wait := w), op) == Execute(s, op)
  {
    hide Hi, Lo, Word, FByte, FlagsOf, Inc16, Dec16;
  }

  /** The wait of a cycle is the executed instruction's own: what an interrupt entry in front of it
      asked for has no effect. */
  lemma {:induction false} EntryWaitIsLost(s: State, w: nat)
    ensures var t := HandleInterrupts(s.(wait := 0)); Cycle(s) == Execute(Fetch(t).(wait := w), t.mem[t.pc])
  {
    hide HandleInterrupts, Execute;
    var t := HandleInterrupts(s.(wait := 0));
    ExecuteSetsWait(Fetch(t), t.mem[t.pc], w);
  }

  /** The registers as they are allocated. */
  function PowerOn(mem: Memory): State {
    State(0, Flags(false, false, false, false, 0), 0, 0, 0, 0, 0, 0, 0, 0, mem, false, 0)
  }
}
