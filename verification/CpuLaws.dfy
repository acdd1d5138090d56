/** What single opcodes change and leave alone, stated of the opcode bytes themselves: registers,
    flags, the interrupt switch, and laws between opcodes. */
module CpuLaws {
  import opened Wrappers
  import opened Bits
  import opened CpuState
  import opened CpuStack

  /** B C, D E, H L and A F, as pairs of fields. */
  predicate SamePair(s: State, t: State, k: nat) {
    match k
    case 0 => s.b == t.b && s.c == t.c
    case 1 => s.d == t.d && s.e == t.e
    case 2 => s.h == t.h && s.l == t.l
    case _ => s.a == t.a && s.f == t.f
  }

  ghost predicate SameExcept(s: State, t: State, k: nat) {
    forall j: nat :: j < 4 && j != k ==> SamePair(s, t, j)
  }

  /** Opcodes of PUSH and POP for the four pairs. */
  function PushCode(k: nat): u8 requires k < 4 { 0xC5 + 16 * k }
  function PopCode(k: nat): u8 requires k < 4 { 0xC1 + 16 * k }

  /** The bytes of a pair as one word, high byte first. */
  function PairWord(s: State, k: nat): int {
    match k
    case 0 => s.b as int * 0x100 + s.c
    case 1 => s.d as int * 0x100 + s.e
    case 2 => s.h as int * 0x100 + s.l
    case _ => s.a as int * 0x100 + FByte(s.f)
  }

  lemma {:induction false} PushEffect(s: State, k: nat)
    requires k < 4
    ensures Pushed(s, Instr(PushCode(k))) == PairWord(s, k)
    ensures var t := Step(s, Instr(PushCode(k)));
      t.ime == s.ime && forall j: nat :: j < 4 ==> SamePair(s, t, j)
  {
  }

  /** POP loads its own pair with the top word and changes no other register, memory or the
      interrupt switch; POP AF keeps the low nibble of F. */
  lemma {:induction false} PopEffect(s: State, k: nat)
    requires k < 4
    ensures var t := Step(s, Instr(PopCode(k)));
      && SameExcept(s, t, k) && t.mem == s.mem && t.ime == s.ime
      && (k < 3 ==> PairWord(t, k) == TopWord(s))
      && (k == 3 ==> t.a as int == TopWord(s) / 0x100 && t.f.low == s.f.low && SameFlags(t.f, TopWord(s) % 0x100))
  {
    hide FByte, FlagsOf;
    HalvesOf(TopWord(s));
  }

  /** The four flags are the upper digits of the byte. */
  predicate SameFlags(f: Flags, b: int) {
    0 <= b < 0x100 && f.z == FlagsOf(b).z && f.n == FlagsOf(b).n && f.h == FlagsOf(b).h && f.c == FlagsOf(b).c
  }

  lemma HalvesOf(w: u16)
    ensures Hi(w) as int * 0x100 + Lo(w) == w
  {
  }

  /** PUSH of a pair, any well-nested code that keeps the other registers, POP of that pair: every
      register and flag is as before. */
  lemma {:induction false} PushPopPair(s: State, k: nat, body: Nest, bottom: u16, stack: seq<u16>)
    requires k < 4 && Represents(s, bottom, stack)
    requires EnabledNest(s, Frame(Instr(PushCode(k)), body, Instr(PopCode(k)), Done), |stack|)
    requires var u := Exec(Step(s, Instr(PushCode(k))), body); SameExcept(s, u, k) && u.f.low == s.f.low
    ensures var t := Exec(s, Frame(Instr(PushCode(k)), body, Instr(PopCode(k)), Done));
      t.sp == s.sp && forall j: nat :: j < 4 ==> SamePair(s, t, j)
  {
    hide Represents, EnabledNest, Step, Lands, PairWord, SamePair;
    var pushed := Step(s, Instr(PushCode(k)));
    var u := Exec(pushed, body);
    var t := Step(u, Instr(PopCode(k)));
    TopAfterBody(s, k, body, bottom, stack);
    WellNested(s, Frame(Instr(PushCode(k)), body, Instr(PopCode(k)), Done), bottom, stack);
    PopEffect(u, k);
    LoadedBack(s, t, u, k);
    forall j: nat | j < 4 ensures SamePair(s, t, j) {
      if j != k {
        SameTwice(s, u, t, j);
      }
    }
  }

  lemma SameTwice(s: State, u: State, t: State, j: nat)
    requires SamePair(s, u, j) && SamePair(u, t, j)
    ensures SamePair(s, t, j)
  {
  }

  lemma {:induction false} TopAfterBody(s: State, k: nat, body: Nest, bottom: u16, stack: seq<u16>)
    requires k < 4 && Represents(s, bottom, stack)
    requires EnabledNest(s, Frame(Instr(PushCode(k)), body, Instr(PopCode(k)), Done), |stack|)
    ensures TopWord(Exec(Step(s, Instr(PushCode(k))), body)) == PairWord(s, k)
  {
    hide Represents, Step, Lands, PairWord, TopWord;
    var e := Instr(PushCode(k));
    PushEffect(s, k);
    EnterStep(s, e, bottom, stack);
    WellNested(Step(s, e), body, bottom, [Pushed(s, e)] + stack);
    DropIsTail(Exec(Step(s, e), body), bottom, [Pushed(s, e)] + stack);
  }

  lemma {:induction false} LoadedBack(s: State, t: State, u: State, k: nat)
    requires k < 4 && u.f.low == s.f.low && TopWord(u) == PairWord(s, k)
    requires k < 3 ==> PairWord(t, k) == TopWord(u)
    requires k == 3 ==> t.a as int == TopWord(u) / 0x100 && t.f.low == u.f.low && SameFlags(t.f, TopWord(u) % 0x100)
    ensures SamePair(s, t, k)
  {
    FByteRoundTrip(s.f);
    hide TopWord, FByte, FlagsOf;
    assert PairWord(s, k) / 0x100 == if k == 0 then s.b else if k == 1 then s.d else if k == 2 then s.h else s.a;
    if k < 3 {
      assert PairWord(t, k) / 0x100 == if k == 0 then t.b else if k == 1 then t.d else t.h;
    }
  }

  // The interrupt switch.

  /** RETI and EI switch interrupts on, DI switches them off, RET and every other opcode leave them. */
  lemma {:induction false} InterruptSwitch(s: State, op: u8)
    requires Execute(s, op).Some?
    ensures Execute(s, op).value.ime == if op == 0xD9 || op == 0xFB then true else if op == 0xF3 then false else s.ime
  {
    hide Get16, Hi, Lo, Word, Inc16, Dec16, AdcAcc, SbcAcc, DaaAcc, ShiftByte, TopWord, Operand, FByte, FlagsOf;
  }

  // Jumps.

  /** CALL goes to the word behind it, low byte first; RST to eight times its middle digit. */
  lemma {:induction false} CallTargets(s: State, op: u8)
    ensures Execute(s, 0xCD).value.pc == s.mem[s.pc] as int + 0x100 * s.mem[Inc16(s.pc)] as int
    ensures IsRst(op) ==> Execute(s, op).Some? && Execute(s, op).value.pc == op / 8 % 8 * 8
  {
    if IsRst(op) {
      var q := op / 8;
      assert op == 8 * q + 7 && q % 8 == q - 24;
    }
  }

  /** JR NZ with a displacement below 128 jumps forward from the byte behind it, and not at all with Z. */
  lemma {:induction false} JumpsForward(s: State)
    requires s.mem[s.pc] < 128 && s.pc as int + 1 + s.mem[s.pc] as int < 0x10000
    ensures Execute(s, 0x20).value.pc == if s.f.z then s.pc as int + 1 else s.pc as int + 1 + s.mem[s.pc] as int
  {
  }

  // Laws between opcodes.

  function WithCarry(s: State, c: bool): State { s.(f := s.f.(c := c)) }

  /** ADD and SUB are ADC and SBC without a carry in. */
  lemma {:induction false} AddIsAdcWithoutCarry(s: State)
    ensures Execute(s, 0x86) == Execute(WithCarry(s, false), 0x8E)
    ensures Execute(s, 0x96) == Execute(WithCarry(s, false), 0x9E)
  {
    hide AdcAcc, SbcAcc, Word;
  }

  /** Subtracting what was added, with the same carry in, gives the accumulator back and the carry out
      as the borrow. */
  lemma {:induction false} SubUndoesAdd(a: u8, v: u8, c: bool)
    ensures SbcAcc(AdcAcc(a, v, c).a, v, c).a == a && SbcAcc(AdcAcc(a, v, c).a, v, c).c == AdcAcc(a, v, c).c
  {
    var t := a as int + v as int + B2N(c);
    var r := if t > 255 then t - 256 else t;
    assert t % 256 == r;
    var d := r - v as int - B2N(c);
    assert d % 256 == if d < 0 then d + 256 else d;
  }

  // Flags.

  predicate IsArithmetic(op: u8) { op == 0x86 || op == 0x8E || op == 0x96 || op == 0x9E || op == 0x27 }
  predicate IsShift(op: u8) { op == 0x16 || op == 0x1E || op == 0x26 || op == 0x2E || op == 0x3E }

  /** Z tells whether the result is zero; N is set by subtractions and cleared by additions, DAA
      keeps it and clears H. */
  lemma {:induction false} ArithmeticFlags(s: State, op: u8)
    requires IsArithmetic(op)
    ensures var t := Execute(s, op).value;
      && Execute(s, op).Some? && t.f.z == (t.a == 0)
      && t.f.n == (if op == 0x27 then s.f.n else op >= 0x96) && (op == 0x27 ==> !t.f.h)
  {
    hide Word;
  }

  /** A shift or rotate of a memory byte sets Z by the byte it leaves and clears N and H. */
  lemma {:induction false} ShiftFlags(s: State, op: u8)
    requires IsShift(op)
    ensures var t := ExecuteShift(s, op).value;
      && ExecuteShift(s, op).Some? && t.f.z == (t.mem[s.h as int * 0x100 + s.l] == 0) && !t.f.n && !t.f.h
  {
    hide ShiftByte;
  }

  /** DEC B sets Z by its result, H when it borrows from the upper nibble, N always. */
  lemma {:induction false} DecFlags(s: State)
    ensures var t := Execute(s, 0x05).value;
      && t.f.z == (s.b == 1) && t.f.h == (s.b % 16 == 0) && t.f.n && t.f.c == s.f.c
  {
    var b: int := s.b as int;
    assert (b - 1) % 256 == if b == 0 then 255 else b - 1;
    if b > 0 && b % 16 == 0 {
      assert b - 1 == 16 * (b / 16 - 1) + 15;
    }
  }

  /** The layout of F that PUSH AF shows: Z, N, H and C from the top bit down, then the low nibble. */
  lemma {:induction false} FlagLayout(s: State)
    ensures var t := Step(s, Instr(0xF5));
      t.mem[t.sp] == (if s.f.z then 0x80 else 0) + (if s.f.n then 0x40 else 0) + (if s.f.h then 0x20 else 0)
                     + (if s.f.c then 0x10 else 0) + s.f.low
  {
    PushAf(s);
    LowByteOfAf(s);
    hide Step, Hi, Lo, Word;
    assert Step(s, Instr(0xF5)).mem == PushWord(s, Get16(s, AF)).mem;
  }

  lemma LowByteOfAf(s: State)
    ensures Lo(Get16(s, AF)) == FByte(s.f)
  {
    hide FByte;
  }

  /** A call and its return take 40 clock cycles, a push and its pop 28. */
  lemma {:induction false} StackCosts(s: State, t: State, k: nat)
    requires k < 4
    ensures Execute(s, 0xCD).value.wait + Execute(t, 0xC9).value.wait == 40
    ensures Execute(t, 0xD9).value.wait == Execute(t, 0xC9).value.wait == 16
    ensures Execute(s, PushCode(k)).value.wait == 16 && Execute(t, PopCode(k)).value.wait == 12
  {
    hide Get16, Set16, Hi, Lo, Word, PushWord, TopWord, Operand;
  }

  /** A restart takes 16, a shift of a memory byte 16, arithmetic on one 8 and DAA 4. */
  lemma {:induction false} OtherCosts(s: State, op: u8)
    ensures IsRst(op) ==> Execute(s, op).Some? && Execute(s, op).value.wait == 16
    ensures IsShift(op) ==> ExecuteShift(s, op).Some? && ExecuteShift(s, op).value.wait == 16
    ensures IsArithmetic(op) ==> Execute(s, op).Some? && Execute(s, op).value.wait == if op == 0x27 then 4 else 8
  {
    hide Get16, Hi, Lo, Word, AdcAcc, SbcAcc, DaaAcc, ShiftByte, PushWord;
  }
}
