/** The chains as machine code: a nine-byte loop in memory, run by the modelled main loop, adds
    or subtracts numbers of up to 256 bytes in place. */
module CpuProgram {
  import opened Wrappers
  import opened Bits
  import opened CpuState
  import opened CpuChains

  /** LD A,(DE); ADC or SBC A,(HL); DAA or NOP; LD (DE),A; INC HL; INC DE; DEC B; JR NZ,loop. */
  function Code(op: Op): seq<u8> {
    [0x1A, if op.subtract then 0x9E else 0x8E, if op.decimal then 0x27 else 0x00, 0x12, 0x23, 0x13, 0x05, 0x20, 0xF7]
  }

  const CODE_LENGTH := 9
  const CYCLES_PER_BYTE := 8

  ghost predicate HasCode(m: Memory, p: nat, op: Op) {
    p + CODE_LENGTH <= |m| && m[p..p + CODE_LENGTH] == Code(op)
  }

  /** Bytes still to do, from the counter register. */
  function Remaining(b: u8): nat { if b == 0 then 256 else b }

  /** At the head of the loop, with both numbers inside memory, the destination clear of the
      code, and no source byte overwritten before it is read. */
  ghost predicate Ready(s: State, p: nat, op: Op) {
    var n, de, hl := Remaining(s.b), Get16(s, DE), Get16(s, HL);
    && !s.ime && s.pc == p && HasCode(s.mem, p, op) && p + CODE_LENGTH <= 0xFFFF
    && de + n <= 0x10000 && hl + n <= 0x10000
    && (de + n <= p || p + CODE_LENGTH <= de)
    && (de <= hl || hl + n <= de)
  }

  lemma {:induction false} CycleWithoutInterrupts(s: State)
    requires !s.ime
    ensures Cycle(s) == Execute(Fetch(s.(wait := 0)), s.mem[s.pc])
  {
  }

  lemma CodeByte(m: Memory, p: nat, op: Op, i: nat)
    requires HasCode(m, p, op) && i < CODE_LENGTH
    ensures m[p + i] == Code(op)[i]
  {
    assert m[p..p + CODE_LENGTH][i] == m[p + i];
  }

  /** Clock cycles that `n` rounds of the main loop wait. */
  function Time(s: State, n: nat): nat
    decreases n
  {
    if n == 0 || Cycle(s).None? then 0 else Cycle(s).value.wait + Time(Cycle(s).value, n - 1)
  }

  lemma {:induction false} TimeSplit(s: State, m: nat, n: nat)
    requires RunFor(s, m).Some?
    ensures Time(s, m + n) == Time(s, m) + Time(RunFor(s, m).value, n)
    decreases m
  {
    hide Cycle;
    if m > 0 {
      TimeSplit(Cycle(s).value, m - 1, n);
    }
  }

  lemma {:induction false} RunForSplit(s: State, m: nat, n: nat)
    requires RunFor(s, m).Some?
    ensures RunFor(s, m + n) == RunFor(RunFor(s, m).value, n)
    decreases m
  {
    hide Cycle;
    if m > 0 {
      RunForSplit(Cycle(s).value, m - 1, n);
    }
  }

  // One instruction each, from the state before its fetch.

  ghost predicate NextIs(s: State, op: u8) { !s.ime && s.mem[s.pc] == op }

  lemma StepLoad(s: State)
    requires NextIs(s, 0x1A)
    ensures Cycle(s) == Some(s.(a := At(s, DE), pc := Inc16(s.pc), wait := 8))
  {
    CycleWithoutInterrupts(s);
  }

  lemma StepArithmetic(s: State, subtract: bool)
    requires NextIs(s, if subtract then 0x9E else 0x8E)
    ensures var r := StepAcc(Op(subtract, false), s.a, At(s, HL), s.f.c);
      Cycle(s) == Some(WithAcc(s, r).(pc := Inc16(s.pc), wait := 8))
  {
    CycleWithoutInterrupts(s);
  }

  lemma StepAdjust(s: State, decimal: bool)
    requires NextIs(s, if decimal then 0x27 else 0x00)
    ensures Cycle(s) == Some((if decimal then Daa(s) else s).(pc := Inc16(s.pc), wait := 4))
  {
    CycleWithoutInterrupts(s);
  }

  lemma StepStore(s: State)
    requires NextIs(s, 0x12)
    ensures Cycle(s) == Some(s.(mem := s.mem[Get16(s, DE) := s.a], pc := Inc16(s.pc), wait := 8))
  {
    CycleWithoutInterrupts(s);
  }

  lemma StepIncHl(s: State)
    requires NextIs(s, 0x23)
    ensures Cycle(s) == Some(Set16(s, HL, Inc16(Get16(s, HL))).(pc := Inc16(s.pc), wait := 8))
  {
    CycleWithoutInterrupts(s);
  }

  lemma StepIncDe(s: State)
    requires NextIs(s, 0x13)
    ensures Cycle(s) == Some(Set16(s, DE, Inc16(Get16(s, DE))).(pc := Inc16(s.pc), wait := 8))
  {
    CycleWithoutInterrupts(s);
  }

  lemma StepDecB(s: State)
    requires NextIs(s, 0x05)
    ensures Cycle(s) == Some(DecB(s).(pc := Inc16(s.pc)))
  {
    CycleWithoutInterrupts(s);
  }

  /** The jump back: displacement 0xF7 is -9 from the byte after it. */
  lemma StepLoopJump(s: State)
    requires NextIs(s, 0x20) && s.pc >= 7 && s.pc + 1 < 0x10000 && s.mem[s.pc + 1] == 0xF7
    ensures Cycle(s) == Some(if s.f.z then s.(pc := Inc16(Inc16(s.pc)), wait := 8) else s.(pc := s.pc - 7, wait := 12))
  {
    CycleWithoutInterrupts(s);
  }

  lemma GetAfterSet(s: State, r: Reg16, v: u16)
    ensures r != AF ==> Get16(Set16(s, r, v), r) == v
  {
  }

  lemma RunForTwo(s: State, s1: State, t: State)
    requires Cycle(s) == Some(s1) && Cycle(s1) == Some(t)
    ensures RunFor(s, 2) == Some(t) && Time(s, 2) == s1.wait + t.wait
  {
    hide Cycle;
    assert RunFor(s1, 1) == Some(t) && Time(s1, 1) == t.wait;
  }

  /** What ADC or SBC leaves, before any adjustment. */
  function Plain(op: Op, x: u8, y: u8, c: bool): Acc { StepAcc(Op(op.subtract, false), x, y, c) }

  /** Load and combine. */
  lemma {:induction false} LoadAndCombine(s: State, p: nat, op: Op) returns (t: State)
    requires !s.ime && s.pc == p && HasCode(s.mem, p, op) && p + CODE_LENGTH <= 0xFFFF
    ensures RunFor(s, 2) == Some(t) && Time(s, 2) == 16
    ensures var r := Plain(op, At(s, DE), At(s, HL), s.f.c);
      t.mem == s.mem && t.a == r.a && t.f.n == r.n && t.f.h == r.h && t.f.c == r.c && t.pc == p + 2
    ensures !t.ime && t.b == s.b && Get16(t, DE) == Get16(s, DE) && Get16(t, HL) == Get16(s, HL)
  {
    hide Cycle, RunFor, Time, AdcAcc, SbcAcc, Word;
    CodeByte(s.mem, p, op, 0);
    CodeByte(s.mem, p, op, 1);
    StepLoad(s);
    var s1 := Cycle(s).value;
    StepArithmetic(s1, op.subtract);
    t := Cycle(s1).value;
    RunForTwo(s, s1, t);
  }

  /** Adjust and store. */
  lemma {:induction false} AdjustAndStore(s: State, p: nat, op: Op, r: Acc) returns (t: State)
    requires !s.ime && s.pc == p + 2 && HasCode(s.mem, p, op) && p + CODE_LENGTH <= 0xFFFF
    requires r == if op.decimal then DaaAcc(Acc(s.a, s.f.n, s.f.h, s.f.c)) else Acc(s.a, s.f.n, s.f.h, s.f.c)
    ensures RunFor(s, 2) == Some(t) && Time(s, 2) == 12
    ensures t.mem == s.mem[Get16(s, DE) := r.a] && t.f.c == r.c && t.pc == p + 4
    ensures !t.ime && t.b == s.b && Get16(t, DE) == Get16(s, DE) && Get16(t, HL) == Get16(s, HL)
  {
    hide Cycle, RunFor, Time, DaaAcc, Word;
    CodeByte(s.mem, p, op, 2);
    CodeByte(s.mem, p, op, 3);
    StepAdjust(s, op.decimal);
    var s1 := Cycle(s).value;
    StepStore(s1);
    t := Cycle(s1).value;
    RunForTwo(s, s1, t);
  }

  /** Load, combine, adjust, store: the first half of a round. */
  lemma {:induction false} FirstHalf(s: State, p: nat, op: Op) returns (t: State)
    requires !s.ime && s.pc == p && HasCode(s.mem, p, op) && p + CODE_LENGTH <= 0xFFFF
    ensures RunFor(s, 4) == Some(t) && Time(s, 4) == 28
    ensures var r := StepAcc(op, At(s, DE), At(s, HL), s.f.c);
      && t.mem == s.mem[Get16(s, DE) := r.a] && t.f.c == r.c && t.pc == p + 4
      && !t.ime && t.b == s.b && Get16(t, DE) == Get16(s, DE) && Get16(t, HL) == Get16(s, HL)
  {
    hide RunFor, Time, AdcAcc, SbcAcc, DaaAcc, Get16, HasCode;
    var u := LoadAndCombine(s, p, op);
    t := AdjustAndStore(u, p, op, StepAcc(op, At(s, DE), At(s, HL), s.f.c));
    RunForSplit(s, 2, 2);
    TimeSplit(s, 2, 2);
  }

  /** Advance both pointers. */
  lemma {:induction false} AdvancePointers(s: State, p: nat, op: Op) returns (t: State)
    requires !s.ime && s.pc == p + 4 && HasCode(s.mem, p, op) && p + CODE_LENGTH <= 0xFFFF
    ensures RunFor(s, 2) == Some(t) && Time(s, 2) == 16
    ensures t.mem == s.mem && t.f == s.f && !t.ime && t.b == s.b && t.pc == p + 6
    ensures Get16(t, DE) == Inc16(Get16(s, DE)) && Get16(t, HL) == Inc16(Get16(s, HL))
  {
    hide Cycle, RunFor, Time, Hi, Lo, Word;
    CodeByte(s.mem, p, op, 4);
    CodeByte(s.mem, p, op, 5);
    StepIncHl(s);
    GetAfterSet(s, HL, Inc16(Get16(s, HL)));
    var s1 := Cycle(s).value;
    StepIncDe(s1);
    GetAfterSet(s1, DE, Inc16(Get16(s1, DE)));
    t := Cycle(s1).value;
    RunForTwo(s, s1, t);
  }

  /** Count down, then jump back or fall out. */
  lemma {:induction false} CountDown(s: State, p: nat, op: Op) returns (t: State)
    requires !s.ime && s.pc == p + 6 && HasCode(s.mem, p, op) && p + CODE_LENGTH <= 0xFFFF
    ensures RunFor(s, 2) == Some(t) && Time(s, 2) == if t.b == 0 then 12 else 16
    ensures t.mem == s.mem && t.f.c == s.f.c && !t.ime && t.b == Dec8(s.b)
    ensures Get16(t, DE) == Get16(s, DE) && Get16(t, HL) == Get16(s, HL)
    ensures t.pc == if t.b == 0 then p + CODE_LENGTH else p
  {
    hide Cycle, RunFor, Time, Word;
    CodeByte(s.mem, p, op, 6);
    CodeByte(s.mem, p, op, 7);
    CodeByte(s.mem, p, op, 8);
    StepDecB(s);
    var s1 := Cycle(s).value;
    StepLoopJump(s1);
    t := Cycle(s1).value;
    RunForTwo(s, s1, t);
  }

  /** Advance both pointers, count down, jump back or fall out: the second half. */
  lemma {:induction false} SecondHalf(s: State, p: nat, op: Op) returns (t: State)
    requires !s.ime && s.pc == p + 4 && HasCode(s.mem, p, op) && p + CODE_LENGTH <= 0xFFFF
    ensures RunFor(s, 4) == Some(t) && Time(s, 4) == if t.b == 0 then 28 else 32
    ensures t.mem == s.mem && t.f.c == s.f.c && !t.ime && t.b == Dec8(s.b)
    ensures Get16(t, DE) == Inc16(Get16(s, DE)) && Get16(t, HL) == Inc16(Get16(s, HL))
    ensures t.pc == if t.b == 0 then p + CODE_LENGTH else p
  {
    hide RunFor, Time, Get16;
    var u := AdvancePointers(s, p, op);
    t := CountDown(u, p, op);
    RunForSplit(s, 2, 2);
    TimeSplit(s, 2, 2);
  }

  lemma CodeKept(m: Memory, p: nat, op: Op, at: u16, v: u8)
    requires HasCode(m, p, op) && (at < p || p + CODE_LENGTH <= at)
    ensures HasCode(m[at := v], p, op)
  {
    assert m[at := v][p..p + CODE_LENGTH] == m[p..p + CODE_LENGTH];
  }

  /** One round of the loop consumes one byte of each number. */
  lemma {:induction false} Round(s: State, p: nat, op: Op) returns (t: State)
    requires Ready(s, p, op)
    ensures RunFor(s, CYCLES_PER_BYTE) == Some(t) && Time(s, CYCLES_PER_BYTE) == if t.b == 0 then 56 else 60
    ensures var r := StepAcc(op, At(s, DE), At(s, HL), s.f.c);
      t.mem == s.mem[Get16(s, DE) := r.a] && t.f.c == r.c
    ensures !t.ime && t.b == Dec8(s.b) && HasCode(t.mem, p, op)
    ensures Get16(t, DE) == Inc16(Get16(s, DE)) && Get16(t, HL) == Inc16(Get16(s, HL))
    ensures t.pc == if t.b == 0 then p + CODE_LENGTH else p
  {
    hide RunFor, Time, StepAcc, Get16;
    var u := FirstHalf(s, p, op);
    CodeKept(s.mem, p, op, Get16(s, DE), StepAcc(op, At(s, DE), At(s, HL), s.f.c).a);
    t := SecondHalf(u, p, op);
    RunForSplit(s, 4, 4);
    TimeSplit(s, 4, 4);
  }

  lemma SliceKept(m: Memory, at: u16, v: u8, lo: nat, hi: nat)
    requires lo <= hi <= |m| && (at < lo || hi <= at)
    ensures m[at := v][lo..hi] == m[lo..hi]
  {
  }

  /** The next round finds the tails of both numbers, and the code, where it needs them. */
  lemma {:induction false} NextRound(s: State, u: State, p: nat, op: Op, n: nat, v: u8)
    requires Ready(s, p, op) && n == Remaining(s.b) && n > 1
    requires u.mem == s.mem[Get16(s, DE) := v] && !u.ime && u.b == Dec8(s.b) && HasCode(u.mem, p, op)
    requires Get16(u, DE) == Inc16(Get16(s, DE)) && Get16(u, HL) == Inc16(Get16(s, HL))
    requires u.pc == if u.b == 0 then p + CODE_LENGTH else p
    ensures Ready(u, p, op) && Remaining(u.b) == n - 1
    ensures var de, hl := Get16(s, DE), Get16(s, HL);
      && Get16(u, DE) == de + 1 && Get16(u, HL) == hl + 1
      && u.mem[de + 1..de + n] == s.mem[de..de + n][1..] && u.mem[hl + 1..hl + n] == s.mem[hl..hl + n][1..]
  {
    hide Get16, HasCode;
    var de, hl := Get16(s, DE), Get16(s, HL);
    SliceKept(s.mem, de, v, de + 1, de + n);
    SliceKept(s.mem, de, v, hl + 1, hl + n);
  }

  /** Memory after a round and the rest of the loop. */
  lemma GlueResult(m: Memory, de: nat, n: nat, b: u8, rest: seq<u8>)
    requires n > 0 && de + n <= |m| && |rest| == n - 1
    ensures m[de := b][..de + 1] + rest + m[de := b][de + n..] == m[..de] + ([b] + rest) + m[de + n..]
  {
  }

  /** What the loop must leave behind. */
  ghost predicate LoopResult(s: State, t: State, p: nat, op: Op, n: nat)
    requires Ready(s, p, op) && n == Remaining(s.b)
  {
    var de, hl := Get16(s, DE), Get16(s, HL);
    var (out, carry) := Chain(op, s.mem[de..de + n], s.mem[hl..hl + n], s.f.c);
    t.pc == p + CODE_LENGTH && t.f.c == carry && t.mem == s.mem[..de] + out + s.mem[de + n..]
  }

  lemma {:induction false} LastRound(s: State, t: State, p: nat, op: Op)
    requires Ready(s, p, op) && Remaining(s.b) == 1
    requires var r := StepAcc(op, At(s, DE), At(s, HL), s.f.c);
      t.mem == s.mem[Get16(s, DE) := r.a] && t.f.c == r.c && t.pc == p + CODE_LENGTH
    ensures LoopResult(s, t, p, op, 1)
  {
    hide StepAcc, Get16, HasCode;
    var de, hl := Get16(s, DE), Get16(s, HL);
    var xs, ys := s.mem[de..de + 1], s.mem[hl..hl + 1];
    assert xs[1..] == [] && ys[1..] == [];
    var r := StepAcc(op, xs[0], ys[0], s.f.c);
    assert Chain(op, xs, ys, s.f.c) == ([r.a] + [], r.c);
    assert t.mem == s.mem[..de] + ([r.a] + []) + s.mem[de + 1..];
  }

  lemma {:induction false} RoundThenRest(s: State, u: State, t: State, p: nat, op: Op, n: nat)
    requires Ready(s, p, op) && n == Remaining(s.b) && n > 1
    requires Ready(u, p, op) && n - 1 == Remaining(u.b) && LoopResult(u, t, p, op, n - 1)
    requires var r := StepAcc(op, At(s, DE), At(s, HL), s.f.c);
      u.mem == s.mem[Get16(s, DE) := r.a] && u.f.c == r.c
    requires var de, hl := Get16(s, DE), Get16(s, HL);
      && Get16(u, DE) == de + 1 && Get16(u, HL) == hl + 1
      && u.mem[de + 1..de + n] == s.mem[de..de + n][1..] && u.mem[hl + 1..hl + n] == s.mem[hl..hl + n][1..]
    ensures LoopResult(s, t, p, op, n)
  {
    hide StepAcc, Get16, HasCode;
    var de, hl := Get16(s, DE), Get16(s, HL);
    var xs, ys := s.mem[de..de + n], s.mem[hl..hl + n];
    var r := StepAcc(op, xs[0], ys[0], s.f.c);
    GlueResult(s.mem, de, n, r.a, Chain(op, xs[1..], ys[1..], r.c).0);
  }

  /** The whole loop: the destination holds the chain's bytes, C its carry, PC stands behind the
      loop, and no other memory has changed. */
  lemma {:induction false} LoopRunsChain(s: State, p: nat, op: Op, n: nat) returns (t: State)
    requires Ready(s, p, op) && n == Remaining(s.b)
    ensures RunFor(s, CYCLES_PER_BYTE * n) == Some(t) && LoopResult(s, t, p, op, n)
    ensures Time(s, CYCLES_PER_BYTE * n) == 60 * n - 4
    decreases n
  {
    hide RunFor, Time, StepAcc, Get16, HasCode, LoopResult, Ready;
    t := Round(s, p, op);
    if n == 1 {
      LastRound(s, t, p, op);
    } else {
      var u := t;
      NextRound(s, u, p, op, n, StepAcc(op, At(s, DE), At(s, HL), s.f.c).a);
      t := LoopRunsChain(u, p, op, n - 1);
      RunForSplit(s, CYCLES_PER_BYTE, CYCLES_PER_BYTE * (n - 1));
      TimeSplit(s, CYCLES_PER_BYTE, CYCLES_PER_BYTE * (n - 1));
      assert CYCLES_PER_BYTE * n == CYCLES_PER_BYTE + CYCLES_PER_BYTE * (n - 1);
      RoundThenRest(s, u, t, p, op, n);
    }
  }

  /** Running the program computes the number in place: modulo 100^n for decimal numbers, modulo
      256^n for binary ones, with C telling whether the result left that range. It takes 60 clock cycles
      a byte, less 4 for the jump not taken. */
  lemma {:induction false} ProgramComputes(s: State, p: nat, op: Op) returns (t: State)
    requires Ready(s, p, op)
    requires var n, de, hl := Remaining(s.b), Get16(s, DE), Get16(s, HL);
      IsNumber(op.decimal, s.mem[de..de + n]) && IsNumber(op.decimal, s.mem[hl..hl + n])
    ensures var n, de, hl := Remaining(s.b), Get16(s, DE), Get16(s, HL);
      var m := Power(Base(op.decimal), n);
      var x, y := Value(op.decimal, s.mem[de..de + n]), Value(op.decimal, s.mem[hl..hl + n]);
      var result := x + Sign(op) * (y + B2N(s.f.c));
      && RunFor(s, CYCLES_PER_BYTE * n) == Some(t) && t.pc == p + CODE_LENGTH && m > 0
      && Time(s, CYCLES_PER_BYTE * n) == 60 * n - 4
      && IsNumber(op.decimal, t.mem[de..de + n])
      && Value(op.decimal, t.mem[de..de + n]) == result % m
      && t.f.c == (if op.subtract then result < 0 else result >= m)
      && t.mem[..de] == s.mem[..de] && t.mem[de + n..] == s.mem[de + n..]
  {
    hide RunFor, Time, Get16, HasCode, Value, Power, Chain, IsNumber, Base;
    var n, de, hl := Remaining(s.b), Get16(s, DE), Get16(s, HL);
    var xs, ys := s.mem[de..de + n], s.mem[hl..hl + n];
    ChainIsModular(op, xs, ys, s.f.c);
    t := LoopRunsChain(s, p, op, n);
    assert t.mem[de..de + n] == Chain(op, xs, ys, s.f.c).0;
  }
}
