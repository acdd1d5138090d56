/** The shift and rotate sweeps as machine code: a six-byte loop in memory, run by the modelled main
    loop, rotates a number of up to 256 bytes in place; behind one shift it shifts the number. */
module CpuSweeps {
  import opened Wrappers
  import opened Bits
  import opened CpuState
  import opened CpuChains
  import Program = CpuProgram

  const LOOP_LENGTH := 6
  const CYCLES_PER_BYTE := 4

  function ShiftCode(k: Shift): u8 {
    match k case RL => 0x16 case RR => 0x1E case SLA => 0x26 case SRA => 0x2E case SRL => 0x3E
  }

  function Rotate(left: bool): Shift { if left then RL else RR }

  /** INC HL or DEC HL. */
  function MoveCode(left: bool): u8 { if left then 0x23 else 0x2B }

  function Next(left: bool, hl: u16): u16 { if left then Inc16(hl) else Dec16(hl) }

  /** Shift (HL); INC HL or DEC HL; DEC B. */
  function Head(k: Shift, left: bool): seq<u8> { [0xCB, ShiftCode(k), MoveCode(left), 0x05] }

  /** RL (HL); INC HL; DEC B; JR NZ,loop, or with RR and DEC HL. */
  function Loop(left: bool): seq<u8> { Head(Rotate(left), left) + [0x20, 0xFA] }

  ghost predicate CodeAt(m: Memory, p: nat, code: seq<u8>) {
    p + |code| <= 0xFFFF && m[p..p + |code|] == code
  }

  /** Where the number starts: a left sweep begins at its low byte, a right one at its high byte. */
  function Low(left: bool, hl: u16, n: nat): int { if left then hl as int else hl as int + 1 - n }

  /** Inside memory and clear of the `length` bytes of code at `p`. */
  predicate Clear(lo: int, n: nat, p: nat, length: nat) {
    0 <= lo && lo + n <= 0x10000 && (lo + n <= p || p + length <= lo)
  }

  ghost predicate Ready(s: State, p: nat, left: bool) {
    var n := Program.Remaining(s.b);
    !s.ime && s.pc == p && CodeAt(s.mem, p, Loop(left)) && Clear(Low(left, Get16(s, HL), n), n, p, LOOP_LENGTH)
  }

  lemma CodeByte(m: Memory, p: nat, code: seq<u8>, i: nat)
    requires CodeAt(m, p, code) && i < |code|
    ensures m[p + i] == code[i]
  {
    assert m[p..p + |code|][i] == m[p + i];
  }

  lemma CodePart(m: Memory, p: nat, a: seq<u8>, b: seq<u8>)
    requires CodeAt(m, p, a + b)
    ensures CodeAt(m, p, a) && CodeAt(m, p + |a|, b)
  {
    var c := a + b;
    assert m[p..p + |a|] == m[p..p + |c|][..|a|] == c[..|a|] == a;
    assert m[p + |a|..p + |c|] == m[p..p + |c|][|a|..] == c[|a|..] == b;
  }

  lemma CodeKept(m: Memory, p: nat, code: seq<u8>, at: u16, v: u8)
    requires CodeAt(m, p, code) && (at < p || p + |code| <= at)
    ensures CodeAt(m[at := v], p, code)
  {
    assert m[at := v][p..p + |code|] == m[p..p + |code|];
  }

  // One instruction each.

  lemma StepShift(s: State, k: Shift)
    requires Program.NextIs(s, 0xCB) && s.mem[Inc16(s.pc)] == ShiftCode(k)
    ensures Cycle(s) == Some(ShiftAt(s, k, HL).(pc := Inc16(Inc16(s.pc)), wait := 16))
  {
    hide ShiftByte, Word, Inc16;
    Program.CycleWithoutInterrupts(s);
  }

  lemma StepMove(s: State, left: bool)
    requires Program.NextIs(s, MoveCode(left))
    ensures Cycle(s) == Some(Set16(s, HL, Next(left, Get16(s, HL))).(pc := Inc16(s.pc), wait := 8))
  {
    Program.CycleWithoutInterrupts(s);
  }

  /** The jump back: displacement 0xFA is -6 from the byte after it. */
  lemma StepJump(s: State)
    requires Program.NextIs(s, 0x20) && s.pc >= 4 && s.pc + 1 < 0x10000 && s.mem[s.pc + 1] == 0xFA
    ensures Cycle(s) ==
      Some(if s.f.z then s.(pc := Inc16(Inc16(s.pc)), wait := 8) else s.(pc := s.pc - 4, wait := 12))
  {
    Program.CycleWithoutInterrupts(s);
  }

  lemma RunForThree(s: State, s1: State, s2: State, t: State)
    requires Cycle(s) == Some(s1) && Cycle(s1) == Some(s2) && Cycle(s2) == Some(t)
    ensures RunFor(s, 3) == Some(t)
  {
    hide Cycle;
    Program.RunForTwo(s1, s2, t);
  }

  lemma ShiftEffect(s: State, k: Shift)
    ensures var (v, c), t := ShiftByte(k, At(s, HL), s.f.c), ShiftAt(s, k, HL);
      && t.mem == s.mem[Get16(s, HL) := v] && t.f.c == c
      && t.b == s.b && t.ime == s.ime && t.pc == s.pc && Get16(t, HL) == Get16(s, HL)
  {
    hide ShiftByte;
  }

  lemma {:induction false} ShiftHere(s: State, p: nat, k: Shift, left: bool) returns (t: State)
    requires !s.ime && s.pc == p && CodeAt(s.mem, p, Head(k, left))
    requires Get16(s, HL) < p || p + 4 <= Get16(s, HL)
    ensures Cycle(s) == Some(t)
    ensures var (v, c) := ShiftByte(k, At(s, HL), s.f.c);
      t.mem == s.mem[Get16(s, HL) := v] && t.f.c == c
    ensures !t.ime && t.pc == p + 2 && t.b == s.b && Get16(t, HL) == Get16(s, HL)
    ensures CodeAt(t.mem, p, Head(k, left))
  {
    hide Cycle, ShiftByte, ShiftAt, Get16, CodeAt;
    CodeInside(s.mem, p, Head(k, left));
    CodeByte(s.mem, p, Head(k, left), 0);
    CodeByte(s.mem, p, Head(k, left), 1);
    StepShift(s, k);
    ShiftEffect(s, k);
    t := Cycle(s).value;
    SameHl(ShiftAt(s, k, HL), t);
    CodeKept(s.mem, p, Head(k, left), Get16(s, HL), ShiftByte(k, At(s, HL), s.f.c).0);
  }

  lemma CodeInside(m: Memory, p: nat, code: seq<u8>)
    requires CodeAt(m, p, code)
    ensures p + |code| <= 0xFFFF
  {
  }

  lemma {:induction false} MoveAndCount(s: State, p: nat, k: Shift, left: bool) returns (s1: State, t: State)
    requires !s.ime && s.pc == p + 2 && CodeAt(s.mem, p, Head(k, left))
    ensures Cycle(s) == Some(s1) && Cycle(s1) == Some(t)
    ensures t.mem == s.mem && t.f.c == s.f.c && !t.ime && t.pc == p + 4
    ensures t.b == Dec8(s.b) && t.f.z == (t.b == 0) && Get16(t, HL) == Next(left, Get16(s, HL))
  {
    hide Cycle, Word, Hi, Lo, Next;
    CodeByte(s.mem, p, Head(k, left), 2);
    CodeByte(s.mem, p, Head(k, left), 3);
    StepMove(s, left);
    Program.GetAfterSet(s, HL, Next(left, Get16(s, HL)));
    s1 := Cycle(s).value;
    Program.StepDecB(s1);
    t := Cycle(s1).value;
  }

  /** Shift one byte, go on to the next, count. */
  lemma {:induction false} ShiftAndCount(s: State, p: nat, k: Shift, left: bool) returns (t: State)
    requires !s.ime && s.pc == p && CodeAt(s.mem, p, Head(k, left))
    requires Get16(s, HL) < p || p + 4 <= Get16(s, HL)
    ensures RunFor(s, 3) == Some(t)
    ensures var (v, c) := ShiftByte(k, At(s, HL), s.f.c);
      t.mem == s.mem[Get16(s, HL) := v] && t.f.c == c
    ensures !t.ime && t.pc == p + 4 && t.b == Dec8(s.b) && t.f.z == (t.b == 0)
    ensures Get16(t, HL) == Next(left, Get16(s, HL))
  {
    hide Cycle, RunFor, ShiftByte, Get16, Next, CodeAt;
    var s1 := ShiftHere(s, p, k, left);
    var s2, s3 := MoveAndCount(s1, p, k, left);
    t := s3;
    RunForThree(s, s1, s2, t);
  }

  /** One round of the loop rotates one byte. */
  lemma {:induction false} Round(s: State, p: nat, left: bool) returns (t: State)
    requires Ready(s, p, left)
    ensures RunFor(s, CYCLES_PER_BYTE) == Some(t)
    ensures var (v, c) := ShiftByte(Rotate(left), At(s, HL), s.f.c);
      t.mem == s.mem[Get16(s, HL) := v] && t.f.c == c
    ensures !t.ime && t.b == Dec8(s.b) && Get16(t, HL) == Next(left, Get16(s, HL))
    ensures t.pc == (if t.b == 0 then p + LOOP_LENGTH else p) && CodeAt(t.mem, p, Loop(left))
  {
    hide Cycle, RunFor, ShiftByte, Get16, Next;
    CodePart(s.mem, p, Head(Rotate(left), left), [0x20, 0xFA]);
    CodeKept(s.mem, p, Loop(left), Get16(s, HL), ShiftByte(Rotate(left), At(s, HL), s.f.c).0);
    var u := ShiftAndCount(s, p, Rotate(left), left);
    CodeByte(u.mem, p, Loop(left), 4);
    CodeByte(u.mem, p, Loop(left), 5);
    StepJump(u);
    t := Cycle(u).value;
    SameHl(u, t);
    RunForNext(s, 3, u, t);
  }

  lemma SameHl(s: State, t: State)
    requires t.h == s.h && t.l == s.l
    ensures Get16(t, HL) == Get16(s, HL)
  {
  }

  lemma {:induction false} RunForNext(s: State, n: nat, u: State, t: State)
    requires RunFor(s, n) == Some(u) && Cycle(u) == Some(t)
    ensures RunFor(s, n + 1) == Some(t)
  {
    hide Cycle;
    Program.RunForSplit(s, n, 1);
    assert RunFor(t, 0) == Some(t);
  }

  // The whole loop.

  function Swept(left: bool, xs: seq<u8>, c: bool): (r: (seq<u8>, bool))
    ensures |r.0| == |xs|
  {
    if left then RotateLeft(xs, c) else RotateRight(xs, c)
  }

  /** RR from the high byte down, seen from the high byte. */
  lemma {:induction false} RotateRightFromTop(xs: seq<u8>, c: bool)
    requires xs != []
    ensures var n := |xs| - 1;
      var (b, c1) := ShiftByte(RR, xs[n], c);
      var (rest, c2) := RotateRight(xs[..n], c1);
      RotateRight(xs, c) == (rest + [b], c2)
  {
    hide ShiftByte;
    var n := |xs| - 1;
    var (b, c1) := ShiftByte(RR, xs[n], c);
    if n == 0 {
      assert xs[1..] == [] && xs[..0] == [] && [b] + [] == [] + [b];
    } else {
      RotateRightFromTop(xs[1..], c);
      assert xs[1..][..n - 1] == xs[..n][1..];
      var (rest, c2) := RotateRight(xs[..n][1..], c1);
      var (b0, c3) := ShiftByte(RR, xs[0], c2);
      assert [b0] + (rest + [b]) == ([b0] + rest) + [b];
    }
  }

  /** What a run leaves behind: the number's bytes, the carry, and all other memory as it was. */
  ghost predicate Leaves(s: State, t: State, lo: int, n: nat, out: seq<u8>, carry: bool) {
    && 0 <= lo && lo + n <= 0x10000 && |out| == n
    && t.f.c == carry && t.mem == s.mem[..lo] + out + s.mem[lo + n..]
  }

  lemma GlueRight(m: Memory, lo: nat, n: nat, b: u8, rest: seq<u8>)
    requires n > 0 && lo + n <= |m| && |rest| == n - 1
    ensures var m1 := m[lo + n - 1 := b]; m1[..lo] + rest + m1[lo + n - 1..] == m[..lo] + (rest + [b]) + m[lo + n..]
  {
  }

  /** One byte and then the rest, on either side of it. */
  lemma {:induction false} SweepOneMore(s: State, u: State, t: State, left: bool, n: nat,
                                        b: u8, rest: seq<u8>, carry: bool)
    requires n > 0 && u.mem == s.mem[Get16(s, HL) := b]
    requires Clear(Low(left, Get16(s, HL), n), n, 0, 0) && |rest| == n - 1
    requires var lo := Low(left, Get16(s, HL), n);
      Leaves(u, t, if left then lo + 1 else lo, n - 1, rest, carry)
    ensures Leaves(s, t, Low(left, Get16(s, HL), n), n, if left then [b] + rest else rest + [b], carry)
  {
    hide Get16;
    var lo := Low(left, Get16(s, HL), n);
    if left {
      Program.GlueResult(s.mem, lo, n, b, rest);
    } else {
      GlueRight(s.mem, lo, n, b, rest);
    }
  }

  /** The bytes still to sweep, before and after the first one. */
  lemma {:induction false} RestOfNumber(s: State, u: State, left: bool, n: nat, b: u8)
    requires n > 0 && u.mem == s.mem[Get16(s, HL) := b] && Clear(Low(left, Get16(s, HL), n), n, 0, 0)
    ensures var lo := Low(left, Get16(s, HL), n); var xs := s.mem[lo..lo + n];
      && xs[if left then 0 else n - 1] == At(s, HL)
      && (left ==> u.mem[lo + 1..lo + n] == xs[1..])
      && (!left ==> u.mem[lo..lo + n - 1] == xs[..n - 1])
  {
    hide Get16;
    var lo := Low(left, Get16(s, HL), n);
    if left {
      Program.SliceKept(s.mem, Get16(s, HL), b, lo + 1, lo + n);
    } else {
      Program.SliceKept(s.mem, Get16(s, HL), b, lo, lo + n - 1);
      assert s.mem[lo..lo + n][..n - 1] == s.mem[lo..lo + n - 1];
    }
  }

  /** Sweeping a byte and then the rest is sweeping the whole number. */
  lemma {:induction false} SweptHead(left: bool, xs: seq<u8>, c: bool)
    requires xs != []
    ensures var n := |xs| - 1;
      var (b, c1) := ShiftByte(Rotate(left), xs[if left then 0 else n], c);
      var (rest, c2) := Swept(left, if left then xs[1..] else xs[..n], c1);
      Swept(left, xs, c) == (if left then [b] + rest else rest + [b], c2)
  {
    hide ShiftByte;
    if !left {
      RotateRightFromTop(xs, c);
    }
  }

  lemma NextLow(left: bool, hl: u16, n: nat)
    requires n > 1 && Clear(Low(left, hl, n), n, 0, 0)
    ensures Low(left, Next(left, hl), n - 1) == if left then Low(left, hl, n) + 1 else Low(left, hl, n)
  {
  }

  lemma LastByte(s: State, u: State, left: bool, b: u8, carry: bool)
    requires u.mem == s.mem[Get16(s, HL) := b] && u.f.c == carry
    ensures Leaves(s, u, Low(left, Get16(s, HL), 1), 1, [b], carry)
  {
    hide Get16;
  }

  /** A round, and where it leaves the loop. */
  lemma {:induction false} RoundAgain(s: State, p: nat, left: bool, n: nat) returns (u: State)
    requires Ready(s, p, left) && n == Program.Remaining(s.b) && n > 1
    ensures RunFor(s, CYCLES_PER_BYTE) == Some(u) && Ready(u, p, left) && Program.Remaining(u.b) == n - 1
    ensures var (b, c1) := ShiftByte(Rotate(left), At(s, HL), s.f.c);
      u.mem == s.mem[Get16(s, HL) := b] && u.f.c == c1
    ensures Get16(u, HL) == Next(left, Get16(s, HL))
  {
    hide RunFor, Get16, ShiftByte, CodeAt, Next;
    u := Round(s, p, left);
    NextLow(left, Get16(s, HL), n);
  }

  /** The first byte's sweep and that of the rest make that of the whole number. */
  lemma {:induction false} JoinSweeps(s: State, u: State, t: State, left: bool, n: nat)
    requires n > 1 && Clear(Low(left, Get16(s, HL), n), n, 0, 0)
    requires var (b, c1) := ShiftByte(Rotate(left), At(s, HL), s.f.c);
      u.mem == s.mem[Get16(s, HL) := b] && u.f.c == c1 && Get16(u, HL) == Next(left, Get16(s, HL))
    requires Clear(Low(left, Get16(u, HL), n - 1), n - 1, 0, 0)
    requires var lo := Low(left, Get16(u, HL), n - 1);
      var (rest, c2) := Swept(left, u.mem[lo..lo + (n - 1)], u.f.c);
      Leaves(u, t, lo, n - 1, rest, c2)
    ensures var lo := Low(left, Get16(s, HL), n);
      var (out, carry) := Swept(left, s.mem[lo..lo + n], s.f.c);
      Leaves(s, t, lo, n, out, carry)
  {
    hide Get16, ShiftByte, Leaves, Swept, Next;
    var lo := Low(left, Get16(s, HL), n);
    var xs := s.mem[lo..lo + n];
    var (b, c1) := ShiftByte(Rotate(left), At(s, HL), s.f.c);
    RestOfNumber(s, u, left, n, b);
    SweptHead(left, xs, s.f.c);
    NextLow(left, Get16(s, HL), n);
    var (rest, c2) := Swept(left, if left then xs[1..] else xs[..n - 1], c1);
    SweepOneMore(s, u, t, left, n, b, rest, c2);
  }

  /** The whole loop: the number is swept, C is its carry, PC stands behind the loop, and no other
      memory has changed. */
  lemma {:induction false} LoopSweeps(s: State, p: nat, left: bool, n: nat) returns (t: State)
    requires Ready(s, p, left) && n == Program.Remaining(s.b)
    ensures RunFor(s, CYCLES_PER_BYTE * n) == Some(t) && t.pc == p + LOOP_LENGTH
    ensures var lo := Low(left, Get16(s, HL), n);
      var (out, carry) := Swept(left, s.mem[lo..lo + n], s.f.c);
      Leaves(s, t, lo, n, out, carry)
    decreases n
  {
    hide RunFor, Get16, ShiftByte, Leaves, Swept, CodeAt, Next;
    if n == 1 {
      t := LastSweep(s, p, left);
    } else {
      var u := RoundAgain(s, p, left, n);
      t := LoopSweeps(u, p, left, n - 1);
      Program.RunForSplit(s, CYCLES_PER_BYTE, CYCLES_PER_BYTE * (n - 1));
      JoinSweeps(s, u, t, left, n);
    }
  }

  lemma {:induction false} LastSweep(s: State, p: nat, left: bool) returns (t: State)
    requires Ready(s, p, left) && Program.Remaining(s.b) == 1
    ensures RunFor(s, CYCLES_PER_BYTE) == Some(t) && t.pc == p + LOOP_LENGTH
    ensures var lo := Low(left, Get16(s, HL), 1);
      var (out, carry) := Swept(left, s.mem[lo..lo + 1], s.f.c);
      Leaves(s, t, lo, 1, out, carry)
  {
    hide RunFor, Get16, ShiftByte, Leaves, Swept, CodeAt, Next;
    var lo := Low(left, Get16(s, HL), 1);
    var xs := s.mem[lo..lo + 1];
    var (b, c1) := ShiftByte(Rotate(left), At(s, HL), s.f.c);
    t := Round(s, p, left);
    assert xs[1..] == [] && xs[..0] == [] && xs[0] == At(s, HL);
    SweptHead(left, xs, s.f.c);
    SweptNothing(left, c1);
    LastByte(s, t, left, b, c1);
  }

  lemma SweptNothing(left: bool, c: bool)
    ensures Swept(left, [], c) == ([], c) && forall b: u8 :: [b] + [] == [b] == [] + [b]
  {
  }

  /** Run from its low byte up, the RL loop doubles an n-byte number in place; run from its high byte
      down, the RR loop halves it. */
  lemma {:induction false} RotatesInPlace(s: State, p: nat, left: bool) returns (t: State)
    requires Ready(s, p, left)
    ensures var n := Program.Remaining(s.b); var lo := Low(left, Get16(s, HL), n);
      var x, y := Value(false, s.mem[lo..lo + n]), Value(false, t.mem[lo..lo + n]);
      && RunFor(s, CYCLES_PER_BYTE * n) == Some(t) && t.pc == p + LOOP_LENGTH
      && (left ==> y + Power(256, n) * B2N(t.f.c) == 2 * x + B2N(s.f.c))
      && (!left ==> 2 * y + B2N(t.f.c) == x + Power(256, n) * B2N(s.f.c))
      && t.mem[..lo] == s.mem[..lo] && t.mem[lo + n..] == s.mem[lo + n..]
  {
    hide RunFor, Get16, CodeAt, Value, Power, RotateLeft, RotateRight;
    var n := Program.Remaining(s.b);
    var lo := Low(left, Get16(s, HL), n);
    var xs := s.mem[lo..lo + n];
    t := LoopSweeps(s, p, left, n);
    assert t.mem[lo..lo + n] == Swept(left, xs, s.f.c).0;
    if left {
      RotateLeftDoubles(xs, s.f.c);
    } else {
      RotateRightHalves(xs, s.f.c);
    }
  }

  // One shift in front of the loop.

  const OPENED_LENGTH := 10

  ghost predicate OpenedReady(s: State, p: nat, k: Shift, left: bool) {
    var n := Program.Remaining(s.b);
    && (if left then k == SLA else k == SRL || k == SRA) && n > 1
    && !s.ime && s.pc == p && CodeAt(s.mem, p, Head(k, left) + Loop(left))
    && Clear(Low(left, Get16(s, HL), n), n, p, OPENED_LENGTH)
  }

  function Shifted(k: Shift, left: bool, xs: seq<u8>): (seq<u8>, bool)
    requires xs != [] && (!left ==> k == SRL || k == SRA)
  {
    if left then ShiftLeft(xs) else ShiftRight(k, xs)
  }

  lemma {:induction false} ShiftedHead(k: Shift, left: bool, xs: seq<u8>, c: bool)
    requires xs != [] && (if left then k == SLA else k == SRL || k == SRA)
    ensures var n := |xs| - 1;
      var (b, c1) := ShiftByte(k, xs[if left then 0 else n], c);
      var (rest, c2) := Swept(left, if left then xs[1..] else xs[..n], c1);
      Shifted(k, left, xs) == (if left then [b] + rest else rest + [b], c2)
  {
  }

  lemma {:induction false} OpenedSweeps(s: State, p: nat, k: Shift, left: bool, n: nat) returns (t: State)
    requires OpenedReady(s, p, k, left) && n == Program.Remaining(s.b)
    ensures RunFor(s, 3 + CYCLES_PER_BYTE * (n - 1)) == Some(t) && t.pc == p + OPENED_LENGTH
    ensures var lo := Low(left, Get16(s, HL), n);
      var (out, carry) := Shifted(k, left, s.mem[lo..lo + n]);
      |out| == n && Leaves(s, t, lo, n, out, carry)
  {
    hide RunFor, Get16, ShiftByte, Leaves, Swept, Shifted, CodeAt, Next, Ready;
    var lo := Low(left, Get16(s, HL), n);
    var xs := s.mem[lo..lo + n];
    var (b, c1) := ShiftByte(k, At(s, HL), s.f.c);
    var u := Opening(s, p, k, left, n);
    RestOfNumber(s, u, left, n, b);
    ShiftedHead(k, left, xs, s.f.c);
    NextLow(left, Get16(s, HL), n);
    t := LoopSweeps(u, p + 4, left, n - 1);
    Program.RunForSplit(s, 3, CYCLES_PER_BYTE * (n - 1));
    var (rest, c2) := Swept(left, if left then xs[1..] else xs[..n - 1], c1);
    SweepOneMore(s, u, t, left, n, b, rest, c2);
  }

  /** The shift in front, up to the head of the loop. */
  lemma {:induction false} Opening(s: State, p: nat, k: Shift, left: bool, n: nat) returns (u: State)
    requires OpenedReady(s, p, k, left) && n == Program.Remaining(s.b)
    ensures RunFor(s, 3) == Some(u) && Ready(u, p + 4, left) && Program.Remaining(u.b) == n - 1
    ensures var (b, c1) := ShiftByte(k, At(s, HL), s.f.c);
      u.mem == s.mem[Get16(s, HL) := b] && u.f.c == c1
    ensures Get16(u, HL) == Next(left, Get16(s, HL))
  {
    hide RunFor, Get16, ShiftByte, CodeAt, Next;
    CodePart(s.mem, p, Head(k, left), Loop(left));
    CodeKept(s.mem, p + 4, Loop(left), Get16(s, HL), ShiftByte(k, At(s, HL), s.f.c).0);
    u := ShiftAndCount(s, p, k, left);
    NextLow(left, Get16(s, HL), n);
  }

  /** SLA in front of the RL loop doubles the number in place with the lost bit in C; SRL in front of
      the RR loop halves it with the remainder in C, and so does SRA for a two's complement number. */
  lemma {:induction false} ShiftsInPlace(s: State, p: nat, k: Shift, left: bool) returns (t: State)
    requires OpenedReady(s, p, k, left)
    ensures var n := Program.Remaining(s.b); var lo := Low(left, Get16(s, HL), n);
      var xs, ys := s.mem[lo..lo + n], t.mem[lo..lo + n];
      && RunFor(s, 3 + CYCLES_PER_BYTE * (n - 1)) == Some(t) && t.pc == p + OPENED_LENGTH
      && (k == SLA ==> Value(false, ys) + Power(256, n) * B2N(t.f.c) == 2 * Value(false, xs))
      && (k == SRL ==> 2 * Value(false, ys) + B2N(t.f.c) == Value(false, xs))
      && (k == SRA ==> SignedValue(ys) == SignedValue(xs) / 2 && t.f.c == (SignedValue(xs) % 2 == 1))
      && t.mem[..lo] == s.mem[..lo] && t.mem[lo + n..] == s.mem[lo + n..]
  {
    hide RunFor, Get16, CodeAt, Value, Power, SignedValue, ShiftLeft, ShiftRight;
    var n := Program.Remaining(s.b);
    var lo := Low(left, Get16(s, HL), n);
    var xs := s.mem[lo..lo + n];
    t := OpenedSweeps(s, p, k, left, n);
    assert t.mem[lo..lo + n] == Shifted(k, left, xs).0;
    if k == SLA {
      ShiftLeftDoubles(xs);
    } else if k == SRL {
      ShiftRightHalves(xs);
    } else {
      ArithmeticShiftHalves(xs);
    }
  }
}
