/** The memory-backed stack refines a LIFO of words, under calls, returns, interrupts and any
    other code that keeps off it. */
module CpuStack {
  import opened Bits
  import opened CpuState

  /** Byte `j` of the stack area that starts at `sp`; the address wraps. */
  function Cell(sp: u16, j: nat): u16 { (sp as int + j) % 0x10000 }

  function WordAt(s: State, j: nat): u16 { Word(s.mem[Cell(s.sp, j + 1)], s.mem[Cell(s.sp, j)]) }

  /** The bytes from SP up to `bottom` are the words of `stack`, top first. */
  ghost predicate Represents(s: State, bottom: u16, stack: seq<u16>) {
    && 2 * |stack| <= 0x10000
    && Cell(s.sp, 2 * |stack|) == bottom
    && forall k :: 0 <= k < |stack| ==> WordAt(s, 2 * k) == stack[k]
  }

  lemma ModAdd(a: int, b: int)
    ensures (a % 0x10000 + b) % 0x10000 == (a + b) % 0x10000
  {
    assert a + b == (a % 0x10000 + b) + 0x10000 * (a / 0x10000);
  }

  lemma CellOfLower(sp: u16, j: nat)
    ensures Cell(Dec16(Dec16(sp)), j + 2) == Cell(sp, j)
  {
    ModAdd(sp as int - 1, -1);
    ModAdd(sp as int - 2, j + 2);
  }

  lemma CellOfUpper(sp: u16, j: nat)
    ensures Cell(Inc16(Inc16(sp)), j) == Cell(sp, j + 2)
  {
    ModAdd(sp as int + 1, 1);
    ModAdd(sp as int + 2, j);
  }

  lemma FirstCells(sp: u16)
    ensures Cell(sp, 0) == sp && Cell(sp, 1) == Inc16(sp) && Inc16(Dec16(sp)) == sp
  {
  }

  lemma CellsDiffer(sp: u16, i: nat, j: nat)
    requires i < 0x10000 && j < 0x10000 && i != j
    ensures Cell(sp, i) != Cell(sp, j)
  {
  }

  /** A push leaves the words already on the stack alone, two bytes further up. */
  lemma {:induction false} PushKeeps(s: State, v: u16, j: nat)
    requires j + 2 < 0x10000
    ensures PushWord(s, v).mem[Cell(PushWord(s, v).sp, j + 2)] == s.mem[Cell(s.sp, j)]
  {
    var sp' := Dec16(Dec16(s.sp));
    CellOfLower(s.sp, j);
    FirstCells(sp');
    FirstCells(Dec16(s.sp));
    CellsDiffer(sp', j + 2, 0);
    CellsDiffer(sp', j + 2, 1);
    hide Dec16, Inc16, Cell;
    assert PushWord(s, v).mem == s.mem[Dec16(s.sp) := Hi(v)][sp' := Lo(v)];
  }

  lemma {:induction false} PushedTop(s: State, v: u16)
    ensures WordAt(PushWord(s, v), 0) == v
  {
    var sp' := Dec16(Dec16(s.sp));
    FirstCells(sp');
    FirstCells(Dec16(s.sp));
    CellsDiffer(sp', 0, 1);
    hide Dec16, Inc16, Cell;
    assert PushWord(s, v).mem == s.mem[Dec16(s.sp) := Hi(v)][sp' := Lo(v)];
  }

  /** A push puts its word on top and moves nothing. */
  lemma {:induction false} PushIsCons(s: State, v: u16, bottom: u16, stack: seq<u16>)
    requires Represents(s, bottom, stack) && 2 * (|stack| + 1) <= 0x10000
    ensures Represents(PushWord(s, v), bottom, [v] + stack)
  {
    hide Dec16, Inc16, Cell, Word;
    var t := PushWord(s, v);
    CellOfLower(s.sp, 2 * |stack|);
    PushedTop(s, v);
    forall k | 0 <= k < |stack| + 1 ensures WordAt(t, 2 * k) == ([v] + stack)[k] {
      if k > 0 {
        PushKeeps(s, v, 2 * (k - 1));
        PushKeeps(s, v, 2 * (k - 1) + 1);
        assert WordAt(s, 2 * (k - 1)) == stack[k - 1];
      }
    }
  }

  /** A pop reads the top word and uncovers the rest. */
  lemma {:induction false} DropIsTail(s: State, bottom: u16, stack: seq<u16>)
    requires Represents(s, bottom, stack) && stack != []
    ensures TopWord(s) == stack[0] && Represents(DropWord(s), bottom, stack[1..])
  {
    hide Dec16, Inc16, Cell, Word;
    var t := DropWord(s);
    FirstCells(s.sp);
    CellOfUpper(s.sp, 2 * (|stack| - 1));
    assert WordAt(s, 0) == stack[0];
    forall k | 0 <= k < |stack| - 1 ensures WordAt(t, 2 * k) == stack[1..][k] {
      CellOfUpper(s.sp, 2 * k);
      CellOfUpper(s.sp, 2 * k + 1);
      assert WordAt(s, 2 * (k + 1)) == stack[k + 1];
    }
  }

  /** Only SP and the stack's own bytes matter. */
  lemma {:induction false} RepresentsFrame(s: State, t: State, bottom: u16, stack: seq<u16>)
    requires Represents(s, bottom, stack) && t.sp == s.sp
    requires forall j :: 0 <= j < 2 * |stack| ==> t.mem[Cell(s.sp, j)] == s.mem[Cell(s.sp, j)]
    ensures Represents(t, bottom, stack)
  {
    forall k | 0 <= k < |stack| ensures WordAt(t, 2 * k) == stack[k] {
      assert WordAt(s, 2 * k) == stack[k];
    }
  }

  // Events: instructions that use the stack, interrupt entry, and everything else.

  /** `Local` is any other instruction, or several: it may do anything but move SP or write into
      the live stack. */
  datatype Event = Instr(op: u8) | Interrupt | Local(to: State)

  predicate IsPush(op: u8) { op == 0xC5 || op == 0xD5 || op == 0xE5 || op == 0xF5 }
  predicate IsRst(op: u8) { op % 8 == 7 && op >= 0xC7 }
  predicate IsPop(op: u8) { op == 0xC1 || op == 0xD1 || op == 0xE1 || op == 0xF1 }
  predicate IsReturn(op: u8) { op == 0xC9 || op == 0xD9 }

  /** The event puts a word on the stack. */
  predicate Enters(e: Event) {
    match e
    case Instr(op) => IsPush(op) || IsRst(op) || op == 0xCD
    case Interrupt => true
    case Local(_) => false
  }

  /** The event takes a word off the stack. */
  predicate Leaves(e: Event) { e.Instr? && (IsPop(e.op) || IsReturn(e.op)) }

  /** The word an entering event puts on the stack; for calls, the address to return to. */
  function Pushed(s: State, e: Event): u16
    requires Enters(e)
  {
    match e
    case Interrupt => s.pc
    case Instr(op) =>
      if op == 0xC5 then Get16(s, BC) else if op == 0xD5 then Get16(s, DE) else if op == 0xE5 then Get16(s, HL)
      else if op == 0xF5 then Get16(s, AF) else if op == 0xCD then Inc16(Inc16(Inc16(s.pc))) else Inc16(s.pc)
  }

  /** An interrupt is enabled and requested, and the stack it pushes on stays off the request
      register. */
  ghost predicate Deliverable(s: State, depth: nat) {
    && s.ime && FirstPending(s, 0) < 5
    && forall j :: 0 <= j < 2 * (depth + 1) ==> Cell(Dec16(Dec16(s.sp)), j) != IF_ADDR
  }

  /** Same SP, same bytes in the live stack. */
  ghost predicate KeepsOff(s: State, t: State, depth: nat) {
    t.sp == s.sp && forall j :: 0 <= j < 2 * depth ==> t.mem[Cell(s.sp, j)] == s.mem[Cell(s.sp, j)]
  }

  /** What the source asks of an event with `depth` words on the stack: room, something to pop,
      a deliverable interrupt whose flag register is not part of the stack. */
  ghost predicate Enabled(s: State, e: Event, depth: nat) {
    if Enters(e) then
      && 2 * (depth + 1) <= 0x10000
      && (e == Interrupt ==> Deliverable(s, depth))
    else if Leaves(e) then depth > 0
    else e.Local? && KeepsOff(s, e.to, depth)
  }

  /** The concrete step: the modelled main loop's own functions. */
  function Step(s: State, e: Event): State {
    match e
    case Instr(op) => var t := Execute(Fetch(s), op); if t.Some? then t.value else s
    case Interrupt => HandleInterrupts(s)
    case Local(to) => to
  }

  /** The abstract step. */
  function Abstract(s: State, e: Event, stack: seq<u16>): seq<u16> {
    if Enters(e) then [Pushed(s, e)] + stack
    else if Leaves(e) && stack != [] then stack[1..]
    else stack
  }

  lemma {:induction false} EnterStep(s: State, e: Event, bottom: u16, stack: seq<u16>)
    requires Represents(s, bottom, stack) && Enters(e) && Enabled(s, e, |stack|)
    ensures Represents(Step(s, e), bottom, [Pushed(s, e)] + stack)
  {
    var v := Pushed(s, e);
    PushIsCons(s, v, bottom, stack);
    var p := PushWord(s, v);
    match e
    case Interrupt =>
      var t := Step(s, e);
      assert t.sp == p.sp == Dec16(Dec16(s.sp));
      RepresentsFrame(p, t, bottom, [v] + stack);
    case Instr(op) =>
      InstrPushes(s, op);
      RepresentsFrame(p, Step(s, e), bottom, [v] + stack);
  }

  ghost predicate Stores(s: State, op: u8, v: u16) {
    Step(s, Instr(op)).sp == PushWord(s, v).sp && Step(s, Instr(op)).mem == PushWord(s, v).mem
  }

  lemma PushPairs(s: State)
    ensures Stores(s, 0xC5, Get16(s, BC)) && Stores(s, 0xD5, Get16(s, DE)) && Stores(s, 0xE5, Get16(s, HL))
  {
  }

  lemma PushAf(s: State)
    ensures Stores(s, 0xF5, Get16(s, AF))
  {
  }

  lemma CallAndRst(s: State, op: u8)
    ensures Stores(s, 0xCD, Inc16(Inc16(Inc16(s.pc))))
    ensures IsRst(op) ==> Stores(s, op, Inc16(s.pc))
  {
  }

  /** Every pushing instruction of the opcode table stores exactly its word. */
  lemma {:induction false} InstrPushes(s: State, op: u8)
    requires Enters(Instr(op))
    ensures Stores(s, op, Pushed(s, Instr(op)))
  {
    hide Stores, Get16, Inc16;
    PushPairs(s);
    PushAf(s);
    CallAndRst(s, op);
  }

  lemma InstrPops(s: State, op: u8)
    requires Leaves(Instr(op))
    ensures Step(s, Instr(op)).sp == DropWord(s).sp && Step(s, Instr(op)).mem == s.mem
    ensures IsReturn(op) ==> Step(s, Instr(op)).pc == TopWord(s)
    ensures !IsReturn(op) ==> Step(s, Instr(op)).pc == Inc16(s.pc)
  {
  }

  /** Every step of the machine is a step of the LIFO. */
  lemma {:induction false} StepRefines(s: State, e: Event, bottom: u16, stack: seq<u16>)
    requires Represents(s, bottom, stack) && Enabled(s, e, |stack|)
    ensures Represents(Step(s, e), bottom, Abstract(s, e, stack))
    ensures Leaves(e) && IsReturn(e.op) ==> Step(s, e).pc == stack[0]
  {
    if Enters(e) {
      EnterStep(s, e, bottom, stack);
    } else if Leaves(e) {
      DropIsTail(s, bottom, stack);
      InstrPops(s, e.op);
      RepresentsFrame(DropWord(s), Step(s, e), bottom, stack[1..]);
    } else {
      RepresentsFrame(s, e.to, bottom, stack);
    }
  }

  // Whole runs.

  function NewDepth(e: Event, depth: nat): nat {
    if Enters(e) then depth + 1 else if Leaves(e) && depth > 0 then depth - 1 else depth
  }

  ghost predicate EnabledRun(s: State, es: seq<Event>, depth: nat)
    decreases |es|
  {
    es == [] || (Enabled(s, es[0], depth) && EnabledRun(Step(s, es[0]), es[1..], NewDepth(es[0], depth)))
  }

  function Run(s: State, es: seq<Event>): State
    decreases |es|
  {
    if es == [] then s else Run(Step(s, es[0]), es[1..])
  }

  function AbstractRun(s: State, es: seq<Event>, stack: seq<u16>): seq<u16>
    decreases |es|
  {
    if es == [] then stack else AbstractRun(Step(s, es[0]), es[1..], Abstract(s, es[0], stack))
  }

  /** After every enabled run the memory above SP is the abstract stack. */
  lemma {:induction false} RunRefines(s: State, es: seq<Event>, bottom: u16, stack: seq<u16>)
    requires Represents(s, bottom, stack) && EnabledRun(s, es, |stack|)
    ensures Represents(Run(s, es), bottom, AbstractRun(s, es, stack))
    decreases |es|
  {
    hide Represents, Step, Enabled;
    if es != [] {
      StepRefines(s, es[0], bottom, stack);
      RunRefines(Step(s, es[0]), es[1..], bottom, Abstract(s, es[0], stack));
    }
  }

  /** Well-nested code: other work, or a frame that enters, runs nested code and leaves. */
  datatype Nest = Done | Work(to: State, next: Nest) | Frame(enter: Event, body: Nest, leave: Event, next: Nest)

  function Exec(s: State, n: Nest): State
    decreases n
  {
    match n
    case Done => s
    case Work(to, next) => Exec(to, next)
    case Frame(enter, body, leave, next) => Exec(Step(Exec(Step(s, enter), body), leave), next)
  }

  ghost predicate EnabledNest(s: State, n: Nest, depth: nat)
    decreases n
  {
    match n
    case Done => true
    case Work(to, next) => KeepsOff(s, to, depth) && EnabledNest(to, next, depth)
    case Frame(enter, body, leave, next) =>
      && Enters(enter) && Enabled(s, enter, depth) && EnabledNest(Step(s, enter), body, depth + 1)
      && Leaves(leave) && EnabledNest(Step(Exec(Step(s, enter), body), leave), next, depth)
  }

  /** Every frame that is left by a return continues at the address its entry pushed: behind the
      call, or where the interrupt struck. */
  ghost predicate Lands(s: State, n: Nest)
    decreases n
  {
    match n
    case Done => true
    case Work(to, next) => Lands(to, next)
    case Frame(enter, body, leave, next) =>
      var after := Step(Exec(Step(s, enter), body), leave);
      && Lands(Step(s, enter), body) && Lands(after, next)
      && (Enters(enter) && leave.Instr? && IsReturn(leave.op) ==> after.pc == Pushed(s, enter))
  }

  /** Well-nested code lands every return, restores SP and leaves the stack as it was. */
  lemma {:induction false} WellNested(s: State, n: Nest, bottom: u16, stack: seq<u16>)
    requires Represents(s, bottom, stack) && EnabledNest(s, n, |stack|)
    ensures Represents(Exec(s, n), bottom, stack) && Exec(s, n).sp == s.sp && Lands(s, n)
    decreases n
  {
    hide Step, Enabled, Pushed;
    match n
    case Done =>
    case Work(to, next) =>
      RepresentsFrame(s, to, bottom, stack);
      WellNested(to, next, bottom, stack);
    case Frame(enter, body, leave, next) =>
      var full := [Pushed(s, enter)] + stack;
      EnterStep(s, enter, bottom, stack);
      WellNested(Step(s, enter), body, bottom, full);
      var t := Exec(Step(s, enter), body);
      LeaveEnabled(t, leave, |full|);
      StepRefines(t, leave, bottom, full);
      assert full[1..] == stack;
      var after := Step(t, leave);
      SameBottomSameSp(after, s, bottom, stack);
      WellNested(after, next, bottom, stack);
  }

  lemma LeaveEnabled(s: State, e: Event, depth: nat)
    requires Leaves(e) && depth > 0
    ensures Enabled(s, e, depth)
  {
  }

  lemma {:induction false} SameBottomSameSp(s: State, t: State, bottom: u16, stack: seq<u16>)
    requires Represents(s, bottom, stack) && Represents(t, bottom, stack)
    ensures s.sp == t.sp
  {
    var n := 2 * |stack|;
    assert (s.sp as int + n) % 0x10000 == (t.sp as int + n) % 0x10000;
  }

  // The low nibble of F.

  lemma {:induction false} ExecuteKeepsLowNibble(s: State, op: u8)
    requires Execute(s, op).Some?
    ensures Execute(s, op).value.f.low == s.f.low
  {
    hide Get16, Hi, Lo, Word, Inc16, Dec16, AdcAcc, SbcAcc, DaaAcc, ShiftByte, TopWord, Operand;
  }

  lemma {:induction false} InterruptKeepsLowNibble(s: State)
    ensures HandleInterrupts(s).f.low == s.f.low
  {
  }

  /** No run of the machine touches the low nibble of F; from power-on it stays zero. */
  lemma {:induction false} LowNibbleInvariant(s: State, n: nat)
    requires RunFor(s, n).Some?
    ensures RunFor(s, n).value.f.low == s.f.low
    decreases n
  {
    hide Execute, HandleInterrupts;
    if n > 0 {
      var t := HandleInterrupts(s.(wait := 0));
      InterruptKeepsLowNibble(s.(wait := 0));
      ExecuteKeepsLowNibble(Fetch(t), t.mem[t.pc]);
      LowNibbleInvariant(Cycle(s).value, n - 1);
    }
  }

  /** Work that is the machine's own keeps the low nibble, which is all that is asked of it here. */
  ghost predicate WorkKeepsLow(s: State, n: Nest)
    decreases n
  {
    match n
    case Done => true
    case Work(to, next) => to.f.low == s.f.low && WorkKeepsLow(to, next)
    case Frame(enter, body, leave, next) =>
      WorkKeepsLow(Step(s, enter), body) && WorkKeepsLow(Step(Exec(Step(s, enter), body), leave), next)
  }

  lemma {:induction false} StepKeepsLow(s: State, e: Event)
    requires !e.Local?
    ensures Step(s, e).f.low == s.f.low
  {
    hide Execute, HandleInterrupts;
    if e.Interrupt? {
      InterruptKeepsLowNibble(s);
    } else if Execute(Fetch(s), e.op).Some? {
      ExecuteKeepsLowNibble(Fetch(s), e.op);
    }
  }

  lemma {:induction false} NestKeepsLow(s: State, n: Nest, depth: nat)
    requires EnabledNest(s, n, depth) && WorkKeepsLow(s, n)
    ensures Exec(s, n).f.low == s.f.low
    decreases n
  {
    hide Step, Enabled, KeepsOff;
    match n
    case Done =>
    case Work(to, next) => NestKeepsLow(to, next, depth);
    case Frame(enter, body, leave, next) =>
      StepKeepsLow(s, enter);
      NestKeepsLow(Step(s, enter), body, depth + 1);
      var t := Exec(Step(s, enter), body);
      StepKeepsLow(t, leave);
      NestKeepsLow(Step(t, leave), next, depth);
  }

  /** PUSH AF, any well-nested code, POP AF: A and every flag return. */
  lemma {:induction false} PushPopAf(s: State, body: Nest, bottom: u16, stack: seq<u16>)
    requires Represents(s, bottom, stack) && EnabledNest(s, Frame(Instr(0xF5), body, Instr(0xF1), Done), |stack|)
    requires WorkKeepsLow(Step(s, Instr(0xF5)), body)
    ensures var t := Exec(s, Frame(Instr(0xF5), body, Instr(0xF1), Done));
      t.a == s.a && t.f == s.f && t.sp == s.sp
  {
    PushedAfStays(s, body, bottom, stack);
    WellNested(s, Frame(Instr(0xF5), body, Instr(0xF1), Done), bottom, stack);
    hide Step, Represents, EnabledNest, WorkKeepsLow, Lands;
    PopAfWord(Exec(Step(s, Instr(0xF5)), body), s.a, s.f);
  }

  lemma {:induction false} PushedAfStays(s: State, body: Nest, bottom: u16, stack: seq<u16>)
    requires Represents(s, bottom, stack) && Enabled(s, Instr(0xF5), |stack|)
    requires EnabledNest(Step(s, Instr(0xF5)), body, |stack| + 1) && WorkKeepsLow(Step(s, Instr(0xF5)), body)
    ensures var u := Exec(Step(s, Instr(0xF5)), body);
      TopWord(u) == Word(s.a, FByte(s.f)) && u.f.low == s.f.low
  {
    hide Step, Enabled, Represents, EnabledNest, WorkKeepsLow, Lands, Word, FByte;
    var pushed := Step(s, Instr(0xF5));
    StepKeepsLow(s, Instr(0xF5));
    EnterStep(s, Instr(0xF5), bottom, stack);
    NestKeepsLow(pushed, body, |stack| + 1);
    WellNested(pushed, body, bottom, [Get16(s, AF)] + stack);
    DropIsTail(Exec(pushed, body), bottom, [Get16(s, AF)] + stack);
  }

  lemma {:induction false} PopAfWord(u: State, a: u8, f: Flags)
    requires TopWord(u) == Word(a, FByte(f)) && u.f.low == f.low
    ensures Step(u, Instr(0xF1)).a == a && Step(u, Instr(0xF1)).f == f
  {
    FByteRoundTrip(f);
    HalvesOfWord(a, FByte(f));
    hide FByte, FlagsOf, Hi, Lo, Word;
    var t := Step(u, Instr(0xF1));
    assert t == Pop(Fetch(u), AF).(wait := 12);
    assert TopWord(Fetch(u)) == TopWord(u);
  }

  lemma HalvesOfWord(hi: u8, lo: u8)
    ensures Hi(Word(hi, lo)) == hi && Lo(Word(hi, lo)) == lo
  {
  }

  // The machine's own runs as runs of events.

  /** An interrupt is taken at the head of the cycle. */
  predicate TakesInterrupt(s: State) { s.ime && FirstPending(s, 0) < 8 }

  /** The event that the byte at PC stands for. */
  function AtPc(s: State): Event {
    var e := Instr(s.mem[s.pc]);
    if Enters(e) || Leaves(e) then e else Local(Step(s, e))
  }

  /** One round of the main loop: the wait is cleared, an interrupt may be taken, then whatever PC
      points at is executed. */
  function CycleEvents(s: State): seq<Event> {
    var z := s.(wait := 0);
    [Local(z)] + (if TakesInterrupt(s) then [Interrupt] else []) + [AtPc(HandleInterrupts(z))]
  }

  function MachineEvents(s: State, n: nat): seq<Event>
    requires RunFor(s, n).Some?
    decreases n
  {
    if n == 0 then [] else CycleEvents(s) + MachineEvents(Cycle(s).value, n - 1)
  }

  lemma {:induction false} RunAppend(s: State, a: seq<Event>, b: seq<Event>)
    ensures Run(s, a + b) == Run(Run(s, a), b)
    decreases |a|
  {
    hide Step;
    if a == [] {
      assert a + b == b;
    } else {
      assert (a + b)[1..] == a[1..] + b;
      RunAppend(Step(s, a[0]), a[1..], b);
    }
  }

  lemma {:induction false} RunOne(s: State, e: Event)
    ensures Run(s, [e]) == Step(s, e)
  {
    assert [e][1..] == [];
  }

  lemma {:induction false} AtPcIsCycle(s: State)
    requires Execute(Fetch(s), s.mem[s.pc]).Some?
    ensures Step(s, AtPc(s)) == Execute(Fetch(s), s.mem[s.pc]).value
  {
    hide Execute;
  }

  lemma {:induction false} NoInterrupt(s: State)
    requires !TakesInterrupt(s)
    ensures HandleInterrupts(s) == s
  {
  }

  lemma {:induction false} CycleIsEvents(s: State)
    requires Cycle(s).Some?
    ensures Run(s, CycleEvents(s)) == Cycle(s).value
  {
    var z := s.(wait := 0);
    assert TakesInterrupt(z) == TakesInterrupt(s);
    hide Execute, HandleInterrupts, TakesInterrupt, AtPc;
    var t := HandleInterrupts(z);
    var entry := if TakesInterrupt(s) then [Interrupt] else [];
    RunAppend(s, [Local(z)] + entry, [AtPc(t)]);
    RunAppend(s, [Local(z)], entry);
    RunOne(s, Local(z));
    RunOne(t, AtPc(t));
    if TakesInterrupt(s) {
      RunOne(z, Interrupt);
    } else {
      NoInterrupt(z);
    }
    AtPcIsCycle(t);
  }

  lemma {:induction false} MachineIsEvents(s: State, n: nat)
    requires RunFor(s, n).Some?
    ensures Run(s, MachineEvents(s, n)) == RunFor(s, n).value
    decreases n
  {
    hide Cycle, Step, CycleEvents;
    if n > 0 {
      CycleIsEvents(s);
      MachineIsEvents(Cycle(s).value, n - 1);
      RunAppend(s, CycleEvents(s), MachineEvents(Cycle(s).value, n - 1));
    }
  }

  /** The main loop refines the LIFO: as long as each interrupt taken and each stack instruction met
      at PC finds the stack it needs, and other instructions keep off it, the memory above SP after
      any number of cycles is the abstract stack. */
  lemma {:induction false} MachineRefines(s: State, n: nat, bottom: u16, stack: seq<u16>)
    requires RunFor(s, n).Some? && Represents(s, bottom, stack) && EnabledRun(s, MachineEvents(s, n), |stack|)
    ensures Represents(RunFor(s, n).value, bottom, AbstractRun(s, MachineEvents(s, n), stack))
  {
    hide Represents, RunFor, MachineEvents;
    MachineIsEvents(s, n);
    RunRefines(s, MachineEvents(s, n), bottom, stack);
  }

  // Calls and returns in the main loop's own runs.

  function DepthAfter(es: seq<Event>, depth: nat): nat
    decreases |es|
  {
    if es == [] then depth else DepthAfter(es[1..], NewDepth(es[0], depth))
  }

  /** No event takes one of the lowest `floor` words off the stack. */
  predicate StaysAbove(es: seq<Event>, depth: nat, floor: nat)
    decreases |es|
  {
    es == [] || ((Leaves(es[0]) ==> depth > floor) && StaysAbove(es[1..], NewDepth(es[0], depth), floor))
  }

  lemma {:induction false} EnabledAppend(s: State, a: seq<Event>, b: seq<Event>, depth: nat)
    requires EnabledRun(s, a + b, depth)
    ensures EnabledRun(s, a, depth) && EnabledRun(Run(s, a), b, DepthAfter(a, depth))
    decreases |a|
  {
    hide Step, Enabled;
    if a == [] {
      assert a + b == b;
    } else {
      assert (a + b)[0] == a[0] && (a + b)[1..] == a[1..] + b;
      EnabledAppend(Step(s, a[0]), a[1..], b, NewDepth(a[0], depth));
    }
  }

  lemma {:induction false} AbstractDepth(s: State, es: seq<Event>, stack: seq<u16>)
    ensures |AbstractRun(s, es, stack)| == DepthAfter(es, |stack|)
    decreases |es|
  {
    hide Step, Pushed;
    if es != [] {
      AbstractDepth(Step(s, es[0]), es[1..], Abstract(s, es[0], stack));
    }
  }

  /** Words below the floor are still there, whatever comes and goes above them. */
  lemma {:induction false} BaseStays(s: State, es: seq<Event>, stack: seq<u16>, base: seq<u16>)
    requires |base| <= |stack| && stack[|stack| - |base|..] == base && StaysAbove(es, |stack|, |base|)
    ensures var r := AbstractRun(s, es, stack); |base| <= |r| && r[|r| - |base|..] == base
    decreases |es|
  {
    hide Step, Pushed;
    if es != [] {
      var next := Abstract(s, es[0], stack);
      assert |next| >= |base| && next[|next| - |base|..] == base;
      BaseStays(Step(s, es[0]), es[1..], next, base);
    }
  }

  /** The word that `e` pushes is on top again when the event after `body` takes a word off. */
  lemma {:induction false} ReturnLands(s: State, e: Event, body: seq<Event>, leave: Event, bottom: u16, stack: seq<u16>)
    requires Represents(s, bottom, stack) && Enters(e) && Leaves(leave)
    requires Enabled(s, e, |stack|) && EnabledRun(Step(s, e), body, |stack| + 1)
    requires StaysAbove(body, |stack| + 1, |stack| + 1) && DepthAfter(body, |stack| + 1) == |stack| + 1
    ensures var t := Step(Run(Step(s, e), body), leave);
      && Represents(t, bottom, stack) && t.sp == s.sp
      && (IsReturn(leave.op) ==> t.pc == Pushed(s, e))
  {
    hide Step, Enabled, Pushed, Represents;
    var full := [Pushed(s, e)] + stack;
    var u := Run(Step(s, e), body);
    EnterStep(s, e, bottom, stack);
    RunRefines(Step(s, e), body, bottom, full);
    AbstractDepth(Step(s, e), body, full);
    BaseStays(Step(s, e), body, full, full);
    assert AbstractRun(Step(s, e), body, full) == full;
    LeaveEnabled(u, leave, |full|);
    StepRefines(u, leave, bottom, full);
    assert full[1..] == stack;
    SameBottomSameSp(Step(u, leave), s, bottom, stack);
  }

  /** The events of a run from an entry to the one that takes its word off again. */
  ghost predicate IsFrame(es: seq<Event>, before: seq<Event>, e: Event, body: seq<Event>, leave: Event,
                          after: seq<Event>, depth: nat)
  {
    var d := DepthAfter(before, depth);
    && es == before + ([e] + (body + ([leave] + after))) && Enters(e) && Leaves(leave)
    && StaysAbove(body, d + 1, d + 1) && DepthAfter(body, d + 1) == d + 1
  }

  /** In any run of the main loop, whenever the word that a call or an interrupt put on the stack is
      taken off again by a return, the CPU goes on behind that call, or where the interrupt struck, and
      SP is what it was. */
  lemma {:induction false} MachineReturnsLand(s: State, n: nat, before: seq<Event>, e: Event, body: seq<Event>,
                                              leave: Event, after: seq<Event>, bottom: u16, stack: seq<u16>)
    requires RunFor(s, n).Some? && Represents(s, bottom, stack) && EnabledRun(s, MachineEvents(s, n), |stack|)
    requires IsFrame(MachineEvents(s, n), before, e, body, leave, after, |stack|)
    ensures var u := Run(s, before); var t := Step(Run(Step(u, e), body), leave);
      && RunFor(s, n).value == Run(t, after) && t.sp == u.sp
      && (IsReturn(leave.op) ==> t.pc == Pushed(u, e))
  {
    hide Step, Enabled, Pushed, Represents, RunFor, MachineEvents;
    var u := Run(s, before);
    var rest := [e] + (body + ([leave] + after));
    EnabledAppend(s, before, rest, |stack|);
    RunRefines(s, before, bottom, stack);
    AbstractDepth(s, before, stack);
    assert rest[0] == e && rest[1..] == body + ([leave] + after);
    EnabledAppend(Step(u, e), body, [leave] + after, NewDepth(e, DepthAfter(before, |stack|)));
    ReturnLands(u, e, body, leave, bottom, AbstractRun(s, before, stack));
    MachineIsEvents(s, n);
    RunAppend(s, before, rest);
    RunAppend(Step(u, e), body, [leave] + after);
    assert ([leave] + after)[1..] == after;
  }
}
