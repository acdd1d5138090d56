/** The divider and timer threads and their four registers, on a clock counted in cycles. */
module Timing {
  import opened Bits

  const ENABLE_BIT := 2
  const TIMER_IF_BIT := 2
  const DIV_CYCLES := 256

  /** `nextDiv` and `nextInc` are the times at which the two waiting threads wake up. */
  datatype State = State(div: u8, tima: u8, tma: u8, tac: u8, flags: u8,
                         period: nat, now: nat, nextDiv: nat, nextInc: nat)

  datatype Event = DivTick | TimerTick | Write(adr: nat, value: u8, at: nat)

  function Period(tac: u8): nat {
    match tac % 4
    case 0 => 1024
    case 1 => 16
    case 2 => 64
    case _ => 256
  }

  /** A thread wakes when it is due and no other one was due earlier; a write comes in between. */
  predicate Possible(s: State, e: Event) {
    match e
    case DivTick => s.nextDiv <= s.nextInc
    case TimerTick => s.nextInc <= s.nextDiv
    case Write(adr, _, at) => adr < 4 && s.now <= at <= s.nextDiv && at <= s.nextInc
  }

  predicate Overflows(s: State) { Bit(s.tac, ENABLE_BIT) && s.tima == 0xFF }

  function Tick(s: State): State {
    var t := s.(now := s.nextInc, nextInc := s.nextInc + s.period);
    if !Bit(s.tac, ENABLE_BIT) then t
    else if s.tima == 0xFF then t.(tima := s.tma, flags := SetBit8(s.flags, true, TIMER_IF_BIT))
    else t.(tima := s.tima + 1)
  }

  function Step(s: State, e: Event): State {
    match e
    case DivTick => s.(div := Inc8(s.div), now := s.nextDiv, nextDiv := s.nextDiv + DIV_CYCLES)
    case TimerTick => Tick(s)
    case Write(adr, value, at) =>
      var t := s.(now := at);
      if adr == 0 then t.(div := 0)
      else if adr == 1 then t.(tima := value)
      else if adr == 2 then t.(tma := value)
      else if adr == 3 then t.(tac := value, period := Period(value))
      else t
  }

  class Timer {
    var div: u8
    var tima: u8
    var tma: u8
    var tac: u8
    const ifReg: array<u8>
    var cyclesPerInc: nat
    ghost var now: nat
    ghost var nextDiv: nat
    ghost var nextInc: nat

    ghost predicate Valid() { ifReg.Length == 1 }

    ghost function Model(): State
      reads this, ifReg
      requires Valid()
    {
      State(div, tima, tma, tac, ifReg[0], cyclesPerInc, now, nextDiv, nextInc)
    }

    constructor (ifReg: array<u8>, div: u8, tima: u8, tma: u8, tac: u8)
      requires ifReg.Length == 1
      ensures Valid() && this.ifReg == ifReg
      ensures Model() == State(div, tima, tma, tac, ifReg[0], 1024, 0, DIV_CYCLES, 1024)
    {
      this.ifReg := ifReg;
      this.div, this.tima, this.tma, this.tac := div, tima, tma, tac;
      cyclesPerInc := 1024;
      now, nextDiv, nextInc := 0, DIV_CYCLES, 1024;
    }

    method Read(adr: nat) returns (v: u8)
      requires adr < 4
      ensures v == Register(adr)
    {
      match adr {
        case 0 => v := div;
        case 1 => v := tima;
        case 2 => v := tma;
        case _ => v := tac;
      }
    }

    /** A store and a load of one register: DIV reads zero, the others what was stored. */
    method WriteRead(adr: nat, value: u8, ghost at: nat) returns (v: u8)
      requires Valid() && Possible(Model(), Event.Write(adr, value, at))
      modifies this
      ensures Valid() && v == if adr == 0 then 0 else value
    {
      Write(adr, value, at);
      v := Read(adr);
    }

    function Register(adr: nat): u8
      reads this
    {
      if adr == 0 then div else if adr == 1 then tima else if adr == 2 then tma else tac
    }

    /** The body of DivLoop, from one wait to the next. */
    method DivLoopRound()
      requires Valid() && Possible(Model(), DivTick)
      modifies this
      ensures Valid() && Model() == Step(old(Model()), DivTick)
    {
      div := Inc8(div);
      now, nextDiv := nextDiv, nextDiv + DIV_CYCLES;
    }

    /** The body of TimerLoop, from one wait to the next. */
    method TimerLoopRound()
      requires Valid() && Possible(Model(), TimerTick)
      modifies this, ifReg
      ensures Valid() && Model() == Step(old(Model()), TimerTick)
    {
      if Bit(tac, ENABLE_BIT) {
        var oldVal := tima;
        tima := Inc8(tima);
        if oldVal > tima {
          tima := tma;
          ifReg[0] := SetBit8(ifReg[0], true, TIMER_IF_BIT);
        }
      }
      now, nextInc := nextInc, nextInc + cyclesPerInc;
    }

    method Write(adr: nat, value: u8, ghost at: nat)
      requires Valid() && Possible(Model(), Event.Write(adr, value, at))
      modifies this
      ensures Valid() && Model() == Step(old(Model()), Event.Write(adr, value, at))
    {
      match adr {
        case 0 => div := value;
        case 1 => tima := value;
        case 2 => tma := value;
        case _ => tac := value;
      }
      if adr == 0 {
        div := 0;
      }
      if adr == 3 {
        match tac % 4 {
          case 0 => cyclesPerInc := 1024;
          case 1 => cyclesPerInc := 16;
          case 2 => cyclesPerInc := 64;
          case _ => cyclesPerInc := 256;
        }
      }
      now := at;
    }
  }

  // Timer counter: the closed form of any number of ticks.

  function Ticks(s: State, n: nat): State {
    if n == 0 then s else Tick(Ticks(s, n - 1))
  }

  function OverflowCount(s: State, n: nat): nat {
    if n == 0 then 0 else OverflowCount(s, n - 1) + B2N(Overflows(Ticks(s, n - 1)))
  }

  function Quot(e: nat, p: nat): int
    requires p > 0
  {
    e / p
  }

  function Rem(e: nat, p: nat): (r: nat)
    requires p > 0
    ensures r < p
  {
    e % p
  }

  lemma {:induction false} DivModStep(e: nat, p: nat)
    requires p > 0
    ensures Rem(e + 1, p) == (if Rem(e, p) == p - 1 then 0 else Rem(e, p) + 1)
    ensures Quot(e + 1, p) == (if Rem(e, p) == p - 1 then Quot(e, p) + 1 else Quot(e, p))
  {
    var q := if e % p == p - 1 then e / p + 1 else e / p;
    var r := if e % p == p - 1 then 0 else e % p + 1;
    assert e == p * (e / p) + e % p;
    assert e + 1 == p * q + r;
    QuotientUnique(e + 1, p, q, r);
  }

  lemma DivModZero(p: nat)
    requires p > 0
    ensures Quot(0, p) == 0 && Rem(0, p) == 0
  {
  }

  lemma {:induction false} QuotientUnique(x: nat, p: nat, q: nat, r: nat)
    requires p > 0 && x == p * q + r && r < p
    ensures x / p == q && x % p == r
  {
    assert p * (x / p - q) == r - x % p;
    MultipleGap(p, x / p - q);
  }

  lemma {:induction false} MultipleGap(p: int, d: int)
    requires p > 0
    ensures d >= 1 ==> p * d >= p
    ensures d <= -1 ==> p * d <= -p
  {
    if d >= 1 {
      assert p * d == p * (d - 1) + p;
    } else if d <= -1 {
      assert p * d == p * (d + 1) - p;
    }
  }

  lemma EnabledTick(s: State)
    requires Bit(s.tac, ENABLE_BIT)
    ensures Tick(s).tima == (if s.tima == 0xFF then s.tma else s.tima + 1)
    ensures Overflows(s) <==> s.tima == 0xFF
    ensures s.tima != 0xFF ==> Tick(s).flags == s.flags
    ensures s.tima == 0xFF ==> Tick(s).flags == SetBit8(s.flags, true, TIMER_IF_BIT)
  {
  }

  /** Every tick waits one period, whatever it does, and touches only TIMA and the request. */
  lemma {:induction false} TickFrame(s: State, n: nat)
    ensures var t := Ticks(s, n);
      && t == s.(tima := t.tima, flags := t.flags, now := t.now, nextInc := t.nextInc)
      && t.nextInc == s.nextInc + n * s.period
      && (n > 0 ==> t.now == s.nextInc + (n - 1) * s.period)
  {
    if n > 0 {
      TickFrame(s, n - 1);
    }
  }

  lemma {:induction false} BeforeFirstOverflow(s: State, n: nat)
    requires Bit(s.tac, ENABLE_BIT) && n < 0x100 - s.tima as int
    ensures OverflowCount(s, n) == 0 && Ticks(s, n).tima as int == s.tima as int + n && Ticks(s, n).flags == s.flags
  {
    if n > 0 {
      BeforeFirstOverflow(s, n - 1);
      TickFrame(s, n - 1);
      EnabledTick(Ticks(s, n - 1));
    }
  }

  /** Before the first overflow the counter counts up; from then on it runs through the
      256 - TMA values from TMA to 255. */
  lemma {:induction false} TimerClosedForm(s: State, n: nat)
    requires Bit(s.tac, ENABLE_BIT)
    ensures var toFirst := 0x100 - s.tima as int; var cycle := 0x100 - s.tma as int;
      if n < toFirst then
        OverflowCount(s, n) == 0 && Ticks(s, n).tima as int == s.tima as int + n
      else
        && OverflowCount(s, n) == 1 + Quot(n - toFirst, cycle)
        && Ticks(s, n).tima as int == s.tma as int + Rem(n - toFirst, cycle)
  {
    hide Quot, Rem, Tick, Bit;
    var toFirst := 0x100 - s.tima as int;
    var cycle := 0x100 - s.tma as int;
    if n < toFirst {
      BeforeFirstOverflow(s, n);
    } else {
      TickFrame(s, n - 1);
      EnabledTick(Ticks(s, n - 1));
      if n == toFirst {
        BeforeFirstOverflow(s, n - 1);
        DivModZero(cycle);
      } else {
        TimerClosedForm(s, n - 1);
        DivModStep(n - 1 - toFirst, cycle);
      }
    }
  }

  /** Which ticks request an interrupt, and when: the first at the 256 - TIMA'th tick, then one
      every 256 - TMA ticks. */
  lemma {:induction false} InterruptTimes(s: State, n: nat)
    requires Bit(s.tac, ENABLE_BIT) && n > 0
    ensures Overflows(Ticks(s, n - 1)) <==>
      n >= 0x100 - s.tima as int && Rem(n - (0x100 - s.tima as int), 0x100 - s.tma as int) == 0
    ensures Overflows(Ticks(s, n - 1)) ==> Bit(Ticks(s, n).flags, TIMER_IF_BIT)
    ensures Ticks(s, n).now == s.nextInc + (n - 1) * s.period
  {
    hide Quot, Rem, Tick, Bit;
    var before := Ticks(s, n - 1);
    var toFirst := 0x100 - s.tima as int;
    var cycle := 0x100 - s.tma as int;
    TickFrame(s, n);
    TickFrame(s, n - 1);
    EnabledTick(before);
    TimerClosedForm(s, n - 1);
    DivModZero(cycle);
    if n > toFirst {
      DivModStep(n - 1 - toFirst, cycle);
    }
    SetBitFrame(before.flags, true, TIMER_IF_BIT, TIMER_IF_BIT);
  }

  // Any interleaving of the two threads with writes to the four registers.

  function Run(s: State, es: seq<Event>): State {
    if es == [] then s else Step(Run(s, es[..|es| - 1]), es[|es| - 1])
  }

  predicate PossibleRun(s: State, es: seq<Event>) {
    es != [] ==>
      PossibleRun(s, es[..|es| - 1]) && Possible(Run(s, es[..|es| - 1]), es[|es| - 1])
  }

  predicate ResetsDiv(e: Event) { e.Write? && e.adr == 0 }

  /** The time of the last write to DIV, if there was one. */
  function ResetTime(es: seq<Event>, start: nat): nat {
    if es == [] then start
    else if ResetsDiv(es[|es| - 1]) then es[|es| - 1].at
    else ResetTime(es[..|es| - 1], start)
  }

  /** Multiples of 256 cycles passed, as the divider thread sees it. */
  function Boundaries(s: State): int { s.nextDiv / DIV_CYCLES - 1 }

  /** How many of them had been passed at the last write to DIV, and the value it left. */
  function ResetBoundary(s: State, es: seq<Event>): int {
    if es == [] then Boundaries(s)
    else if ResetsDiv(es[|es| - 1]) then Boundaries(Run(s, es[..|es| - 1]))
    else ResetBoundary(s, es[..|es| - 1])
  }

  function DivStart(s: State, es: seq<Event>): u8 {
    if es == [] then s.div else if ResetsDiv(es[|es| - 1]) then 0 else DivStart(s, es[..|es| - 1])
  }

  predicate Initial(s: State) { s.now == 0 && s.nextDiv == DIV_CYCLES && s.nextInc == s.period }

  /** `now` is in the divider interval that ends at `nextDiv`. */
  predicate Aligned(s: State) {
    && s.nextDiv % DIV_CYCLES == 0 && s.nextDiv >= DIV_CYCLES
    && s.nextDiv - DIV_CYCLES <= s.now <= s.nextDiv && s.now <= s.nextInc
  }

  lemma {:induction false} StaysAligned(s: State, es: seq<Event>)
    requires Initial(s) && PossibleRun(s, es)
    ensures Aligned(Run(s, es))
  {
    if es != [] {
      StaysAligned(s, es[..|es| - 1]);
    }
  }

  /** Whatever is written in between, DIV is the number of multiples of 256 cycles that the divider
      thread has passed since DIV was last reset; a reset does not move those multiples. */
  lemma {:induction false} DividerClosedForm(s: State, es: seq<Event>)
    requires Initial(s) && PossibleRun(s, es)
    ensures Run(s, es).div == Wrap(DivStart(s, es) as int + Boundaries(Run(s, es)) - ResetBoundary(s, es))
  {
    if es != [] {
      hide Wrap, Step, Aligned, Boundaries;
      var before, e := es[..|es| - 1], es[|es| - 1];
      DividerClosedForm(s, before);
      StaysAligned(s, before);
      if ResetsDiv(e) {
        ResetStep(Run(s, before), e);
      } else {
        DividerStep(Run(s, before), e);
        WrapAgain(DivStart(s, es) as int + Boundaries(Run(s, before)) - ResetBoundary(s, es), B2N(e.DivTick?));
      }
    }
  }

  lemma ResetStep(s: State, e: Event)
    requires ResetsDiv(e)
    ensures Step(s, e).div == 0 == Wrap(0) && Boundaries(Step(s, e)) == Boundaries(s)
  {
  }

  lemma DividerStep(s: State, e: Event)
    requires Aligned(s) && !ResetsDiv(e)
    ensures Boundaries(Step(s, e)) - Boundaries(s) == B2N(e.DivTick?)
    ensures Step(s, e).div == Wrap(s.div as int + B2N(e.DivTick?))
  {
  }

  /** The multiples passed by an aligned state at its own time: those up to that time, the last of
      which may still be due at the very instant it falls on. */
  lemma {:induction false} BoundariesAtTime(s: State)
    requires Aligned(s)
    ensures Boundaries(s) == s.now / DIV_CYCLES || (s.now % DIV_CYCLES == 0 && Boundaries(s) == s.now / DIV_CYCLES - 1)
  {
    var k := s.nextDiv / DIV_CYCLES;
    assert s.nextDiv == DIV_CYCLES * k;
  }

  lemma {:induction false} BoundaryAtReset(s: State, es: seq<Event>)
    requires Initial(s) && PossibleRun(s, es)
    ensures var at := ResetTime(es, 0); var k := ResetBoundary(s, es);
      k == at / DIV_CYCLES || (at % DIV_CYCLES == 0 && k == at / DIV_CYCLES - 1)
  {
    if es != [] {
      var before, e := es[..|es| - 1], es[|es| - 1];
      if ResetsDiv(e) {
        StaysAligned(s, before);
        ResetWithin(Run(s, before), e);
      } else {
        BoundaryAtReset(s, before);
      }
    }
  }

  lemma {:induction false} ResetWithin(s: State, e: Event)
    requires Aligned(s) && Possible(s, e) && ResetsDiv(e)
    ensures Boundaries(s) == e.at / DIV_CYCLES || (e.at % DIV_CYCLES == 0 && Boundaries(s) == e.at / DIV_CYCLES - 1)
  {
    BoundariesAtTime(s.(now := e.at));
  }

  /** DIV counts the multiples of 256 cycles from the last reset to now, less `x` at the end and `y`
      at the start. */
  ghost predicate DivCounts(s: State, es: seq<Event>, x: nat, y: nat) {
    var r := Run(s, es);
    r.div == Wrap(DivStart(s, es) as int + (r.now / DIV_CYCLES - x) - (ResetTime(es, 0) / DIV_CYCLES - y))
  }

  /** By time alone: DIV counts the multiples of 256 cycles from the last reset up to now. At an
      instant that is itself such a multiple, the order of the two threads decides whether it counts. */
  lemma {:induction false} DividerAtTime(s: State, es: seq<Event>)
    requires Initial(s) && PossibleRun(s, es)
    ensures var atEnd, atStart := Run(s, es).now % DIV_CYCLES == 0, ResetTime(es, 0) % DIV_CYCLES == 0;
      || DivCounts(s, es, 0, 0) || (atEnd && DivCounts(s, es, 1, 0)) || (atStart && DivCounts(s, es, 0, 1))
      || (atEnd && atStart && DivCounts(s, es, 1, 1))
  {
    DividerClosedForm(s, es);
    StaysAligned(s, es);
    BoundariesAtTime(Run(s, es));
    BoundaryAtReset(s, es);
    hide Run, PossibleRun, ResetBoundary, Boundaries, Wrap, Aligned;
  }

  // The timer counter in runs with divider ticks in between.

  function TimerTicks(es: seq<Event>): nat {
    if es == [] then 0 else TimerTicks(es[..|es| - 1]) + B2N(es[|es| - 1].TimerTick?)
  }

  function OverflowsIn(s: State, es: seq<Event>): nat {
    if es == [] then 0
    else
      var before := es[..|es| - 1];
      OverflowsIn(s, before) + B2N(es[|es| - 1].TimerTick? && Overflows(Run(s, before)))
  }

  ghost predicate NoWrites(es: seq<Event>) { forall i :: 0 <= i < |es| ==> !es[i].Write? }

  lemma TickIgnoresDivider(s: State, div: u8, now: nat, nextDiv: nat)
    ensures var t := s.(div := div, now := now, nextDiv := nextDiv);
      && Tick(t) == Tick(s).(div := div, nextDiv := nextDiv)
      && Overflows(t) == Overflows(s)
  {
    hide Bit, SetBit8;
  }

  /** Divider ticks are invisible to the timer counter. */
  lemma {:induction false} RunIsTicks(s: State, es: seq<Event>)
    requires NoWrites(es)
    ensures var r, t := Run(s, es), Ticks(s, TimerTicks(es));
      && r == t.(div := r.div, now := r.now, nextDiv := r.nextDiv)
      && OverflowsIn(s, es) == OverflowCount(s, TimerTicks(es))
  {
    if es != [] {
      hide Tick, Overflows;
      var before := es[..|es| - 1];
      RunIsTicks(s, before);
      assert !es[|es| - 1].Write?;
      var r := Run(s, before);
      TickIgnoresDivider(Ticks(s, TimerTicks(before)), r.div, r.now, r.nextDiv);
    }
  }

  /** Over any run without writes, TIMA and the number of its overflows depend only on the number of
      timer ticks in it. */
  lemma {:induction false} TimerInRun(s: State, es: seq<Event>)
    requires Bit(s.tac, ENABLE_BIT) && NoWrites(es)
    ensures var n, toFirst, cycle := TimerTicks(es), 0x100 - s.tima as int, 0x100 - s.tma as int;
      if n < toFirst then
        OverflowsIn(s, es) == 0 && Run(s, es).tima as int == s.tima as int + n
      else
        && OverflowsIn(s, es) == 1 + Quot(n - toFirst, cycle)
        && Run(s, es).tima as int == s.tma as int + Rem(n - toFirst, cycle)
  {
    hide Bit;
    RunIsTicks(s, es);
    TimerClosedForm(s, TimerTicks(es));
  }

  /** The value of the last write to a register. */
  function LastValue(es: seq<Event>, adr: nat, start: u8): u8 {
    if es == [] then start
    else if es[|es| - 1].Write? && es[|es| - 1].adr == adr then es[|es| - 1].value
    else LastValue(es[..|es| - 1], adr, start)
  }

  /** The period of the last write to TAC; before the first one the thread keeps its own. */
  function LastPeriod(es: seq<Event>, start: nat): nat {
    if es == [] then start
    else if es[|es| - 1].Write? && es[|es| - 1].adr == 3 then Period(es[|es| - 1].value)
    else LastPeriod(es[..|es| - 1], start)
  }

  /** TMA and TAC are what was last written, and the period is that of the last write to TAC. */
  lemma {:induction false} SettingsAreLastWrites(s: State, es: seq<Event>)
    ensures var t := Run(s, es);
      t.tma == LastValue(es, 2, s.tma) && t.tac == LastValue(es, 3, s.tac) && t.period == LastPeriod(es, s.period)
  {
    if es != [] {
      SettingsAreLastWrites(s, es[..|es| - 1]);
    }
  }

  // The settings against the clock and the masks of the hardware.

  const CLOCK := 4194304

  /** TAC's two lower bits select 4096, 262144, 65536 or 16384 ticks a second of the 4194304 Hz clock;
      DIV counts 16384 a second whatever they say. */
  lemma {:induction false} ClockRates(tac: u8)
    ensures Period(tac) * (match tac % 4 case 0 => 4096 case 1 => 262144 case 2 => 65536 case _ => 16384) == CLOCK
    ensures DIV_CYCLES * 16384 == CLOCK
  {
  }

  /** The timer runs by the mask 0b100 of TAC and requests by the mask 0b100 of the interrupt flags. */
  lemma {:induction false} TimerMasks(s: State, tac: bv8, flags: bv8)
    requires s.tac == tac as int && s.flags == flags as int && s.tima == 0xFF
    ensures Overflows(s) == (tac & 4 != 0)
    ensures Overflows(s) ==> Tick(s).flags == (flags | 4) as int && Tick(s).tima == s.tma
    ensures !Overflows(s) ==> Tick(s).flags == s.flags && Tick(s).tima == 0xFF
  {
    DigitIsMask(tac, 2);
    SetBitIsMask(flags, true, 2);
    SetIsOr(flags);
    hide Bit, SetBit;
  }

  lemma SetIsOr(flags: bv8)
    ensures MaskedSet(flags, true, 2) == flags | 4
  {
  }
}
