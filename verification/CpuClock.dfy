/** The modelled CPU as the platform of the decoupled main loop: registers on one side, on the other
    the memory it shares with the devices and whatever else these keep to themselves. */
module CpuClock {
  import opened Wrappers
  import opened Bits
  import opened CpuState
  import CpuStack
  import Timing
  import opened TimeDecoupling

  const LONGEST_INSTRUCTION := 24

  /** Devices read the registers that the CPU stores to, so a timer may take its next period from
      them, but the wake-up they wait for is their own. */
  datatype Devices<X> = Devices(mem: Memory, own: X)

  /** One machine cycle on shared memory. An opcode outside the model stops the simulation, here by
      repeating itself. */
  function Instr<X(!new)>(c: CpuState.State, d: Devices<X>): (CpuState.State, Devices<X>, nat) {
    match Cycle(c.(mem := d.mem))
    case Some(t) => (t, Devices(t.mem, d.own), t.wait)
    case None => (c, d, 4)
  }

  /** The CPU among any devices. */
  ghost predicate IsCpu<X(!new)>(p: Platform<CpuState.State, Devices<X>>) {
    && (forall c: CpuState.State, d: Devices<X> :: p.instr(c, d) == Instr(c, d))
    && (forall a: Devices<X>, b: Devices<X> :: a.own == b.own ==> p.due(a) == p.due(b))
    && (forall d: Devices<X> :: p.due(d).Some? && p.due(p.wake(d)).Some? ==> p.due(d).value < p.due(p.wake(d)).value)
  }

  lemma {:induction false} CpuIsScheduled<X(!new)>(p: Platform<CpuState.State, Devices<X>>)
    requires IsCpu(p)
    ensures p.Scheduled()
  {
    hide Cycle;
    forall c: CpuState.State, d: Devices<X> ensures p.due(p.instr(c, d).1) == p.due(d) {
      assert p.instr(c, d).1.own == d.own;
    }
  }

  lemma {:induction false} InstrCost<X(!new)>(c: CpuState.State, d: Devices<X>)
    ensures 4 <= Instr(c, d).2 <= LONGEST_INSTRUCTION
  {
    hide Cycle;
    if Cycle(c.(mem := d.mem)).Some? {
      CycleCost(c.(mem := d.mem));
    }
  }

  /** The CPU's own time passes a pending wake-up by at most one instruction, which is at most 24
      clock cycles, however many instructions ran ahead of it. */
  lemma {:induction false} OvershootInCycles<X(!new)>(
    p: Platform<CpuState.State, Devices<X>>, s: TimeDecoupling.State<CpuState.State, Devices<X>>, n: nat)
    requires IsCpu(p) && p.Scheduled() && Inv(p, s) && s.local == 0
    ensures var t, u := Rounds(p, s, false, n), Rounds(p, s, false, n + 1);
      p.due(t.d).Some? ==> u.now + u.local <= p.due(t.d).value + LONGEST_INSTRUCTION
  {
    var t := Rounds(p, s, false, n);
    DecouplingIsInvisible(p, s, n);
    InstrCost(t.c, t.d);
    hide Instr;
    assert p.instr(t.c, t.d) == Instr(t.c, t.d);
  }

  lemma {:induction false} InstrKeepsLow<X(!new)>(c: CpuState.State, d: Devices<X>)
    ensures Instr(c, d).0.f.low == c.f.low
  {
    hide Cycle;
    var s := c.(mem := d.mem);
    if Cycle(s).Some? {
      assert RunFor(Cycle(s).value, 0) == Some(Cycle(s).value);
      CpuStack.LowNibbleInvariant(s, 1);
    }
  }

  lemma {:induction false} RoundKeepsLow<X(!new)>(
    p: Platform<CpuState.State, Devices<X>>, s: TimeDecoupling.State<CpuState.State, Devices<X>>, singleStep: bool)
    requires IsCpu(p) && p.Scheduled()
    ensures Round(p, s, singleStep).c.f.low == s.c.f.low
  {
    InstrKeepsLow(s.c, s.d);
    hide Instr;
    assert p.instr(s.c, s.d) == Instr(s.c, s.d);
  }

  /** From power-on, among devices that raise interrupts and change memory as they please, the low
      nibble of F is zero before every instruction. */
  lemma {:induction false} LowNibbleIsZero<X(!new)>(
    p: Platform<CpuState.State, Devices<X>>, s: TimeDecoupling.State<CpuState.State, Devices<X>>,
    singleStep: bool, n: nat)
    requires IsCpu(p) && p.Scheduled() && s.c == PowerOn(s.d.mem)
    ensures Rounds(p, s, singleStep, n).c.f.low == 0
  {
    hide IsCpu, Round;
    if n > 0 {
      LowNibbleIsZero(p, s, singleStep, n - 1);
      RoundKeepsLow(p, Rounds(p, s, singleStep, n - 1), singleStep);
    }
  }

  // The timer counter as such a device.

  const TIMA_ADDR: u16 := 0xFF05
  const TMA_ADDR: u16 := 0xFF06
  const TAC_ADDR: u16 := 0xFF07

  /** The timer at its wake-up `next`: registers and request in memory, the period by the TAC in force. */
  function TimerState(m: Memory, next: nat): Timing.State {
    Timing.State(0, m[TIMA_ADDR], m[TMA_ADDR], m[TAC_ADDR], m[IF_ADDR], Timing.Period(m[TAC_ADDR]), 0, 0, next)
  }

  function WakeTimer(d: Devices<nat>): Devices<nat> {
    var t := Timing.Tick(TimerState(d.mem, d.own));
    Devices(d.mem[TIMA_ADDR := t.tima][IF_ADDR := t.flags], t.nextInc)
  }

  function CpuWithTimer(devicesFirst: bool): Platform<CpuState.State, Devices<nat>> {
    Platform((c, d) => Instr(c, d), (d: Devices<nat>) => Some(d.own), d => WakeTimer(d), devicesFirst)
  }

  /** A store to TAC changes when the timer wakes later, not when it wakes next: the CPU with its timer
      is a platform on which decoupling is invisible. */
  lemma {:induction false} TimerIsDecoupled(
    s: TimeDecoupling.State<CpuState.State, Devices<nat>>, devicesFirst: bool, n: nat)
    requires s.local == 0 && s.now < s.d.own
    ensures var p := CpuWithTimer(devicesFirst);
      p.Scheduled() && Agree(Rounds(p, s, false, n), Rounds(p, s, true, n))
  {
    hide Instr;
    var p := CpuWithTimer(devicesFirst);
    forall d: Devices<nat> ensures p.due(d).value < p.due(p.wake(d)).value {
    }
    assert IsCpu(p);
    CpuIsScheduled(p);
    DecouplingIsInvisible(p, s, n);
  }
}
