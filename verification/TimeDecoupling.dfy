/** Time decoupling in the CPU's main loop: instructions run ahead of the kernel's clock on a
    local offset and wait only when a device is due. The single-step option of the same loop,
    which waits after every instruction, is the lock-step machine it is compared with. */
module TimeDecoupling {
  import opened Wrappers

  /** `instr` executes one instruction on the CPU and device state and says what it costs; `due` is
      the instant at which devices wake next, and `wake` is what they then do, the next wake-up
      included. With `devicesFirst`, devices due at the very instant the CPU resumes run before it. */
  datatype Platform<!C(!new), !D(!new)> = Platform(
    instr: (C, D) -> (C, D, nat), due: D -> Option<nat>, wake: D -> D, devicesFirst: bool)
  {
    /** Wake-ups follow one another in time. Whatever an instruction stores may change when devices
        wake later, but not the wake-up already pending. */
    ghost predicate Scheduled() {
      && (forall d :: due(d).Some? && due(wake(d)).Some? ==> due(d).value < due(wake(d)).value)
      && (forall c, d :: due(instr(c, d).1) == due(d))
    }

    predicate IsDue(d: D, t: nat) {
      due(d).Some? && (due(d).value < t || (devicesFirst && due(d).value == t))
    }

    function Budget(d: D, t: nat): nat {
      if due(d).Some? && due(d).value <= t then t + 1 - due(d).value else 0
    }

    /** Devices run until the kernel's clock reaches `t`. */
    function Advance(d: D, t: nat): D
      requires Scheduled()
      decreases Budget(d, t)
    {
      if IsDue(d, t) then Advance(wake(d), t) else d
    }
  }

  /** The loop at its head: CPU, devices, kernel time, local offset. */
  datatype State<C, D> = State(c: C, d: D, now: nat, local: nat)

  /** One round: execute, add the cost, wait if a device is due, if none ever is, or in
      single-step mode. */
  function Round<C(!new), D(!new)>(p: Platform<C, D>, s: State<C, D>, singleStep: bool): State<C, D>
    requires p.Scheduled()
  {
    var (c, d, cost) := p.instr(s.c, s.d);
    var local := s.local + cost;
    var limit := p.due(d);
    if limit.None? || limit.value - s.now <= local || singleStep then
      State(c, p.Advance(d, s.now + local), s.now + local, 0)
    else State(c, d, s.now, local)
  }

  function Rounds<C(!new), D(!new)>(p: Platform<C, D>, s: State<C, D>, singleStep: bool, n: nat): State<C, D>
    requires p.Scheduled()
  {
    if n == 0 then s else Round(p, Rounds(p, s, singleStep, n - 1), singleStep)
  }

  /** Total cost of the first `n` instructions. */
  function Cost<C(!new), D(!new)>(p: Platform<C, D>, s: State<C, D>, singleStep: bool, n: nat): nat
    requires p.Scheduled()
  {
    if n == 0 then 0
    else
      var t := Rounds(p, s, singleStep, n - 1);
      Cost(p, s, singleStep, n - 1) + p.instr(t.c, t.d).2
  }

  /** No wake-up lies behind the CPU's own time; if the CPU is ahead of the kernel, the next one
      is strictly in front of it. */
  ghost predicate Inv<C(!new), D(!new)>(p: Platform<C, D>, s: State<C, D>) {
    && (p.due(s.d).Some? ==> !p.IsDue(s.d, s.now) && s.now <= p.due(s.d).value)
    && (s.local > 0 ==> p.due(s.d).Some? && s.now + s.local < p.due(s.d).value)
  }

  /** The two machines agree on everything an instruction can see, and on the time it is. */
  ghost predicate Agree<C(!new), D(!new)>(s: State<C, D>, lock: State<C, D>) {
    s.c == lock.c && s.d == lock.d && s.now + s.local == lock.now && lock.local == 0
  }

  /** After an advance nothing is due, and what is next is not in the past. */
  lemma {:induction false} AdvanceCatchesUp<C(!new), D(!new)>(p: Platform<C, D>, d: D, t: nat)
    requires p.Scheduled()
    ensures var d' := p.Advance(d, t);
      !p.IsDue(d', t) && (p.due(d').Some? ==> t <= p.due(d').value)
    decreases p.Budget(d, t)
  {
    if p.IsDue(d, t) {
      AdvanceCatchesUp(p, p.wake(d), t);
    }
  }

  lemma {:induction false} RoundKeepsInv<C(!new), D(!new)>(p: Platform<C, D>, s: State<C, D>, singleStep: bool)
    requires p.Scheduled() && Inv(p, s)
    ensures Inv(p, Round(p, s, singleStep))
  {
    var (_, d, cost) := p.instr(s.c, s.d);
    AdvanceCatchesUp(p, d, s.now + s.local + cost);
  }

  /** One decoupled round against one lock-step round. */
  lemma {:induction false} RoundAgrees<C(!new), D(!new)>(p: Platform<C, D>, s: State<C, D>, lock: State<C, D>)
    requires p.Scheduled() && Inv(p, s) && Agree(s, lock)
    ensures Agree(Round(p, s, false), Round(p, lock, true))
  {
    var (_, d, cost) := p.instr(s.c, s.d);
    assert s.now + s.local + cost == lock.now + cost;
  }

  /** Every instruction of the decoupled machine sees the same CPU and device state, at the same
      time, as in the machine that waits after every instruction. */
  lemma {:induction false} DecouplingIsInvisible<C(!new), D(!new)>(p: Platform<C, D>, s: State<C, D>, n: nat)
    requires p.Scheduled() && Inv(p, s) && s.local == 0
    ensures Inv(p, Rounds(p, s, false, n))
    ensures Agree(Rounds(p, s, false, n), Rounds(p, s, true, n))
  {
    if n > 0 {
      DecouplingIsInvisible(p, s, n - 1);
      RoundKeepsInv(p, Rounds(p, s, false, n - 1), false);
      RoundAgrees(p, Rounds(p, s, false, n - 1), Rounds(p, s, true, n - 1));
    }
  }

  /** Kernel time plus offset is the sum of all costs. */
  lemma {:induction false} TimeIsCost<C(!new), D(!new)>(p: Platform<C, D>, s: State<C, D>, singleStep: bool, n: nat)
    requires p.Scheduled() && s.local == 0
    ensures var t := Rounds(p, s, singleStep, n); t.now + t.local == s.now + Cost(p, s, singleStep, n)
  {
    if n > 0 {
      TimeIsCost(p, s, singleStep, n - 1);
    }
  }

  /** A pending wake-up is overshot by at most the instruction in flight. */
  lemma {:induction false} Overshoot<C(!new), D(!new)>(p: Platform<C, D>, s: State<C, D>)
    requires p.Scheduled() && Inv(p, s) && p.due(s.d).Some?
    requires Round(p, s, false).local == 0
    ensures Round(p, s, false).now <= p.due(s.d).value + p.instr(s.c, s.d).2
  {
  }

  /** The loop with its own variables, waiting on a kernel that runs the devices. */
  class MainLoop<C(!new), D(!new)> {
    const p: Platform<C, D>
    var c: C
    var d: D
    var now: nat
    var localTimeDelta: nat

    constructor (p: Platform<C, D>, c: C, d: D)
      ensures this.p == p && View() == State(c, d, 0, 0)
    {
      this.p, this.c, this.d, now, localTimeDelta := p, c, d, 0, 0;
    }

    function View(): State<C, D>
      reads this
    {
      State(c, d, now, localTimeDelta)
    }

    /** The kernel's part of a wait: run what is due, then move the clock. */
    method Wait(delta: nat)
      requires p.Scheduled()
      modifies this
      ensures c == old(c) && localTimeDelta == old(localTimeDelta) && now == old(now) + delta
      ensures d == p.Advance(old(d), old(now) + delta)
    {
      ghost var target := p.Advance(d, now + delta);
      while p.IsDue(d, now + delta)
        invariant c == old(c) && localTimeDelta == old(localTimeDelta) && now == old(now)
        invariant p.Advance(d, now + delta) == target
        decreases p.Budget(d, now + delta)
      {
        d := p.wake(d);
      }
      now := now + delta;
    }

    method DoMachineCycle(singleStep: bool)
      requires p.Scheduled()
      modifies this
      ensures View() == Round(p, old(View()), singleStep)
    {
      var (c', d', waitNs) := p.instr(c, d);
      c, d := c', d';
      localTimeDelta := localTimeDelta + waitNs;
      var pending := p.due(d);
      if pending.None? || pending.value - now <= localTimeDelta || singleStep {
        Wait(localTimeDelta);
        localTimeDelta := 0;
      }
    }
  }
}
