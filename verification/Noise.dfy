/** The integer part of the noise channel: the shift register and the counter that clocks it. */
module NoiseChannel {
  import opened Bits
  import Timing
  import opened ShiftRegister

  const SAMPLE_LENGTH := 4194304 / 44000

  // The registers in the IO block.
  const NR41 := 0xFF20 - 0xFF10
  const NR42 := 0xFF21 - 0xFF10
  const NR43 := 0xFF22 - 0xFF10
  const NR52 := 0xFF26 - 0xFF10
  const NOISE_STATUS_BIT := 3

  const DIVISORS: seq<nat> := [8, 16, 32, 48, 64, 80, 96, 112]

  /** Clock cycles to a step: 16 for each unit of the divisor code, 8 for none, doubled by each unit
      of the shift. */
  function TicksPerStep(nr43: u8): (p: nat)
    ensures p >= 8
  {
    var divisor := if nr43 % 8 == 0 then 8 else 16 * (nr43 % 8);
    assert divisor * Pow2(nr43 / 16) >= divisor;
    divisor * Pow2(nr43 / 16)
  }

  function Width(nr43: u8): bv5 { if Bit(nr43, 3) then 7 else 15 }

  // The sample loop.

  /** `cntr` counts clock cycles not yet turned into steps; `sum` is the last sum of output bits. */
  datatype Channel = Channel(bits: Register, cntr: nat, sum: nat)

  function OnesSeen(b: Register, w: bv5, n: nat): (r: nat)
    ensures r <= n
  {
    if n == 0 then 0 else OnesSeen(b, w, n - 1) + (ShiftN(b, w, n) & 1) as nat
  }

  function Due(c: Channel, p: nat): nat
    requires p > 0
  {
    (c.cntr + SAMPLE_LENGTH) / p
  }

  function Sample(c: Channel, w: bv5, p: nat): Channel
    requires p > 0
  {
    var n := Due(c, p);
    Channel(ShiftN(c.bits, w, n), (c.cntr + SAMPLE_LENGTH) % p, if n == 0 then c.sum else OnesSeen(c.bits, w, n))
  }

  /** The mean output bit of the sample; with no step due, the undivided sum of an earlier sample. */
  function Level(c: Channel, w: bv5, p: nat): real
    requires p > 0
  {
    var n := Due(c, p);
    if n == 0 then c.sum as real else OnesSeen(c.bits, w, n) as real / n as real
  }

  function SampleN(c: Channel, w: bv5, p: nat, n: nat): Channel
    requires p > 0
  {
    if n == 0 then c else Sample(SampleN(c, w, p, n - 1), w, p)
  }

  /** The level of sample `i`. */
  function LevelAt(c: Channel, w: bv5, p: nat, i: nat): real
    requires p > 0
  {
    Level(SampleN(c, w, p, i), w, p)
  }

  function TotalSteps(c: Channel, w: bv5, p: nat, n: nat): nat
    requires p > 0
  {
    if n == 0 then 0 else TotalSteps(c, w, p, n - 1) + Due(SampleN(c, w, p, n - 1), p)
  }

  const MAX_TICKS := 112 * 0x8000

  class Noise {
    /** The IO block, shared with the bus. */
    const io: array<u8>
    var lfsrBits: Register
    var lfsrWidth: bv5
    var cpuTicksPerLfsrSample: nat
    var tickCntr: nat
    var lengthLoad: nat
    var lengthEnable: bool
    var volume: nat
    /** A static variable of DoLfsrTicks. */
    var sum: nat

    ghost predicate Valid()
      reads this
    {
      io.Length == 0x80 && 0 < cpuTicksPerLfsrSample <= MAX_TICKS && tickCntr <= MAX_TICKS
    }

    ghost function Model(): Channel
      reads this
    {
      Channel(lfsrBits, tickCntr, sum)
    }

    constructor (io: array<u8>, bits: Register, cntr: nat)
      requires io.Length == 0x80 && cntr <= MAX_TICKS
      ensures Valid() && this.io == io && Model() == Channel(bits, cntr, 0)
    {
      this.io := io;
      lfsrBits, tickCntr, sum := bits, cntr, 0;
      lfsrWidth, cpuTicksPerLfsrSample, lengthLoad, lengthEnable, volume := 15, 8, 0, false, 0;
    }

    /** What the audio callback reads from NR43. */
    method Configure()
      requires Valid()
      modifies this`lfsrWidth, this`cpuTicksPerLfsrSample
      ensures Valid() && lfsrWidth == Width(io[NR43]) && cpuTicksPerLfsrSample == TicksPerStep(io[NR43])
    {
      TicksRange(io[NR43]);
      var divisor := DIVISORS[io[NR43] % 8];
      lfsrWidth := if Bit(io[NR43], 3) then 7 else 15;
      var shift := io[NR43] / 16;
      cpuTicksPerLfsrSample := divisor * Pow2(shift);
    }

    /** TriggerEventNoise restarts the register and the volume, and reports the channel as playing if
        its amplifier is on; the cycle counter runs on. */
    method Trigger()
      requires Valid()
      modifies this`lfsrBits, this`lengthLoad, this`volume, io
      ensures Valid() && lfsrBits == 0 && volume == old(io[NR42]) / 16
      ensures lengthLoad == if old(lengthLoad) == 0 then 64 - old(io[NR41]) as int % 64 else old(lengthLoad)
      ensures io[..] == if old(io[NR42]) >= 8 then old(io[..])[NR52 := SetBit8(old(io[NR52]), true, NOISE_STATUS_BIT)]
                        else old(io[..])
    {
      if lengthLoad == 0 {
        lengthLoad := 64 - io[NR41] as int % 64;
      }
      volume := io[NR42] / 16;
      lfsrBits := 0;
      if io[NR42] / 8 != 0 {
        io[NR52] := SetBit8(io[NR52], true, NOISE_STATUS_BIT);
      }
    }

    method DoLfsrTicks(numTicks: nat) returns (level: real)
      modifies this`lfsrBits, this`sum
      ensures lfsrBits == ShiftN(old(lfsrBits), lfsrWidth, numTicks)
      ensures sum == if numTicks == 0 then old(sum) else OnesSeen(old(lfsrBits), lfsrWidth, numTicks)
      ensures level == if numTicks == 0 then sum as real else sum as real / numTicks as real
    {
      hide Shift;
      if numTicks == 0 {
        return sum as real;
      }
      sum := 0;
      for i := 0 to numTicks
        invariant lfsrBits == ShiftN(old(lfsrBits), lfsrWidth, i)
        invariant sum == OnesSeen(old(lfsrBits), lfsrWidth, i)
      {
        lfsrBits := Shift(lfsrBits, lfsrWidth);
        sum := sum + (lfsrBits & 1) as nat;
      }
      level := sum as real / numTicks as real;
    }

    /** The body of the sample loop. */
    method WriteSample() returns (level: real)
      requires Valid()
      modifies this`lfsrBits, this`sum, this`tickCntr
      ensures Valid() && Model() == Sample(old(Model()), lfsrWidth, cpuTicksPerLfsrSample)
      ensures level == Level(old(Model()), lfsrWidth, cpuTicksPerLfsrSample)
    {
      hide ShiftN, OnesSeen;
      tickCntr := (tickCntr + SAMPLE_LENGTH) % 0x1_0000_0000;
      var lfsrTicks := tickCntr / cpuTicksPerLfsrSample;
      level := DoLfsrTicks(lfsrTicks);
      RemainderOf(tickCntr, cpuTicksPerLfsrSample);
      tickCntr := tickCntr - lfsrTicks * cpuTicksPerLfsrSample;
    }

    method WriteDataIntoStream(length: nat) returns (levels: seq<real>)
      requires Valid()
      modifies this`lfsrBits, this`sum, this`tickCntr
      ensures Valid()
      ensures old(lengthLoad) == 0 && old(lengthEnable) ==> levels == [] && Model() == old(Model())
      ensures !(old(lengthLoad) == 0 && old(lengthEnable)) ==>
        && Model() == SampleN(old(Model()), lfsrWidth, cpuTicksPerLfsrSample, length)
        && |levels| == length
        && forall i :: 0 <= i < length ==> levels[i] == LevelAt(old(Model()), lfsrWidth, cpuTicksPerLfsrSample, i)
    {
      hide Sample, Level;
      levels := [];
      if lengthLoad == 0 && lengthEnable {
        return;
      }
      for i := 0 to length
        invariant Valid() && |levels| == i
        invariant Model() == SampleN(old(Model()), lfsrWidth, cpuTicksPerLfsrSample, i)
        invariant forall j :: 0 <= j < i ==> levels[j] == LevelAt(old(Model()), lfsrWidth, cpuTicksPerLfsrSample, j)
      {
        var level := WriteSample();
        levels := levels + [level];
      }
    }
  }

  lemma TicksRange(nr43: u8)
    ensures TicksPerStep(nr43) == DIVISORS[nr43 % 8] * Pow2(nr43 / 16) <= MAX_TICKS
  {
    PowerRange(nr43 / 16);
    var d := DIVISORS[nr43 % 8];
    assert d * Pow2(nr43 / 16) <= 112 * 0x8000 by {
      assert d * Pow2(nr43 / 16) <= d * 0x8000;
    }
  }

  lemma {:induction false} PowerRange(i: nat)
    requires i <= 15
    ensures Pow2(i) <= 0x8000
    decreases 15 - i
  {
    if i == 15 {
      assert Pow2(4) == 16 && Pow2(8) == 16 * Pow2(4) && Pow2(12) == 16 * Pow2(8) && Pow2(15) == 8 * Pow2(12);
    } else {
      PowerRange(i + 1);
    }
  }

  lemma RemainderOf(x: nat, p: nat)
    requires p > 0
    ensures x - x / p * p == x % p && x % p < p
  {
  }

  /** The clock cycles that `steps` steps of `p` cycles take. */
  function Cycles(steps: nat, p: nat): int { steps * p }

  /** Clock cycles are neither lost nor made up: whole steps and the rest in the counter account
      for all of them. */
  lemma {:induction false} StepConservation(c: Channel, w: bv5, p: nat, n: nat)
    requires p > 0
    ensures SampleN(c, w, p, n).cntr + Cycles(TotalSteps(c, w, p, n), p) == c.cntr + n * SAMPLE_LENGTH
    ensures n > 0 || c.cntr < p ==> SampleN(c, w, p, n).cntr < p
  {
    hide ShiftN, Sample, Due, Cycles;
    if n == 0 {
      NoCycles(p);
    } else {
      StepConservation(c, w, p, n - 1);
      SampleConserves(SampleN(c, w, p, n - 1), w, p);
      Distribute(TotalSteps(c, w, p, n - 1), Due(SampleN(c, w, p, n - 1), p), p);
    }
  }

  /** The samples change the register by the total number of steps and by nothing else. */
  lemma {:induction false} StepsAddUp(c: Channel, w: bv5, p: nat, n: nat)
    requires p > 0
    ensures SampleN(c, w, p, n).bits == ShiftN(c.bits, w, TotalSteps(c, w, p, n))
  {
    if n > 0 {
      hide ShiftN, Sample, Due;
      StepsAddUp(c, w, p, n - 1);
      SampleConserves(SampleN(c, w, p, n - 1), w, p);
      ShiftNPlus(c.bits, w, TotalSteps(c, w, p, n - 1), Due(SampleN(c, w, p, n - 1), p));
    }
  }

  lemma NoCycles(p: nat)
    ensures Cycles(0, p) == 0
  {
  }

  lemma SampleConserves(c: Channel, w: bv5, p: nat)
    requires p > 0
    ensures Sample(c, w, p).cntr + Cycles(Due(c, p), p) == c.cntr + SAMPLE_LENGTH
    ensures Sample(c, w, p).cntr < p && Sample(c, w, p).bits == ShiftN(c.bits, w, Due(c, p))
  {
    hide ShiftN, OnesSeen;
    RemainderOf(c.cntr + SAMPLE_LENGTH, p);
  }

  lemma Distribute(a: nat, b: nat, p: nat)
    ensures Cycles(a + b, p) == Cycles(a, p) + Cycles(b, p)
  {
  }

  /** At fixed settings, `n` samples step the register once for each whole `p` of the cycles
      counted, and the rest stays in the counter. */
  lemma {:induction false} StepCount(c: Channel, w: bv5, p: nat, n: nat)
    requires p > 0 && (n > 0 || c.cntr < p)
    ensures TotalSteps(c, w, p, n) == (c.cntr + 95 * n) / p
    ensures SampleN(c, w, p, n).bits == ShiftN(c.bits, w, (c.cntr + 95 * n) / p)
    ensures SampleN(c, w, p, n).cntr == (c.cntr + 95 * n) % p
  {
    hide ShiftN, SampleN, TotalSteps;
    StepConservation(c, w, p, n);
    StepsAddUp(c, w, p, n);
    DivisionIs(c.cntr + n * SAMPLE_LENGTH, p, TotalSteps(c, w, p, n), SampleN(c, w, p, n).cntr);
  }

  lemma {:induction false} DivisionIs(x: nat, p: nat, q: nat, r: nat)
    requires p > 0 && x == q * p + r && r < p
    ensures x / p == q && x % p == r
  {
    Timing.QuotientUnique(x, p, q, r);
  }

  /** A sample is a mean, so in 0..1, exactly if a step is due or the held sum is at most 1. */
  lemma {:induction false} LevelInRange(c: Channel, w: bv5, p: nat)
    requires p > 0
    ensures 0.0 <= Level(c, w, p)
    ensures Level(c, w, p) <= 1.0 <==> Due(c, p) > 0 || c.sum <= 1
    ensures Due(c, p) > 0 ==> Level(c, w, p) * Due(c, p) as real == OnesSeen(c.bits, w, Due(c, p)) as real
  {
    var n := Due(c, p);
    if n > 0 {
      var m := OnesSeen(c.bits, w, n);
      assert m as real <= n as real;
    }
  }

  /** At fixed settings every sample is in range, unless a sum above 1 is held over from settings
      with more than one step to a sample. */
  lemma {:induction false} LevelsStayInRange(c: Channel, w: bv5, p: nat, n: nat)
    requires p > 0 && c.cntr < p && (c.sum <= 1 || p <= SAMPLE_LENGTH)
    ensures 0.0 <= LevelAt(c, w, p, n) <= 1.0
    ensures p > SAMPLE_LENGTH ==> SampleN(c, w, p, n).sum <= 1
  {
    StepConservation(c, w, p, n);
    var d := SampleN(c, w, p, n);
    if p > SAMPLE_LENGTH {
      if n > 0 {
        LevelsStayInRange(c, w, p, n - 1);
        StepConservation(c, w, p, n - 1);
        AtMostOne(SampleN(c, w, p, n - 1), p);
      }
    } else {
      QuotientPositive(d.cntr + SAMPLE_LENGTH, p);
    }
    LevelInRange(d, w, p);
  }

  lemma AtMostOne(c: Channel, p: nat)
    requires p > SAMPLE_LENGTH && c.cntr < p
    ensures Due(c, p) <= 1
  {
  }

  lemma QuotientPositive(x: nat, p: nat)
    requires 0 < p <= x
    ensures x / p > 0
  {
  }

  lemma HalfOfQuotient(x: nat, p: nat)
    requires p > 0
    ensures x / (2 * p) == x / p / 2
  {
    var q := x / p;
    RemainderOf(x, p);
    assert q / 2 * (2 * p) == q / 2 * 2 * p;
    assert x == q / 2 * (2 * p) + (q % 2 * p + x % p);
    DivisionIs(x, 2 * p, q / 2, q % 2 * p + x % p);
  }

  lemma WidthBit(nr43: u8)
    ensures Bit(nr43, 3) == (nr43 / 8 % 2 == 1)
  {
    assert Bit(nr43, 3) == Bit(nr43 / 2, 2) == Bit(nr43 / 2 / 2, 1) == Bit(nr43 / 2 / 2 / 2, 0);
    assert nr43 / 2 / 2 / 2 == nr43 / 8;
  }

  lemma DoublePower(d: nat, i: nat)
    ensures d * Pow2(i + 1) == 2 * (d * Pow2(i))
  {
  }

  lemma OneShiftMore(nr43: u8)
    requires nr43 < 0xF0
    ensures TicksPerStep(nr43 + 16) == 2 * TicksPerStep(nr43) && Width(nr43 + 16) == Width(nr43)
  {
    hide Pow2, Bit;
    WidthBit(nr43);
    WidthBit(nr43 + 16);
    assert (nr43 + 16) / 16 == nr43 / 16 + 1 && (nr43 + 16) % 8 == nr43 % 8 && (nr43 + 16) / 8 == nr43 / 8 + 2;
    DoublePower(if nr43 % 8 == 0 then 8 else 16 * (nr43 % 8), nr43 / 16);
  }

  /** One unit more in NR43's shift field halves the steps of any number of samples. */
  lemma {:induction false} ShiftHalvesRate(c: Channel, nr43: u8, n: nat)
    requires nr43 < 0xF0 && c.cntr < TicksPerStep(nr43)
    ensures TotalSteps(c, Width(nr43 + 16), TicksPerStep(nr43 + 16), n)
         == TotalSteps(c, Width(nr43), TicksPerStep(nr43), n) / 2
  {
    hide TicksPerStep, Width, TotalSteps, SampleN;
    OneShiftMore(nr43);
    var p := TicksPerStep(nr43);
    StepCount(c, Width(nr43), p, n);
    StepCount(c, Width(nr43), 2 * p, n);
    HalfOfQuotient(c.cntr + n * SAMPLE_LENGTH, p);
  }

  /** A sample out of range: seven bits and the fastest clock right after a trigger leave a sum of 5;
      the slowest clock then makes no step and returns that sum. */
  lemma {:induction false} LevelCanExceedOne()
    ensures var c := Sample(Channel(0, 0, 0), Width(0x08), TicksPerStep(0x08));
      Due(c, TicksPerStep(0xF7)) == 0 && Level(c, Width(0xF7), TicksPerStep(0xF7)) == 5.0
  {
    SettingsUsed();
    FirstEleven();
    hide TicksPerStep, Width, ShiftN, OnesSeen;
  }

  lemma SettingsUsed()
    ensures TicksPerStep(0x08) == 8 && TicksPerStep(0xF7) == 112 * 0x8000 && Width(0x08) == 7
  {
    WidthBit(0x08);
    assert Pow2(0) == 1 && Pow2(5) == 32 && Pow2(10) == 32 * Pow2(5) && Pow2(15) == 32 * Pow2(10);
  }

  lemma FirstEleven()
    ensures OnesSeen(0, 7, 11) == 5
  {
    assert ShiftN(0, 7, 1) == 0x40 && ShiftN(0, 7, 2) == 0x60 && ShiftN(0, 7, 3) == 0x70;
    assert ShiftN(0, 7, 4) == 0x78 && ShiftN(0, 7, 5) == 0x7C && ShiftN(0, 7, 6) == 0x7E;
    assert ShiftN(0, 7, 7) == 0x3F && ShiftN(0, 7, 8) == 0x5F && ShiftN(0, 7, 9) == 0x6F;
    assert ShiftN(0, 7, 10) == 0x77 && ShiftN(0, 7, 11) == 0x7B;
    assert OnesSeen(0, 7, 6) == 0 && OnesSeen(0, 7, 11) == 5;
  }
}
