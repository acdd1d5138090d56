/** The feedback shift register of the noise channel, which counts as locked up when it holds all
    ones of its width. */
module ShiftRegister {
  type Register = bv32

  function NewBit(b: Register): Register { if (b & 1) ^ ((b >> 1) & 1) == 0 then 1 else 0 }

  function Shift(b: Register, w: bv5): Register { (b | (NewBit(b) << w)) >> 1 }

  function ShiftN(b: Register, w: bv5, n: nat): Register {
    if n == 0 then b else Shift(ShiftN(b, w, n - 1), w)
  }

  predicate IsWidth(w: bv5) { w == 7 || w == 15 }

  /** All the bits of a `w`-bit register. */
  function Ones(w: bv5): Register { (1 << w) - 1 }

  lemma ShiftKeepsWidth(b: Register, w: bv5)
    requires IsWidth(w) && b <= Ones(w)
    ensures Shift(b, w) <= Ones(w)
  {
  }

  lemma ShiftIsInjective(a: Register, b: Register, w: bv5)
    requires IsWidth(w) && a <= Ones(w) && b <= Ones(w) && Shift(a, w) == Shift(b, w)
    ensures a == b
  {
  }

  lemma OnesIsFixed(w: bv5)
    requires IsWidth(w)
    ensures Shift(Ones(w), w) == Ones(w)
  {
  }

  /** At constant width a run keeps the register inside the width, never merges two states, and
      is locked up exactly if it started locked up. */
  lemma {:induction false} ConstantWidthRuns(a: Register, b: Register, w: bv5, n: nat)
    requires IsWidth(w) && a <= Ones(w) && b <= Ones(w)
    ensures ShiftN(a, w, n) <= Ones(w) && ShiftN(b, w, n) <= Ones(w)
    ensures ShiftN(a, w, n) == ShiftN(b, w, n) ==> a == b
    ensures ShiftN(a, w, n) == Ones(w) <==> a == Ones(w)
  {
    if n > 0 {
      hide Shift, Ones, IsWidth;
      ConstantWidthRuns(a, b, w, n - 1);
      var x, y := ShiftN(a, w, n - 1), ShiftN(b, w, n - 1);
      ShiftKeepsWidth(x, w);
      ShiftKeepsWidth(y, w);
      OnesIsFixed(w);
      if Shift(x, w) == Shift(y, w) {
        ShiftIsInjective(x, y, w);
      }
      if Shift(x, w) == Ones(w) {
        ShiftIsInjective(x, Ones(w), w);
      }
    }
  }

  // Changing the width in mid run: bits above the new width are OR-ed into the feedback.

  predicate BitOf(b: Register, i: bv5) { (b >> i) & 1 == 1 }

  predicate Same(b: Register, i: bv5) { BitOf(b, i) == BitOf(b, i + 1) }

  /** The bit that the first 7-bit step shifts in. */
  predicate FirstIn(b: Register) { BitOf(b, 7) || Same(b, 0) }

  /** The next seven steps all shift in a one, from the feedback or from an old upper bit. */
  predicate LocksUp(b: Register) {
    && (BitOf(b, 8) || Same(b, 1)) && (BitOf(b, 9) || Same(b, 2)) && (BitOf(b, 10) || Same(b, 3))
    && (BitOf(b, 11) || Same(b, 4)) && (BitOf(b, 12) || Same(b, 5))
    && (BitOf(b, 13) || BitOf(b, 6) == FirstIn(b)) && (BitOf(b, 14) || FirstIn(b))
  }

  function Shift4(b: Register): Register { Shift(Shift(Shift(Shift(b, 7), 7), 7), 7) }

  lemma {:induction false} ShiftNPlus(b: Register, w: bv5, m: nat, n: nat)
    ensures ShiftN(b, w, m + n) == ShiftN(ShiftN(b, w, m), w, n)
  {
    if n > 0 {
      ShiftNPlus(b, w, m, n - 1);
    }
  }

  lemma FourSteps(b: Register)
    ensures ShiftN(b, 7, 4) == Shift4(b)
  {
    hide Shift;
    assert ShiftN(b, 7, 1) == Shift(b, 7);
    assert ShiftN(b, 7, 3) == Shift(Shift(Shift(b, 7), 7), 7);
  }

  lemma EightSteps(b: Register)
    ensures ShiftN(b, 7, 8) == Shift4(Shift4(b))
  {
    hide Shift4;
    FourSteps(b);
    FourSteps(Shift4(b));
    ShiftNPlus(b, 7, 4, 4);
  }

  lemma AfterSwitch(b: Register)
    requires b <= Ones(15)
    ensures Shift4(Shift4(b)) <= Ones(7)
    ensures Shift4(Shift4(b)) == Ones(7) <==> LocksUp(b)
  {
  }

  lemma NarrowRun(b: Register, n: nat)
    requires b <= Ones(7) && ShiftN(b, 7, n) == Ones(7)
    ensures b == Ones(7)
  {
    hide Shift, ShiftN;
    ConstantWidthRuns(b, b, 7, n);
  }

  lemma {:induction false} LockedEarly(b: Register, n: nat)
    requires b <= Ones(15) && n <= 8 && ShiftN(b, 7, n) == Ones(7)
    ensures LocksUp(b)
  {
    hide *;
    StaysLocked(ShiftN(b, 7, n), 8 - n);
    ShiftNPlus(b, 7, n, 8 - n);
    EightSteps(b);
    AfterSwitch(b);
  }

  lemma {:induction false} LockedLate(b: Register, n: nat)
    requires b <= Ones(15) && n > 8 && ShiftN(b, 7, n) == Ones(7)
    ensures LocksUp(b)
  {
    hide *;
    ShiftNPlus(b, 7, 8, n - 8);
    EightSteps(b);
    AfterSwitch(b);
    NarrowRun(ShiftN(b, 7, 8), n - 8);
  }

  lemma {:induction false} LockedByEight(b: Register, n: nat)
    requires b <= Ones(15) && ShiftN(b, 7, n) == Ones(7)
    ensures LocksUp(b)
  {
    hide *;
    if n <= 8 {
      LockedEarly(b, n);
    } else {
      LockedLate(b, n);
    }
  }

  /** Whether a 15-bit register switched to 7 bits ever reaches all ones can be told from its bits at
      the switch. */
  lemma {:induction false} SwitchLocksUpIff(b: Register)
    requires b <= Ones(15)
    ensures LocksUp(b) <==> exists n: nat :: ShiftN(b, 7, n) == Ones(7)
  {
    hide *;
    if LocksUp(b) {
      EightSteps(b);
      AfterSwitch(b);
    } else {
      forall n: nat ensures ShiftN(b, 7, n) != Ones(7) {
        if ShiftN(b, 7, n) == Ones(7) {
          LockedByEight(b, n);
        }
      }
    }
  }

  lemma {:induction false} StaysLocked(b: Register, n: nat)
    requires b == Ones(7)
    ensures ShiftN(b, 7, n) == b
  {
    if n > 0 {
      StaysLocked(b, n - 1);
      OnesIsFixed(7);
    }
  }

  /** Two steps after a trigger such a switch is already fatal. */
  lemma {:induction false} SwitchCanLockUp()
    ensures LocksUp(ShiftN(0, 15, 2))
  {
    assert ShiftN(0, 15, 1) == 0x4000;
    assert ShiftN(0, 15, 2) == 0x6000;
  }

  // Any sequence of widths.

  function ShiftAll(b: Register, ws: seq<bv5>): Register {
    if ws == [] then b else Shift(ShiftAll(b, ws[..|ws| - 1]), ws[|ws| - 1])
  }

  ghost predicate AreWidths(ws: seq<bv5>) { forall i :: 0 <= i < |ws| ==> IsWidth(ws[i]) }

  predicate Fits(b: Register) { b <= Ones(15) }

  lemma StaysInFifteen(b: Register, w: bv5)
    requires IsWidth(w) && Fits(b)
    ensures Fits(Shift(b, w)) && (Shift(b, w) == Ones(15) ==> b == Ones(15))
  {
    if w == 15 && Shift(b, w) == Ones(15) {
      OnesIsFixed(15);
      ShiftIsInjective(b, Ones(15), 15);
    }
  }

  lemma {:induction false} AllStayInFifteen(b: Register, ws: seq<bv5>)
    requires AreWidths(ws) && Fits(b)
    ensures Fits(ShiftAll(b, ws))
  {
    hide Shift, Ones, IsWidth, Fits;
    if ws != [] {
      AllStayInFifteen(b, ws[..|ws| - 1]);
      StaysInFifteen(ShiftAll(b, ws[..|ws| - 1]), ws[|ws| - 1]);
    }
  }

  /** All fifteen ones come only from themselves. */
  lemma {:induction false} FifteenOnes(b: Register, ws: seq<bv5>)
    requires AreWidths(ws) && Fits(b) && ShiftAll(b, ws) == Ones(15)
    ensures b == Ones(15)
  {
    hide Shift, Ones, IsWidth, Fits;
    if ws != [] {
      var init := ws[..|ws| - 1];
      AllStayInFifteen(b, init);
      StaysInFifteen(ShiftAll(b, init), ws[|ws| - 1]);
      FifteenOnes(b, init);
    }
  }

  /** Where the sevens at the end of `ws` begin. */
  function LastSwitch(ws: seq<bv5>): (j: nat)
    ensures j <= |ws| && (forall i :: j <= i < |ws| ==> ws[i] == 7) && (j > 0 ==> ws[j - 1] != 7)
  {
    if ws == [] || ws[|ws| - 1] != 7 then |ws| else LastSwitch(ws[..|ws| - 1])
  }

  lemma {:induction false} SinceSwitch(b: Register, ws: seq<bv5>)
    ensures var j := LastSwitch(ws); ShiftAll(b, ws) == ShiftN(ShiftAll(b, ws[..j]), 7, |ws| - j)
  {
    hide Shift;
    if ws != [] && ws[|ws| - 1] == 7 {
      var init := ws[..|ws| - 1];
      SinceSwitch(b, init);
      assert init[..LastSwitch(init)] == ws[..LastSwitch(init)];
    } else {
      assert ws[..|ws|] == ws;
    }
  }

  lemma ZeroDoesNotLockUp()
    ensures !LocksUp(0) && 0 != Ones(15) && Fits(0)
  {
  }

  /** From a trigger, whatever widths are selected on the way, the register is locked up only after
      a switch from 15 to 7 bits at which its bits said so. Eight steps later it is. */
  lemma {:induction false} OnlySwitchesLockUp(ws: seq<bv5>)
    requires AreWidths(ws) && ws != []
    ensures var j, w := LastSwitch(ws), ws[|ws| - 1];
      && (ShiftAll(0, ws) == Ones(w) ==>
        w == 7 && 0 < j < |ws| && ws[j - 1] == 15 && LocksUp(ShiftAll(0, ws[..j])))
      && (|ws| - j >= 8 && LocksUp(ShiftAll(0, ws[..j])) ==> ShiftAll(0, ws) == Ones(7))
  {
    var j, w := LastSwitch(ws), ws[|ws| - 1];
    assert IsWidth(w) && (j > 0 ==> IsWidth(ws[j - 1]));
    hide Shift, Ones, LocksUp;
    var x := ShiftAll(0, ws[..j]);
    ZeroDoesNotLockUp();
    AllStayInFifteen(0, ws[..j]);
    SinceSwitch(0, ws);
    if ShiftAll(0, ws) == Ones(w) {
      if w == 15 {
        FifteenOnes(0, ws);
      } else {
        LockedByEight(x, |ws| - j);
      }
    }
    if |ws| - j >= 8 && LocksUp(x) {
      LocksAfterEight(x, |ws| - j);
    }
  }

  lemma {:induction false} LocksAfterEight(b: Register, n: nat)
    requires b <= Ones(15) && LocksUp(b) && n >= 8
    ensures ShiftN(b, 7, n) == Ones(7)
  {
    hide *;
    EightSteps(b);
    AfterSwitch(b);
    ShiftNPlus(b, 7, 8, n - 8);
    StaysLocked(ShiftN(b, 7, 8), n - 8);
  }
}
