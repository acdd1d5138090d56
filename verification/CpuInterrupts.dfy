/** Interrupt service: order, exact acknowledgement, and no request lost while devices keep
    raising new ones. */
module CpuInterrupts {
  import opened Bits
  import opened CpuState

  const VECTORS := 5

  /** The pushes of an interrupt entry do not hit the interrupt registers. */
  predicate StackClear(s: State) {
    var a, b := Dec16(s.sp), Dec16(Dec16(s.sp));
    a != IF_ADDR && a != IE_ADDR && b != IF_ADDR && b != IE_ADDR
  }

  predicate Requested(s: State, i: nat) { Bit(s.mem[0xFF0F], i) }

  /** The requests, enabled in 0xFFFF, that have one of the five vectors. */
  ghost function Requests(s: State): set<nat> {
    set i: nat | i < 5 && Requested(s, i) && Bit(s.mem[0xFFFF], i)
  }

  /** One entry takes the lowest enabled request, acknowledges it and nothing else. */
  lemma {:induction false} EntryEffect(s: State)
    requires s.ime && StackClear(s) && FirstPending(s, 0) < VECTORS
    ensures var k, t := FirstPending(s, 0), HandleInterrupts(s);
      && t.pc == 0x40 + 8 * k && !t.ime && t.mem[0xFFFF] == s.mem[0xFFFF] && t.sp == Dec16(Dec16(s.sp))
      && forall j: nat :: Requested(t, j) == (j != k && Requested(s, j))
  {
    var k, t := FirstPending(s, 0), HandleInterrupts(s);
    var p := PushWord(s.(ime := false), s.pc);
    hide Bit, SetBit, SetBit8;
    assert p.mem[IF_ADDR] == s.mem[IF_ADDR] && p.mem[IE_ADDR] == s.mem[IE_ADDR];
    assert t.mem[IF_ADDR] == SetBit8(s.mem[IF_ADDR], false, k);
    forall j: nat ensures Requested(t, j) == (j != k && Requested(s, j)) {
      WrittenDigit(s.mem[IF_ADDR], false, k, j);
    }
  }

  /** With only requests from bit 5 up, PC is pushed and IME cleared, but no vector is taken and no
      request acknowledged; with none, or IME off, nothing happens. */
  lemma {:induction false} EntryWithoutVector(s: State)
    requires StackClear(s)
    ensures var k, t := FirstPending(s, 0), HandleInterrupts(s);
      && (!s.ime || k == 8 ==> t == s)
      && (s.ime && 5 <= k < 8 ==>
        && t.pc == s.pc && !t.ime && t.sp == Dec16(Dec16(s.sp))
        && t.mem[0xFF0F] == s.mem[0xFF0F])
  {
  }

  lemma WrittenDigit(b: u8, v: bool, i: nat, j: nat)
    requires i < 8
    ensures Bit(SetBit8(b, v, i), j) == if i == j then v else Bit(b, j)
  {
    SetBitFrame(b, v, i, j);
  }

  lemma {:induction false} EntryRemovesOne(s: State)
    requires s.ime && StackClear(s) && FirstPending(s, 0) < VECTORS
    ensures var k := FirstPending(s, 0);
      && k in Requests(s) && (forall j :: j in Requests(s) ==> k <= j)
      && Requests(HandleInterrupts(s)) == Requests(s) - {k}
  {
    EntryEffect(s);
    hide Bit, HandleInterrupts, FirstPending, StackClear;
    var k, t := FirstPending(s, 0), HandleInterrupts(s);
    forall i: nat | i < VECTORS ensures Pending(t, i) == (Pending(s, i) && i != k) {
      assert Requested(t, i) == (i != k && Requested(s, i));
    }
    assert Requests(t) == Requests(s) - {k};
  }

  function Below(sp: u16, k: nat): u16 { (sp as int - k) % 0x10000 }

  lemma TwoDown(sp: u16, k: nat)
    ensures Dec16(sp) == Below(sp, 1) && Dec16(Dec16(sp)) == Below(sp, 2)
    ensures Below(Dec16(Dec16(sp)), k) == Below(sp, k + 2)
  {
    assert sp as int - (k + 2) == (sp as int - 2) % 0x10000 - k + 0x10000 * ((sp as int - 2) / 0x10000);
  }

  /** Room for `n` nested entries clear of the interrupt registers. */
  predicate StackRoom(sp: u16, n: nat) {
    forall k :: 1 <= k <= 2 * n ==> Below(sp, k) != IF_ADDR && Below(sp, k) != IE_ADDR
  }

  lemma {:induction false} RoomForOne(s: State, n: nat)
    requires StackRoom(s.sp, n) && n > 0
    ensures StackClear(s) && StackRoom(Dec16(Dec16(s.sp)), n - 1)
  {
    TwoDown(s.sp, 0);
    hide Dec16, Below;
    assert Below(s.sp, 1) != IF_ADDR && Below(s.sp, 2) != IF_ADDR;
    var sp' := Dec16(Dec16(s.sp));
    forall k | 1 <= k <= 2 * (n - 1) ensures Below(sp', k) != IF_ADDR && Below(sp', k) != IE_ADDR {
      TwoDown(s.sp, k);
    }
  }

  /** What remains after one entry and the re-enabling of IME. */
  lemma {:induction false} Remaining(s: State)
    requires s.ime && StackRoom(s.sp, |Requests(s)|) && FirstPending(s, 0) < VECTORS
    ensures var k, t := FirstPending(s, 0), HandleInterrupts(s).(ime := true);
      && k in Requests(s) && (forall j :: j in Requests(s) ==> k <= j) && Requests(t) == Requests(s) - {k}
      && StackRoom(t.sp, |Requests(t)|) && |Requests(t)| == |Requests(s)| - 1
  {
    assert FirstPending(s, 0) in Requests(s);
    RoomForOne(s, |Requests(s)|);
    EntryRemovesOne(s);
    EntryEffect(s);
    hide HandleInterrupts, StackRoom, StackClear, FirstPending, Bit;
    var t := HandleInterrupts(s).(ime := true);
    assert Requests(t) == Requests(HandleInterrupts(s));
  }

  /** Service routine after service routine, IME switched on again between the entries, until no
      request with a vector is left: the vectors taken. */
  ghost function ServeAll(s: State): seq<nat>
    requires s.ime && StackRoom(s.sp, |Requests(s)|)
    decreases |Requests(s)|
  {
    if FirstPending(s, 0) >= VECTORS then []
    else
      Remaining(s);
      [FirstPending(s, 0)] + ServeAll(HandleInterrupts(s).(ime := true))
  }

  /** The entries come in ascending order and serve exactly the enabled requests, each once. */
  lemma {:induction false} ServiceOrder(s: State)
    requires s.ime && StackRoom(s.sp, |Requests(s)|)
    ensures var v := ServeAll(s);
      && (forall p, q :: 0 <= p < q < |v| ==> v[p] < v[q])
      && (forall i :: i in v <==> i in Requests(s))
      && |v| == |Requests(s)|
    decreases |Requests(s)|
  {
    hide HandleInterrupts, StackRoom, Bit;
    if FirstPending(s, 0) >= VECTORS {
      assert Requests(s) == {};
    } else {
      var k := FirstPending(s, 0);
      Remaining(s);
      hide FirstPending, Requests;
      var t := HandleInterrupts(s).(ime := true);
      ServiceOrder(t);
      var v, w := ServeAll(s), ServeAll(t);
      assert v == [k] + w;
      forall q | 0 <= q < |w| ensures k < w[q] {
        assert w[q] in w;
      }
    }
  }

  /** The machine among its devices: a device raises a request, an entry is taken, or the CPU does
      anything that leaves the request register alone. */
  datatype Event = Raise(i: nat) | Entry | Other(to: State)

  ghost predicate Enabled(s: State, e: Event) {
    match e
    case Raise(i) => i < 8
    case Entry => s.ime && StackClear(s) && FirstPending(s, 0) < VECTORS
    case Other(to) => to.mem[IF_ADDR] == s.mem[IF_ADDR]
  }

  function Step(s: State, e: Event): State
    requires e.Raise? ==> e.i < 8
  {
    match e
    case Raise(i) => Store(s, IF_ADDR, SetBit8(s.mem[IF_ADDR], true, i))
    case Entry => HandleInterrupts(s)
    case Other(to) => to
  }

  ghost predicate EnabledRun(s: State, es: seq<Event>)
    decreases |es|
  {
    es == [] || (Enabled(s, es[0]) && EnabledRun(Step(s, es[0]), es[1..]))
  }

  ghost function Run(s: State, es: seq<Event>): State
    requires EnabledRun(s, es)
    decreases |es|
  {
    if es == [] then s else Run(Step(s, es[0]), es[1..])
  }

  /** The vectors taken along a run. */
  ghost function Served(s: State, es: seq<Event>): seq<nat>
    requires EnabledRun(s, es)
    decreases |es|
  {
    if es == [] then []
    else (if es[0].Entry? then [FirstPending(s, 0)] else []) + Served(Step(s, es[0]), es[1..])
  }

  /** A request stays until it is served, whatever else is raised or served meanwhile. */
  lemma {:induction false} NoRequestLost(s: State, es: seq<Event>, i: nat)
    requires EnabledRun(s, es) && Requested(s, i)
    ensures Requested(Run(s, es), i) || i in Served(s, es)
    decreases |es|
  {
    if es != [] {
      var t := Step(s, es[0]);
      if es[0].Raise? {
        WrittenDigit(s.mem[IF_ADDR], true, es[0].i, i);
        NoRequestLost(t, es[1..], i);
      } else if es[0].Entry? {
        EntryEffect(s);
        if i != FirstPending(s, 0) {
          NoRequestLost(t, es[1..], i);
        }
      } else {
        NoRequestLost(t, es[1..], i);
      }
    }
  }
}
