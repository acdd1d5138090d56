/** The access tracer: one mark per ROM byte, and the run-length dump of the marks. */
module Tracer {
  import opened Bits

  const MAX_BANKS := 512
  const BANK_SIZE := 0x4000

  /** One printed data symbol. Banks other than 0 are printed at 0x4000-0x7FFF. */
  datatype Symbol = Symbol(bank: nat, adr: u16, len: nat)

  /** First marked position of a symbol, counted through all banks, and the one behind it. */
  function First(s: Symbol): int { BANK_SIZE * s.bank + (if s.bank != 0 then s.adr as int - 0x4000 else s.adr as int) }
  function Behind(s: Symbol): int { First(s) + s.len }

  /** A non-empty run inside one bank. */
  predicate WellFormed(s: Symbol) {
    s.bank < MAX_BANKS && s.len > 0 && BANK_SIZE * s.bank <= First(s) && Behind(s) <= BANK_SIZE * (s.bank + 1)
  }

  predicate Covers(s: Symbol, q: int) { First(s) <= q < Behind(s) }

  /** The marks that a list of symbols stands for. */
  ghost predicate Describes(out: seq<Symbol>, marks: seq<bool>) {
    && (forall i :: 0 <= i < |out| ==> WellFormed(out[i]))
    && (forall q :: 0 <= q < |marks| ==> (marks[q] <==> exists i :: 0 <= i < |out| && Covers(out[i], q)))
  }

  /** A run that neither neighbour in its bank extends. */
  ghost predicate Maximal(s: Symbol, marks: seq<bool>)
    requires |marks| == MAX_BANKS * BANK_SIZE && WellFormed(s)
  {
    && (First(s) == BANK_SIZE * s.bank || !marks[First(s) - 1])
    && (Behind(s) == BANK_SIZE * (s.bank + 1) || !marks[Behind(s)])
  }

  ghost predicate Sorted(out: seq<Symbol>) {
    forall i, j :: 0 <= i < j < |out| ==> Behind(out[i]) <= First(out[j])
  }

  /** What the dump promises. */
  ghost predicate IsDump(out: seq<Symbol>, marks: seq<bool>)
    requires |marks| == MAX_BANKS * BANK_SIZE
  {
    Describes(out, marks) && Sorted(out) && forall i :: 0 <= i < |out| ==> Maximal(out[i], marks)
  }

  /** Everything below `done` has been printed. */
  ghost predicate Printed(out: seq<Symbol>, marks: seq<bool>, done: int)
    requires |marks| == MAX_BANKS * BANK_SIZE
  {
    && (forall i :: 0 <= i < |out| ==> WellFormed(out[i]) && Maximal(out[i], marks) && Behind(out[i]) <= done)
    && Sorted(out)
    && (forall i, q :: 0 <= i < |out| && Covers(out[i], q) ==> marks[q])
    && (forall q :: 0 <= q < done && q < |marks| && marks[q] ==> exists i :: 0 <= i < |out| && Covers(out[i], q))
  }

  class SymfileTracer {
    const accessArr: array<bool>

    ghost predicate Valid() { accessArr.Length == MAX_BANKS * BANK_SIZE }

    constructor ()
      ensures Valid() && fresh(accessArr) && forall q :: 0 <= q < accessArr.Length ==> !accessArr[q]
    {
      accessArr := new bool[MAX_BANKS * BANK_SIZE](_ => false);
    }

    /** The bank and address are not checked against each other: only their sum must be in range. */
    method TraceAccess(bank: u16, adr: u16)
      requires Valid() && BANK_SIZE * bank + adr < MAX_BANKS * BANK_SIZE
      modifies accessArr
      ensures accessArr[..] == old(accessArr[..])[BANK_SIZE * bank + adr := true]
    {
      accessArr[BANK_SIZE * bank + adr] := true;
    }

    method Clear()
      requires Valid()
      modifies accessArr
      ensures accessArr[..] == CLEARED
    {
      forall q | 0 <= q < accessArr.Length {
        accessArr[q] := false;
      }
    }

    /** A tracer that is cleared and told of every byte of a dump holds the access set again. */
    method Remark(out: seq<Symbol>, ghost marks: Marks)
      requires Valid() && IsDump(out, marks)
      modifies accessArr
      ensures accessArr[..] == marks
    {
      Clear();
      for i := 0 to |out|
        invariant accessArr[..] == MarkAll(out[..i], CLEARED)
      {
        assert out[..i + 1][..i] == out[..i];
        RemarkRun(out[i]);
      }
      assert out[..|out|] == out;
      DumpRoundTrip(out, marks);
    }

    method RemarkRun(s: Symbol)
      requires Valid() && WellFormed(s)
      modifies accessArr
      ensures accessArr[..] == MarkRun(s, s.len, old(accessArr[..]))
    {
      for k := 0 to s.len
        invariant accessArr[..] == MarkRun(s, k, old(accessArr[..]))
      {
        TraceAccess(s.bank, (if s.bank != 0 then s.adr as int - 0x4000 else s.adr as int) + k);
      }
    }

    /** PrintSymbol. */
    static method PrintSymbol(out: seq<Symbol>, bank: nat, startAdr: u16, len: nat) returns (r: seq<Symbol>)
      requires bank < MAX_BANKS && startAdr < BANK_SIZE
      ensures r == out + [Symbol(bank, if bank != 0 then startAdr + 0x4000 else startAdr, len)]
    {
      var adr := startAdr;
      if bank != 0 {
        adr := adr as int + 0x4000;
      }
      r := out + [Symbol(bank, adr, len)];
    }

    lemma {:induction false} PrintRun(out: seq<Symbol>, done: int, s: Symbol)
      requires Valid() && Printed(out, accessArr[..], done) && WellFormed(s) && First(s) == done
      requires Maximal(s, accessArr[..]) && forall q :: Covers(s, q) ==> accessArr[q]
      ensures Printed(out + [s], accessArr[..], Behind(s))
    {
      var marks := accessArr[..];
      var r := out + [s];
      forall q | 0 <= q < Behind(s) && q < |marks| && marks[q] ensures exists i :: 0 <= i < |r| && Covers(r[i], q) {
        if q < done {
          var i :| 0 <= i < |out| && Covers(out[i], q);
          assert Covers(r[i], q);
        } else {
          assert Covers(r[|out|], q);
        }
      }
    }

    lemma {:induction false} SkipUnmarked(out: seq<Symbol>, done: int, next: int)
      requires Valid() && Printed(out, accessArr[..], done) && 0 <= done <= next <= accessArr.Length
      requires forall q :: done <= q < next ==> !accessArr[q]
      ensures Printed(out, accessArr[..], next)
    {
    }

    /** Print the run from `startAdr` up to `end`, neither of which can be moved outwards. */
    method CloseRun(out: seq<Symbol>, bank: nat, startAdr: u16, end: nat) returns (r: seq<Symbol>)
      requires Valid() && bank < MAX_BANKS && startAdr < end <= BANK_SIZE
      requires Printed(out, accessArr[..], BANK_SIZE * bank + startAdr)
      requires forall q :: BANK_SIZE * bank + startAdr <= q < BANK_SIZE * bank + end ==> accessArr[q]
      requires startAdr == 0 || !accessArr[BANK_SIZE * bank + startAdr - 1]
      requires end == BANK_SIZE || !accessArr[BANK_SIZE * bank + end]
      ensures Printed(r, accessArr[..], BANK_SIZE * bank + end)
    {
      ghost var s := Symbol(bank, if bank != 0 then startAdr as int + 0x4000 else startAdr, end - startAdr);
      hide Printed;
      assert First(s) == BANK_SIZE * bank + startAdr && Behind(s) == BANK_SIZE * bank + end;
      assert WellFormed(s) && Maximal(s, accessArr[..]);
      hide WellFormed, Maximal, First;
      PrintRun(out, BANK_SIZE * bank + startAdr, s);
      r := PrintSymbol(out, bank, startAdr, end - startAdr);
    }

    method DumpTrace() returns (out: seq<Symbol>)
      requires Valid()
      ensures IsDump(out, accessArr[..])
    {
      out := [];
      for bank := 0 to MAX_BANKS
        invariant Printed(out, accessArr[..], BANK_SIZE * bank)
      {
        out := DumpBank(out, bank);
      }
    }

    /** The body of the outer loop. */
    method DumpBank(before: seq<Symbol>, bank: nat) returns (out: seq<Symbol>)
      requires Valid() && bank < MAX_BANKS && Printed(before, accessArr[..], BANK_SIZE * bank)
      ensures Printed(out, accessArr[..], BANK_SIZE * (bank + 1))
    {
      hide Printed;
      out := before;
      var inAccess := false;
      var startAdr: u16 := 0;
      for adr := 0 to BANK_SIZE
        invariant inAccess ==> startAdr < adr
        invariant Printed(out, accessArr[..], BANK_SIZE * bank + if inAccess then startAdr else adr)
        invariant inAccess ==> forall q :: BANK_SIZE * bank + startAdr <= q < BANK_SIZE * bank + adr ==> accessArr[q]
        invariant inAccess ==> startAdr == 0 || !accessArr[BANK_SIZE * bank + startAdr - 1]
        invariant !inAccess ==> adr == 0 || !accessArr[BANK_SIZE * bank + adr - 1]
      {
        if accessArr[BANK_SIZE * bank + adr] {
          if !inAccess {
            inAccess := true;
            startAdr := adr;
          }
        } else {
          if inAccess {
            inAccess := false;
            out := CloseRun(out, bank, startAdr, adr);
          }
          SkipUnmarked(out, BANK_SIZE * bank + adr, BANK_SIZE * bank + adr + 1);
        }
      }
      if inAccess {
        out := CloseRun(out, bank, startAdr, 0x4000);
      }
    }
  }

  // Marking the dumped runs again, one byte at a time.

  type Marks = m: seq<bool> | |m| == MAX_BANKS * BANK_SIZE witness seq(MAX_BANKS * BANK_SIZE, _ => false)

  const CLEARED: Marks := seq(MAX_BANKS * BANK_SIZE, _ => false)

  /** The first `n` bytes of a run, each marked through its bank and its address in the bank. */
  function MarkRun(s: Symbol, n: nat, marks: Marks): Marks
    requires WellFormed(s) && n <= s.len
  {
    if n == 0 then marks
    else
      var adr := (if s.bank != 0 then s.adr as int - 0x4000 else s.adr as int) + (n - 1);
      MarkRun(s, n - 1, marks)[BANK_SIZE * s.bank + adr := true]
  }

  function MarkAll(out: seq<Symbol>, marks: Marks): Marks
    requires forall i :: 0 <= i < |out| ==> WellFormed(out[i])
  {
    if out == [] then marks
    else
      var s := out[|out| - 1];
      MarkRun(s, s.len, MarkAll(out[..|out| - 1], marks))
  }

  lemma {:induction false} MarkRunAt(s: Symbol, n: nat, marks: Marks, q: nat)
    requires WellFormed(s) && n <= s.len && q < |marks|
    ensures MarkRun(s, n, marks)[q] == (marks[q] || First(s) <= q < First(s) + n)
  {
    if n > 0 {
      MarkRunAt(s, n - 1, marks, q);
    }
  }

  lemma {:induction false} MarkAllAt(out: seq<Symbol>, marks: Marks, q: nat)
    requires q < |marks| && forall i :: 0 <= i < |out| ==> WellFormed(out[i])
    ensures MarkAll(out, marks)[q] == (marks[q] || exists i :: 0 <= i < |out| && Covers(out[i], q))
  {
    if out != [] {
      var n := |out| - 1;
      var init := out[..n];
      MarkAllAt(init, marks, q);
      MarkRunAt(out[n], out[n].len, MarkAll(init, marks), q);
      hide First, WellFormed, MarkRun;
      if i :| 0 <= i < n && Covers(init[i], q) {
        assert Covers(out[i], q);
      }
      if i :| 0 <= i < n && Covers(out[i], q) {
        assert Covers(init[i], q);
      }
    }
  }

  /** Marking every byte of every dumped run on a cleared tracer reproduces the access set. */
  lemma {:induction false} DumpRoundTrip(out: seq<Symbol>, marks: Marks)
    requires IsDump(out, marks)
    ensures MarkAll(out, CLEARED) == marks
  {
    forall q: nat | q < |marks| ensures MarkAll(out, CLEARED)[q] == marks[q] {
      MarkAllAt(out, CLEARED, q);
    }
  }

  ghost function Starts(out: seq<Symbol>): set<int> { set i | 0 <= i < |out| :: First(out[i]) }

  lemma {:induction false} StartsBound(out: seq<Symbol>)
    ensures |Starts(out)| <= |out|
    ensures Sorted(out) && (forall i :: 0 <= i < |out| ==> WellFormed(out[i])) ==> |Starts(out)| == |out|
  {
    if out == [] {
      assert Starts(out) == {};
    } else {
      var n := |out| - 1;
      StartsBound(out[..n]);
      assert Starts(out) == Starts(out[..n]) + {First(out[n])};
    }
  }

  /** Where a maximal run starts, every description of the marks must start one. */
  lemma {:induction false} StartIsForced(out: seq<Symbol>, i: nat, other: seq<Symbol>, marks: seq<bool>)
    requires |marks| == MAX_BANKS * BANK_SIZE && IsDump(out, marks) && Describes(other, marks) && i < |out|
    ensures First(out[i]) in Starts(other)
  {
    var q := First(out[i]);
    assert WellFormed(out[i]) && Maximal(out[i], marks) && Covers(out[i], q) && marks[q];
    var j :| 0 <= j < |other| && Covers(other[j], q);
    assert WellFormed(other[j]);
    if First(other[j]) < q {
      assert Covers(other[j], q - 1);
      assert marks[q - 1];
      SameBank(out[i], other[j], q);
      assert false;
    }
  }

  lemma SameBank(s: Symbol, t: Symbol, q: int)
    requires WellFormed(s) && WellFormed(t) && Covers(s, q) && Covers(t, q)
    ensures s.bank == t.bank
  {
  }

  /** The dump uses as few runs as possible: any list of in-bank runs that stands for the same
      marks is at least as long. */
  lemma {:induction false} DumpIsMinimal(out: seq<Symbol>, other: seq<Symbol>, marks: seq<bool>)
    requires |marks| == MAX_BANKS * BANK_SIZE && IsDump(out, marks) && Describes(other, marks)
    ensures |out| <= |other|
  {
    forall q | q in Starts(out) ensures q in Starts(other) {
      var i :| 0 <= i < |out| && First(out[i]) == q;
      StartIsForced(out, i, other, marks);
    }
    StartsBound(out);
    StartsBound(other);
    SubsetCard(Starts(out), Starts(other));
  }

  lemma {:induction false} SubsetCard(a: set<int>, b: set<int>)
    requires a <= b
    ensures |a| <= |b|
  {
    assert b == a + (b - a);
  }
}
