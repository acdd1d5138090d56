/** Address decoding: the bus takes the first slave whose range holds the address. */
module Bus {
  import opened Wrappers
  import opened Bits

  datatype Target = CartRom | VideoRam | CartRam | WorkRam | WorkRamN | EchoRam | EchoRamN | ObjAttrMem
    | Joypad | Serial | Timer | IntrFlag | IoRegs | HighRam | IntrEnable

  /** Both ends of the range belong to the slave. */
  datatype Slave = Slave(from: u16, to: u16, target: Target)

  predicate Holds(s: Slave, adr: u16) { s.from <= adr <= s.to }

  function Decode(slaves: seq<Slave>, adr: u16): Option<Slave> {
    if slaves == [] then None
    else if Holds(slaves[0], adr) then Some(slaves[0])
    else Decode(slaves[1..], adr)
  }

  /** No two different slaves share an address. */
  ghost predicate Disjoint(slaves: seq<Slave>) {
    forall a, b :: a in slaves && b in slaves && a != b ==> a.to < b.from || b.to < a.from
  }

  /** With disjoint ranges the slave that holds an address is found wherever it is registered. */
  lemma {:induction false} DecodeFinds(slaves: seq<Slave>, adr: u16, s: Slave)
    requires Disjoint(slaves) && s in slaves && Holds(s, adr)
    ensures Decode(slaves, adr) == Some(s)
  {
    if slaves[0] != s {
      assert slaves[0] in slaves;
      assert forall x :: x in slaves[1..] ==> x in slaves;
      DecodeFinds(slaves[1..], adr, s);
    }
  }

  lemma {:induction false} DecodeMisses(slaves: seq<Slave>, adr: u16)
    requires forall s :: s in slaves ==> !Holds(s, adr)
    ensures Decode(slaves, adr) == None
  {
    if slaves != [] {
      DecodeMisses(slaves[1..], adr);
    }
  }

  /** Decoding does not depend on the order of registration. */
  lemma {:induction false} OrderIsIrrelevant(slaves: seq<Slave>, other: seq<Slave>, adr: u16)
    requires Disjoint(slaves) && multiset(slaves) == multiset(other)
    ensures Decode(slaves, adr) == Decode(other, adr)
  {
    assert forall s :: s in slaves <==> s in multiset(slaves);
    assert forall s :: s in other <==> s in multiset(other);
    if s :| s in slaves && Holds(s, adr) {
      DecodeFinds(slaves, adr, s);
      DecodeFinds(other, adr, s);
    } else {
      DecodeMisses(slaves, adr);
      DecodeMisses(other, adr);
    }
  }

  class Bus {
    var slaves: seq<Slave>

    constructor ()
      ensures slaves == []
    {
      slaves := [];
    }

    method AddBusSlave(target: Target, addrFrom: u16, addrTo: u16)
      modifies this
      ensures slaves == old(slaves) + [Slave(addrFrom, addrTo, target)]
    {
      slaves := slaves + [Slave(addrFrom, addrTo, target)];
    }

    /** The decode loop of every transport: the slave and the address relative to it. */
    method FindSlave(adr: u16) returns (found: Option<Slave>, relative: u16)
      ensures found == Decode(slaves, adr)
      ensures found.Some? ==> Holds(found.value, adr) && relative == adr - found.value.from
    {
      relative := 0;
      for i := 0 to |slaves|
        invariant Decode(slaves, adr) == Decode(slaves[i..], adr)
      {
        var slave := slaves[i];
        if slave.from <= adr && adr <= slave.to {
          return Some(slave), adr - slave.from;
        }
      }
      found := None;
    }
  }
}
