/** Painting a list of sprites over one dot, from the list's end to its start. */
module Layers {
  import opened Bits

  const WHITE: u8 := 0

  datatype Dot = Clear | Paint(shade: u8)

  /** Later painters replace what is there. */
  function DrawOver(l: seq<nat>, f: nat -> Dot, before: u8): u8 {
    if l == [] then before
    else if f(l[0]).Paint? then f(l[0]).shade else DrawOver(l[1..], f, before)
  }

  /** Later painters only replace white. */
  function DrawUnder(l: seq<nat>, f: nat -> Dot, before: u8): u8 {
    if l == [] then before
    else
      var b := DrawUnder(l[1..], f, before);
      if b == WHITE && f(l[0]).Paint? then f(l[0]).shade else b
  }

  predicate Colours(f: nat -> Dot, k: nat) { f(k).Paint? && f(k).shade != WHITE }

  ghost function Members(l: seq<nat>): set<nat> { set i | i in l }

  /** Of the painters of this dot in `s`, the least one decides it; with none it is unchanged. */
  ghost predicate LeastDecides(s: set<nat>, lt: (nat, nat) -> bool, f: nat -> Dot, before: u8, after: u8) {
    (exists k :: k in s && f(k).Paint? && after == f(k).shade
      && forall j :: j in s && f(j).Paint? && j != k ==> lt(k, j))
    || ((forall j :: j in s ==> f(j).Clear?) && after == before)
  }

  /** A dot that is not white stays. A white one is decided by the GREATEST painter in `s` that
      has another shade for it; with none it stays white. */
  ghost predicate GreatestDecides(s: set<nat>, lt: (nat, nat) -> bool, f: nat -> Dot, before: u8, after: u8) {
    if before != WHITE then after == before
    else
      (exists k :: k in s && Colours(f, k) && after == f(k).shade
        && forall j :: j in s && Colours(f, j) && j != k ==> lt(j, k))
      || ((forall j :: j in s ==> !Colours(f, j)) && after == WHITE)
  }

  ghost predicate Ordered(l: seq<nat>, lt: (nat, nat) -> bool) {
    forall p, q :: 0 <= p < q < |l| ==> lt(l[p], l[q])
  }

  lemma {:induction false} DrawOverLeast(l: seq<nat>, lt: (nat, nat) -> bool, f: nat -> Dot, before: u8)
    requires Ordered(l, lt)
    ensures LeastDecides(Members(l), lt, f, before, DrawOver(l, f, before))
  {
    if l != [] {
      assert forall j :: j in l ==> j == l[0] || j in l[1..];
      if f(l[0]).Paint? {
        forall j | j in l && j != l[0] ensures lt(l[0], j) {
          var q :| 0 <= q < |l| && l[q] == j;
        }
        assert l[0] in Members(l);
      } else {
        assert forall p, q :: 0 <= p < q < |l[1..]| ==> l[1..][p] == l[p + 1] && l[1..][q] == l[q + 1];
        DrawOverLeast(l[1..], lt, f, before);
        assert Members(l) == Members(l[1..]) + {l[0]};
      }
    }
  }

  lemma {:induction false} DrawUnderGreatest(l: seq<nat>, lt: (nat, nat) -> bool, f: nat -> Dot, before: u8)
    requires Ordered(l, lt)
    ensures GreatestDecides(Members(l), lt, f, before, DrawUnder(l, f, before))
  {
    if l != [] {
      var t := l[1..];
      assert forall p, q :: 0 <= p < q < |t| ==> t[p] == l[p + 1] && t[q] == l[q + 1];
      DrawUnderGreatest(t, lt, f, before);
      assert Members(l) == Members(t) + {l[0]};
      if before == WHITE {
        forall j | j in t ensures lt(l[0], j) {
          var q :| 0 <= q < |t| && t[q] == j;
          assert l[q + 1] == j;
        }
        assert l[0] in Members(l);
      }
    }
  }

  /** Drawing a list is drawing its tail and then its head. */
  lemma {:induction false} DrawHeadLast(l: seq<nat>, k: nat, f: nat -> Dot, before: u8)
    requires k < |l|
    ensures DrawOver(l[k..], f, before) == DrawOver([l[k]], f, DrawOver(l[k + 1..], f, before))
    ensures DrawUnder(l[k..], f, before) == DrawUnder([l[k]], f, DrawUnder(l[k + 1..], f, before))
  {
    assert l[k..][1..] == l[k + 1..];
    assert [l[k]][1..] == [];
  }

  // When painting under agrees with the usual priority.

  ghost predicate IsLeastPainter(s: set<nat>, lt: (nat, nat) -> bool, f: nat -> Dot, i: nat) {
    i in s && f(i).Paint? && forall j :: j in s && f(j).Paint? && j != i ==> lt(i, j)
  }

  ghost predicate IsGreatestColour(s: set<nat>, lt: (nat, nat) -> bool, f: nat -> Dot, k: nat) {
    k in s && Colours(f, k) && forall j :: j in s && Colours(f, j) && j != k ==> lt(j, k)
  }

  ghost predicate StrictOrder(s: set<nat>, lt: (nat, nat) -> bool) {
    && (forall i, j :: i in s && j in s && i != j ==> lt(i, j) != lt(j, i))
    && (forall i, j, k :: i in s && j in s && k in s && lt(i, j) && lt(j, k) ==> lt(i, k))
  }

  lemma {:induction false} LeastPainterExists(s: set<nat>, lt: (nat, nat) -> bool, f: nat -> Dot)
    requires StrictOrder(s, lt) && exists j :: j in s && f(j).Paint?
    ensures exists i :: IsLeastPainter(s, lt, f, i)
    decreases s
  {
    var x :| x in s && f(x).Paint?;
    var rest := s - {x};
    if exists j :: j in rest && f(j).Paint? {
      LeastPainterExists(rest, lt, f);
      var i :| IsLeastPainter(rest, lt, f, i);
      if lt(x, i) {
        assert IsLeastPainter(s, lt, f, x);
      } else {
        assert IsLeastPainter(s, lt, f, i);
      }
    } else {
      assert IsLeastPainter(s, lt, f, x);
    }
  }

  /** A white dot painted under comes out as the usual priority would have it exactly if the least
      painter and the greatest colouring one have the same shade, or nothing colours it. */
  lemma {:induction false} UsualPriorityIff(s: set<nat>, lt: (nat, nat) -> bool, f: nat -> Dot, after: u8)
    requires StrictOrder(s, lt) && GreatestDecides(s, lt, f, WHITE, after)
    ensures LeastDecides(s, lt, f, WHITE, after) <==>
      forall i, k :: IsLeastPainter(s, lt, f, i) && IsGreatestColour(s, lt, f, k) ==> f(i).shade == f(k).shade
  {
    if exists j :: j in s && f(j).Paint? {
      LeastPainterExists(s, lt, f);
      var i :| IsLeastPainter(s, lt, f, i);
      if exists j :: j in s && Colours(f, j) {
        var k :| k in s && Colours(f, k) && after == f(k).shade
          && forall j :: j in s && Colours(f, j) && j != k ==> lt(j, k);
        assert IsGreatestColour(s, lt, f, k);
      }
    }
  }

  /** Two colouring painters of one dot: the greater one decides, the usual priority is the lesser. */
  lemma {:induction false} TwoPainters(lt: (nat, nat) -> bool, f: nat -> Dot, a: nat, b: nat, after: u8)
    requires lt(a, b) && !lt(b, a) && Colours(f, a) && Colours(f, b)
    ensures GreatestDecides({a, b}, lt, f, WHITE, after) <==> after == f(b).shade
    ensures LeastDecides({a, b}, lt, f, WHITE, after) <==> after == f(a).shade
  {
    var s := {a, b};
    assert a in s && b in s && forall j :: j in s ==> j == a || j == b;
  }
}
