/** What `std::stable_sort` promises for a list of (index, key) pairs: sorted by key, and the
    pairs of each key kept in their old order. A plain insertion sort meets it. */
module StableSort {
  datatype Entry = Entry(id: nat, key: int)

  /** The entries of one key, in order. */
  function WithKey(s: seq<Entry>, k: int): seq<Entry> {
    if s == [] then []
    else (if s[0].key == k then [s[0]] else []) + WithKey(s[1..], k)
  }

  ghost predicate SortedByKey(s: seq<Entry>) {
    forall p, q :: 0 <= p < q < |s| ==> s[p].key <= s[q].key
  }

  ghost predicate IsStableSort(s: seq<Entry>, r: seq<Entry>) {
    SortedByKey(r) && forall k :: WithKey(r, k) == WithKey(s, k)
  }

  ghost predicate AscendingIds(s: seq<Entry>) {
    forall p, q :: 0 <= p < q < |s| ==> s[p].id < s[q].id
  }

  lemma {:induction false} WithKeyConcat(a: seq<Entry>, b: seq<Entry>, k: int)
    ensures WithKey(a + b, k) == WithKey(a, k) + WithKey(b, k)
  {
    if a == [] {
      assert a + b == b;
    } else {
      WithKeyConcat(a[1..], b, k);
      WithKeyHead(a, b, k);
      WithKeyHead(a, [], k);
      assert a + [] == a && a[1..] + [] == a[1..];
    }
  }

  lemma WithKeyHead(a: seq<Entry>, b: seq<Entry>, k: int)
    requires a != []
    ensures WithKey(a + b, k) == (if a[0].key == k then [a[0]] else []) + WithKey(a[1..] + b, k)
  {
    assert (a + b)[0] == a[0] && (a + b)[1..] == a[1..] + b;
  }

  lemma {:induction false} WithKeyMembers(s: seq<Entry>, k: int)
    ensures forall e :: e in WithKey(s, k) <==> e in s && e.key == k
  {
    if s != [] {
      WithKeyMembers(s[1..], k);
      assert s == [s[0]] + s[1..];
    }
  }

  lemma {:induction false} KeyAbsent(s: seq<Entry>, k: int)
    requires forall x :: x in s ==> x.key != k
    ensures WithKey(s, k) == []
  {
    if s != [] {
      KeyAbsent(s[1..], k);
    }
  }

  /** Inserting behind the keys that are not greater leaves every key's order alone. */
  lemma {:induction false} InsertIsStable(a: seq<Entry>, e: Entry, b: seq<Entry>, k: int)
    requires forall x :: x in b ==> e.key < x.key
    ensures WithKey(a + [e] + b, k) == WithKey(a + b + [e], k)
  {
    WithKeyConcat(a + [e], b, k);
    WithKeyConcat(a, [e], k);
    WithKeyConcat(a + b, [e], k);
    WithKeyConcat(a, b, k);
    if k == e.key {
      KeyAbsent(b, k);
    }
  }

  /** One round of insertion sort keeps the stable-sort relation. */
  lemma {:induction false} InsertStep(s: seq<Entry>, r: seq<Entry>, p: nat, e: Entry)
    requires IsStableSort(s, r) && p <= |r|
    requires forall q :: p <= q < |r| ==> e.key < r[q].key
    requires forall q :: 0 <= q < p ==> r[q].key <= e.key
    ensures IsStableSort(s + [e], r[..p] + [e] + r[p..])
  {
    forall k ensures WithKey(r[..p] + [e] + r[p..], k) == WithKey(s + [e], k) {
      InsertIsStable(r[..p], e, r[p..], k);
      assert r[..p] + r[p..] == r;
      WithKeyConcat(r, [e], k);
      WithKeyConcat(s, [e], k);
    }
  }

  method Sort(s: seq<Entry>) returns (r: seq<Entry>)
    ensures IsStableSort(s, r)
  {
    r := [];
    for i := 0 to |s|
      invariant IsStableSort(s[..i], r)
    {
      var e := s[i];
      var p := |r|;
      while p > 0 && e.key < r[p - 1].key
        invariant 0 <= p <= |r|
        invariant forall q :: p <= q < |r| ==> e.key < r[q].key
      {
        p := p - 1;
      }
      InsertStep(s[..i], r, p, e);
      assert s[..i] + [e] == s[..i + 1];
      r := r[..p] + [e] + r[p..];
    }
    assert s[..|s|] == s;
  }

  lemma {:induction false} SameMembers(s: seq<Entry>, r: seq<Entry>)
    requires IsStableSort(s, r)
    ensures forall e :: e in r <==> e in s
  {
    forall e ensures e in r <==> e in s {
      WithKeyMembers(r, e.key);
      WithKeyMembers(s, e.key);
      assert WithKey(r, e.key) == WithKey(s, e.key);
    }
  }

  lemma {:induction false} FilterAscends(s: seq<Entry>, k: int)
    requires AscendingIds(s)
    ensures AscendingIds(WithKey(s, k))
  {
    if s != [] {
      FilterAscends(s[1..], k);
      WithKeyMembers(s[1..], k);
      var t := WithKey(s[1..], k);
      forall q | 0 <= q < |t| ensures s[0].id < t[q].id {
        assert t[q] in t;
      }
    }
  }

  lemma {:induction false} AscendsInFilter(r: seq<Entry>, p: nat, q: nat)
    requires p < q < |r| && r[p].key == r[q].key
    requires AscendingIds(WithKey(r, r[p].key))
    ensures r[p].id < r[q].id
  {
    var k := r[p].key;
    var t := WithKey(r[1..], k);
    if p > 0 {
      assert AscendingIds(t) by {
        if r[0].key == k {
          assert t == WithKey(r, k)[1..];
        } else {
          assert t == WithKey(r, k);
        }
      }
      AscendsInFilter(r[1..], p - 1, q - 1);
    } else {
      WithKeyMembers(r[1..], k);
      assert r[q] == r[1..][q - 1];
      assert r[q] in t;
      var j :| 0 <= j < |t| && t[j] == r[q];
      assert WithKey(r, k) == [r[0]] + t;
      assert WithKey(r, k)[0].id < WithKey(r, k)[j + 1].id;
    }
  }

  /** Stable sorting of a list whose indices ascend orders it by (key, index). */
  lemma {:induction false} StableOrder(s: seq<Entry>, r: seq<Entry>)
    requires AscendingIds(s) && IsStableSort(s, r)
    ensures forall p, q :: 0 <= p < q < |r| ==> r[p].key < r[q].key || (r[p].key == r[q].key && r[p].id < r[q].id)
  {
    forall p, q | 0 <= p < q < |r|
      ensures r[p].key < r[q].key || (r[p].key == r[q].key && r[p].id < r[q].id)
    {
      if r[p].key == r[q].key {
        FilterAscends(s, r[p].key);
        AscendsInFilter(r, p, q);
      }
    }
  }
}
