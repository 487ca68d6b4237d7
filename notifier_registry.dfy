// The queue's notifier registry, a `std::map<Queue::Id, Queue::Notifier>`.
// A std::map is a search tree iterated in ascending key order; it is
// represented here by the list of its entries in that order, and `AsMap`
// gives the map it stands for.
module NotifierRegistry {
  import opened FixedWidth

  /** A client's completion callback. The queue never looks inside it: only
      its identity is kept. */
  datatype Notifier = Notifier(handle: nat)

  datatype Registration = Registration(id: Index32, notifier: Notifier)

  type Registry = seq<Registration>

  /** Entries in strictly ascending id order, as a std::map iterates them. */
  predicate Ascending(r: Registry)
  {
    forall i, j :: 0 <= i < j < |r| ==> r[i].id < r[j].id
  }

  /** The map a registry stands for. */
  function AsMap(r: Registry): map<Index32, Notifier>
  {
    if r == [] then map[] else AsMap(r[1..])[r[0].id := r[0].notifier]
  }

  /** An id is registered exactly when some entry carries it. */
  lemma {:induction false} RegisteredAt(r: Registry, k: Index32)
    ensures k in AsMap(r) <==> exists i :: 0 <= i < |r| && r[i].id == k
  {
    if r != [] {
      RegisteredAt(r[1..], k);
      if k in AsMap(r[1..]) {
        var i :| 0 <= i < |r[1..]| && r[1..][i].id == k;
        assert r[i + 1].id == k;
      }
      if exists i :: 0 <= i < |r| && r[i].id == k {
        var i :| 0 <= i < |r| && r[i].id == k;
        if i > 0 { assert r[1..][i - 1].id == k; }
      }
    }
  }

  /** In an ascending registry the first entry holds the smallest id, and
      dropping it drops exactly that key. */
  lemma AscendingTail(r: Registry)
    requires Ascending(r) && r != []
    ensures Ascending(r[1..])
    ensures forall k :: k in AsMap(r[1..]) ==> r[0].id < k
    ensures AsMap(r[1..]) == AsMap(r) - {r[0].id}
  {
    forall k | k in AsMap(r[1..])
      ensures r[0].id < k
    {
      RegisteredAt(r[1..], k);
    }
  }

  /** An ascending list has one entry per key of its map. */
  lemma {:induction false} AscendingKeyCount(r: Registry)
    requires Ascending(r)
    ensures |AsMap(r)| == |r|
  {
    if r != [] {
      AscendingTail(r);
      AscendingKeyCount(r[1..]);
      assert r[0].id !in AsMap(r[1..]);
      assert AsMap(r).Keys == AsMap(r[1..]).Keys + {r[0].id};
    }
  }

  /** Putting an entry in front of an ascending list whose keys are all
      larger keeps it ascending and adds that entry to its map. */
  lemma ConsAscending(x: Registration, tail: Registry)
    requires Ascending(tail)
    requires forall k :: k in AsMap(tail) ==> x.id < k
    ensures Ascending([x] + tail)
    ensures AsMap([x] + tail) == AsMap(tail)[x.id := x.notifier]
  {
    assert ([x] + tail)[1..] == tail;
    forall j | 0 <= j < |tail|
      ensures x.id < tail[j].id
    {
      RegisteredAt(tail, tail[j].id);
    }
  }

  /** `mNotifiers[id] = notifier`: insert, or overwrite the callback
      registered under `id`, keeping the ascending order. */
  function Put(r: Registry, id: Index32, n: Notifier): (r': Registry)
    requires Ascending(r)
    ensures Ascending(r')
    ensures AsMap(r') == AsMap(r)[id := n]
  {
    if r == [] then [Registration(id, n)]
    else if id < r[0].id then
      assert ([Registration(id, n)] + r)[1..] == r;
      [Registration(id, n)] + r
    else if id == r[0].id then
      AscendingTail(r);
      assert ([Registration(id, n)] + r[1..])[1..] == r[1..];
      [Registration(id, n)] + r[1..]
    else
      AscendingTail(r);
      var tail := Put(r[1..], id, n);
      ConsAscending(r[0], tail);
      [r[0]] + tail
  }

  /** `mNotifiers.erase(mNotifiers.find(id))` when found, nothing otherwise. */
  function Erase(r: Registry, id: Index32): (r': Registry)
    requires Ascending(r)
    ensures Ascending(r')
    ensures AsMap(r') == AsMap(r) - {id}
  {
    if r == [] then []
    else if r[0].id == id then
      AscendingTail(r);
      r[1..]
    else
      AscendingTail(r);
      var tail := Erase(r[1..], id);
      ConsAscending(r[0], tail);
      [r[0]] + tail
  }

  /** Removing an id that is not registered changes nothing at all. */
  lemma {:induction false} EraseUnknownIsNoOp(r: Registry, id: Index32)
    requires Ascending(r) && id !in AsMap(r)
    ensures Erase(r, id) == r
  {
    if r != [] {
      assert r[0].id in AsMap(r);
      AscendingTail(r);
      assert id !in AsMap(r[1..]);
      EraseUnknownIsNoOp(r[1..], id);
    }
  }

  /** Removing a registered id removes exactly that entry: every other
      registration keeps its place relative to the rest. */
  lemma EraseKnownDropsOneEntry(r: Registry, id: Index32) returns (i: nat)
    requires Ascending(r) && id in AsMap(r)
    ensures i < |r| && r[i].id == id
    ensures Erase(r, id) == r[..i] + r[i + 1..]
  {
    RegisteredAt(r, id);
    i :| 0 <= i < |r| && r[i].id == id;
    EraseAt(r, id, i);
  }

  /** Erasing the id carried by entry i drops entry i. */
  lemma {:induction false} EraseAt(r: Registry, id: Index32, i: nat)
    requires Ascending(r) && i < |r| && r[i].id == id
    ensures Erase(r, id) == r[..i] + r[i + 1..]
  {
    if i == 0 {
      assert r[..0] + r[1..] == r[1..];
    } else {
      EraseBehindHead(r, id);
      EraseAt(r[1..], id, i - 1);
      DropBehindHead(r, i - 1);
    }
  }

  /** An id other than the head's is erased from the tail. */
  lemma EraseBehindHead(r: Registry, id: Index32)
    requires Ascending(r) && r != [] && r[0].id != id
    ensures Ascending(r[1..])
    ensures Erase(r, id) == [r[0]] + Erase(r[1..], id)
  {
    AscendingTail(r);
  }

  /** Dropping element j of a tail, then putting the head back, drops
      element j + 1 of the whole list. */
  lemma DropBehindHead(r: Registry, j: nat)
    requires j + 1 < |r|
    ensures [r[0]] + (r[1..][..j] + r[1..][j + 1..]) == r[..j + 1] + r[j + 2..]
  {
    assert r[1..][..j] == r[1..j + 1];
    assert r[1..][j + 1..] == r[j + 2..];
    assert [r[0]] + r[1..j + 1] == r[..j + 1];
  }

  /** A fresh id above every registered one lands at the end: registration
      order and id order agree. */
  lemma {:induction false} PutFreshAppends(r: Registry, id: Index32, n: Notifier)
    requires Ascending(r)
    requires forall k :: k in AsMap(r) ==> k < id
    ensures Put(r, id, n) == r + [Registration(id, n)]
  {
    if r != [] {
      assert r[0].id in AsMap(r);
      AscendingTail(r);
      PutFreshAppends(r[1..], id, n);
      HeadThenAppend(r, Registration(id, n));
    }
  }

  /** Putting the head back in front of a tail with x appended gives the
      list with x appended. */
  lemma HeadThenAppend(r: Registry, x: Registration)
    requires r != []
    ensures [r[0]] + (r[1..] + [x]) == r + [x]
  {
    assert [r[0]] + r[1..] == r;
  }

  lemma NoEntriesNoKeys(r: Registry)
    ensures r == [] <==> AsMap(r) == map[]
  {
    if r != [] {
      assert r[0].id in AsMap(r);
    }
  }

  /** An ascending registry is determined by the map it stands for: the
      list representation adds no order information of its own. */
  lemma {:induction false} AscendingIsCanonical(r1: Registry, r2: Registry)
    requires Ascending(r1) && Ascending(r2)
    requires AsMap(r1) == AsMap(r2)
    ensures r1 == r2
  {
    NoEntriesNoKeys(r1);
    NoEntriesNoKeys(r2);
    if r1 != [] {
      AscendingTail(r1);
      AscendingTail(r2);
      var k1, k2 := r1[0].id, r2[0].id;
      assert k1 == k2 by {
        assert k1 in AsMap(r2) && k2 in AsMap(r1);
      }
      assert r1[0].notifier == AsMap(r1)[k1] == r2[0].notifier;
      AscendingIsCanonical(r1[1..], r2[1..]);
      assert r1 == [r1[0]] + r1[1..];
      assert r2 == [r2[0]] + r2[1..];
    }
  }
}
