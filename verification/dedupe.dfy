/**
 * The best-effort dedupe map and its expiry index. The index bucket is scanned by a cursor in key
 * order, so it is kept here as the sequence of its (expiry, delivery) keys in that order.
 */
module Dedupe {
  import opened ByteOrder

  datatype Entry = Entry(expiry: nat, id: string)

  datatype Index = Index(live: map<string, nat>, order: seq<Entry>, count: nat)

  const Empty := Index(map[], [], 0)

  predicate Before(a: Entry, b: Entry) {
    a.expiry < b.expiry || (a.expiry == b.expiry && Less(a.id, b.id))
  }

  ghost predicate Sorted(order: seq<Entry>) {
    forall i, j :: 0 <= i < j < |order| ==> Before(order[i], order[j])
  }

  lemma BeforeTransitive(a: Entry, b: Entry, c: Entry)
    requires Before(a, b) && Before(b, c)
    ensures Before(a, c)
  {
    if a.expiry == b.expiry && b.expiry == c.expiry {
      Transitive(a.id, b.id, c.id);
    }
  }

  lemma BeforeConnected(a: Entry, b: Entry)
    ensures a == b || Before(a, b) || Before(b, a)
    ensures !Before(a, a)
  {
    Connected(a.id, b.id);
    Irreflexive(a.id);
  }

  /** bucket.Put on the index: the entry takes its place in key order, once. */
  function Inserted(order: seq<Entry>, e: Entry): (r: seq<Entry>) {
    if order == [] || Before(e, order[0]) then [e] + order
    else if order[0] == e then order
    else [order[0]] + Inserted(order[1..], e)
  }

  lemma {:induction false} InsertedMembers(order: seq<Entry>, e: Entry)
    ensures forall x :: x in Inserted(order, e) <==> x == e || x in order
  {
    if order != [] {
      InsertedMembers(order[1..], e);
      assert order == [order[0]] + order[1..];
    }
  }

  lemma {:induction false} InsertedSorted(order: seq<Entry>, e: Entry)
    requires Sorted(order)
    ensures Sorted(Inserted(order, e))
  {
    if order == [] {
    } else if Before(e, order[0]) {
      forall j | 0 <= j < |order| ensures Before(e, order[j]) {
        if j > 0 { BeforeTransitive(e, order[0], order[j]); }
      }
    } else if order[0] != e {
      BeforeConnected(e, order[0]);
      InsertedSorted(order[1..], e);
      InsertedMembers(order[1..], e);
      var rest := Inserted(order[1..], e);
      forall j | 0 <= j < |rest| ensures Before(order[0], rest[j]) {
        assert rest[j] in rest;
      }
    }
  }

  lemma {:induction false} InsertedLength(order: seq<Entry>, e: Entry)
    requires Sorted(order)
    ensures |Inserted(order, e)| == if e in order then |order| else |order| + 1
  {
    if order != [] {
      if Before(e, order[0]) {
        if e in order {
          var j :| 0 <= j < |order| && order[j] == e;
          if j > 0 { BeforeTransitive(e, order[0], e); }
          BeforeConnected(e, e);
        }
      } else if order[0] != e {
        InsertedLength(order[1..], e);
        assert order == [order[0]] + order[1..];
      }
    }
  }

  /** The index is sorted and holds exactly the (expiry, id) pairs of the map; the count is its size. */
  ghost predicate Exact(d: Index) {
    && Sorted(d.order)
    && Faithful(d)
    && Indexed(d)
    && d.count == |d.live|
  }

  ghost predicate Faithful(d: Index) {
    forall e <- d.order :: e.id in d.live && d.live[e.id] == e.expiry
  }

  ghost predicate Indexed(d: Index) {
    forall id <- d.live :: Entry(d.live[id], id) in d.order
  }

  /** What survives when identities are put again without deleting their old entry. */
  ghost predicate Covered(d: Index) {
    && Sorted(d.order)
    && Indexed(d)
    && |d.live| <= d.count
  }

  /** decrement: a stored count stops at zero. */
  function Decremented(n: nat): nat {
    if n == 0 then 0 else n - 1
  }

  /** One step of cleanup or eviction: the first index entry goes, and its record if it is still the current one. */
  function DropFirst(d: Index): Index
    requires d.order != []
  {
    var first := d.order[0];
    if first.id in d.live && d.live[first.id] == first.expiry
    then Index(d.live - {first.id}, d.order[1..], Decremented(d.count))
    else d.(order := d.order[1..])
  }

  function Cleaned(d: Index, now: nat, limit: int): Index
    decreases |d.order|
  {
    if limit <= 0 || d.order == [] || d.order[0].expiry > now then d
    else Cleaned(DropFirst(d), now, limit - 1)
  }

  function Evicted(d: Index, max: nat): Index
    decreases |d.order|
  {
    if d.count <= max then d
    else if d.order == [] then d.(count := 0)
    else Evicted(DropFirst(d), max)
  }

  /** The dedupe writes of an admission: no lookup of an earlier record for the same identity. */
  function Put(d: Index, id: string, expiry: nat): Index {
    Index(d.live[id := expiry], Inserted(d.order, Entry(expiry, id)), d.count + 1)
  }

  lemma LiveShrinks(live: map<string, nat>, id: string)
    ensures |live - {id}| == if id in live then |live| - 1 else |live|
  {
  }

  lemma LiveGrows(live: map<string, nat>, id: string, expiry: nat)
    ensures |live[id := expiry]| == if id in live then |live| else |live| + 1
  {
  }

  lemma SortedTail(order: seq<Entry>)
    requires Sorted(order) && order != []
    ensures Sorted(order[1..])
    ensures order[0] !in order[1..]
  {
    if order[0] in order[1..] {
      var j :| 0 <= j < |order[1..]| && order[1..][j] == order[0];
      BeforeConnected(order[0], order[j + 1]);
    }
  }

  /** In a bucket, an entry other than the first is in the tail. */
  lemma InTail(order: seq<Entry>, e: Entry)
    requires order != []
    ensures e in order <==> e == order[0] || e in order[1..]
  {
  }

  lemma DropFirstKeepsIndexed(d: Index)
    requires d.order != [] && Indexed(d)
    ensures Indexed(DropFirst(d))
  {
  }

  lemma DropFirstKeepsFaithful(d: Index)
    requires d.order != [] && Sorted(d.order) && Faithful(d)
    ensures Faithful(DropFirst(d))
    ensures DropFirst(d).live == d.live - {d.order[0].id}
  {
    var first := d.order[0];
    SortedTail(d.order);
    InTail(d.order, first);
    forall e | e in d.order[1..] ensures e.id != first.id && e.id in d.live && d.live[e.id] == e.expiry {
      InTail(d.order, e);
    }
  }

  lemma DropFirstKeepsCovered(d: Index)
    requires d.order != [] && Covered(d)
    ensures Covered(DropFirst(d))
  {
  }

  lemma DropFirstKeepsExact(d: Index)
    requires d.order != [] && Exact(d)
    ensures Exact(DropFirst(d))
    ensures DropFirst(d).live == d.live - {d.order[0].id}
    ensures |DropFirst(d).live| == |d.live| - 1
  {
    SortedTail(d.order);
    InTail(d.order, d.order[0]);
    DropFirstKeepsIndexed(d);
    DropFirstKeepsFaithful(d);
    LiveShrinks(d.live, d.order[0].id);
  }

  lemma NothingIndexed(d: Index)
    requires Indexed(d) && d.order == []
    ensures d.live == map[]
  {
  }

  /** An exact index has one entry per live record. */
  lemma {:induction false} ExactLength(d: Index)
    requires Exact(d)
    ensures |d.order| == d.count == |d.live|
    decreases |d.order|
  {
    if d.order == [] {
      NothingIndexed(d);
    } else {
      DropFirstKeepsExact(d);
      ExactLength(DropFirst(d));
    }
  }

  /** Re-admitting an identity that is still live is the one case in which the index stops being exact. */
  lemma PutExactIffFresh(d: Index, id: string, expiry: nat)
    requires Exact(d)
    ensures Exact(Put(d, id, expiry)) <==> id !in d.live
    ensures Covered(Put(d, id, expiry))
  {
    PutKeepsCovered(d, id, expiry);
    LiveGrows(d.live, id, expiry);
    InsertedMembers(d.order, Entry(expiry, id));
    var r := Put(d, id, expiry);
    if id !in d.live {
      forall e | e in r.order ensures e.id in r.live && r.live[e.id] == e.expiry {
        if e != Entry(expiry, id) {
          assert e in d.order;
        }
      }
    }
  }

  lemma PutKeepsCovered(d: Index, id: string, expiry: nat)
    requires Covered(d)
    ensures Covered(Put(d, id, expiry))
  {
    LiveGrows(d.live, id, expiry);
    InsertedMembers(d.order, Entry(expiry, id));
    InsertedSorted(d.order, Entry(expiry, id));
  }

  /** The index after its first n entries were dropped one by one. */
  function Dropped(d: Index, n: nat): Index
    requires n <= |d.order|
    decreases n
  {
    if n == 0 then d else Dropped(DropFirst(d), n - 1)
  }

  ghost function FirstIds(order: seq<Entry>, n: nat): set<string>
    requires n <= |order|
  {
    set i | 0 <= i < n :: order[i].id
  }

  lemma FirstIdsStep(order: seq<Entry>, n: nat)
    requires 0 < n <= |order|
    ensures FirstIds(order, n) == {order[0].id} + FirstIds(order[1..], n - 1)
  {
  }

  /** Dropping n entries removes exactly the records of the first n keys of the index. */
  lemma {:induction false} DroppedRemovesFirst(d: Index, n: nat)
    requires Exact(d) && n <= |d.order|
    ensures Exact(Dropped(d, n))
    ensures Dropped(d, n).order == d.order[n..]
    ensures Dropped(d, n).live == d.live - FirstIds(d.order, n)
    ensures |Dropped(d, n).live| == |d.live| - n
    decreases n
  {
    hide Exact, FirstIds;
    if n == 0 {
      assert FirstIds(d.order, 0) == {} by { FirstIdsNone(d.order); }
    } else {
      DropFirstKeepsExact(d);
      DroppedRemovesFirst(DropFirst(d), n - 1);
      FirstIdsStep(d.order, n);
      assert d.order[1..][n - 1..] == d.order[n..];
      assert d.live - {d.order[0].id} - FirstIds(d.order[1..], n - 1) == d.live - FirstIds(d.order, n);
    }
  }

  lemma FirstIdsNone(order: seq<Entry>)
    ensures FirstIds(order, 0) == {}
  {
  }

  /**
   * Eviction keeps at most `max` records and drops exactly the surplus, from the front of the sorted index:
   * the earliest-expiring ones.
   */
  lemma {:induction false} EvictsEarliest(d: Index, max: nat)
    requires Exact(d)
    ensures |d.order| == |d.live|
    ensures Evicted(d, max) == Dropped(d, if |d.live| <= max then 0 else |d.live| - max)
    ensures Exact(Evicted(d, max))
    ensures |Evicted(d, max).live| == if |d.live| <= max then |d.live| else max
    decreases |d.order|
  {
    hide Exact;
    ExactLength(d);
    if d.count > max {
      DropFirstKeepsExact(d);
      EvictsEarliest(DropFirst(d), max);
    }
  }

  lemma {:induction false} EvictedSubset(d: Index, max: nat)
    ensures Evicted(d, max).live.Keys <= d.live.Keys
    decreases |d.order|
  {
    if d.count > max && d.order != [] {
      EvictedSubset(DropFirst(d), max);
    }
  }

  /** An evicted record never expires after a surviving one. */
  lemma EvictedExpireFirst(d: Index, max: nat, gone: string, kept: string)
    requires Exact(d)
    requires gone in d.live && gone !in Evicted(d, max).live
    requires kept in Evicted(d, max).live
    ensures kept in d.live && d.live[gone] <= d.live[kept]
  {
    hide Evicted, Dropped, Indexed, Sorted;
    EvictsEarliest(d, max);
    var n := if |d.live| <= max then 0 else |d.live| - max;
    DroppedRemovesFirst(d, n);
    var i :| 0 <= i < n && d.order[i].id == gone;
    assert kept in d.live && kept !in FirstIds(d.order, n);
    var j := Position(d, kept);
    var g := Position(d, gone);
    assert d.order[i] in d.order;
    SortedPair(d.order, i, j);
  }

  lemma SortedPair(order: seq<Entry>, i: nat, j: nat)
    requires Sorted(order) && i < j < |order|
    ensures Before(order[i], order[j])
  {
  }

  lemma Position(d: Index, id: string) returns (j: nat)
    requires Exact(d) && id in d.live
    ensures j < |d.order| && d.order[j] == Entry(d.live[id], id)
  {
    assert Entry(d.live[id], id) in d.order;
    j :| 0 <= j < |d.order| && d.order[j] == Entry(d.live[id], id);
  }

  /** With stale entries present, eviction still keeps the map within its bound and covered by the index. */
  lemma {:induction false} EvictionBoundsCovered(d: Index, max: nat)
    requires Covered(d)
    ensures Covered(Evicted(d, max)) && Evicted(d, max).count <= max
    ensures Evicted(d, max).live.Keys <= d.live.Keys
    decreases |d.order|
  {
    if d.count <= max {
    } else if d.order == [] {
      NothingIndexed(d);
    } else {
      DropFirstKeepsCovered(d);
      EvictionBoundsCovered(DropFirst(d), max);
    }
  }

  lemma NoneExpired(d: Index, now: nat)
    requires Exact(d) && d.order != [] && d.order[0].expiry > now
    ensures forall i :: 0 <= i < |d.order| ==> d.order[i].expiry > now
  {
  }

  /** Cleanup removes only expired records, from the front, and leaves an expired one only if it stops at its limit. */
  lemma {:induction false} CleansExpired(d: Index, now: nat, limit: int) returns (n: nat)
    requires Exact(d)
    ensures n <= |d.order| && Cleaned(d, now, limit) == Dropped(d, n)
    ensures forall i :: 0 <= i < n ==> d.order[i].expiry <= now
    ensures n <= if limit <= 0 then 0 else limit
    ensures n < limit ==> forall i :: n <= i < |d.order| ==> d.order[i].expiry > now
    decreases |d.order|
  {
    hide Exact;
    n := 0;
    if limit > 0 && d.order != [] {
      if d.order[0].expiry > now {
        NoneExpired(d, now);
      } else {
        DropFirstKeepsExact(d);
        var rest := DropFirst(d);
        var m := CleansExpired(rest, now, limit - 1);
        n := m + 1;
        assert forall i :: 1 <= i < |d.order| ==> d.order[i] == rest.order[i - 1];
      }
    }
  }

  lemma CleaningKeepsExact(d: Index, now: nat, limit: int)
    requires Exact(d)
    ensures Exact(Cleaned(d, now, limit))
    ensures Cleaned(d, now, limit).live.Keys <= d.live.Keys
  {
    var n := CleansExpired(d, now, limit);
    DroppedRemovesFirst(d, n);
  }

  lemma {:induction false} CleaningKeepsCovered(d: Index, now: nat, limit: int)
    requires Covered(d)
    ensures Covered(Cleaned(d, now, limit))
    ensures Cleaned(d, now, limit).live.Keys <= d.live.Keys
    decreases |d.order|
  {
    hide Covered;
    if limit > 0 && d.order != [] && d.order[0].expiry <= now {
      DropFirstKeepsCovered(d);
      CleaningKeepsCovered(DropFirst(d), now, limit - 1);
    }
  }

  /** The cursor loop of cleanupDedupe. */
  method CleanupDedupe(d: Index, now: nat, limit: int) returns (r: Index)
    ensures r == Cleaned(d, now, limit)
  {
    r := d;
    var removed := 0;
    while r.order != [] && removed < limit
      invariant removed <= limit || removed == 0
      invariant Cleaned(d, now, limit) == Cleaned(r, now, limit - removed)
      decreases |r.order|
    {
      var first := r.order[0];
      if first.expiry > now {
        break;
      }
      if first.id in r.live && r.live[first.id] == first.expiry {
        r := r.(live := r.live - {first.id}, count := Decremented(r.count));
      }
      r := r.(order := r.order[1..]);
      removed := removed + 1;
    }
  }

  /** The loop of evictDedupe; the index shrinks at each turn. */
  method EvictDedupe(d: Index, max: nat) returns (r: Index)
    ensures r == Evicted(d, max)
  {
    r := d;
    while r.count > max
      invariant Evicted(d, max) == Evicted(r, max)
      decreases |r.order|, r.count
    {
      if r.order == [] {
        r := r.(count := 0);
        return;
      }
      var first := r.order[0];
      if first.id in r.live && r.live[first.id] == first.expiry {
        r := r.(live := r.live - {first.id}, count := Decremented(r.count));
      }
      r := r.(order := r.order[1..]);
    }
  }

  lemma EmptyIsExact()
    ensures Exact(Empty)
  {
  }

  ghost function Unexpired(live: map<string, nat>, now: nat, scanned: set<string>): map<string, nat> {
    map id | id in live && id in scanned && live[id] > now :: live[id]
  }

  /**
   * rebuildDedupe at open: whatever the index and the count held before, afterwards they are exact for the
   * unexpired records, of which at most `max`, the latest-expiring, survive.
   */
  method RebuildDedupe(d: Index, now: nat, max: nat) returns (r: Index)
    ensures Exact(r)
    ensures exists full: Index :: Exact(full) && r == Evicted(full, max)
              && full.live == Unexpired(d.live, now, d.live.Keys)
  {
    hide Exact, Inserted;
    r := Index(map[], [], 0);
    EmptyIsExact();
    var keys := d.live.Keys;
    while keys != {}
      invariant keys <= d.live.Keys
      invariant Exact(r)
      invariant r.live == Unexpired(d.live, now, d.live.Keys - keys)
      decreases |keys|
    {
      FirstExists(keys);
      var k :| k in keys && IsFirst(k, keys);
      keys := keys - {k};
      if d.live[k] > now {
        PutExactIffFresh(r, k, d.live[k]);
        r := Put(r, k, d.live[k]);
      }
    }
    EvictsEarliest(r, max);
    r := EvictDedupe(r, max);
  }

  /** The index and the count carry no information of their own: an exact index is a function of the map. */
  lemma {:induction false} ExactIsDeterminedByLive(a: Index, b: Index)
    requires Exact(a) && Exact(b) && a.live == b.live
    ensures a == b
    decreases |a.order|
  {
    hide Exact;
    ExactLength(a);
    ExactLength(b);
    if a.order != [] {
      SameFirst(a, b);
      DropFirstKeepsExact(a);
      DropFirstKeepsExact(b);
      ExactIsDeterminedByLive(DropFirst(a), DropFirst(b));
      assert a.order == [a.order[0]] + a.order[1..];
      assert b.order == [b.order[0]] + b.order[1..];
    }
  }

  lemma SameFirst(a: Index, b: Index)
    requires Exact(a) && Exact(b) && a.live == b.live && a.order != [] && b.order != []
    ensures a.order[0] == b.order[0]
  {
    var x, y := a.order[0], b.order[0];
    FirstIsLeast(a, y);
    FirstIsLeast(b, x);
    if x != y {
      BeforeTransitive(x, y, x);
      BeforeConnected(x, x);
    }
  }

  lemma FirstIsLeast(d: Index, e: Entry)
    requires Exact(d) && d.order != []
    requires e.id in d.live && d.live[e.id] == e.expiry
    ensures e == d.order[0] || Before(d.order[0], e)
  {
  }
}
