/** The recovery goroutine: rounds of at most 100 pending deliveries, archived and unlocked one after the other. */
module Recovery {
  import opened Queue
  import opened QueueInvariant
  import opened QueueCounters
  import opened QueueRuns
  import opened Archive
  import opened Store
  import opened Admission
  import opened ByteOrder

  const ROUND: nat := 100

  ghost function PendingSet(b: Buckets): set<string> {
    set id | id in b.states && !b.states[id].archived
  }

  lemma FinalizeClears(cfg: Config, b: Buckets, files: Files, id: string)
    requires Valid(cfg) && Durable(cfg, b, files) && id in files
    ensures PendingSet(Queue.FinalizeArchive(cfg, b, id).0) == PendingSet(b) - {id}
  {
    hide Inv, Settled;
    FinalizeDurable(cfg, b, files, id);
  }

  /**
   * A queued item from before delivery states is pending after opening exactly if it is locked, and finalizing its
   * delivery unlocks it, as long as the queue has a size of 64 bits.
   */
  lemma LockedItemIsRecovered(cfg: Config, b: Buckets, now: nat, r: Buckets, s: nat)
    requires Restorable(b) && Reopened(cfg, b, now, r) && r.bytes < U64
    requires s in b.queue && b.queue[s].deliveryID !in b.states
    ensures var id := b.queue[s].deliveryID;
            var (later, result) := Queue.FinalizeArchive(cfg, r, id);
            && (id in PendingSet(r) <==> !b.queue[s].archived)
            && result == Ok(()) && s in later.queue && later.queue[s] == b.queue[s].(archived := true)
            && id in later.states && later.states[id].archived
  {
    hide Restorable, Restored, ActiveItemBytes, ActiveTotal, DeadTotal;
    ReopenedRemembers(cfg, b, now, r);
    ChargeWithinTotal(cfg, r.queue, s);
    SameCharge(cfg, b.queue[s], b.queue[s].(archived := true));
  }

  /** The archive write of one pending delivery succeeds exactly if the space check passes; it cannot conflict. */
  lemma PendingPublishes(cfg: Config, b: Buckets, files: Files, id: string, event: string, raw: string)
    requires Durable(cfg, b, files) && Identified(b, id, event, raw)
    ensures VerifyExisting(files, event, id, raw) != Conflict
    ensures var later := Published(files, event, id, raw).0;
            Durable(cfg, b, later) && Extends(files, later) && id in later
  {
    hide Durable, Extends, VerifyExisting, Identified;
    PublishDurable(cfg, b, files, id, event, raw);
  }

  lemma PendingCarriesPayload(cfg: Config, b: Buckets, id: string)
    requires Inv(cfg, b) && id in PendingSet(b)
    ensures Identified(b, id, b.states[id].event, b.states[id].raw)
  {
  }

  ghost predicate SpaceFor(minFree: nat, b: Buckets, free: nat -> nat) {
    forall i, id :: id in PendingSet(b) ==> HasRoom(minFree, free(i), |b.states[id].raw|)
  }

  /** What is still pending was pending before, with the same payload. */
  ghost predicate SameRaw(b: Buckets, later: Buckets) {
    forall id <- PendingSet(later) :: id in PendingSet(b) && later.states[id].raw == b.states[id].raw
  }

  /**
   * One delivery of a round: archive the payload captured from its permanent state, then unlock it. `fault` is an
   * error of the second transaction, which leaves the payload archived and the delivery pending.
   */
  method RecoverOne(s: Store, a: Archive, id: string, event: string, raw: string, free: nat, fault: bool) returns (ok: bool)
    requires s.Consistent() && Durable(s.cfg, s.db, a.files) && !a.locked
    requires Identified(s.db, id, event, raw)
    modifies s, a`files
    ensures s.Consistent() && Durable(s.cfg, s.db, a.files)
    ensures Continues(old(s.db), s.db) && Extends(old(a.files), a.files)
    ensures ok ==> PendingSet(s.db) == PendingSet(old(s.db)) - {id}
    ensures ok ==> SameElsewhere(old(s.db), s.db, id)
    ensures !ok ==> s.db == old(s.db)
    ensures !ok ==> a.files == old(a.files) || (fault && a.files == Published(old(a.files), event, id, raw).0)
    ensures ok || fault || !HasRoom(a.minFree, free, |raw|)
    ensures ok ==> !fault && a.files == Published(old(a.files), event, id, raw).0
  {
    hide Inv, Settled, FilesMatch, ArchivedFiled, Queue.FinalizeArchive, Published, HasRoom;
    SameContinues(s.db);
    PendingPublishes(s.cfg, s.db, a.files, id, event, raw);
    ok := a.Store(event, id, raw, free);
    if ok && fault {
      return false;
    }
    if ok {
      FinalizeClears(s.cfg, s.db, a.files, id);
      FinalizeDurable(s.cfg, s.db, a.files, id);
      FinalizeKeepsOthers(s.cfg, s.db, id);
      var result := s.FinalizeArchive(id);
    }
  }

  ghost predicate SameElsewhere(b: Buckets, later: Buckets, id: string) {
    forall j <- b.states :: j != id ==> j in later.states && later.states[j] == b.states[j]
  }

  /**
   * recoverPending. `free` is the space seen at each archive write, `faults` the deliveries whose second transaction
   * fails. Whatever goes wrong the data stays sound; with space left and no fault, the round succeeds
   * and clears the first 100 pending deliveries, or all if there are fewer.
   */
  method RecoverPending(s: Store, a: Archive, free: nat -> nat, faults: set<nat>) returns (ok: bool)
    requires s.Consistent() && Durable(s.cfg, s.db, a.files) && !a.locked
    modifies s, a`files
    ensures s.Consistent() && Durable(s.cfg, s.db, a.files)
    ensures Continues(old(s.db), s.db) && Extends(old(a.files), a.files)
    ensures SameRaw(old(s.db), s.db)
    ensures SpaceFor(a.minFree, old(s.db), free) && faults == {} ==> ok
    ensures ok ==> Earliest(PendingSet(old(s.db)) - PendingSet(s.db), PendingSet(old(s.db)), ROUND)
    ensures ok ==> PendingSet(s.db) <= PendingSet(old(s.db))
  {
    hide Inv, Durable, HasRoom, Extends, Continues, Valid, Less;
    ghost var before := s.db;
    var pending := s.PendingArchives(ROUND);
    FirstPending(s.db, pending);
    ok := RecoverEach(s, a, pending, s.db.states, free, faults);
    Cleared(PendingSet(before), pending);
    assert PendingSet(before) - (PendingSet(before) - Members(pending)) == Members(pending);
  }

  /** The loop of a round over the deliveries and states read at its start. */
  method RecoverEach(s: Store, a: Archive, pending: seq<string>, captured: map<string, DeliveryState>,
                     free: nat -> nat, faults: set<nat>)
    returns (ok: bool)
    requires s.Consistent() && Durable(s.cfg, s.db, a.files) && !a.locked
    requires captured == s.db.states && Members(pending) <= PendingSet(s.db)
    modifies s, a`files
    ensures s.Consistent() && Durable(s.cfg, s.db, a.files)
    ensures Continues(old(s.db), s.db) && Extends(old(a.files), a.files)
    ensures SameRaw(old(s.db), s.db)
    ensures SpaceFor(a.minFree, old(s.db), free) && faults == {} ==> ok
    ensures ok ==> PendingSet(s.db) == PendingSet(old(s.db)) - Members(pending)
  {
    hide Inv, Durable, HasRoom, Extends, Continues, Identified, Valid;
    ghost var before := s.db;
    SameContinues(s.db);
    SameFiles(a.files);
    for i := 0 to |pending|
      invariant s.Consistent() && Durable(s.cfg, s.db, a.files)
      invariant Continues(before, s.db) && Extends(old(a.files), a.files)
      invariant PendingSet(s.db) == PendingSet(before) - Members(pending[..i])
      invariant SameRaw(before, s.db)
    {
      var id := pending[i];
      ghost var beforeFiles, beforeDb := a.files, s.db;
      assert id in Members(pending);
      PendingCarriesPayload(s.cfg, before, id);
      IdentityContinues(before, s.db, id, captured[id].event, captured[id].raw);
      assert SpaceFor(a.minFree, before, free) ==> HasRoom(a.minFree, free(i), |before.states[id].raw|);
      var recovered := RecoverOne(s, a, id, captured[id].event, captured[id].raw, free(i), i in faults);
      ExtendsTransitive(old(a.files), beforeFiles, a.files);
      ContinuesTransitive(before, beforeDb, s.db);
      if !recovered {
        return false;
      }
      assert pending[..i + 1] == pending[..i] + [id];
    }
    assert pending[..|pending|] == pending;
    return true;
  }

  ghost function Members(ids: seq<string>): set<string> {
    set id | id in ids
  }

  /** These are the first n keys of a bucket, or all of them if there are fewer. */
  ghost predicate Earliest(some: set<string>, all: set<string>, n: nat) {
    && some <= all
    && |some| == (if |all| <= n then |all| else n)
    && forall c, d :: c in some && d in all && d !in some ==> Less(c, d)
  }

  lemma FirstPending(b: Buckets, pending: seq<string>)
    requires |pending| <= ROUND
    requires forall i :: 0 <= i < |pending| ==> pending[i] in b.states && !b.states[pending[i]].archived
    requires forall id <- b.states :: !b.states[id].archived && id !in pending
               ==> |pending| == ROUND && forall p <- pending :: Less(p, id)
    ensures Members(pending) <= PendingSet(b)
    ensures |pending| == ROUND || Members(pending) == PendingSet(b)
    ensures forall c, d :: c in Members(pending) && d in PendingSet(b) && d !in Members(pending) ==> Less(c, d)
  {
  }

  lemma IdentityContinues(b: Buckets, later: Buckets, id: string, event: string, raw: string)
    requires Identified(b, id, event, raw) && Continues(b, later)
    ensures Identified(later, id, event, raw)
  {
  }

  lemma FinalizeKeepsOthers(cfg: Config, b: Buckets, id: string)
    ensures SameElsewhere(b, Queue.FinalizeArchive(cfg, b, id).0, id)
  {
  }

  lemma Cleared(all: set<string>, pending: seq<string>)
    requires forall i, j :: 0 <= i < j < |pending| ==> Less(pending[i], pending[j])
    requires Members(pending) <= all && |pending| <= ROUND && (|pending| == ROUND || Members(pending) == all)
    requires forall c, d :: c in Members(pending) && d in all && d !in Members(pending) ==> Less(c, d)
    ensures Earliest(Members(pending), all, ROUND)
  {
    hide Less;
    forall i, j | 0 <= i < j < |pending| ensures pending[i] != pending[j] {
      Irreflexive(pending[i]);
    }
    MembersCount(pending);
    SubsetSize(Members(pending), all);
  }

  /** The first n, and then the first m of the rest, are the first n + m. */
  lemma EarliestAdd(first: set<string>, next: set<string>, all: set<string>, n: nat, m: nat)
    requires Earliest(first, all, n) && Earliest(next, all - first, m)
    ensures Earliest(first + next, all, n + m)
  {
    hide Less;
    assert |all - first| == |all| - |first| by { assert all == (all - first) + first; }
    assert |first + next| == |first| + |next| by { assert first !! next; }
  }

  lemma {:induction false} MembersCount(ids: seq<string>)
    requires forall i, j :: 0 <= i < j < |ids| ==> ids[i] != ids[j]
    ensures |Members(ids)| == |ids|
  {
    if ids == [] {
      assert Members(ids) == {};
    } else {
      var front, last := ids[..|ids| - 1], ids[|ids| - 1];
      MembersCount(front);
      assert ids == front + [last];
      assert Members(ids) == Members(front) + {last} && last !in Members(front);
    }
  }

  /** The recovery loop: with space left and no new admissions, every round clears another hundred. */
  method RecoverArchives(s: Store, a: Archive, free: nat -> nat, faults: set<nat>, rounds: nat) returns (ok: bool)
    requires s.Consistent() && Durable(s.cfg, s.db, a.files) && !a.locked
    modifies s, a`files
    ensures s.Consistent() && Durable(s.cfg, s.db, a.files)
    ensures SpaceFor(a.minFree, old(s.db), free) && faults == {} ==> ok
    ensures ok ==> PendingSet(s.db) <= PendingSet(old(s.db))
    ensures ok ==> Earliest(PendingSet(old(s.db)) - PendingSet(s.db), PendingSet(old(s.db)), ROUND * rounds)
    ensures ok ==> |PendingSet(s.db)| == AfterRounds(|PendingSet(old(s.db))|, rounds)
  {
    hide Inv, Durable, Less, Earliest, HasRoom, Continues, Extends;
    ok := true;
    ghost var all := PendingSet(s.db);
    NoneEarliest(all);
    for i := 0 to rounds
      invariant s.Consistent() && Durable(s.cfg, s.db, a.files)
      invariant SpaceFor(a.minFree, old(s.db), free) && faults == {} ==> ok && SpaceFor(a.minFree, s.db, free)
      invariant ok ==> PendingSet(s.db) <= all && Earliest(all - PendingSet(s.db), all, ROUND * i)
    {
      ghost var before := PendingSet(s.db);
      var cleared := RecoverPending(s, a, free, faults);
      if ok && cleared {
        ghost var after := PendingSet(s.db);
        assert all - (all - before) == before;
        EarliestAdd(all - before, before - after, all, ROUND * i, ROUND);
        assert (all - before) + (before - after) == all - after;
      }
      ok := ok && cleared;
    }
    if ok { EarliestLeaves(PendingSet(s.db), all, rounds); }
  }

  lemma NoneEarliest(all: set<string>)
    ensures Earliest(all - all, all, 0)
  {
    assert all - all == {};
  }

  lemma EarliestLeaves(rest: set<string>, all: set<string>, rounds: nat)
    requires rest <= all && Earliest(all - rest, all, ROUND * rounds)
    ensures |rest| == AfterRounds(|all|, rounds)
  {
    hide Less;
    assert all == (all - rest) + rest;
  }

  function AfterRounds(n: nat, rounds: nat): nat {
    if n <= ROUND * rounds then 0 else n - ROUND * rounds
  }

  /** n pending deliveries are gone after n/100 rounds, rounded up, and not before. */
  lemma RoundsNeeded(n: nat, rounds: nat)
    ensures AfterRounds(n, rounds) == 0 <==> rounds >= (n + ROUND - 1) / ROUND
  {
  }
}
