/** The store object: each method is one bbolt transaction that works on a copy of the buckets and commits it. */
module Store {
  import opened Queue
  import opened QueueInvariant
  import opened QueueCounters
  import opened QueueRuns
  import opened ByteOrder
  import opened Totals
  import Dedupe
  import RateLimit

  lemma EmptyTotals(cfg: Config)
    ensures ActiveTotal(cfg, map[]) == 0 && DeadTotal(cfg, map[]) == 0
  {
  }

  /** The scan of rebuildActiveStats. */
  method CountActive(cfg: Config, queue: map<nat, Item>) returns (count: nat, bytes: nat)
    ensures count == |queue| && bytes == ActiveTotal(cfg, queue)
  {
    hide ActiveItemBytes, ActiveTotal, Total;
    count, bytes := 0, 0;
    EmptyTotals(cfg);
    var rest := queue;
    while rest != map[]
      invariant count + |rest| == |queue|
      invariant bytes + ActiveTotal(cfg, rest) == ActiveTotal(cfg, queue)
      decreases |rest|
    {
      LeastExists(rest.Keys);
      var k :| k in rest.Keys && IsLeast(k, rest.Keys);
      ChargeWithinTotal(cfg, rest, k);
      count, bytes := count + 1, bytes + ActiveItemBytes(cfg, rest[k]);
      rest := rest - {k};
    }
  }

  /** The scan of rebuildDeadStats. */
  method CountDead(cfg: Config, dead: map<nat, DeadItem>) returns (count: nat, bytes: nat)
    ensures count == |dead| && bytes == DeadTotal(cfg, dead)
  {
    hide Total;
    count, bytes := 0, 0;
    EmptyTotals(cfg);
    var rest := dead;
    while rest != map[]
      invariant count + |rest| == |dead|
      invariant bytes + DeadTotal(cfg, rest) == DeadTotal(cfg, dead)
      decreases |rest|
    {
      LeastExists(rest.Keys);
      var k :| k in rest.Keys && IsLeast(k, rest.Keys);
      TotalRemove(rest, k, cfg.deadSize);
      SizeRemove(rest, k);
      count, bytes := count + 1, bytes + cfg.deadSize(rest[k]);
      rest := rest - {k};
    }
  }

  function NewState(item: Item, status: Status): DeliveryState {
    DeliveryState(item.event, item.raw, item.sequence, status, status == Queued && item.archived, item.raw)
  }

  /** One scan of rebuildDeliveryStates: an item without a permanent state gets one, and no state is touched. */
  method AddMissingStates(items: map<nat, Item>, states: map<string, DeliveryState>, status: Status)
    returns (r: map<string, DeliveryState>)
    ensures states.Keys <= r.Keys && forall id <- states :: r[id] == states[id]
    ensures forall s <- items :: items[s].deliveryID in r
    ensures forall id <- r :: id !in states
              ==> exists s <- items :: items[s].deliveryID == id && r[id] == NewState(items[s], status)
  {
    r := states;
    var keys := items.Keys;
    while keys != {}
      invariant keys <= items.Keys
      invariant states.Keys <= r.Keys && forall id <- states :: r[id] == states[id]
      invariant forall s <- items :: s !in keys ==> items[s].deliveryID in r
      invariant forall id <- r :: id !in states
                  ==> exists s <- items :: items[s].deliveryID == id && r[id] == NewState(items[s], status)
      decreases |keys|
    {
      LeastExists(keys);
      var k :| k in keys && IsLeast(k, keys);
      keys := keys - {k};
      var item := items[k];
      if item.deliveryID !in r {
        r := r[item.deliveryID := NewState(item, status)];
      }
    }
  }

  function DeadItems(dead: map<nat, DeadItem>): map<nat, Item> {
    map s | s in dead :: dead[s].item
  }

  /** A database written by this version has a state for every item, so opening it adds none. */
  lemma NoStateMissing(b: Buckets)
    requires Conserved(b)
    ensures forall s <- b.queue :: b.queue[s].deliveryID in b.states
    ensures forall s <- b.dead :: b.dead[s].item.deliveryID in b.states
  {
    forall s | s in b.queue ensures b.queue[s].deliveryID in b.states {
      assert Owned(b, s, b.queue[s], Queued);
    }
    forall s | s in b.dead ensures b.dead[s].item.deliveryID in b.states {
      assert Owned(b, s, b.dead[s].item, Dead);
    }
  }

  /** The states after opening: what was there is kept, every item has one, and each new one was made from an item. */
  ghost predicate Restored(b: Buckets, states: map<string, DeliveryState>) {
    && b.states.Keys <= states.Keys && (forall id <- b.states :: states[id] == b.states[id])
    && (forall s <- b.queue :: b.queue[s].deliveryID in states)
    && (forall s <- b.dead :: b.dead[s].item.deliveryID in states)
    && (forall id <- states :: id !in b.states ==> FromQueue(b, id, states[id]) || FromDead(b, id, states[id]))
  }

  ghost predicate FromQueue(b: Buckets, id: string, state: DeliveryState) {
    exists s <- b.queue :: b.queue[s].deliveryID == id && state == NewState(b.queue[s], Queued)
  }

  ghost predicate FromDead(b: Buckets, id: string, state: DeliveryState) {
    exists s <- b.dead :: b.dead[s].item.deliveryID == id && state == NewState(b.dead[s].item, Dead)
  }

  lemma StatesRestored(b: Buckets, withQueued: map<string, DeliveryState>, states: map<string, DeliveryState>)
    requires b.states.Keys <= withQueued.Keys && forall id <- b.states :: withQueued[id] == b.states[id]
    requires forall s <- b.queue :: b.queue[s].deliveryID in withQueued
    requires forall id <- withQueued :: id !in b.states
               ==> exists s <- b.queue :: b.queue[s].deliveryID == id && withQueued[id] == NewState(b.queue[s], Queued)
    requires withQueued.Keys <= states.Keys && forall id <- withQueued :: states[id] == withQueued[id]
    requires forall s <- DeadItems(b.dead) :: DeadItems(b.dead)[s].deliveryID in states
    requires forall id <- states :: id !in withQueued
               ==> exists s <- DeadItems(b.dead) :: DeadItems(b.dead)[s].deliveryID == id && states[id] == NewState(DeadItems(b.dead)[s], Dead)
    ensures Restored(b, states)
  {
    forall s | s in b.dead ensures b.dead[s].item.deliveryID in states {
      assert s in DeadItems(b.dead);
    }
    forall id | id in states && id !in b.states ensures FromQueue(b, id, states[id]) || FromDead(b, id, states[id]) {
      if id !in withQueued {
        var s :| s in DeadItems(b.dead) && DeadItems(b.dead)[s].deliveryID == id && states[id] == NewState(DeadItems(b.dead)[s], Dead);
        assert s in b.dead;
      }
    }
  }

  /** What opening makes of any database. */
  ghost predicate Reopened(cfg: Config, b: Buckets, now: nat, r: Buckets) {
    && r == b.(states := r.states, dedupe := r.dedupe, count := r.count, bytes := r.bytes,
               deadCount := r.deadCount, deadBytes := r.deadBytes)
    && Counted(cfg, r)
    && Restored(b, r.states)
    && Dedupe.Exact(r.dedupe) && |r.dedupe.live| <= cfg.dedupeMax
    && exists full: Dedupe.Index :: Dedupe.Exact(full) && r.dedupe == Dedupe.Evicted(full, cfg.dedupeMax)
         && full.live == Dedupe.Unexpired(b.dedupe.live, now, b.dedupe.live.Keys)
  }

  lemma OpenedIsReopened(cfg: Config, b: Buckets, now: nat, r: Buckets)
    requires r == b.(states := r.states, dedupe := r.dedupe, count := r.count, bytes := r.bytes,
                     deadCount := r.deadCount, deadBytes := r.deadBytes)
    requires Counted(cfg, r) && Restored(b, r.states) && Dedupe.Exact(r.dedupe)
    requires exists full: Dedupe.Index :: Dedupe.Exact(full) && r.dedupe == Dedupe.Evicted(full, cfg.dedupeMax)
               && full.live == Dedupe.Unexpired(b.dedupe.live, now, b.dedupe.live.Keys)
    ensures Reopened(cfg, b, now, r)
  {
    hide Dedupe.Exact, Dedupe.Evicted, Dedupe.Unexpired, Counted, Restored;
    var full: Dedupe.Index :| Dedupe.Exact(full) && r.dedupe == Dedupe.Evicted(full, cfg.dedupeMax)
               && full.live == Dedupe.Unexpired(b.dedupe.live, now, b.dedupe.live.Keys);
    Dedupe.EvictsEarliest(full, cfg.dedupeMax);
  }

  /** An item sits under its own sequence and agrees with the state of its delivery, or has none and nobody else its sequence. */
  ghost predicate Placed(b: Buckets, s: nat, item: Item, status: Status) {
    && item.sequence == s && 1 <= s <= b.next
    && if item.deliveryID in b.states then Owned(b, s, item, status)
       else (status == Dead ==> !item.archived) && forall id <- b.states :: b.states[id].sequence != s
  }

  /** A database that is conserved up to missing states. */
  ghost predicate Restorable(b: Buckets) {
    && StatesLocated(b) && SequencesUnique(b)
    && (forall s <- b.queue :: Placed(b, s, b.queue[s], Queued))
    && (forall s <- b.dead :: Placed(b, s, b.dead[s].item, Dead) && s !in b.queue)
    && (forall s, t :: s in b.queue && t in b.queue && s != t ==> b.queue[s].deliveryID != b.queue[t].deliveryID)
    && (forall s, t :: s in b.dead && t in b.dead && s != t ==> b.dead[s].item.deliveryID != b.dead[t].item.deliveryID)
    && (forall s, t :: s in b.queue && t in b.dead ==> b.queue[s].deliveryID != b.dead[t].item.deliveryID)
  }

  lemma RestoredOwned(b: Buckets, r: Buckets, s: nat, item: Item, status: Status)
    requires Restorable(b) && Restored(b, r.states)
    requires (status == Queued && s in b.queue && item == b.queue[s]) || (status == Dead && s in b.dead && item == b.dead[s].item)
    ensures Owned(r, s, item, status)
    ensures item.deliveryID !in b.states ==> r.states[item.deliveryID] == NewState(item, status)
  {
    hide StatesLocated, SequencesUnique;
    var id := item.deliveryID;
    assert Placed(b, s, item, status);
    if id !in b.states {
      if FromQueue(b, id, r.states[id]) {
        var t :| t in b.queue && b.queue[t].deliveryID == id && r.states[id] == NewState(b.queue[t], Queued);
      } else {
        var t :| t in b.dead && b.dead[t].item.deliveryID == id && r.states[id] == NewState(b.dead[t].item, Dead);
      }
    }
  }

  /** Each state of the opened database is an old one or made from the one item with its delivery. */
  lemma RestoredLocated(b: Buckets, r: Buckets, id: string)
    requires Restorable(b) && Restored(b, r.states) && id in r.states
    requires r.queue == b.queue && r.dead == b.dead && r.next == b.next
    ensures Located(r, id)
  {
    hide SequencesUnique, Restored;
    KeptOrMade(b, r.states, id);
    if id in b.states {
      assert Located(b, id);
    } else if FromQueue(b, id, r.states[id]) {
      var t :| t in b.queue && b.queue[t].deliveryID == id && r.states[id] == NewState(b.queue[t], Queued);
      assert Placed(b, t, b.queue[t], Queued);
    } else {
      var t :| t in b.dead && b.dead[t].item.deliveryID == id && r.states[id] == NewState(b.dead[t].item, Dead);
      assert Placed(b, t, b.dead[t].item, Dead);
    }
  }

  lemma KeptOrMade(b: Buckets, states: map<string, DeliveryState>, id: string)
    requires Restored(b, states) && id in states
    ensures if id in b.states then states[id] == b.states[id] else FromQueue(b, id, states[id]) || FromDead(b, id, states[id])
  {
  }

  lemma OtherSequence(b: Buckets, r: Buckets, id: string, j: string)
    requires Restorable(b) && Restored(b, r.states) && id in r.states && j in r.states && j != id && id !in b.states
    ensures r.states[j].sequence != r.states[id].sequence
  {
    hide StatesLocated, SequencesUnique;
    var t := MadeFrom(b, r, id);
    if j !in b.states {
      var u := MadeFrom(b, r, j);
    }
  }

  lemma MadeFrom(b: Buckets, r: Buckets, id: string) returns (t: nat)
    requires Restorable(b) && Restored(b, r.states) && id in r.states && id !in b.states
    ensures r.states[id].sequence == t && forall j <- b.states :: b.states[j].sequence != t
    ensures (t in b.queue && b.queue[t].deliveryID == id) || (t in b.dead && t !in b.queue && b.dead[t].item.deliveryID == id)
  {
    hide StatesLocated, SequencesUnique;
    if FromQueue(b, id, r.states[id]) {
      t :| t in b.queue && b.queue[t].deliveryID == id && r.states[id] == NewState(b.queue[t], Queued);
      assert Placed(b, t, b.queue[t], Queued);
    } else {
      t :| t in b.dead && b.dead[t].item.deliveryID == id && r.states[id] == NewState(b.dead[t].item, Dead);
      assert Placed(b, t, b.dead[t].item, Dead);
    }
  }

  /** Opening restores conservation, and what could be recovered before can be recovered afterwards. */
  lemma ReopenedConserves(cfg: Config, b: Buckets, now: nat, r: Buckets)
    requires Restorable(b) && Reopened(cfg, b, now, r)
    ensures Conserved(r)
    ensures Recoverable(b) ==> Recoverable(r)
    ensures Recoverable(b) && Bounded(cfg, r) && r.dedupe.live.Keys <= r.states.Keys ==> Inv(cfg, r)
  {
    hide Restorable, Restored, Counted, Bounded, Dedupe.Exact;
    assert Restored(b, r.states);
    forall s | s in r.queue ensures Owned(r, s, r.queue[s], Queued) { RestoredOwned(b, r, s, b.queue[s], Queued); }
    forall s | s in r.dead ensures Owned(r, s, r.dead[s].item, Dead) { RestoredOwned(b, r, s, b.dead[s].item, Dead); }
    forall id | id in r.states ensures Located(r, id) { RestoredLocated(b, r, id); }
    RestoredUnique(b, r);
    if Recoverable(b) { RestoredRecoverable(b, r); }
  }

  /** Each item whose delivery had no state has one now: a queued item as locked as it is, a dead one unarchived. */
  ghost predicate Remembered(b: Buckets, states: map<string, DeliveryState>) {
    && (forall s <- b.queue :: b.queue[s].deliveryID !in b.states ==>
          var item := b.queue[s];
          item.deliveryID in states
          && states[item.deliveryID] == DeliveryState(item.event, item.raw, s, Queued, item.archived, item.raw))
    && (forall s <- b.dead :: b.dead[s].item.deliveryID !in b.states ==>
          var item := b.dead[s].item;
          item.deliveryID in states
          && states[item.deliveryID] == DeliveryState(item.event, item.raw, s, Dead, false, item.raw))
  }

  lemma ReopenedRemembers(cfg: Config, b: Buckets, now: nat, r: Buckets)
    requires Restorable(b) && Reopened(cfg, b, now, r)
    ensures Remembered(b, r.states)
  {
    hide Restorable, Restored, Counted, Dedupe.Exact, Dedupe.Evicted, Dedupe.Unexpired;
    forall s | s in b.queue && b.queue[s].deliveryID !in b.states
      ensures Owned(r, s, b.queue[s], Queued) && r.states[b.queue[s].deliveryID] == NewState(b.queue[s], Queued)
    {
      RestoredOwned(b, r, s, b.queue[s], Queued);
    }
    forall s | s in b.dead && b.dead[s].item.deliveryID !in b.states
      ensures Owned(r, s, b.dead[s].item, Dead) && r.states[b.dead[s].item.deliveryID] == NewState(b.dead[s].item, Dead)
    {
      RestoredOwned(b, r, s, b.dead[s].item, Dead);
    }
  }

  /**
   * If items and states agreed as far as there were states, and the dead letters are archived, then all items and states
   * agree after opening.
   */
  lemma ReopenedSettled(cfg: Config, b: Buckets, now: nat, r: Buckets)
    requires Restorable(b) && Reopened(cfg, b, now, r)
    requires forall s <- b.queue :: b.queue[s].deliveryID in b.states ==>
               b.queue[s].archived == b.states[b.queue[s].deliveryID].archived
    requires forall s <- b.dead :: b.dead[s].item.archived
    ensures Settled(r)
  {
    hide Restorable, Counted, Dedupe.Exact, Dedupe.Evicted, Dedupe.Unexpired;
    ReopenedRemembers(cfg, b, now, r);
  }

  lemma RestoredUnique(b: Buckets, r: Buckets)
    requires Restorable(b) && Restored(b, r.states)
    ensures SequencesUnique(r)
  {
    forall i, j | i in r.states && j in r.states && i != j && r.states[i].sequence == r.states[j].sequence
      ensures r.states[i].sequence == 0
    {
      if i !in b.states {
        OtherSequence(b, r, i, j);
      } else if j !in b.states {
        OtherSequence(b, r, j, i);
      }
    }
  }

  lemma RestoredRecoverable(b: Buckets, r: Buckets)
    requires Recoverable(b) && Restored(b, r.states)
    ensures Recoverable(r)
  {
    forall id | id in r.states && !r.states[id].archived ensures r.states[id].raw == r.states[id].digest {
      if id !in b.states {
        assert FromQueue(b, id, r.states[id]) || FromDead(b, id, r.states[id]);
      }
    }
  }

  /** A sound database is not changed by opening, but for expired dedupe records. */
  lemma ReopenedUnchanged(cfg: Config, b: Buckets, now: nat, r: Buckets)
    requires Valid(cfg) && Inv(cfg, b) && Reopened(cfg, b, now, r)
    ensures Inv(cfg, r) && r == b.(dedupe := r.dedupe)
    ensures r.dedupe.live == Dedupe.Unexpired(b.dedupe.live, now, b.dedupe.live.Keys)
    ensures forall id :: id in r.dedupe.live <==> id in b.dedupe.live && now < b.dedupe.live[id]
    ensures forall id <- r.dedupe.live :: r.dedupe.live[id] == b.dedupe.live[id]
  {
    hide Dedupe.Exact, Dedupe.Evicted, Conserved, ActiveTotal, DeadTotal;
    InvConserves(cfg, b);
    NoStateMissing(b);
    NothingRestored(b, r.states);
    ReopenedDedupe(cfg, b, now, r.dedupe);
    CountersAside(b, r);
  }

  lemma NothingRestored(b: Buckets, states: map<string, DeliveryState>)
    requires Restored(b, states)
    requires forall s <- b.queue :: b.queue[s].deliveryID in b.states
    requires forall s <- b.dead :: b.dead[s].item.deliveryID in b.states
    ensures states == b.states
  {
    forall id | id in states ensures id in b.states {
      assert id in b.states || FromQueue(b, id, states[id]) || FromDead(b, id, states[id]);
    }
  }

  predicate DueNow(item: Item, now: nat) {
    item.archived && item.nextAttempt <= now
  }

  /** The cursor of Due has passed every key below `bound` and found these, in ascending order. */
  ghost predicate FoundDue(queue: map<nat, Item>, now: nat, bound: nat, found: seq<nat>) {
    && (forall i :: 0 <= i < |found| ==> found[i] in queue && DueNow(queue[found[i]], now) && found[i] < bound)
    && (forall i, j :: 0 <= i < j < |found| ==> found[i] < found[j])
    && (forall s <- queue :: s < bound && DueNow(queue[s], now) ==> s in found)
  }

  method ScanDue(queue: map<nat, Item>, now: nat, limit: nat) returns (found: seq<nat>, ghost bound: nat)
    ensures |found| <= limit && FoundDue(queue, now, bound, found)
    ensures |found| < limit ==> forall s <- queue :: s < bound
  {
    found, bound := [], 0;
    var keys := queue.Keys;
    while keys != {} && |found| < limit
      invariant |found| <= limit && FoundDue(queue, now, bound, found)
      invariant forall s :: s in keys <==> s in queue && s >= bound
      decreases |keys|
    {
      LeastExists(keys);
      var k :| k in keys && IsLeast(k, keys);
      keys := keys - {k};
      bound := k + 1;
      if DueNow(queue[k], now) {
        found := found + [k];
      }
    }
  }

  class Store {
    const cfg: Config
    var db: Buckets

    ghost predicate Consistent()
      reads this
    {
      Valid(cfg) && Inv(cfg, db)
    }

    /**
     * Opening whatever database is there. Counters, dedupe index and missing states are rebuilt, the rest stays. A
     * database in which only states are missing becomes sound again; one that was sound, and written under the same
     * limits, only loses expired dedupe records.
     */
    constructor Open(cfg: Config, persisted: Buckets, now: nat)
      requires Valid(cfg)
      ensures this.cfg == cfg && Reopened(cfg, persisted, now, db)
      ensures Restorable(persisted) ==> Conserved(db) && Remembered(persisted, db.states)
      ensures Restorable(persisted) && Recoverable(persisted) ==>
                (Bounded(cfg, db) && db.dedupe.live.Keys <= db.states.Keys ==> Consistent())
      ensures Inv(cfg, persisted) ==>
                && Consistent() && db == persisted.(dedupe := db.dedupe)
                && db.dedupe.live == Dedupe.Unexpired(persisted.dedupe.live, now, persisted.dedupe.live.Keys)
    {
      hide Dedupe.Exact, Dedupe.Evicted, Dedupe.Unexpired, Conserved, Restorable, Inv, ActiveTotal, DeadTotal, Reopened, Bounded, Remembered;
      this.cfg := cfg;
      var dedupe := Dedupe.RebuildDedupe(persisted.dedupe, now, cfg.dedupeMax);
      var count, bytes := CountActive(cfg, persisted.queue);
      var deadCount, deadBytes := CountDead(cfg, persisted.dead);
      var withQueued := AddMissingStates(persisted.queue, persisted.states, Queued);
      var states := AddMissingStates(DeadItems(persisted.dead), withQueued, Dead);
      var reopened := persisted.(dedupe := dedupe, count := count, bytes := bytes,
                                 deadCount := deadCount, deadBytes := deadBytes, states := states);
      db := reopened;
      StatesRestored(persisted, withQueued, states);
      OpenedIsReopened(cfg, persisted, now, reopened);
      if Restorable(persisted) {
        ReopenedConserves(cfg, persisted, now, reopened);
        ReopenedRemembers(cfg, persisted, now, reopened);
      }
      if Inv(cfg, persisted) { ReopenedUnchanged(cfg, persisted, now, reopened); }
    }

    method Admit(id: string, event: string, raw: string, chats: seq<string>, now: nat, ttl: nat) returns (r: Outcome<bool>)
      requires Consistent()
      modifies this
      ensures Consistent()
      ensures (db, r) == Queue.Admit(cfg, old(db), id, event, raw, chats, now, ttl)
    {
      hide Inv, Dedupe.Evicted, Dedupe.Cleaned, Dedupe.Put, ActiveItemBytes;
      var tx := db;
      if id in tx.states {
        if tx.states[id].event != event || tx.states[id].digest != raw {
          return Outcome.Fail(DeliveryConflict);
        }
        return Ok(true);
      }
      var cleaned := Dedupe.CleanupDedupe(tx.dedupe, now, 1000);
      var dedupe := Dedupe.EvictDedupe(cleaned, Minus(cfg.dedupeMax, 1));
      var item := Item(tx.next + 1, id, event, now, raw, 0, now, "", false, chats);
      var size := ActiveItemBytes(cfg, item);
      if tx.count >= cfg.maxItems || tx.bytes > cfg.maxBytes || size > cfg.maxBytes - tx.bytes {
        return Outcome.Fail(QueueFull);
      }
      tx := tx.(queue := tx.queue[item.sequence := item]);
      tx := tx.(states := tx.states[id := DeliveryState(event, raw, item.sequence, Queued, false, raw)]);
      tx := tx.(dedupe := Dedupe.Put(dedupe, id, now + ttl));
      tx := tx.(next := item.sequence, count := tx.count + 1, bytes := tx.bytes + size);
      AdmitKeepsInv(cfg, db, id, event, raw, chats, now, ttl);
      db := tx;
      return Ok(false);
    }

    method AdmitArchiveOnly(id: string, event: string, raw: string) returns (r: Outcome<bool>)
      requires Consistent()
      modifies this
      ensures Consistent()
      ensures (db, r) == Queue.AdmitArchiveOnly(old(db), id, event, raw)
    {
      if id in db.states {
        if db.states[id].event != event || db.states[id].digest != raw {
          return Outcome.Fail(DeliveryConflict);
        }
        return Ok(true);
      }
      ArchiveOnlyKeepsInv(cfg, db, id, event, raw);
      db := db.(states := db.states[id := DeliveryState(event, raw, 0, ArchiveOnly, false, raw)]);
      return Ok(false);
    }

    method FinalizeArchive(id: string) returns (r: Outcome<()>)
      requires Consistent()
      modifies this
      ensures Consistent()
      ensures (db, r) == Queue.FinalizeArchive(cfg, old(db), id)
      ensures r == if id in old(db).states then Ok(()) else Outcome.Fail(NotFound)
    {
      hide Conserved, Recoverable, Deduped, ActiveItemBytes, ActiveTotal, DeadTotal;
      FinalizeKeepsInv(cfg, db, id);
      FinalizeNeverFails(cfg, db, id);
      var tx := db;
      if id !in tx.states {
        return Outcome.Fail(NotFound);
      }
      var state := tx.states[id];
      if state.archived {
        return Ok(());
      }
      state := state.(archived := true, raw := "");
      if state.sequence in tx.queue {
        var item := tx.queue[state.sequence];
        var oldBytes := ActiveItemBytes(cfg, item);
        if tx.bytes < oldBytes {
          assert false;
        }
        item := item.(archived := true);
        var newBytes := ActiveItemBytes(cfg, item);
        var newTotal := tx.bytes - oldBytes;
        if U64 - 1 - newTotal < newBytes {
          assert false;
        }
        tx := tx.(queue := tx.queue[state.sequence := item], bytes := newTotal + newBytes);
      }
      db := tx.(states := tx.states[id := state]);
      return Ok(());
    }

    method LookupDelivery(id: string, event: string, raw: string) returns (r: Outcome<bool>, archived: bool)
      ensures r == Queue.LookupDelivery(db, id, event, raw)
      ensures archived == (id in db.states && db.states[id].archived)
    {
      archived := id in db.states && db.states[id].archived;
      if id !in db.states {
        return Ok(false), archived;
      }
      if db.states[id].event != event || db.states[id].digest != raw {
        return Outcome.Fail(DeliveryConflict), archived;
      }
      return Ok(true), archived;
    }

    /** The first `limit` unarchived deliveries in key order. */
    method PendingArchives(limit: nat) returns (pending: seq<string>)
      ensures |pending| <= limit
      ensures forall i :: 0 <= i < |pending| ==> pending[i] in db.states && !db.states[pending[i]].archived
      ensures forall i, j :: 0 <= i < j < |pending| ==> Less(pending[i], pending[j])
      ensures forall id <- db.states :: !db.states[id].archived && id !in pending
                ==> |pending| == limit && forall p <- pending :: Less(p, id)
    {
      pending := [];
      var keys := db.states.Keys;
      while keys != {}
        invariant keys <= db.states.Keys
        invariant |pending| <= limit
        invariant forall i :: 0 <= i < |pending| ==> pending[i] in db.states && !db.states[pending[i]].archived
        invariant forall i, j :: 0 <= i < j < |pending| ==> Less(pending[i], pending[j])
        invariant forall p, k :: p in pending && k in keys ==> Less(p, k)
        invariant forall id <- db.states :: id !in keys && !db.states[id].archived && id !in pending
                    ==> |pending| == limit && forall p <- pending :: Less(p, id)
        decreases |keys|
      {
        FirstExists(keys);
        var k :| k in keys && IsFirst(k, keys);
        keys := keys - {k};
        if |pending| < limit && !db.states[k].archived {
          pending := pending + [k];
        }
      }
    }

    /** The first `limit` items, in sequence order, that are archived and whose next attempt has come. */
    method Due(now: nat, limit: nat) returns (items: seq<Item>)
      requires Consistent()
      ensures |items| <= limit
      ensures exists bound: nat :: FoundDue(db.queue, now, bound, Sequences(items))
                && (|items| < limit ==> forall s <- db.queue :: s < bound)
      ensures forall item <- items :: item.sequence in db.queue && db.queue[item.sequence] == item && item.archived
    {
      var found, bound := ScanDue(db.queue, now, limit);
      forall s | s in db.queue ensures db.queue[s].sequence == s {
        QueuedUnderItsSequence(db, s);
      }
      var queue := db.queue;
      items := seq(|found|, i requires 0 <= i < |found| && found[i] in queue => queue[found[i]]);
      assert Sequences(items) == found;
    }

    method Delete(items: seq<Item>)
      requires Consistent()
      modifies this
      ensures Consistent()
      ensures db == DeliverAll(cfg, old(db), Sequences(items))
    {
      hide Inv, Minus, ActiveItemBytes;
      var tx := db;
      DeliverAllKeeps(cfg, db, Sequences(items));
      for i := 0 to |items|
        invariant db == old(db)
        invariant tx == DeliverAll(cfg, db, Sequences(items)[..i])
      {
        var s := items[i].sequence;
        assert Sequences(items)[..i + 1] == Sequences(items)[..i] + [s];
        if s in tx.queue {
          var current := tx.queue[s];
          tx := tx.(queue := tx.queue - {s});
          if current.deliveryID in tx.states {
            var state := tx.states[current.deliveryID].(status := Delivered);
            tx := tx.(states := tx.states[current.deliveryID := state]);
          }
          tx := tx.(count := Minus(tx.count, 1), bytes := Minus(tx.bytes, ActiveItemBytes(cfg, current)));
        }
      }
      assert Sequences(items)[..|items|] == Sequences(items);
      db := tx;
    }

    method CompleteChatDelivery(items: seq<Item>, chat: string)
      requires Consistent()
      modifies this
      ensures Consistent()
      ensures db == Queue.CompleteChatDelivery(cfg, old(db), Sequences(items), chat)
    {
      hide Recoverable, Deduped, CompleteOne, ActiveTotal, DeadTotal, Conserved;
      var tx := db;
      CompleteKeepsInv(cfg, db, Sequences(items), chat);
      for i := 0 to |items|
        invariant db == old(db)
        invariant tx == CompleteAll(db, Sequences(items)[..i], chat)
      {
        var s := items[i].sequence;
        assert Sequences(items)[..i + 1] == Sequences(items)[..i] + [s];
        CompleteAllKeeps(cfg, db, Sequences(items)[..i], chat);
        tx := CompleteItem(tx, s, chat);
      }
      assert Sequences(items)[..|items|] == Sequences(items);
      var count, bytes := CountActive(cfg, tx.queue);
      db := tx.(count := count, bytes := bytes);
    }

    method HandleFailure(items: seq<Item>, f: Failure) returns (r: Outcome<FailureResult>)
      requires Consistent()
      modifies this
      ensures Consistent()
      ensures (db, r) == Queue.HandleFailure(cfg, old(db), Sequences(items), f)
    {
      hide Conserved, Recoverable, Deduped, ActiveTotal, DeadTotal, FailAll, Outcomes, Doomed, NoRepeats;
      var seqs := Sequences(items);
      FailKeepsInv(cfg, db, seqs, f);
      var repeated := HasRepeats(items);
      if repeated {
        return Outcome.Fail(DuplicateItem);
      }
      var tx := db;
      var current, doomed, doomedBytes := Preflight(cfg, tx, items, f);
      var full := false;
      if doomed > 0 {
        full := tx.deadCount > cfg.deadMaxItems || tx.deadBytes > cfg.deadMaxBytes
             || doomed > cfg.deadMaxItems - tx.deadCount || doomedBytes > cfg.deadMaxBytes - tx.deadBytes;
      }
      PreflightExact(cfg, db, seqs, f, full);
      var retried, deadLettered;
      tx, retried, deadLettered := MoveFailed(tx, items, current, f, full);
      if f.retryAfter > 0 && f.now + f.retryAfter > tx.limiter.cooldown {
        tx := tx.(limiter := tx.limiter.(cooldown := f.now + f.retryAfter));
      }
      var count, bytes := CountActive(cfg, tx.queue);
      var deadCount, deadBytes := CountDead(cfg, tx.dead);
      db := tx.(count := count, bytes := bytes, deadCount := deadCount, deadBytes := deadBytes);
      return Ok(FailureResult(retried, deadLettered, full));
    }

    method RequeueDeadLetter(s: nat, now: nat) returns (r: Outcome<()>)
      requires Consistent()
      modifies this
      ensures Consistent()
      ensures (db, r) == Queue.RequeueDeadLetter(cfg, old(db), s, now)
    {
      RequeueKeepsInv(cfg, db, s, now);
      var tx := db;
      if s !in tx.dead {
        return Outcome.Fail(NotFound);
      }
      var item := tx.dead[s].item.(attempts := 0, nextAttempt := now, lastError := "");
      var size := ActiveItemBytes(cfg, item);
      if tx.count >= cfg.maxItems || tx.bytes > cfg.maxBytes || size > cfg.maxBytes - tx.bytes {
        return Outcome.Fail(QueueFull);
      }
      tx := tx.(queue := tx.queue[s := item], dead := tx.dead - {s});
      if item.deliveryID in tx.states {
        var state := tx.states[item.deliveryID].(sequence := s, status := Queued, archived := true, raw := "");
        tx := tx.(states := tx.states[item.deliveryID := state]);
      }
      var count, bytes := CountActive(cfg, tx.queue);
      var deadCount, deadBytes := CountDead(cfg, tx.dead);
      db := tx.(count := count, bytes := bytes, deadCount := deadCount, deadBytes := deadBytes);
      return Ok(());
    }

    method ReserveRequest(now: nat) returns (wait: int)
      requires Consistent()
      modifies this
      ensures Consistent()
      ensures wait == RateLimit.Wait(old(db).limiter, now)
      ensures db == old(db).(limiter := RateLimit.Reserved(old(db).limiter, now))
    {
      var limiter;
      limiter, wait := RateLimit.ReserveRequest(db.limiter, now);
      LimiterAside(cfg, db, limiter);
      db := db.(limiter := limiter);
    }

    method CleanupDedupe(now: nat, limit: int)
      requires Consistent()
      modifies this
      ensures Consistent()
      ensures db == old(db).(dedupe := Dedupe.Cleaned(old(db).dedupe, now, limit))
    {
      var dedupe := Dedupe.CleanupDedupe(db.dedupe, now, limit);
      CleanupKeepsInv(cfg, db, now, limit);
      db := db.(dedupe := dedupe);
    }
  }

  lemma ReopenedDedupe(cfg: Config, b: Buckets, now: nat, r: Dedupe.Index)
    requires Valid(cfg) && Deduped(cfg, b) && Dedupe.Exact(r)
    requires exists full: Dedupe.Index :: Dedupe.Exact(full) && r == Dedupe.Evicted(full, cfg.dedupeMax)
               && full.live == Dedupe.Unexpired(b.dedupe.live, now, b.dedupe.live.Keys)
    ensures Deduped(cfg, b.(dedupe := r))
    ensures r.live == Dedupe.Unexpired(b.dedupe.live, now, b.dedupe.live.Keys)
  {
    hide Dedupe.Exact;
    var full: Dedupe.Index :| Dedupe.Exact(full) && r == Dedupe.Evicted(full, cfg.dedupeMax)
               && full.live == Dedupe.Unexpired(b.dedupe.live, now, b.dedupe.live.Keys);
    assert full.live.Keys <= b.dedupe.live.Keys;
    SubsetSize(full.live.Keys, b.dedupe.live.Keys);
    assert |full.live| == |full.live.Keys| && |b.dedupe.live| == |b.dedupe.live.Keys|;
    Dedupe.ExactLength(full);
    assert Dedupe.Evicted(full, cfg.dedupeMax) == full;
  }

  lemma {:induction false} SubsetSize(a: set<string>, b: set<string>)
    requires a <= b
    ensures |a| <= |b|
    decreases |a|
  {
    if a != {} {
      var x :| x in a;
      SubsetSize(a - {x}, b - {x});
    }
  }

  function Sequences(items: seq<Item>): seq<nat> {
    seq(|items|, i requires 0 <= i < |items| => items[i].sequence)
  }

  /** Filtering the chat out of the remaining targets of one item. */
  method CompleteItem(b: Buckets, s: nat, chat: string) returns (tx: Buckets)
    requires Conserved(b)
    ensures tx == CompleteOne(b, s, chat)
  {
    tx := b;
    if s !in tx.queue {
      return;
    }
    var current := tx.queue[s];
    assert Owned(b, s, current, Queued);
    var remaining := [];
    for i := 0 to |current.chatIDs|
      invariant remaining == Without(current.chatIDs[..i], chat)
    {
      assert current.chatIDs[..i + 1] == current.chatIDs[..i] + [current.chatIDs[i]];
      WithoutAppend(current.chatIDs[..i], current.chatIDs[i], chat);
      if current.chatIDs[i] != chat {
        remaining := remaining + [current.chatIDs[i]];
      }
    }
    assert current.chatIDs[..|current.chatIDs|] == current.chatIDs;
    if (|current.chatIDs| == 0 && chat != "") || (|current.chatIDs| > 0 && |remaining| == |current.chatIDs|) {
      return;
    }
    if |remaining| > 0 {
      tx := tx.(queue := tx.queue[current.sequence := current.(chatIDs := remaining)]);
      return;
    }
    tx := tx.(queue := tx.queue - {current.sequence});
    if current.deliveryID in tx.states {
      var state := tx.states[current.deliveryID].(status := Delivered);
      tx := tx.(states := tx.states[current.deliveryID := state]);
    }
  }

  lemma {:induction false} WithoutAppend(chats: seq<string>, last: string, chat: string)
    ensures Without(chats + [last], chat) == Without(chats, chat) + if last == chat then [] else [last]
  {
    if chats == [] {
      assert chats + [last] == [last];
    } else {
      assert (chats + [last])[1..] == chats[1..] + [last];
      WithoutAppend(chats[1..], last, chat);
    }
  }

  method HasRepeats(items: seq<Item>) returns (repeated: bool)
    ensures repeated <==> !NoRepeats(Sequences(items))
  {
    var seen: set<nat> := {};
    for i := 0 to |items|
      invariant forall j :: 0 <= j < i ==> items[j].sequence in seen
      invariant forall s <- seen :: exists j :: 0 <= j < i && items[j].sequence == s
      invariant forall j, k :: 0 <= j < k < i ==> items[j].sequence != items[k].sequence
    {
      if items[i].sequence in seen {
        var j :| 0 <= j < i && items[j].sequence == items[i].sequence;
        assert Sequences(items)[j] == Sequences(items)[i];
        return true;
      }
      seen := seen + {items[i].sequence};
    }
    return false;
  }

  /** The first pass: the stored items that are still present, and what the exhausted ones would add to the dead letters. */
  method Preflight(cfg: Config, b: Buckets, items: seq<Item>, f: Failure) returns (current: seq<Item>, doomed: nat, bytes: nat)
    ensures (doomed, bytes) == Doomed(cfg, b, Sequences(items), f)
    ensures current == StoredItems(b, Sequences(items))
  {
    current, doomed, bytes := [], 0, 0;
    for i := 0 to |items|
      invariant (doomed, bytes) == Doomed(cfg, b, Sequences(items)[..i], f)
      invariant current == StoredItems(b, Sequences(items)[..i])
    {
      var s := items[i].sequence;
      assert Sequences(items)[..i + 1] == Sequences(items)[..i] + [s];
      if s in b.queue {
        var stored := b.queue[s];
        current := current + [stored];
        if f.permanent || stored.attempts + 1 >= f.maxAttempts {
          var prospective := stored.(attempts := stored.attempts + 1, lastError := TrimReason(f.reason));
          doomed, bytes := doomed + 1, bytes + cfg.deadSize(DeadItem(prospective, f.now));
        }
      }
    }
    assert Sequences(items)[..|items|] == Sequences(items);
  }

  function StoredItems(b: Buckets, seqs: seq<nat>): seq<Item> {
    if seqs == [] then []
    else
      var before, s := StoredItems(b, seqs[..|seqs| - 1]), seqs[|seqs| - 1];
      if s in b.queue then before + [b.queue[s]] else before
  }

  lemma {:induction false} StoredSequences(b: Buckets, seqs: seq<nat>)
    requires Conserved(b) && NoRepeats(seqs)
    ensures var present := Sequences(StoredItems(b, seqs));
            && NoRepeats(present)
            && (forall s <- present :: s in seqs && s in b.queue)
    ensures forall item <- StoredItems(b, seqs) :: item.sequence in b.queue && b.queue[item.sequence] == item
  {
    if seqs != [] {
      var front, s := seqs[..|seqs| - 1], seqs[|seqs| - 1];
      StoredSequences(b, front);
      assert s !in front;
      if s in b.queue {
        assert Owned(b, s, b.queue[s], Queued);
        assert Sequences(StoredItems(b, seqs)) == Sequences(StoredItems(b, front)) + [s];
      }
    }
  }

  lemma {:induction false} FailingAddsNothing(b: Buckets, seqs: seq<nat>, f: Failure, full: bool)
    ensures FailAll(b, seqs, f, full).queue.Keys <= b.queue.Keys
  {
    if seqs != [] {
      FailingAddsNothing(b, seqs[..|seqs| - 1], f, full);
    }
  }

  /** Items that left the queue in the meantime play no part. */
  lemma {:induction false} AbsentItemsSkipped(b: Buckets, seqs: seq<nat>, f: Failure, full: bool)
    requires Conserved(b) && NoRepeats(seqs)
    ensures var present := Sequences(StoredItems(b, seqs));
            FailAll(b, present, f, full) == FailAll(b, seqs, f, full) && Outcomes(b, present, f, full) == Outcomes(b, seqs, f, full)
  {
    hide FailOne, Conserved;
    if seqs != [] {
      var front, s := seqs[..|seqs| - 1], seqs[|seqs| - 1];
      AbsentItemsSkipped(b, front, f, full);
      if s in b.queue {
        QueuedUnderItsSequence(b, s);
        assert Sequences(StoredItems(b, seqs)) == Sequences(StoredItems(b, front)) + [s];
        var present := Sequences(StoredItems(b, seqs));
        assert present[..|present| - 1] == Sequences(StoredItems(b, front));
      } else {
        FailingAddsNothing(b, front, f, full);
        FailOneAbsent(FailAll(b, front, f, full), s, f, full);
      }
    }
  }

  lemma QueuedUnderItsSequence(b: Buckets, s: nat)
    requires Conserved(b) && s in b.queue
    ensures b.queue[s].sequence == s && b.queue[s].deliveryID in b.states
  {
  }

  lemma NotEarlier(seqs: seq<nat>, i: nat)
    requires NoRepeats(seqs) && i < |seqs|
    ensures seqs[i] !in seqs[..i]
  {
  }

  method FailItem(b: Buckets, stored: Item, f: Failure, full: bool) returns (tx: Buckets, died: bool)
    requires stored.sequence in b.queue && b.queue[stored.sequence] == stored
    ensures tx == FailOne(b, stored.sequence, f, full)
    ensures died == (Exhausted(stored, f) && !full)
  {
    tx := b;
    var item := stored;
    died := (f.permanent || item.attempts + 1 >= f.maxAttempts) && !full;
    item := item.(attempts := item.attempts + 1, lastError := TrimReason(f.reason));
    if died {
      tx := tx.(dead := tx.dead[item.sequence := DeadItem(item, f.now)], queue := tx.queue - {item.sequence});
      if item.deliveryID in tx.states {
        var state := tx.states[item.deliveryID].(status := Dead);
        tx := tx.(states := tx.states[item.deliveryID := state]);
      }
      return;
    }
    item := item.(nextAttempt := f.retryAt);
    if full {
      item := item.(lastError := TrimReason("dead-letter capacity full: " + TrimReason(f.reason)));
    }
    tx := tx.(queue := tx.queue[item.sequence := item]);
  }

  /** The second pass: each present item is retried or, if exhausted and the dead letters have room, moved there. */
  method MoveFailed(b: Buckets, items: seq<Item>, current: seq<Item>, f: Failure, full: bool)
    returns (tx: Buckets, retried: nat, deadLettered: nat)
    requires Conserved(b) && NoRepeats(Sequences(items)) && current == StoredItems(b, Sequences(items))
    ensures tx == FailAll(b, Sequences(items), f, full)
    ensures (retried, deadLettered) == Outcomes(b, Sequences(items), f, full)
  {
    hide Conserved, NoRepeats, FailOne, StoredItems;
    tx, retried, deadLettered := b, 0, 0;
    StoredSequences(b, Sequences(items));
    for i := 0 to |current|
      invariant tx == FailAll(b, Sequences(current)[..i], f, full)
      invariant (retried, deadLettered) == Outcomes(b, Sequences(current)[..i], f, full)
    {
      var item := current[i];
      var s := item.sequence;
      assert Sequences(current)[..i + 1] == Sequences(current)[..i] + [s];
      NotEarlier(Sequences(current), i);
      FailAllFrame(b, Sequences(current)[..i], f, full, s);
      var died;
      tx, died := FailItem(tx, item, f, full);
      if died {
        deadLettered := deadLettered + 1;
      } else {
        retried := retried + 1;
      }
    }
    assert Sequences(current)[..|current|] == Sequences(current);
    AbsentItemsSkipped(b, Sequences(items), f, full);
  }
}
