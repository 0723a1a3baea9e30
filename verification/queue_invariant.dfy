/** What every transaction keeps: conservation of deliveries, exact cached counters, and the capacity bounds. */
module QueueInvariant {
  import opened Totals
  import opened Queue
  import Dedupe

  /** An item sits under its own sequence, which is the one recorded for its delivery. */
  ghost predicate Owned(b: Buckets, s: nat, item: Item, status: Status) {
    && item.sequence == s
    && item.deliveryID in b.states
    && var state := b.states[item.deliveryID];
       state.sequence == s && state.status == status && state.event == item.event && state.digest == item.raw
       && (item.archived ==> state.archived)
  }

  ghost predicate QueueOwned(b: Buckets) {
    forall s <- b.queue :: Owned(b, s, b.queue[s], Queued)
  }

  ghost predicate DeadOwned(b: Buckets) {
    forall s <- b.dead :: Owned(b, s, b.dead[s].item, Dead)
  }

  /** A delivery is where its permanent status says: in the queue, in the dead letters, or in neither. */
  ghost predicate Located(b: Buckets, id: string)
    requires id in b.states
  {
    var state := b.states[id];
    && (state.status == ArchiveOnly <==> state.sequence == 0)
    && state.sequence <= b.next
    && (state.status == Queued ==> state.sequence in b.queue && b.queue[state.sequence].deliveryID == id)
    && (state.status == Dead ==> state.sequence in b.dead && b.dead[state.sequence].item.deliveryID == id)
  }

  ghost predicate StatesLocated(b: Buckets) {
    forall id <- b.states :: Located(b, id)
  }

  ghost predicate SequencesUnique(b: Buckets) {
    forall i, j :: i in b.states && j in b.states && i != j && b.states[i].sequence == b.states[j].sequence
      ==> b.states[i].sequence == 0
  }

  ghost predicate Conserved(b: Buckets) {
    QueueOwned(b) && DeadOwned(b) && StatesLocated(b) && SequencesUnique(b)
  }

  /** What has not been archived yet can be archived from its permanent state. */
  ghost predicate Recoverable(b: Buckets) {
    forall id <- b.states :: !b.states[id].archived ==> b.states[id].raw == b.states[id].digest
  }

  /** The cached counters are the recomputed ones. */
  ghost predicate Counted(cfg: Config, b: Buckets) {
    && b.count == |b.queue| && b.bytes == ActiveTotal(cfg, b.queue)
    && b.deadCount == |b.dead| && b.deadBytes == DeadTotal(cfg, b.dead)
  }

  ghost predicate Bounded(cfg: Config, b: Buckets) {
    b.count <= cfg.maxItems && b.bytes <= cfg.maxBytes && b.deadCount <= cfg.deadMaxItems && b.deadBytes <= cfg.deadMaxBytes
  }

  /** Dedupe records belong to admitted deliveries, so an admission never meets a record of its own identity. */
  ghost predicate Deduped(cfg: Config, b: Buckets) {
    Dedupe.Exact(b.dedupe) && b.dedupe.live.Keys <= b.states.Keys && |b.dedupe.live| <= cfg.dedupeMax
  }

  ghost predicate Inv(cfg: Config, b: Buckets) {
    Conserved(b) && Recoverable(b) && Counted(cfg, b) && Bounded(cfg, b) && Deduped(cfg, b)
  }

  /** What holds as long as only archived items are dead-lettered, as every item that came from Due is. */
  ghost predicate Settled(b: Buckets) {
    && (forall s <- b.queue :: b.queue[s].deliveryID in b.states
          && b.queue[s].archived == b.states[b.queue[s].deliveryID].archived)
    && (forall s <- b.dead :: b.dead[s].item.archived)
  }

  lemma Disjoint(b: Buckets, s: nat)
    requires Conserved(b)
    ensures !(s in b.queue && s in b.dead)
    ensures s in b.queue || s in b.dead ==> 1 <= s <= b.next
  {
  }

  // ----- Conservation, one bucket move at a time -----

  lemma AdmitConserves(cfg: Config, b: Buckets, id: string, event: string, raw: string, chats: seq<string>, now: nat, ttl: nat)
    requires Conserved(b)
    ensures Conserved(Admit(cfg, b, id, event, raw, chats, now, ttl).0)
  {
    hide Dedupe.Evicted, Dedupe.Cleaned, Dedupe.Put, SequencesUnique, ActiveItemBytes;
    var item := NewItem(b, id, event, raw, chats, now);
    if id !in b.states && ActiveRoom(cfg, b, item) {
      var r := Admit(cfg, b, id, event, raw, chats, now, ttl).0;
      forall s | s in r.queue ensures Owned(r, s, r.queue[s], Queued) {
        if s != item.sequence { assert Owned(b, s, b.queue[s], Queued); }
      }
      forall s | s in r.dead ensures Owned(r, s, r.dead[s].item, Dead) {
        assert Owned(b, s, b.dead[s].item, Dead);
      }
      forall j | j in r.states ensures Located(r, j) {
        if j != id { assert Located(b, j); }
      }
      NextIsUnique(b, r, id, r.states[id]);
    }
  }

  lemma NextIsUnique(b: Buckets, r: Buckets, id: string, state: DeliveryState)
    requires StatesLocated(b) && SequencesUnique(b) && id !in b.states
    requires state.sequence == b.next + 1 && r.states == b.states[id := state]
    ensures SequencesUnique(r)
  {
  }

  lemma ArchiveOnlyConserves(b: Buckets, id: string, event: string, raw: string)
    requires Conserved(b)
    ensures Conserved(AdmitArchiveOnly(b, id, event, raw).0)
  {
    if id !in b.states {
      var r := AdmitArchiveOnly(b, id, event, raw).0;
      forall s | s in r.queue ensures Owned(r, s, r.queue[s], Queued) { assert Owned(b, s, b.queue[s], Queued); }
      forall s | s in r.dead ensures Owned(r, s, r.dead[s].item, Dead) { assert Owned(b, s, b.dead[s].item, Dead); }
      forall j | j in r.states ensures Located(r, j) {
        if j != id { assert Located(b, j); }
      }
    }
  }

  lemma FinalizeConserves(cfg: Config, b: Buckets, id: string)
    requires Conserved(b)
    ensures Conserved(FinalizeArchive(cfg, b, id).0)
  {
    hide ActiveItemBytes;
    if id in b.states && !b.states[id].archived {
      UnlockConserves(b, id);
      MarkArchivedConserves(b, id);
    }
  }

  lemma MarkArchivedConserves(b: Buckets, id: string)
    requires Conserved(b) && id in b.states
    ensures Conserved(b.(states := b.states[id := b.states[id].(archived := true, raw := "")]))
  {
    var r := b.(states := b.states[id := b.states[id].(archived := true, raw := "")]);
    forall s | s in r.queue ensures Owned(r, s, r.queue[s], Queued) { assert Owned(b, s, b.queue[s], Queued); }
    forall s | s in r.dead ensures Owned(r, s, r.dead[s].item, Dead) { assert Owned(b, s, b.dead[s].item, Dead); }
    forall j | j in r.states ensures Located(r, j) { assert Located(b, j); }
  }

  lemma UnlockConserves(b: Buckets, id: string)
    requires Conserved(b) && id in b.states
    ensures var s := b.states[id].sequence;
            s in b.queue ==> Conserved(b.(states := b.states[id := b.states[id].(archived := true, raw := "")],
                                          queue := b.queue[s := b.queue[s].(archived := true)]))
  {
    var s := b.states[id].sequence;
    if s in b.queue {
      MarkArchivedConserves(b, id);
      var marked := b.(states := b.states[id := b.states[id].(archived := true, raw := "")]);
      var r := marked.(queue := b.queue[s := b.queue[s].(archived := true)]);
      assert Owned(b, s, b.queue[s], Queued) && Located(b, id);
      Disjoint(b, s);
      forall t | t in r.queue ensures Owned(r, t, r.queue[t], Queued) { assert Owned(marked, t, marked.queue[t], Queued); }
      forall t | t in r.dead ensures Owned(r, t, r.dead[t].item, Dead) { assert Owned(marked, t, marked.dead[t].item, Dead); }
      forall j | j in r.states ensures Located(r, j) { assert Located(marked, j); }
    }
  }

  /** Rewriting the delivery fields of a queued item moves nothing. */
  lemma RewriteConserves(b: Buckets, s: nat, item: Item)
    requires Conserved(b) && s in b.queue
    requires item == b.queue[s].(attempts := item.attempts, nextAttempt := item.nextAttempt,
                                 lastError := item.lastError, chatIDs := item.chatIDs)
    ensures Conserved(b.(queue := b.queue[s := item]))
  {
  }

  lemma RemoveConserves(b: Buckets, s: nat)
    requires Conserved(b) && s in b.queue
    ensures Conserved(Removed(b, s))
  {
    var r, id := Removed(b, s), b.queue[s].deliveryID;
    assert Owned(b, s, b.queue[s], Queued) && Located(b, id);
    forall t | t in r.queue ensures Owned(r, t, r.queue[t], Queued) { assert Owned(b, t, b.queue[t], Queued); }
    forall t | t in r.dead ensures Owned(r, t, r.dead[t].item, Dead) { assert Owned(b, t, b.dead[t].item, Dead); }
    forall j | j in r.states ensures Located(r, j) { assert Located(b, j); }
  }

  lemma FailOneConserves(b: Buckets, s: nat, f: Failure, full: bool)
    requires Conserved(b)
    ensures Conserved(FailOne(b, s, f, full))
  {
    if s in b.queue {
      if Exhausted(b.queue[s], f) && !full {
        BuryConserves(b, s, Failed(b.queue[s], f), f.now);
      } else {
        RewriteConserves(b, s, Retried(b.queue[s], f, full));
      }
    }
  }

  lemma BuryConserves(b: Buckets, s: nat, item: Item, at: nat)
    requires Conserved(b) && s in b.queue
    requires item == b.queue[s].(attempts := item.attempts, lastError := item.lastError)
    ensures Conserved(Buried(b, s, item, at))
  {
    BuryKeepsOwners(b, s, item, at);
    BuryKeepsLocations(b, s, item, at);
  }

  lemma BuryKeepsOwners(b: Buckets, s: nat, item: Item, at: nat)
    requires Conserved(b) && s in b.queue
    requires item == b.queue[s].(attempts := item.attempts, lastError := item.lastError)
    ensures QueueOwned(Buried(b, s, item, at)) && DeadOwned(Buried(b, s, item, at))
  {
    hide StatesLocated, SequencesUnique;
    var r := Buried(b, s, item, at);
    assert Owned(b, s, b.queue[s], Queued);
    BuriedElsewhere(b, s);
    forall t | t in r.queue ensures Owned(r, t, r.queue[t], Queued) { assert Owned(b, t, b.queue[t], Queued); }
    forall t | t in r.dead ensures Owned(r, t, r.dead[t].item, Dead) {
      if t != s { assert Owned(b, t, b.dead[t].item, Dead); }
    }
  }

  lemma BuryKeepsLocations(b: Buckets, s: nat, item: Item, at: nat)
    requires Conserved(b) && s in b.queue
    requires item == b.queue[s].(attempts := item.attempts, lastError := item.lastError)
    ensures StatesLocated(Buried(b, s, item, at)) && SequencesUnique(Buried(b, s, item, at))
  {
    hide DeadOwned;
    var r := Buried(b, s, item, at);
    assert Owned(b, s, b.queue[s], Queued) && Located(b, item.deliveryID);
    forall j | j in r.states ensures Located(r, j) { assert Located(b, j); }
  }

  /** The dead letters hold nothing under a queued sequence, nor another item of the same delivery. */
  lemma BuriedElsewhere(b: Buckets, s: nat)
    requires Conserved(b) && s in b.queue
    ensures s !in b.dead
    ensures forall t <- b.dead :: b.dead[t].item.deliveryID != b.queue[s].deliveryID
  {
  }

  /** Conservation does not look at counters, dedupe records or the limiter. */
  lemma CountersAside(moved: Buckets, r: Buckets)
    requires Conserved(moved)
    requires r == moved.(count := r.count, bytes := r.bytes, deadCount := r.deadCount, deadBytes := r.deadBytes,
                         dedupe := r.dedupe, limiter := r.limiter)
    ensures Conserved(r)
  {
  }

  lemma RequeueConserves(cfg: Config, b: Buckets, s: nat, now: nat)
    requires Conserved(b)
    ensures Conserved(RequeueDeadLetter(cfg, b, s, now).0)
  {
    hide ActiveRoom, SequencesUnique, StatesLocated, QueueOwned, DeadOwned, ActiveTotal, DeadTotal;
    if s in b.dead {
      var item := b.dead[s].item.(attempts := 0, nextAttempt := now, lastError := "");
      RaiseConserves(b, s, item);
      var r := RequeueDeadLetter(cfg, b, s, now).0;
      if r != b {
        CountersAside(r.(count := b.count, bytes := b.bytes, deadCount := b.deadCount, deadBytes := b.deadBytes), r);
      }
    }
  }

  lemma RaiseConserves(b: Buckets, s: nat, item: Item)
    requires Conserved(b) && s in b.dead
    requires item == b.dead[s].item.(attempts := item.attempts, nextAttempt := item.nextAttempt, lastError := item.lastError)
    ensures item.deliveryID in b.states
    ensures Conserved(b.(queue := b.queue[s := item], dead := b.dead - {s},
                         states := b.states[item.deliveryID := b.states[item.deliveryID].(
                           sequence := s, status := Queued, archived := true, raw := "")]))
  {
    hide SequencesUnique;
    var id := item.deliveryID;
    assert Owned(b, s, b.dead[s].item, Dead) && Located(b, id);
    var r := b.(queue := b.queue[s := item], dead := b.dead - {s},
                states := b.states[id := b.states[id].(sequence := s, status := Queued, archived := true, raw := "")]);
    Disjoint(b, s);
    forall t | t in r.queue ensures Owned(r, t, r.queue[t], Queued) {
      if t != s { assert Owned(b, t, b.queue[t], Queued); }
    }
    forall t | t in r.dead ensures Owned(r, t, r.dead[t].item, Dead) { assert Owned(b, t, b.dead[t].item, Dead); }
    forall j | j in r.states ensures Located(r, j) { assert Located(b, j); }
    SequencesStayUnique(b, r, id, r.states[id]);
  }

  lemma SequencesStayUnique(b: Buckets, r: Buckets, id: string, state: DeliveryState)
    requires SequencesUnique(b) && id in b.states && state.sequence == b.states[id].sequence
    requires r.states == b.states[id := state]
    ensures SequencesUnique(r)
  {
  }

  lemma CompleteOneConserves(b: Buckets, s: nat, chat: string)
    requires Conserved(b)
    ensures Conserved(CompleteOne(b, s, chat))
  {
    if s in b.queue {
      RewriteConserves(b, s, b.queue[s].(chatIDs := Without(b.queue[s].chatIDs, chat)));
      RemoveConserves(b, s);
    }
  }
}
