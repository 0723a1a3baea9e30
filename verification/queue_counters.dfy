/** The cached counters and capacity bounds, transaction by transaction. */
module QueueCounters {
  import opened Totals
  import opened Queue
  import opened QueueInvariant

  lemma {:induction false} WithoutShrinks(cfg: Config, chats: seq<string>, chat: string)
    ensures |Without(chats, chat)| <= |chats|
    ensures QuotedList(cfg, Without(chats, chat)) <= QuotedList(cfg, chats)
    ensures ChatField(cfg, Without(chats, chat)) <= ChatField(cfg, chats)
  {
    if chats != [] {
      WithoutShrinks(cfg, chats[1..], chat);
    }
  }

  /** Active bytes are charged for immutable content and the chat list only, so a retry costs nothing. */
  lemma SameCharge(cfg: Config, item: Item, other: Item)
    requires other == item.(attempts := other.attempts, nextAttempt := other.nextAttempt,
                            lastError := other.lastError, archived := other.archived)
    ensures ActiveItemBytes(cfg, other) == ActiveItemBytes(cfg, item)
  {
  }

  lemma ChargeWithinTotal(cfg: Config, queue: map<nat, Item>, s: nat)
    requires s in queue
    ensures ActiveItemBytes(cfg, queue[s]) + ActiveTotal(cfg, queue - {s}) == ActiveTotal(cfg, queue)
    ensures |queue - {s}| + 1 == |queue|
  {
    hide ActiveItemBytes;
    TotalRemove(queue, s, ActiveWeight(cfg));
    SizeRemove(queue, s);
  }

  lemma PutCharges(cfg: Config, queue: map<nat, Item>, s: nat, item: Item)
    ensures s !in queue ==> ActiveTotal(cfg, queue[s := item]) == ActiveItemBytes(cfg, item) + ActiveTotal(cfg, queue)
                            && |queue[s := item]| == |queue| + 1
    ensures s in queue ==> ActiveTotal(cfg, queue[s := item]) + ActiveItemBytes(cfg, queue[s])
                           == ActiveTotal(cfg, queue) + ActiveItemBytes(cfg, item)
                           && |queue[s := item]| == |queue|
  {
    hide ActiveItemBytes;
    TotalPut(queue, s, item, ActiveWeight(cfg));
    SizePut(queue, s, item);
  }

  lemma AdmitCounts(cfg: Config, b: Buckets, id: string, event: string, raw: string, chats: seq<string>, now: nat, ttl: nat)
    requires Conserved(b) && Counted(cfg, b) && Bounded(cfg, b)
    ensures var r := Admit(cfg, b, id, event, raw, chats, now, ttl).0; Counted(cfg, r) && Bounded(cfg, r)
  {
    hide ActiveItemBytes, Conserved;
    var item := NewItem(b, id, event, raw, chats, now);
    Disjoint(b, item.sequence);
    PutCharges(cfg, b.queue, item.sequence, item);
  }

  /** The underflow and overflow errors of FinalizeArchive cannot occur: it fails only on an unknown delivery. */
  lemma FinalizeNeverFails(cfg: Config, b: Buckets, id: string)
    requires Valid(cfg) && Conserved(b) && Counted(cfg, b) && Bounded(cfg, b)
    ensures FinalizeArchive(cfg, b, id).1 == if id in b.states then Ok(()) else Fail(NotFound)
    ensures Counted(cfg, FinalizeArchive(cfg, b, id).0) && Bounded(cfg, FinalizeArchive(cfg, b, id).0)
  {
    hide ActiveItemBytes, Conserved;
    if id in b.states && b.states[id].sequence in b.queue {
      var s := b.states[id].sequence;
      SameCharge(cfg, b.queue[s], b.queue[s].(archived := true));
      ChargeWithinTotal(cfg, b.queue, s);
      PutCharges(cfg, b.queue, s, b.queue[s].(archived := true));
    }
  }

  lemma MinusExact(a: nat, b: nat)
    requires b <= a < U64
    ensures Minus(a, b) == a - b
  {
  }

  /** The uint64 subtractions of Delete never wrap. */
  lemma DeliverOneCounts(cfg: Config, b: Buckets, s: nat)
    requires Valid(cfg) && Counted(cfg, b) && Bounded(cfg, b)
    ensures Counted(cfg, DeliverOne(cfg, b, s)) && Bounded(cfg, DeliverOne(cfg, b, s))
    ensures s in b.queue ==> DeliverOne(cfg, b, s).bytes == b.bytes - ActiveItemBytes(cfg, b.queue[s])
    ensures s in b.queue ==> DeliverOne(cfg, b, s).count == b.count - 1
  {
    hide ActiveItemBytes, Minus;
    if s in b.queue {
      ChargeWithinTotal(cfg, b.queue, s);
      MinusExact(b.count, 1);
      MinusExact(b.bytes, ActiveItemBytes(cfg, b.queue[s]));
    }
  }

  lemma {:induction false} DeliverAllKeeps(cfg: Config, b: Buckets, seqs: seq<nat>)
    requires Valid(cfg) && Inv(cfg, b)
    ensures Inv(cfg, DeliverAll(cfg, b, seqs))
  {
    if seqs != [] {
      var before := DeliverAll(cfg, b, seqs[..|seqs| - 1]);
      var s := seqs[|seqs| - 1];
      DeliverAllKeeps(cfg, b, seqs[..|seqs| - 1]);
      DeliverOneCounts(cfg, before, s);
      if s in before.queue {
        RemoveConserves(before, s);
        CountersAside(Removed(before, s), DeliverOne(cfg, before, s));
      }
    }
  }

  // ----- Completion of one chat -----

  lemma CompleteOneShrinks(cfg: Config, b: Buckets, s: nat, chat: string)
    ensures var r := CompleteOne(b, s, chat);
            && ActiveTotal(cfg, r.queue) <= ActiveTotal(cfg, b.queue) && |r.queue| <= |b.queue|
            && r.queue.Keys <= b.queue.Keys && r.states.Keys == b.states.Keys
            && r == b.(queue := r.queue, states := r.states)
  {
    hide ChatField;
    if s in b.queue {
      var item := b.queue[s];
      WithoutShrinks(cfg, item.chatIDs, chat);
      ChargeWithinTotal(cfg, b.queue, s);
      PutCharges(cfg, b.queue, s, item.(chatIDs := Without(item.chatIDs, chat)));
    }
  }

  lemma {:induction false} CompleteAllKeeps(cfg: Config, b: Buckets, seqs: seq<nat>, chat: string)
    requires Conserved(b)
    ensures var r := CompleteAll(b, seqs, chat);
            && Conserved(r)
            && ActiveTotal(cfg, r.queue) <= ActiveTotal(cfg, b.queue) && |r.queue| <= |b.queue|
            && r.states.Keys == b.states.Keys
            && r == b.(queue := r.queue, states := r.states)
  {
    hide CompleteOne, Conserved, ActiveTotal;
    if seqs != [] {
      var before := CompleteAll(b, seqs[..|seqs| - 1], chat);
      CompleteAllKeeps(cfg, b, seqs[..|seqs| - 1], chat);
      CompleteOneShrinks(cfg, before, seqs[|seqs| - 1], chat);
      CompleteOneConserves(before, seqs[|seqs| - 1], chat);
    }
  }

  lemma {:induction false} CompleteAllRecoverable(b: Buckets, seqs: seq<nat>, chat: string)
    requires Recoverable(b)
    ensures Recoverable(CompleteAll(b, seqs, chat))
  {
    if seqs != [] {
      CompleteAllRecoverable(b, seqs[..|seqs| - 1], chat);
    }
  }

  // ----- Failure: the preflight -----

  lemma DeadPutCharges(cfg: Config, dead: map<nat, DeadItem>, s: nat, item: DeadItem)
    requires s !in dead
    ensures DeadTotal(cfg, dead[s := item]) == DeadTotal(cfg, dead) + cfg.deadSize(item)
    ensures |dead[s := item]| == |dead| + 1
  {
    TotalPut(dead, s, item, cfg.deadSize);
    SizePut(dead, s, item);
  }

  /** Failing other items does not touch an item. */
  lemma {:induction false} FailAllFrame(b: Buckets, seqs: seq<nat>, f: Failure, full: bool, s: nat)
    requires s !in seqs
    ensures var r := FailAll(b, seqs, f, full);
            && (s in r.queue <==> s in b.queue) && (s in b.queue ==> r.queue[s] == b.queue[s])
            && (s in r.dead <==> s in b.dead)
  {
    if seqs != [] {
      assert s !in seqs[..|seqs| - 1];
      FailAllFrame(b, seqs[..|seqs| - 1], f, full, s);
    }
  }

  lemma FailOneCharges(cfg: Config, b: Buckets, s: nat, f: Failure, full: bool)
    requires s in b.queue && s !in b.dead
    ensures var r, dies := FailOne(b, s, f, full), Exhausted(b.queue[s], f) && !full;
            && ActiveTotal(cfg, r.queue) <= ActiveTotal(cfg, b.queue)
            && |r.queue| == |b.queue| - (if dies then 1 else 0)
            && |r.dead| == |b.dead| + (if dies then 1 else 0)
            && DeadTotal(cfg, r.dead) == DeadTotal(cfg, b.dead)
                 + (if dies then cfg.deadSize(DeadItem(Failed(b.queue[s], f), f.now)) else 0)
            && r.states.Keys == b.states.Keys
            && r == b.(queue := r.queue, dead := r.dead, states := r.states)
  {
    hide ActiveItemBytes, ActiveTotal, DeadTotal;
    var item := b.queue[s];
    ChargeWithinTotal(cfg, b.queue, s);
    SameCharge(cfg, item, Retried(item, f, full));
    PutCharges(cfg, b.queue, s, Retried(item, f, full));
    DeadPutCharges(cfg, b.dead, s, DeadItem(Failed(item, f), f.now));
  }

  lemma FailOneAbsent(b: Buckets, s: nat, f: Failure, full: bool)
    requires s !in b.queue
    ensures FailOne(b, s, f, full) == b
  {
  }

  lemma FailOneFullKeepsDead(b: Buckets, s: nat, f: Failure)
    ensures FailOne(b, s, f, true).dead == b.dead
  {
  }

  /**
   * The preflight is exact: the items it counts and the bytes it adds up are those that the transaction then
   * moves; in the full case it moves none.
   */
  lemma {:induction false} PreflightExact(cfg: Config, b: Buckets, seqs: seq<nat>, f: Failure, full: bool)
    requires Conserved(b) && NoRepeats(seqs)
    ensures var r, d := FailAll(b, seqs, f, full), Doomed(cfg, b, seqs, f);
            && Conserved(r) && r.states.Keys == b.states.Keys
            && ActiveTotal(cfg, r.queue) <= ActiveTotal(cfg, b.queue) && |r.queue| <= |b.queue|
            && |r.dead| == |b.dead| + (if full then 0 else d.0)
            && DeadTotal(cfg, r.dead) == DeadTotal(cfg, b.dead) + (if full then 0 else d.1)
            && (full ==> r.dead == b.dead)
            && Outcomes(b, seqs, f, full).1 == if full then 0 else d.0
    ensures var r := FailAll(b, seqs, f, full); r == b.(queue := r.queue, dead := r.dead, states := r.states)
  {
    hide FailOne, Conserved, ActiveTotal, DeadTotal;
    if seqs != [] {
      var front, s := seqs[..|seqs| - 1], seqs[|seqs| - 1];
      PreflightExact(cfg, b, front, f, full);
      var before := FailAll(b, front, f, full);
      assert s !in front;
      FailAllFrame(b, front, f, full, s);
      if s in b.queue {
        Disjoint(before, s);
        FailOneCharges(cfg, before, s, f, full);
        FailOneConserves(before, s, f, full);
      } else {
        FailOneAbsent(before, s, f, full);
      }
      FailOneFullKeepsDead(before, s, f);
    }
  }

  ghost function PresentSet(b: Buckets, seqs: seq<nat>): set<nat> {
    set s | s in seqs && s in b.queue
  }

  /** Every item that is still queued is counted once, as retried or as dead-lettered. */
  lemma {:induction false} EveryPresentItemCounted(b: Buckets, seqs: seq<nat>, f: Failure, full: bool)
    requires NoRepeats(seqs)
    ensures var o := Outcomes(b, seqs, f, full); o.0 + o.1 == |PresentSet(b, seqs)|
  {
    hide Exhausted;
    if seqs == [] {
      assert PresentSet(b, seqs) == {};
    } else {
      EveryPresentItemCounted(b, seqs[..|seqs| - 1], f, full);
      PresentStep(b, seqs);
    }
  }

  lemma PresentStep(b: Buckets, seqs: seq<nat>)
    requires seqs != [] && NoRepeats(seqs)
    ensures var front, last := seqs[..|seqs| - 1], seqs[|seqs| - 1];
            |PresentSet(b, seqs)| == |PresentSet(b, front)| + if last in b.queue then 1 else 0
  {
    var front, last := seqs[..|seqs| - 1], seqs[|seqs| - 1];
    assert seqs == front + [last];
    assert last !in PresentSet(b, front);
    assert PresentSet(b, seqs) == PresentSet(b, front) + if last in b.queue then {last} else {};
  }

  lemma {:induction false} FailAllRecoverable(b: Buckets, seqs: seq<nat>, f: Failure, full: bool)
    requires Recoverable(b)
    ensures Recoverable(FailAll(b, seqs, f, full))
  {
    if seqs != [] {
      FailAllRecoverable(b, seqs[..|seqs| - 1], f, full);
    }
  }
}
