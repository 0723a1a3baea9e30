/**
 * What the transactions do, stated of the buckets before and after them: what an admission stores, what deletion leaves,
 * which failed items die, what is written to those that stay and when these come back, and what a requeued item is.
 */
module QueueEffects {
  import opened Queue
  import opened QueueInvariant
  import opened QueueCounters
  import opened QueueRuns
  import Dedupe
  import RateLimit
  import Store

  // ----- Failure -----

  /** The listed items that may not be tried again, as dead letters. */
  ghost function Dying(b: Buckets, seqs: seq<nat>, f: Failure): map<nat, DeadItem> {
    map s | s in b.queue && s in seqs && (f.permanent || b.queue[s].attempts + 1 >= f.maxAttempts) ::
      DeadItem(b.queue[s].(attempts := b.queue[s].attempts + 1, lastError := TrimReason(f.reason)), f.now)
  }

  /** The dead letters can take all of them. */
  ghost predicate Room(cfg: Config, b: Buckets, dying: map<nat, DeadItem>) {
    |b.dead + dying| <= cfg.deadMaxItems && DeadTotal(cfg, b.dead + dying) <= cfg.deadMaxBytes
  }

  /** A failed item that stays. */
  function Again(item: Item, f: Failure, lastError: string): Item {
    Item(item.sequence, item.deliveryID, item.event, item.receivedAt, item.raw, item.attempts + 1, f.retryAt, lastError,
         item.archived, item.chatIDs)
  }

  function LastError(f: Failure, room: bool): string {
    if room then TrimReason(f.reason) else TrimReason("dead-letter capacity full: " + TrimReason(f.reason))
  }

  /** The buckets after failure handling: these items have moved, and the other listed ones are written back. */
  ghost predicate Handled(b: Buckets, seqs: seq<nat>, f: Failure, moved: map<nat, DeadItem>, room: bool, r: Buckets) {
    && r.dead == b.dead + moved
    && r.queue.Keys == b.queue.Keys - moved.Keys
    && (forall s <- r.queue :: r.queue[s] == if s in seqs then Again(b.queue[s], f, LastError(f, room)) else b.queue[s])
    && Marked(b, moved, r.states)
    && r.next == b.next && r.dedupe == b.dedupe
  }

  ghost predicate Marked(b: Buckets, moved: map<nat, DeadItem>, states: map<string, DeliveryState>) {
    && states.Keys == b.states.Keys
    && (forall id <- b.states :: states[id] == if b.states[id].sequence in moved then b.states[id].(status := Dead) else b.states[id])
  }

  lemma {:induction false} FailAllHandles(b: Buckets, seqs: seq<nat>, f: Failure, full: bool)
    requires Conserved(b) && NoRepeats(seqs)
    ensures Handled(b, seqs, f, if full then map[] else Dying(b, seqs, f), !full, FailAll(b, seqs, f, full))
  {
    hide Conserved, FailOne, Handled, Again, LastError;
    if seqs == [] {
      NoneHandled(b, f, full);
    } else {
      var front, s := seqs[..|seqs| - 1], seqs[|seqs| - 1];
      FailAllHandles(b, front, f, full);
      OneMoreHandled(b, seqs, f, full, FailAll(b, front, f, full));
    }
  }

  lemma NoneHandled(b: Buckets, f: Failure, full: bool)
    ensures Handled(b, [], f, if full then map[] else Dying(b, [], f), !full, b)
  {
    assert Dying(b, [], f) == map[];
  }

  lemma OneMoreHandled(b: Buckets, seqs: seq<nat>, f: Failure, full: bool, before: Buckets)
    requires Conserved(b) && NoRepeats(seqs) && seqs != []
    requires var front := seqs[..|seqs| - 1]; Handled(b, front, f, if full then map[] else Dying(b, front, f), !full, before)
    ensures Handled(b, seqs, f, if full then map[] else Dying(b, seqs, f), !full, FailOne(before, seqs[|seqs| - 1], f, full))
  {
    hide Conserved, Handled, Again, LastError, Dying, Buried, Retried, Failed, Exhausted;
    var front, s := seqs[..|seqs| - 1], seqs[|seqs| - 1];
    var moved := if full then map[] else Dying(b, front, f);
    assert s !in front && seqs == front + [s];
    OneMoreDying(b, front, s, f);
    NotYetMoved(b, front, f, moved, !full, before, s);
    if s !in b.queue {
      AbsentHandled(b, front, f, moved, !full, before, s);
    } else if Exhausted(b.queue[s], f) && !full {
      OwnSequence(b, s);
      FailedIsSame(b.queue[s], f);
      DyingHandled(b, front, f, moved, before, s, DeadItem(Failed(b.queue[s], f), f.now));
    } else {
      RetriedIsAgain(b.queue[s], f, full);
      RetainedHandled(b, front, f, moved, !full, before, s);
    }
  }

  lemma OneMoreDying(b: Buckets, front: seq<nat>, s: nat, f: Failure)
    ensures forall t <- Dying(b, front, f) :: t in front
    ensures Dying(b, front + [s], f) == if s in b.queue && Exhausted(b.queue[s], f)
                                        then Dying(b, front, f)[s := DeadItem(Failed(b.queue[s], f), f.now)] else Dying(b, front, f)
  {
    assert forall t :: t in front + [s] <==> t in front || t == s;
  }

  lemma FailedIsSame(item: Item, f: Failure)
    ensures Failed(item, f).deliveryID == item.deliveryID
  {
  }

  lemma RetriedIsAgain(item: Item, f: Failure, full: bool)
    ensures Retried(item, f, full) == Again(item, f, LastError(f, !full))
  {
  }

  /** A sequence is recorded for one delivery only. */
  lemma OwnSequence(b: Buckets, s: nat)
    requires Conserved(b) && s in b.queue
    ensures forall id <- b.states :: b.states[id].sequence == s <==> id == b.queue[s].deliveryID
  {
    hide StatesLocated, DeadOwned;
    assert Owned(b, s, b.queue[s], Queued);
    Disjoint(b, s);
  }

  lemma NotYetMoved(b: Buckets, front: seq<nat>, f: Failure, moved: map<nat, DeadItem>, room: bool, before: Buckets, s: nat)
    requires Handled(b, front, f, moved, room, before) && s !in front && forall t <- moved :: t in front
    ensures s !in moved && (s in before.queue <==> s in b.queue) && (s in b.queue ==> before.queue[s] == b.queue[s])
  {
  }

  lemma AbsentHandled(b: Buckets, front: seq<nat>, f: Failure, moved: map<nat, DeadItem>, room: bool, before: Buckets, s: nat)
    requires Handled(b, front, f, moved, room, before) && s !in b.queue
    ensures Handled(b, front + [s], f, moved, room, before)
  {
    assert forall t :: t in front + [s] <==> t in front || t == s;
  }

  lemma RetainedHandled(b: Buckets, front: seq<nat>, f: Failure, moved: map<nat, DeadItem>, room: bool, before: Buckets, s: nat)
    requires Handled(b, front, f, moved, room, before) && s in b.queue && s !in moved
    ensures Handled(b, front + [s], f, moved, room,
                    before.(queue := before.queue[s := Again(b.queue[s], f, LastError(f, room))]))
  {
    hide Again, LastError;
    assert forall t :: t in front + [s] <==> t in front || t == s;
  }

  lemma DyingHandled(b: Buckets, front: seq<nat>, f: Failure, moved: map<nat, DeadItem>, before: Buckets, s: nat, d: DeadItem)
    requires Handled(b, front, f, moved, true, before) && s in b.queue && s !in moved && d.item.deliveryID == b.queue[s].deliveryID
    requires forall id <- b.states :: b.states[id].sequence == s <==> id == d.item.deliveryID
    ensures Handled(b, front + [s], f, moved[s := d], true, Buried(before, s, d.item, d.failedAt))
  {
    hide Again, LastError, Marked;
    assert forall t :: t in front + [s] <==> t in front || t == s;
    assert b.dead + moved[s := d] == (b.dead + moved)[s := d];
    assert moved[s := d].Keys == moved.Keys + {s};
    DyingMarked(b, moved, before.states, s, d);
  }

  lemma DyingMarked(b: Buckets, moved: map<nat, DeadItem>, states: map<string, DeliveryState>, s: nat, d: DeadItem)
    requires Marked(b, moved, states)
    requires forall id <- b.states :: b.states[id].sequence == s <==> id == d.item.deliveryID
    ensures Marked(b, moved[s := d], WithStatus(states, d.item.deliveryID, Dead))
  {
  }

  /** The preflight refuses exactly the batches whose dead items do not fit beside those that are there. */
  lemma FullIffNoRoom(cfg: Config, b: Buckets, seqs: seq<nat>, f: Failure)
    requires Inv(cfg, b) && NoRepeats(seqs)
    ensures DeadLetterFull(cfg, b, seqs, f) <==> !Room(cfg, b, Dying(b, seqs, f))
  {
    hide Conserved, NoRepeats, Doomed, Dying, ActiveTotal, DeadTotal, Recoverable, Deduped;
    FailAllHandles(b, seqs, f, false);
    PreflightExact(cfg, b, seqs, f, false);
    DoomedNone(cfg, b, seqs, f);
  }

  lemma HandledAside(b: Buckets, seqs: seq<nat>, f: Failure, moved: map<nat, DeadItem>, room: bool, before: Buckets, r: Buckets)
    requires Handled(b, seqs, f, moved, room, before)
    requires r == before.(count := r.count, bytes := r.bytes, deadCount := r.deadCount, deadBytes := r.deadBytes, limiter := r.limiter)
    ensures Handled(b, seqs, f, moved, room, r)
  {
  }

  lemma CallHandles(cfg: Config, b: Buckets, seqs: seq<nat>, f: Failure)
    requires Conserved(b) && NoRepeats(seqs)
    ensures var full := DeadLetterFull(cfg, b, seqs, f);
            Handled(b, seqs, f, if full then map[] else Dying(b, seqs, f), !full, HandleFailure(cfg, b, seqs, f).0)
  {
    hide Conserved, NoRepeats, Handled, Doomed, Dying, ActiveTotal, DeadTotal, DeadLetterFull, Outcomes, RateLimit.Cooled;
    var full := DeadLetterFull(cfg, b, seqs, f);
    FailAllHandles(b, seqs, f, full);
    HandledAside(b, seqs, f, if full then map[] else Dying(b, seqs, f), !full, FailAll(b, seqs, f, full),
                 HandleFailure(cfg, b, seqs, f).0);
  }

  /** The result counts the listed items that were queued: those by which the dead letters grew, and the others. */
  lemma CallCounts(cfg: Config, b: Buckets, seqs: seq<nat>, f: Failure)
    requires Conserved(b) && NoRepeats(seqs)
    ensures var (r, o) := HandleFailure(cfg, b, seqs, f);
            var died := |r.dead| - |b.dead|;
            && 0 <= died <= |PresentSet(b, seqs)|
            && o == Ok(FailureResult(|PresentSet(b, seqs)| - died, died, DeadLetterFull(cfg, b, seqs, f)))
  {
    hide Conserved, NoRepeats, Doomed, ActiveTotal, DeadTotal, DeadLetterFull, Outcomes, RateLimit.Cooled, PresentSet, FailAll;
    var full := DeadLetterFull(cfg, b, seqs, f);
    PreflightExact(cfg, b, seqs, f, full);
    EveryPresentItemCounted(b, seqs, f, full);
  }

  /**
   * Failure handling in one statement: the dying items move if the dead letters can take them all, and otherwise none of
   * them does; every other listed item is written back for a later attempt; and the result counts both.
   */
  lemma FailureIsExact(cfg: Config, b: Buckets, seqs: seq<nat>, f: Failure)
    requires Inv(cfg, b)
    ensures var (r, o) := HandleFailure(cfg, b, seqs, f);
            var dying := Dying(b, seqs, f);
            var room := Room(cfg, b, dying);
            if !NoRepeats(seqs) then r == b && o == Outcome.Fail(DuplicateItem)
            else
              && Handled(b, seqs, f, if room then dying else map[], room, r)
              && var died := |r.dead| - |b.dead|;
                 0 <= died <= |PresentSet(b, seqs)| && o == Ok(FailureResult(|PresentSet(b, seqs)| - died, died, !room))
  {
    hide Conserved, NoRepeats, Handled, Dying, Recoverable, Deduped, Counted, Bounded, Room, DeadLetterFull, PresentSet, FailAll;
    if NoRepeats(seqs) {
      FullIffNoRoom(cfg, b, seqs, f);
      CallHandles(cfg, b, seqs, f);
      CallCounts(cfg, b, seqs, f);
    }
  }

  /**
   * What becomes of one failed item: it is dead, as it was but for the attempt, the reason and the time, exactly if it may
   * not be tried again and the dead letters can take the batch; otherwise it is queued with one attempt more, and, once
   * unlocked, comes back exactly when the retry time has come.
   */
  lemma FailedItemComesBack(cfg: Config, b: Buckets, seqs: seq<nat>, f: Failure, s: nat)
    requires Inv(cfg, b) && NoRepeats(seqs) && s in seqs && s in b.queue
    ensures var r, item, room := HandleFailure(cfg, b, seqs, f).0, b.queue[s], Room(cfg, b, Dying(b, seqs, f));
            if (f.permanent || item.attempts + 1 >= f.maxAttempts) && room then
              && s !in r.queue && s in r.dead && r.dead[s].failedAt == f.now
              && r.dead[s].item == Item(s, item.deliveryID, item.event, item.receivedAt, item.raw, item.attempts + 1,
                                        item.nextAttempt, TrimReason(f.reason), item.archived, item.chatIDs)
            else
              && s !in r.dead && s in r.queue && r.queue[s] == Again(item, f, LastError(f, room))
              && (forall t: nat, bound: nat, found: seq<nat> :: Store.FoundDue(r.queue, t, bound, found) && s < bound ==>
                    (s in found <==> item.archived && t >= f.retryAt))
  {
    hide HandleFailure, NoRepeats, Room, Inv, LastError, Store.FoundDue, Marked, PresentSet, Again;
    FailureIsExact(cfg, b, seqs, f);
    QueuedAlone(cfg, b, s);
    AgainThen(b.queue[s], f, LastError(f, Room(cfg, b, Dying(b, seqs, f))));
    var r := HandleFailure(cfg, b, seqs, f).0;
    if s in r.queue { ComesBackWhenDue(r.queue, s); }
  }

  lemma ComesBackWhenDue(queue: map<nat, Item>, s: nat)
    requires s in queue
    ensures forall t: nat, bound: nat, found: seq<nat> :: Store.FoundDue(queue, t, bound, found) && s < bound ==>
              (s in found <==> queue[s].archived && t >= queue[s].nextAttempt)
  {
  }

  lemma QueuedAlone(cfg: Config, b: Buckets, s: nat)
    requires Inv(cfg, b) && s in b.queue
    ensures s !in b.dead && b.queue[s].sequence == s
  {
    Disjoint(b, s);
    assert Owned(b, s, b.queue[s], Queued);
  }

  lemma AgainThen(item: Item, f: Failure, lastError: string)
    ensures Again(item, f, lastError).archived == item.archived && Again(item, f, lastError).nextAttempt == f.retryAt
  {
  }

  // ----- Requeueing -----

  /**
   * A dead letter is requeued exactly if it is there and the queue can take it: under its sequence, with its attempts
   * forgotten and due at once, if it is archived. Nothing else moves, and its delivery counts as archived.
   */
  lemma RequeueIsExact(cfg: Config, b: Buckets, s: nat, now: nat)
    requires Inv(cfg, b)
    ensures var (r, o) := RequeueDeadLetter(cfg, b, s, now);
            if s !in b.dead then r == b && o == Outcome.Fail(NotFound)
            else
              var was := b.dead[s].item;
              var item := Item(s, was.deliveryID, was.event, was.receivedAt, was.raw, 0, now, "", was.archived, was.chatIDs);
              var fits := b.count + 1 <= cfg.maxItems && b.bytes + ActiveItemBytes(cfg, item) <= cfg.maxBytes;
              if !fits then r == b && o == Outcome.Fail(QueueFull)
              else
                && o == Ok(()) && r.queue == b.queue[s := item] && r.dead == b.dead - {s}
                && item.deliveryID in b.states
                && r.states == b.states[item.deliveryID := DeliveryState(was.event, was.raw, s, Queued, true, "")]
                && r.next == b.next && r.dedupe == b.dedupe && r.limiter == b.limiter
  {
    hide ActiveItemBytes, ActiveTotal, DeadTotal, Recoverable, Deduped, StatesLocated, SequencesUnique, QueueOwned;
    if s in b.dead {
      assert Owned(b, s, b.dead[s].item, Dead);
    }
  }

  // ----- Admission, unlocking, deletion -----

  /**
   * An admission is answered "known" for the same event and payload, refused for another or for lack of room, and
   * otherwise stored: one locked item, due at once, under the next sequence, a state that carries the payload, and a
   * dedupe record that lasts for the time given.
   */
  lemma AdmitIsExact(cfg: Config, b: Buckets, id: string, event: string, raw: string, chats: seq<string>, now: nat, ttl: nat)
    requires Inv(cfg, b)
    ensures var (r, o) := Queue.Admit(cfg, b, id, event, raw, chats, now, ttl);
            var s, item := b.next + 1, Item(b.next + 1, id, event, now, raw, 0, now, "", false, chats);
            var fits := b.count + 1 <= cfg.maxItems && b.bytes + ActiveItemBytes(cfg, item) <= cfg.maxBytes;
            if id in b.states then
              r == b && o == if b.states[id].event == event && b.states[id].digest == raw then Ok(true) else Outcome.Fail(DeliveryConflict)
            else if !fits then r == b && o == Outcome.Fail(QueueFull)
            else
              && o == Ok(false) && s !in b.queue && r.queue == b.queue[s := item] && r.dead == b.dead && r.next == s
              && r.states == b.states[id := DeliveryState(event, raw, s, Queued, false, raw)]
              && id in r.dedupe.live && r.dedupe.live[id] == now + ttl && r.limiter == b.limiter
  {
    hide ActiveItemBytes, ActiveTotal, DeadTotal, Recoverable, Deduped, Conserved, Dedupe.Evicted, Dedupe.Cleaned, Dedupe.Inserted;
    Disjoint(b, b.next + 1);
  }

  /** An archive-only admission stores a state that carries the payload, and no item. */
  lemma AdmitArchiveOnlyIsExact(b: Buckets, id: string, event: string, raw: string)
    ensures var (r, o) := Queue.AdmitArchiveOnly(b, id, event, raw);
            r == b.(states := r.states)
            && if id in b.states then
              r == b && o == if b.states[id].event == event && b.states[id].digest == raw then Ok(true) else Outcome.Fail(DeliveryConflict)
            else o == Ok(false) && r.states == b.states[id := DeliveryState(event, raw, 0, ArchiveOnly, false, raw)]
  {
  }

  /** Finalization marks the state, drops its copy of the payload, unlocks the item if it is queued, and changes nothing else. */
  lemma FinalizeIsExact(cfg: Config, b: Buckets, id: string)
    requires Valid(cfg) && Inv(cfg, b)
    ensures var (r, o) := Queue.FinalizeArchive(cfg, b, id);
            if id !in b.states then r == b && o == Outcome.Fail(NotFound)
            else if b.states[id].archived then r == b && o == Ok(())
            else
              var s := b.states[id].sequence;
              && o == Ok(()) && r == b.(states := r.states, queue := r.queue)
              && r.states == b.states[id := b.states[id].(archived := true, raw := "")]
              && r.queue == if s in b.queue then b.queue[s := b.queue[s].(archived := true)] else b.queue
  {
    hide ActiveItemBytes, ActiveTotal, DeadTotal, Recoverable, Deduped, Conserved;
    FinalizeNeverFails(cfg, b, id);
    if id in b.states && b.states[id].sequence in b.queue {
      var s := b.states[id].sequence;
      SameCharge(cfg, b.queue[s], b.queue[s].(archived := true));
      ChargeWithinTotal(cfg, b.queue, s);
    }
  }

  ghost function Members(seqs: seq<nat>): set<nat> {
    set s | s in seqs
  }

  /** Deletion takes the listed items off the queue, in one call, marks their deliveries delivered, and touches no other. */
  lemma {:induction false} DeliverAllIsExact(cfg: Config, b: Buckets, seqs: seq<nat>)
    requires Conserved(b)
    ensures var r := DeliverAll(cfg, b, seqs);
            && Conserved(r) && r.queue == b.queue - Members(seqs) && r.dead == b.dead && r.next == b.next
            && r.states.Keys == b.states.Keys
            && forall id <- b.states ::
                 r.states[id] == if b.states[id].sequence in seqs && b.states[id].sequence in b.queue
                                 then b.states[id].(status := Delivered) else b.states[id]
  {
    hide Conserved, DeliverOne;
    if seqs != [] {
      var front, s := seqs[..|seqs| - 1], seqs[|seqs| - 1];
      assert seqs == front + [s] && Members(seqs) == Members(front) + {s};
      DeliverAllIsExact(cfg, b, front);
      DeliverOneIsExact(cfg, DeliverAll(cfg, b, front), s);
    }
  }

  lemma DeliverOneIsExact(cfg: Config, b: Buckets, s: nat)
    requires Conserved(b)
    ensures var r := DeliverOne(cfg, b, s);
            && Conserved(r) && r.queue == b.queue - {s} && r.dead == b.dead && r.next == b.next
            && r.states.Keys == b.states.Keys
            && forall id <- b.states ::
                 r.states[id] == if b.states[id].sequence == s && s in b.queue then b.states[id].(status := Delivered) else b.states[id]
  {
    hide Conserved, ActiveItemBytes, Minus;
    if s in b.queue {
      RemoveConserves(b, s);
      CountersAside(Removed(b, s), DeliverOne(cfg, b, s));
      OwnSequence(b, s);
    }
  }
}
