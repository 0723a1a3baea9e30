/** Every run of the store: any sequence of transactions, from an empty database, keeps the invariant. */
module QueueRuns {
  import opened Queue
  import opened QueueInvariant
  import opened QueueCounters
  import Dedupe
  import RateLimit

  datatype Call =
    | Admit(id: string, event: string, raw: string, chats: seq<string>, now: nat, ttl: nat)
    | AdmitArchiveOnly(id: string, event: string, raw: string)
    | Finalize(id: string)
    | Delete(seqs: seq<nat>)
    | Complete(seqs: seq<nat>, chat: string)
    | Fail(seqs: seq<nat>, failure: Failure)
    | Requeue(sequence: nat, now: nat)
    | CleanupDedupe(now: nat, limit: int)
    | Reserve(now: nat)

  ghost function Exec(cfg: Config, b: Buckets, c: Call): Buckets {
    match c
    case Admit(id, event, raw, chats, now, ttl) => Queue.Admit(cfg, b, id, event, raw, chats, now, ttl).0
    case AdmitArchiveOnly(id, event, raw) => Queue.AdmitArchiveOnly(b, id, event, raw).0
    case Finalize(id) => FinalizeArchive(cfg, b, id).0
    case Delete(seqs) => DeliverAll(cfg, b, seqs)
    case Complete(seqs, chat) => CompleteChatDelivery(cfg, b, seqs, chat)
    case Fail(seqs, failure) => HandleFailure(cfg, b, seqs, failure).0
    case Requeue(sequence, now) => RequeueDeadLetter(cfg, b, sequence, now).0
    case CleanupDedupe(now, limit) => b.(dedupe := Dedupe.Cleaned(b.dedupe, now, limit))
    case Reserve(now) => b.(limiter := RateLimit.Reserved(b.limiter, now))
  }

  ghost function Run(cfg: Config, b: Buckets, calls: seq<Call>): Buckets {
    if calls == [] then b else Exec(cfg, Run(cfg, b, calls[..|calls| - 1]), calls[|calls| - 1])
  }

  // ----- Each transaction -----

  lemma AdmitKeepsDeduped(cfg: Config, b: Buckets, id: string, now: nat, expiry: nat)
    requires Valid(cfg) && Deduped(cfg, b) && id !in b.states
    ensures var d := Dedupe.Put(Dedupe.Evicted(Dedupe.Cleaned(b.dedupe, now, 1000), Minus(cfg.dedupeMax, 1)), id, expiry);
            Dedupe.Exact(d) && d.live.Keys <= b.states.Keys + {id} && |d.live| <= cfg.dedupeMax
  {
    hide Dedupe.Exact;
    var cleaned := Dedupe.Cleaned(b.dedupe, now, 1000);
    Dedupe.CleaningKeepsExact(b.dedupe, now, 1000);
    MinusExact(cfg.dedupeMax, 1);
    Dedupe.EvictsEarliest(cleaned, cfg.dedupeMax - 1);
    Dedupe.EvictedSubset(cleaned, cfg.dedupeMax - 1);
    var evicted := Dedupe.Evicted(cleaned, cfg.dedupeMax - 1);
    Dedupe.PutExactIffFresh(evicted, id, expiry);
    Dedupe.LiveGrows(evicted.live, id, expiry);
  }

  lemma AdmitKeepsRecoverable(cfg: Config, b: Buckets, id: string, event: string, raw: string, chats: seq<string>, now: nat, ttl: nat)
    requires Recoverable(b)
    ensures Recoverable(Queue.Admit(cfg, b, id, event, raw, chats, now, ttl).0)
  {
    hide ActiveRoom, ActiveItemBytes, Dedupe.Put, Dedupe.Evicted, Dedupe.Cleaned, Minus;
  }

  lemma AdmittedDeduped(cfg: Config, b: Buckets, id: string, event: string, raw: string, chats: seq<string>, now: nat, ttl: nat)
    requires Valid(cfg) && Deduped(cfg, b)
    ensures Deduped(cfg, Queue.Admit(cfg, b, id, event, raw, chats, now, ttl).0)
  {
    hide ActiveRoom, ActiveItemBytes, Dedupe.Exact, Dedupe.Put, Dedupe.Evicted, Dedupe.Cleaned, Minus;
    if id !in b.states {
      AdmitKeepsDeduped(cfg, b, id, now, now + ttl);
    }
  }

  lemma AdmitKeepsInv(cfg: Config, b: Buckets, id: string, event: string, raw: string, chats: seq<string>, now: nat, ttl: nat)
    requires Valid(cfg) && Inv(cfg, b)
    ensures Inv(cfg, Queue.Admit(cfg, b, id, event, raw, chats, now, ttl).0)
  {
    hide Conserved, Counted, Bounded, Recoverable, Deduped, Queue.Admit;
    AdmitConserves(cfg, b, id, event, raw, chats, now, ttl);
    AdmitCounts(cfg, b, id, event, raw, chats, now, ttl);
    AdmitKeepsRecoverable(cfg, b, id, event, raw, chats, now, ttl);
    AdmittedDeduped(cfg, b, id, event, raw, chats, now, ttl);
  }

  lemma ArchiveOnlyKeepsInv(cfg: Config, b: Buckets, id: string, event: string, raw: string)
    requires Inv(cfg, b)
    ensures Inv(cfg, Queue.AdmitArchiveOnly(b, id, event, raw).0)
  {
    hide Conserved, Dedupe.Exact;
    ArchiveOnlyConserves(b, id, event, raw);
  }

  lemma FinalizeKeepsInv(cfg: Config, b: Buckets, id: string)
    requires Valid(cfg) && Inv(cfg, b)
    ensures Inv(cfg, FinalizeArchive(cfg, b, id).0)
  {
    hide Conserved, Counted, Bounded, ActiveItemBytes, Dedupe.Exact;
    FinalizeConserves(cfg, b, id);
    FinalizeNeverFails(cfg, b, id);
  }

  lemma CompleteKeepsInv(cfg: Config, b: Buckets, seqs: seq<nat>, chat: string)
    requires Inv(cfg, b)
    ensures Inv(cfg, CompleteChatDelivery(cfg, b, seqs, chat))
  {
    hide Conserved, Dedupe.Exact, CompleteAll, ActiveTotal, DeadTotal;
    CompleteAllKeeps(cfg, b, seqs, chat);
    CompleteAllRecoverable(b, seqs, chat);
    CountersAside(CompleteAll(b, seqs, chat), CompleteChatDelivery(cfg, b, seqs, chat));
  }

  lemma FailKeepsInv(cfg: Config, b: Buckets, seqs: seq<nat>, f: Failure)
    requires Inv(cfg, b)
    ensures Inv(cfg, HandleFailure(cfg, b, seqs, f).0)
  {
    hide Conserved, Dedupe.Exact, FailAll, ActiveTotal, DeadTotal, Doomed, Outcomes;
    if NoRepeats(seqs) {
      var full := DeadLetterFull(cfg, b, seqs, f);
      PreflightExact(cfg, b, seqs, f, full);
      FailAllRecoverable(b, seqs, f, full);
      CountersAside(FailAll(b, seqs, f, full), HandleFailure(cfg, b, seqs, f).0);
      DoomedNone(cfg, b, seqs, f);
    }
  }

  lemma {:induction false} DoomedNone(cfg: Config, b: Buckets, seqs: seq<nat>, f: Failure)
    ensures Doomed(cfg, b, seqs, f).0 == 0 ==> Doomed(cfg, b, seqs, f).1 == 0
  {
    if seqs != [] {
      DoomedNone(cfg, b, seqs[..|seqs| - 1], f);
    }
  }

  lemma RequeueKeepsInv(cfg: Config, b: Buckets, s: nat, now: nat)
    requires Valid(cfg) && Inv(cfg, b)
    ensures Inv(cfg, RequeueDeadLetter(cfg, b, s, now).0)
  {
    hide Conserved, Dedupe.Exact, ActiveItemBytes, ActiveTotal, DeadTotal;
    RequeueConserves(cfg, b, s, now);
    Disjoint(b, s);
    if s in b.dead {
      PutCharges(cfg, b.queue, s, b.dead[s].item.(attempts := 0, nextAttempt := now, lastError := ""));
      DeadRemoved(cfg, b.dead, s);
    }
  }

  lemma DeadRemoved(cfg: Config, dead: map<nat, DeadItem>, s: nat)
    requires s in dead
    ensures DeadTotal(cfg, dead - {s}) <= DeadTotal(cfg, dead) && |dead - {s}| <= |dead|
  {
    Totals.TotalRemove(dead, s, cfg.deadSize);
    Totals.SizeRemove(dead, s);
  }

  lemma ExecKeepsInv(cfg: Config, b: Buckets, c: Call)
    requires Valid(cfg) && Inv(cfg, b)
    ensures Inv(cfg, Exec(cfg, b, c))
  {
    hide Inv;
    match c
    case Admit(id, event, raw, chats, now, ttl) => AdmitKeepsInv(cfg, b, id, event, raw, chats, now, ttl);
    case AdmitArchiveOnly(id, event, raw) => ArchiveOnlyKeepsInv(cfg, b, id, event, raw);
    case Finalize(id) => FinalizeKeepsInv(cfg, b, id);
    case Delete(seqs) => DeliverAllKeeps(cfg, b, seqs);
    case Complete(seqs, chat) => CompleteKeepsInv(cfg, b, seqs, chat);
    case Fail(seqs, failure) => FailKeepsInv(cfg, b, seqs, failure);
    case Requeue(sequence, now) => RequeueKeepsInv(cfg, b, sequence, now);
    case CleanupDedupe(now, limit) => CleanupKeepsInv(cfg, b, now, limit);
    case Reserve(now) => LimiterAside(cfg, b, RateLimit.Reserved(b.limiter, now));
  }

  lemma CleanupKeepsInv(cfg: Config, b: Buckets, now: nat, limit: int)
    requires Inv(cfg, b)
    ensures Inv(cfg, b.(dedupe := Dedupe.Cleaned(b.dedupe, now, limit)))
  {
    hide Conserved, Dedupe.Exact;
    Dedupe.CleaningKeepsExact(b.dedupe, now, limit);
    var n := Dedupe.CleansExpired(b.dedupe, now, limit);
    Dedupe.DroppedRemovesFirst(b.dedupe, n);
    CountersAside(b, b.(dedupe := Dedupe.Cleaned(b.dedupe, now, limit)));
  }

  lemma LimiterAside(cfg: Config, b: Buckets, l: RateLimit.Limiter)
    requires Inv(cfg, b)
    ensures Inv(cfg, b.(limiter := l))
  {
  }

  // ----- Runs -----

  lemma EmptyInv(cfg: Config)
    ensures Inv(cfg, Empty)
  {
  }

  lemma {:induction false} RunKeepsInv(cfg: Config, b: Buckets, calls: seq<Call>)
    requires Valid(cfg) && Inv(cfg, b)
    ensures Inv(cfg, Run(cfg, b, calls))
  {
    hide Inv;
    if calls != [] {
      RunKeepsInv(cfg, b, calls[..|calls| - 1]);
      ExecKeepsInv(cfg, Run(cfg, b, calls[..|calls| - 1]), calls[|calls| - 1]);
    }
  }

  /** The delivery has one sequence of its own, and sits where its status says, in one place or, once delivered, in none. */
  ghost predicate QueuedOnce(b: Buckets, id: string)
    requires id in b.states
  {
    var state := b.states[id];
    && state.status != ArchiveOnly && 1 <= state.sequence <= b.next
    && (state.sequence in b.queue <==> state.status == Queued) && (state.sequence in b.dead <==> state.status == Dead)
    && (forall t <- b.queue :: b.queue[t].deliveryID == id <==> t == state.sequence)
    && (forall t <- b.dead :: b.dead[t].item.deliveryID == id <==> t == state.sequence)
    && (forall j <- b.states :: b.states[j].sequence == state.sequence <==> j == id)
  }

  /**
   * Conservation over every run: a delivery that is to be forwarded has one sequence, between 1 and `next`,
   * and sits in the queue, in the dead letters, or in neither, exactly as its permanent status says.
   */
  lemma DeliveriesAreConserved(cfg: Config, calls: seq<Call>, id: string)
    requires Valid(cfg)
    requires id in Run(cfg, Empty, calls).states
    ensures var b := Run(cfg, Empty, calls);
            var state := b.states[id];
            var s := state.sequence;
            if state.status == ArchiveOnly then
              s == 0 && (forall t <- b.queue :: b.queue[t].deliveryID != id) && (forall t <- b.dead :: b.dead[t].item.deliveryID != id)
            else QueuedOnce(b, id)
  {
    hide Run;
    EmptyInv(cfg);
    RunKeepsInv(cfg, Empty, calls);
    Placement(Run(cfg, Empty, calls), id);
  }

  lemma Placement(b: Buckets, id: string)
    requires Conserved(b) && id in b.states
    ensures var state := b.states[id];
            var s := state.sequence;
            if state.status == ArchiveOnly then
              s == 0 && (forall t <- b.queue :: b.queue[t].deliveryID != id) && (forall t <- b.dead :: b.dead[t].item.deliveryID != id)
            else QueuedOnce(b, id)
  {
    assert Located(b, id);
    var s := b.states[id].sequence;
    forall t | t in b.queue ensures b.states[b.queue[t].deliveryID].sequence == t && b.states[b.queue[t].deliveryID].status == Queued {
      assert Owned(b, t, b.queue[t], Queued);
    }
    forall t | t in b.dead ensures b.states[b.dead[t].item.deliveryID].sequence == t && b.states[b.dead[t].item.deliveryID].status == Dead {
      assert Owned(b, t, b.dead[t].item, Dead);
    }
  }

  /** At every point of every run the cached counters are exact and within their limits. */
  lemma CountersAreExact(cfg: Config, calls: seq<Call>)
    requires Valid(cfg)
    ensures Counted(cfg, Run(cfg, Empty, calls)) && Bounded(cfg, Run(cfg, Empty, calls))
    ensures RebuildDeadStats(cfg, RebuildActiveStats(cfg, Run(cfg, Empty, calls))) == Run(cfg, Empty, calls)
  {
    EmptyInv(cfg);
    RunKeepsInv(cfg, Empty, calls);
  }

  // ----- Permanence -----

  /** Once admitted, a delivery keeps its identity and its sequence, and archival is never undone. */
  ghost predicate Continues(b: Buckets, r: Buckets) {
    forall id <- b.states ::
      && id in r.states
      && r.states[id].event == b.states[id].event && r.states[id].digest == b.states[id].digest
      && r.states[id].sequence == b.states[id].sequence
      && (b.states[id].archived ==> r.states[id].archived)
  }

  lemma ContinuesTransitive(a: Buckets, b: Buckets, c: Buckets)
    requires Continues(a, b) && Continues(b, c)
    ensures Continues(a, c)
  {
  }

  lemma {:induction false} DeliverAllContinues(cfg: Config, b: Buckets, seqs: seq<nat>)
    ensures Continues(b, DeliverAll(cfg, b, seqs))
  {
    if seqs != [] {
      DeliverAllContinues(cfg, b, seqs[..|seqs| - 1]);
    }
  }

  lemma {:induction false} CompleteAllContinues(b: Buckets, seqs: seq<nat>, chat: string)
    ensures Continues(b, CompleteAll(b, seqs, chat))
  {
    if seqs != [] {
      CompleteAllContinues(b, seqs[..|seqs| - 1], chat);
    }
  }

  lemma {:induction false} FailAllContinues(b: Buckets, seqs: seq<nat>, f: Failure, full: bool)
    ensures Continues(b, FailAll(b, seqs, f, full))
  {
    if seqs != [] {
      FailAllContinues(b, seqs[..|seqs| - 1], f, full);
    }
  }

  lemma SameStatesContinue(b: Buckets, r: Buckets, same: Buckets)
    ensures Continues(b, b)
    ensures Continues(b, r) && same.states == r.states ==> Continues(b, same)
  {
  }

  lemma AdmitContinues(cfg: Config, b: Buckets, id: string, event: string, raw: string, chats: seq<string>, now: nat, ttl: nat)
    ensures Continues(b, Queue.Admit(cfg, b, id, event, raw, chats, now, ttl).0)
  {
  }

  lemma ArchiveOnlyContinues(b: Buckets, id: string, event: string, raw: string)
    ensures Continues(b, Queue.AdmitArchiveOnly(b, id, event, raw).0)
  {
  }

  lemma FinalizeContinues(cfg: Config, b: Buckets, id: string)
    ensures Continues(b, FinalizeArchive(cfg, b, id).0)
  {
    hide ActiveItemBytes;
  }

  lemma RequeueContinues(cfg: Config, b: Buckets, s: nat, now: nat)
    requires Conserved(b)
    ensures Continues(b, RequeueDeadLetter(cfg, b, s, now).0)
  {
    hide StatesLocated, SequencesUnique, QueueOwned, ActiveTotal, DeadTotal, ActiveRoom;
    if s in b.dead {
      assert Owned(b, s, b.dead[s].item, Dead);
    }
  }

  lemma ExecContinues(cfg: Config, b: Buckets, c: Call)
    requires Conserved(b)
    ensures Continues(b, Exec(cfg, b, c))
  {
    hide Conserved, Continues, ActiveTotal, DeadTotal, DeliverAll, CompleteAll, FailAll, NoRepeats, DeadLetterFull, Outcomes;
    hide Queue.Admit, FinalizeArchive, RequeueDeadLetter;
    var r := Exec(cfg, b, c);
    SameStatesContinue(b, b, r);
    match c
    case Admit(id, event, raw, chats, now, ttl) => AdmitContinues(cfg, b, id, event, raw, chats, now, ttl);
    case AdmitArchiveOnly(id, event, raw) => ArchiveOnlyContinues(b, id, event, raw);
    case Finalize(id) => FinalizeContinues(cfg, b, id);
    case Delete(seqs) => DeliverAllContinues(cfg, b, seqs);
    case Complete(seqs, chat) =>
      CompleteAllContinues(b, seqs, chat);
      SameStatesContinue(b, CompleteAll(b, seqs, chat), r);
    case Fail(seqs, failure) =>
      var full := DeadLetterFull(cfg, b, seqs, failure);
      FailAllContinues(b, seqs, failure, full);
      SameStatesContinue(b, FailAll(b, seqs, failure, full), r);
    case Requeue(sequence, now) => RequeueContinues(cfg, b, sequence, now);
    case CleanupDedupe(now, limit) =>
    case Reserve(now) =>
  }

  lemma InvConserves(cfg: Config, b: Buckets)
    requires Inv(cfg, b)
    ensures Conserved(b)
  {
  }

  /** An identity never changes owner: over any continuation of any run, admitted deliveries stay what they were. */
  lemma {:induction false} IdentityIsPermanent(cfg: Config, b: Buckets, calls: seq<Call>)
    requires Valid(cfg) && Inv(cfg, b)
    ensures Continues(b, Run(cfg, b, calls))
  {
    hide Exec, Inv;
    if calls != [] {
      var before := Run(cfg, b, calls[..|calls| - 1]);
      IdentityIsPermanent(cfg, b, calls[..|calls| - 1]);
      RunKeepsInv(cfg, b, calls[..|calls| - 1]);
      InvConserves(cfg, before);
      ExecContinues(cfg, before, calls[|calls| - 1]);
      ContinuesTransitive(b, before, Run(cfg, b, calls));
    }
  }

  // ----- Archival of queued and dead items -----

  /** Failure handling is given items that came from Due. */
  ghost predicate FromDue(b: Buckets, c: Call) {
    c.Fail? ==> forall s <- c.seqs :: s in b.queue ==> b.queue[s].archived
  }

  lemma {:induction false} DeliverAllSettled(cfg: Config, b: Buckets, seqs: seq<nat>)
    requires Settled(b)
    ensures Settled(DeliverAll(cfg, b, seqs))
  {
    if seqs != [] {
      DeliverAllSettled(cfg, b, seqs[..|seqs| - 1]);
    }
  }

  lemma {:induction false} CompleteAllSettled(b: Buckets, seqs: seq<nat>, chat: string)
    requires Settled(b)
    ensures Settled(CompleteAll(b, seqs, chat))
  {
    if seqs != [] {
      CompleteAllSettled(b, seqs[..|seqs| - 1], chat);
    }
  }

  ghost predicate SameLocks(b: Buckets, r: Buckets) {
    forall s <- r.queue :: s in b.queue && r.queue[s].archived == b.queue[s].archived
  }

  lemma FailOneSettled(b: Buckets, s: nat, f: Failure, full: bool)
    requires Settled(b) && (s in b.queue ==> b.queue[s].archived)
    ensures Settled(FailOne(b, s, f, full)) && SameLocks(b, FailOne(b, s, f, full))
  {
  }

  lemma {:induction false} FailAllSettled(b: Buckets, seqs: seq<nat>, f: Failure, full: bool)
    requires Settled(b) && forall s <- seqs :: s in b.queue ==> b.queue[s].archived
    ensures Settled(FailAll(b, seqs, f, full)) && SameLocks(b, FailAll(b, seqs, f, full))
  {
    hide Settled, FailOne;
    if seqs != [] {
      var front, s := seqs[..|seqs| - 1], seqs[|seqs| - 1];
      FailAllSettled(b, front, f, full);
      FailOneSettled(FailAll(b, front, f, full), s, f, full);
    }
  }

  lemma ExecSettled(cfg: Config, b: Buckets, c: Call)
    requires Conserved(b) && Settled(b) && FromDue(b, c)
    ensures Settled(Exec(cfg, b, c))
  {
    match c
    case Admit(id, event, raw, chats, now, ttl) =>
    case AdmitArchiveOnly(id, event, raw) =>
    case Finalize(id) => FinalizeSettled(cfg, b, id);
    case Delete(seqs) => DeliverAllSettled(cfg, b, seqs);
    case Complete(seqs, chat) => CompleteAllSettled(b, seqs, chat);
    case Fail(seqs, failure) =>
      FailAllSettled(b, seqs, failure, DeadLetterFull(cfg, b, seqs, failure));
    case Requeue(sequence, now) => RequeueSettled(cfg, b, sequence, now);
    case CleanupDedupe(now, limit) =>
    case Reserve(now) =>
  }

  lemma FinalizeSettled(cfg: Config, b: Buckets, id: string)
    requires Conserved(b) && Settled(b)
    ensures Settled(FinalizeArchive(cfg, b, id).0)
  {
    hide ActiveItemBytes;
    hide DeadOwned;
    if id in b.states {
      assert Located(b, id);
      forall s | s in b.queue ensures b.queue[s].deliveryID == id <==> s == b.states[id].sequence {
        assert Owned(b, s, b.queue[s], Queued);
      }
    }
  }

  lemma RequeueSettled(cfg: Config, b: Buckets, s: nat, now: nat)
    requires Conserved(b) && Settled(b)
    ensures Settled(RequeueDeadLetter(cfg, b, s, now).0)
  {
    hide ActiveRoom, ActiveTotal, DeadTotal, StatesLocated, SequencesUnique;
    if s in b.dead {
      assert Owned(b, s, b.dead[s].item, Dead);
      forall t | t in b.queue ensures b.queue[t].deliveryID != b.dead[s].item.deliveryID {
        assert Owned(b, t, b.queue[t], Queued);
      }
    }
  }
}
