/**
 * Dead letters written before items carried an archive lock: their `archived` flag is false although their delivery
 * is archived. Requeueing repairs the delivery state but not the item.
 */
module Legacy {
  import opened Queue
  import opened QueueInvariant
  import opened QueueRuns
  import Store

  /** The item with sequence s, wherever it is, is locked, although its delivery counts as archived. */
  ghost predicate Locked(b: Buckets, s: nat) {
    && 1 <= s <= b.next
    && (s in b.queue ==> !b.queue[s].archived)
    && (s in b.dead ==> !b.dead[s].item.archived)
    && (forall id <- b.states :: b.states[id].sequence == s ==> b.states[id].archived)
  }

  lemma {:induction false} DeliverAllLocked(cfg: Config, b: Buckets, seqs: seq<nat>, s: nat)
    requires Locked(b, s)
    ensures Locked(DeliverAll(cfg, b, seqs), s)
  {
    if seqs != [] {
      DeliverAllLocked(cfg, b, seqs[..|seqs| - 1], s);
    }
  }

  lemma {:induction false} CompleteAllLocked(b: Buckets, seqs: seq<nat>, chat: string, s: nat)
    requires Locked(b, s)
    ensures Locked(CompleteAll(b, seqs, chat), s)
  {
    hide Without;
    if seqs != [] {
      CompleteAllLocked(b, seqs[..|seqs| - 1], chat, s);
    }
  }

  lemma {:induction false} FailAllLocked(b: Buckets, seqs: seq<nat>, f: Failure, full: bool, s: nat)
    requires Locked(b, s)
    ensures Locked(FailAll(b, seqs, f, full), s)
  {
    hide Exhausted;
    if seqs != [] {
      FailAllLocked(b, seqs[..|seqs| - 1], f, full, s);
    }
  }

  lemma AdmitLocked(cfg: Config, b: Buckets, c: Call, s: nat)
    requires Locked(b, s) && c.Admit?
    ensures Locked(Exec(cfg, b, c), s)
  {
  }

  lemma FinalizeLocked(cfg: Config, b: Buckets, id: string, s: nat)
    requires Locked(b, s)
    ensures Locked(FinalizeArchive(cfg, b, id).0, s)
  {
  }

  lemma RequeueLocked(cfg: Config, b: Buckets, t: nat, now: nat, s: nat)
    requires Locked(b, s)
    ensures Locked(RequeueDeadLetter(cfg, b, t, now).0, s)
  {
  }

  lemma ExecLocked(cfg: Config, b: Buckets, c: Call, s: nat)
    requires Locked(b, s)
    ensures Locked(Exec(cfg, b, c), s)
  {
    hide Queue.Admit, FinalizeArchive, RequeueDeadLetter, DeliverAll, CompleteAll, FailAll;
    hide ActiveTotal, DeadTotal, Outcomes, NoRepeats, DeadLetterFull;
    match c
    case Admit(_, _, _, _, _, _) => AdmitLocked(cfg, b, c, s);
    case AdmitArchiveOnly(_, _, _) =>
    case Finalize(id) => FinalizeLocked(cfg, b, id, s);
    case Delete(seqs) => DeliverAllLocked(cfg, b, seqs, s);
    case Complete(seqs, chat) => CompleteAllLocked(b, seqs, chat, s);
    case Fail(seqs, failure) => FailAllLocked(b, seqs, failure, DeadLetterFull(cfg, b, seqs, failure), s);
    case Requeue(t, now) => RequeueLocked(cfg, b, t, now, s);
    case CleanupDedupe(_, _) =>
    case Reserve(_) =>
  }

  /** A locked item stays locked in every continuation: Due never returns it. */
  lemma {:induction false} LockedForGood(cfg: Config, b: Buckets, calls: seq<Call>, s: nat)
    requires Locked(b, s)
    ensures Locked(Run(cfg, b, calls), s)
  {
    hide Locked, Exec;
    if calls != [] {
      LockedForGood(cfg, b, calls[..|calls| - 1], s);
      ExecLocked(cfg, Run(cfg, b, calls[..|calls| - 1]), calls[|calls| - 1], s);
    }
  }

  ghost predicate Unlocked(b: Buckets, s: nat) {
    s in b.queue && b.queue[s].archived
  }

  lemma LockedIsNotUnlocked(b: Buckets, s: nat)
    requires Locked(b, s)
    ensures !Unlocked(b, s)
  {
  }

  lemma RequeuedLocked(cfg: Config, b: Buckets, s: nat, now: nat)
    requires Conserved(b) && s in b.dead && RequeueDeadLetter(cfg, b, s, now).1.Ok? && !b.dead[s].item.archived
    ensures Locked(RequeueDeadLetter(cfg, b, s, now).0, s)
  {
    hide ActiveRoom, ActiveTotal, DeadTotal, QueueOwned, StatesLocated;
    assert Owned(b, s, b.dead[s].item, Dead);
    Disjoint(b, s);
  }

  /** A requeued dead letter can be forwarded, now or at any time later, exactly if the dead item carried the flag. */
  lemma RequeuedIsForwardedIff(cfg: Config, b: Buckets, s: nat, now: nat)
    requires Conserved(b) && s in b.dead && RequeueDeadLetter(cfg, b, s, now).1.Ok?
    ensures var r := RequeueDeadLetter(cfg, b, s, now).0;
            (exists calls :: Unlocked(Run(cfg, r, calls), s)) <==> b.dead[s].item.archived
  {
    hide ActiveRoom, ActiveTotal, DeadTotal, Run, Exec, Conserved, Locked;
    var r := RequeueDeadLetter(cfg, b, s, now).0;
    if b.dead[s].item.archived {
      NoCalls(cfg, r);
      assert Unlocked(Run(cfg, r, []), s);
    } else {
      RequeuedLocked(cfg, b, s, now);
      forall calls ensures !Unlocked(Run(cfg, r, calls), s) {
        LockedForGood(cfg, r, calls, s);
        LockedIsNotUnlocked(Run(cfg, r, calls), s);
      }
    }
  }

  lemma NoCalls(cfg: Config, b: Buckets)
    ensures Run(cfg, b, []) == b
  {
  }

  /** A dead letter of an older version: no state, and no archived flag. */
  const OLD_ITEM := Item(1, "d", "push", 0, "{}", 3, 0, "timeout", false, [])
  const OLD_DATABASE := Empty.(dead := map[1 := DeadItem(OLD_ITEM, 5)], next := 1)

  const ROOMY := Config(9, 9000, 9, 9, 9000, (_, _, _, _, _) => 2, _ => 0, _ => 1)

  /**
   * Such a dead letter gets a state when the database is opened, its payload is recovered into the archive, it is
   * requeued without an error, and it is never forwarded.
   */
  lemma OldDeadLetterIsNeverForwarded(now: nat) returns (reopened: Buckets, recovered: Buckets)
    ensures Store.Restorable(OLD_DATABASE) && Store.Restored(OLD_DATABASE, reopened.states)
    ensures reopened == OLD_DATABASE.(states := reopened.states)
    ensures "d" in reopened.states && !reopened.states["d"].archived
    ensures recovered == FinalizeArchive(ROOMY, reopened, "d").0 && recovered.states["d"].archived
    ensures var requeued := RequeueDeadLetter(ROOMY, recovered, 1, now);
            requeued.1.Ok? && forall calls :: !Unlocked(Run(ROOMY, requeued.0, calls), 1)
  {
    reopened := OldReopened();
    recovered := OldRecovered(reopened);
    hide Run;
    RequeuedIsForwardedIff(ROOMY, recovered, 1, now);
  }

  lemma OldReopened() returns (reopened: Buckets)
    ensures Store.Restorable(OLD_DATABASE) && Store.Restored(OLD_DATABASE, reopened.states)
    ensures reopened == OLD_DATABASE.(states := map["d" := Store.NewState(OLD_ITEM, Dead)])
  {
    reopened := OLD_DATABASE.(states := map["d" := Store.NewState(OLD_ITEM, Dead)]);
    assert 1 in OLD_DATABASE.dead && Store.FromDead(OLD_DATABASE, "d", Store.NewState(OLD_ITEM, Dead));
  }

  lemma OldRecovered(b: Buckets) returns (recovered: Buckets)
    requires b == OLD_DATABASE.(states := map["d" := Store.NewState(OLD_ITEM, Dead)])
    ensures recovered == FinalizeArchive(ROOMY, b, "d").0
    ensures recovered == b.(states := map["d" := Store.NewState(OLD_ITEM, Dead).(archived := true, raw := "")])
    ensures Conserved(recovered)
  {
    recovered := FinalizeArchive(ROOMY, b, "d").0;
    assert Owned(recovered, 1, OLD_ITEM, Dead);
  }
}
