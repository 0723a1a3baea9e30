/**
 * At-least-once delivery to every chat: across retries, dead-lettering, requeueing and lost completions, a chat
 * disappears from the stored targets of an item only after a message to it was accepted.
 */
module ChatDelivery {
  import opened Queue
  import opened QueueInvariant
  import opened QueueCounters
  import opened QueueRuns
  import Dedupe

  /** What was asked for and what Lark accepted: the snapshotted chats of each delivery, and the (delivery, chat) sends. */
  datatype Ledger = Ledger(targets: map<string, set<string>>, sent: set<(string, string)>)

  /** The chats an item still has to reach; an empty list is the configured chat, written "". */
  function Chats(chatIDs: seq<string>): set<string> {
    if chatIDs == [] then {""} else set c | c in chatIDs
  }

  /** GitLab pipeline items may be drained as stale and onboarding items are deleted whole: they are not tracked. */
  predicate Tracked(event: string) {
    event != "gitlab:pipeline" && event != "lark_event"
  }

  /** No unsent chat was forgotten, and no chat was invented. */
  ghost predicate Owed(l: Ledger, item: Item) {
    && item.deliveryID in l.targets
    && (Tracked(item.event) ==>
          && Chats(item.chatIDs) <= l.targets[item.deliveryID]
          && forall c <- l.targets[item.deliveryID] :: c in Chats(item.chatIDs) || (item.deliveryID, c) in l.sent)
  }

  ghost predicate QueueOwed(b: Buckets, l: Ledger) {
    forall s <- b.queue :: Owed(l, b.queue[s])
  }

  ghost predicate DeadOwed(b: Buckets, l: Ledger) {
    forall s <- b.dead :: Owed(l, b.dead[s].item)
  }

  /** A delivered item was sent to every chat it was snapshotted for. */
  ghost predicate DeliveredSent(b: Buckets, l: Ledger) {
    forall id <- b.states :: b.states[id].status == Delivered && Tracked(b.states[id].event)
      ==> id in l.targets && forall c <- l.targets[id] :: (id, c) in l.sent
  }

  ghost predicate OnlyAdmitted(b: Buckets, l: Ledger) {
    forall id <- l.targets :: id in b.states
  }

  ghost predicate Kept(b: Buckets, l: Ledger) {
    QueueOwed(b, l) && DeadOwed(b, l) && DeliveredSent(b, l) && OnlyAdmitted(b, l)
  }

  /** The worker's side of the contract: a chat is completed only for items that were sent to it. */
  ghost predicate MayComplete(b: Buckets, l: Ledger, seqs: seq<nat>, chat: string) {
    forall s <- seqs :: s in b.queue && Tracked(b.queue[s].event) ==> (b.queue[s].deliveryID, chat) in l.sent
  }

  ghost predicate MayDelete(b: Buckets, seqs: seq<nat>) {
    forall s <- seqs :: s in b.queue ==> !Tracked(b.queue[s].event)
  }

  ghost predicate Allowed(b: Buckets, l: Ledger, c: Call) {
    (c.Complete? ==> MayComplete(b, l, c.seqs, c.chat)) && (c.Delete? ==> MayDelete(b, c.seqs))
  }

  /** The targets are snapshotted by the admission that makes the item. */
  ghost function Noted(cfg: Config, b: Buckets, l: Ledger, c: Call): Ledger {
    if c.Admit? && c.id !in b.states && c.id in Exec(cfg, b, c).states
    then l.(targets := l.targets[c.id := Chats(c.chats)])
    else l
  }

  // ----- Completion -----

  lemma {:induction false} WithoutMembers(chats: seq<string>, chat: string)
    ensures forall c :: c in Without(chats, chat) <==> c in chats && c != chat
    ensures |Without(chats, chat)| == |chats| <==> chat !in chats
    ensures |Without(chats, chat)| <= |chats|
  {
    if chats != [] {
      WithoutMembers(chats[1..], chat);
      assert chats == [chats[0]] + chats[1..];
    }
  }

  lemma CompleteOneKeeps(b: Buckets, l: Ledger, s: nat, chat: string)
    requires Conserved(b) && Kept(b, l)
    requires s in b.queue && Tracked(b.queue[s].event) ==> (b.queue[s].deliveryID, chat) in l.sent
    ensures Kept(CompleteOne(b, s, chat), l)
  {
    hide SequencesUnique, StatesLocated, DeadOwned;
    if s in b.queue {
      var item := b.queue[s];
      WithoutMembers(item.chatIDs, chat);
      assert Owned(b, s, item, Queued) && Owed(l, item);
    }
  }

  /** Completing other items leaves an item's delivery as it is, if it is still queued. */
  lemma {:induction false} CompleteAllFrame(b: Buckets, seqs: seq<nat>, chat: string)
    ensures var r := CompleteAll(b, seqs, chat);
            forall s <- r.queue :: s in b.queue && r.queue[s].deliveryID == b.queue[s].deliveryID && r.queue[s].event == b.queue[s].event
  {
    if seqs != [] {
      CompleteAllFrame(b, seqs[..|seqs| - 1], chat);
    }
  }

  lemma {:induction false} CompleteAllKeepsOwed(cfg: Config, b: Buckets, l: Ledger, seqs: seq<nat>, chat: string)
    requires Conserved(b) && Kept(b, l) && MayComplete(b, l, seqs, chat)
    ensures Kept(CompleteAll(b, seqs, chat), l)
  {
    hide Conserved, Kept, CompleteOne;
    if seqs != [] {
      var front, s := seqs[..|seqs| - 1], seqs[|seqs| - 1];
      assert s in seqs && forall t <- front :: t in seqs;
      CompleteAllKeepsOwed(cfg, b, l, front, chat);
      CompleteAllKeeps(cfg, b, front, chat);
      CompleteAllFrame(b, front, chat);
      CompleteOneKeeps(CompleteAll(b, front, chat), l, s, chat);
    }
  }

  // ----- The other transactions -----

  lemma FailOneKeepsOwed(b: Buckets, l: Ledger, s: nat, f: Failure, full: bool)
    requires Conserved(b) && Kept(b, l)
    ensures Kept(FailOne(b, s, f, full), l)
  {
    hide SequencesUnique, StatesLocated, DeadOwned;
    if s in b.queue {
      assert Owned(b, s, b.queue[s], Queued) && Owed(l, b.queue[s]);
    }
  }

  lemma {:induction false} FailAllKeepsOwed(b: Buckets, l: Ledger, seqs: seq<nat>, f: Failure, full: bool)
    requires Conserved(b) && Kept(b, l)
    ensures Kept(FailAll(b, seqs, f, full), l) && Conserved(FailAll(b, seqs, f, full))
  {
    hide Conserved, Kept, FailOne;
    if seqs != [] {
      var front, s := seqs[..|seqs| - 1], seqs[|seqs| - 1];
      FailAllKeepsOwed(b, l, front, f, full);
      FailOneKeepsOwed(FailAll(b, front, f, full), l, s, f, full);
      FailOneConserves(FailAll(b, front, f, full), s, f, full);
    }
  }

  lemma DeliverOneKeepsOwed(cfg: Config, b: Buckets, l: Ledger, s: nat)
    requires Conserved(b) && Kept(b, l) && (s in b.queue ==> !Tracked(b.queue[s].event))
    ensures Kept(DeliverOne(cfg, b, s), l)
  {
  }

  lemma DeliverOneConserves(cfg: Config, b: Buckets, s: nat)
    requires Conserved(b)
    ensures Conserved(DeliverOne(cfg, b, s))
    ensures var r := DeliverOne(cfg, b, s); forall t <- r.queue :: t in b.queue && r.queue[t] == b.queue[t]
  {
    hide Conserved;
    if s in b.queue {
      RemoveConserves(b, s);
      CountersAside(Removed(b, s), DeliverOne(cfg, b, s));
    }
  }

  lemma {:induction false} DeliverAllKeepsOwed(cfg: Config, b: Buckets, l: Ledger, seqs: seq<nat>)
    requires Conserved(b) && Kept(b, l) && MayDelete(b, seqs)
    ensures var r := DeliverAll(cfg, b, seqs);
            && Kept(r, l) && Conserved(r)
            && forall t <- r.queue :: t in b.queue && r.queue[t] == b.queue[t]
  {
    hide Conserved, Kept, DeliverOne;
    if seqs != [] {
      var front, s := seqs[..|seqs| - 1], seqs[|seqs| - 1];
      assert s in seqs && forall t <- front :: t in seqs;
      DeliverAllKeepsOwed(cfg, b, l, front);
      DeliverOneKeepsOwed(cfg, DeliverAll(cfg, b, front), l, s);
      DeliverOneConserves(cfg, DeliverAll(cfg, b, front), s);
    }
  }

  lemma RequeueKeepsOwed(cfg: Config, b: Buckets, l: Ledger, s: nat, now: nat)
    requires Conserved(b) && Kept(b, l)
    ensures Kept(RequeueDeadLetter(cfg, b, s, now).0, l)
  {
    hide SequencesUnique, StatesLocated, QueueOwned, ActiveRoom, ActiveTotal, DeadTotal;
    if s in b.dead {
      assert Owned(b, s, b.dead[s].item, Dead) && Owed(l, b.dead[s].item);
    }
  }

  lemma AdmitKeepsOwed(cfg: Config, b: Buckets, l: Ledger, c: Call)
    requires Conserved(b) && Kept(b, l) && c.Admit?
    ensures Kept(Exec(cfg, b, c), Noted(cfg, b, l, c))
  {
    hide SequencesUnique, StatesLocated, ActiveRoom, ActiveItemBytes, Dedupe.Evicted, Dedupe.Cleaned, Dedupe.Put;
    var r, m := Exec(cfg, b, c), Noted(cfg, b, l, c);
    if c.id !in b.states && c.id in r.states {
      forall s | s in b.queue ensures Owed(m, b.queue[s]) {
        assert Owned(b, s, b.queue[s], Queued) && Owed(l, b.queue[s]);
      }
      forall s | s in b.dead ensures Owed(m, b.dead[s].item) {
        assert Owned(b, s, b.dead[s].item, Dead) && Owed(l, b.dead[s].item);
      }
    }
  }

  lemma FinalizeKeepsOwed(cfg: Config, b: Buckets, l: Ledger, id: string)
    requires Kept(b, l)
    ensures Kept(FinalizeArchive(cfg, b, id).0, l)
  {
    hide ActiveItemBytes;
    if id in b.states && b.states[id].sequence in b.queue {
      assert Owed(l, b.queue[b.states[id].sequence]);
    }
  }

  lemma ArchiveOnlyKeepsOwed(b: Buckets, l: Ledger, id: string, event: string, raw: string)
    requires Kept(b, l)
    ensures Kept(Queue.AdmitArchiveOnly(b, id, event, raw).0, l)
  {
  }

  lemma SamePlacesOwed(b: Buckets, r: Buckets, l: Ledger)
    requires Kept(b, l) && r.queue == b.queue && r.dead == b.dead && r.states == b.states
    ensures Kept(r, l)
  {
  }

  lemma ExecKeepsOwed(cfg: Config, b: Buckets, l: Ledger, c: Call)
    requires Conserved(b) && Kept(b, l) && Allowed(b, l, c)
    ensures Kept(Exec(cfg, b, c), Noted(cfg, b, l, c))
  {
    hide Conserved, Kept, MayComplete, MayDelete, DeliverAll, CompleteAll, FailAll, ActiveTotal, DeadTotal, NoRepeats, DeadLetterFull;
    hide FinalizeArchive, Queue.Admit, RequeueDeadLetter, Queue.AdmitArchiveOnly, Outcomes;
    var r := Exec(cfg, b, c);
    match c
    case Admit(_, _, _, _, _, _) => AdmitKeepsOwed(cfg, b, l, c);
    case AdmitArchiveOnly(id, event, raw) => ArchiveOnlyKeepsOwed(b, l, id, event, raw);
    case Finalize(id) => FinalizeKeepsOwed(cfg, b, l, id);
    case Delete(seqs) => DeliverAllKeepsOwed(cfg, b, l, seqs);
    case Complete(seqs, chat) =>
      CompleteAllKeepsOwed(cfg, b, l, seqs, chat);
      SamePlacesOwed(CompleteAll(b, seqs, chat), r, l);
    case Fail(seqs, failure) =>
      var full := DeadLetterFull(cfg, b, seqs, failure);
      FailAllKeepsOwed(b, l, seqs, failure, full);
      SamePlacesOwed(if NoRepeats(seqs) then FailAll(b, seqs, failure, full) else b, r, l);
    case Requeue(sequence, now) => RequeueKeepsOwed(cfg, b, l, sequence, now);
    case CleanupDedupe(_, _) => SamePlacesOwed(b, r, l);
    case Reserve(_) => SamePlacesOwed(b, r, l);
  }

  // ----- Over every run -----

  /** A store transaction, or Lark accepting a message to a chat that carries these deliveries. */
  datatype Event = Transact(call: Call) | Sent(ids: set<string>, chat: string)

  datatype World = World(db: Buckets, ledger: Ledger)

  const Start := World(Empty, Ledger(map[], {}))

  ghost function Next(cfg: Config, w: World, e: Event): World {
    match e
    case Transact(call) =>
      if Allowed(w.db, w.ledger, call) then World(Exec(cfg, w.db, call), Noted(cfg, w.db, w.ledger, call)) else w
    case Sent(ids, chat) => w.(ledger := w.ledger.(sent := w.ledger.sent + set id | id in ids :: (id, chat)))
  }

  ghost function Run(cfg: Config, events: seq<Event>): World {
    if events == [] then Start else Next(cfg, Run(cfg, events[..|events| - 1]), events[|events| - 1])
  }

  lemma SendingKeepsOwed(b: Buckets, l: Ledger, more: set<(string, string)>)
    requires Kept(b, l)
    ensures Kept(b, l.(sent := l.sent + more))
  {
  }

  lemma NextKeepsOwed(cfg: Config, w: World, e: Event)
    requires Valid(cfg) && Inv(cfg, w.db) && Kept(w.db, w.ledger)
    ensures Inv(cfg, Next(cfg, w, e).db) && Kept(Next(cfg, w, e).db, Next(cfg, w, e).ledger)
  {
    hide Inv, Kept, Exec, Allowed, Noted;
    InvConserves(cfg, w.db);
    match e
    case Transact(call) =>
      if Allowed(w.db, w.ledger, call) {
        ExecKeepsInv(cfg, w.db, call);
        ExecKeepsOwed(cfg, w.db, w.ledger, call);
      }
    case Sent(ids, chat) => SendingKeepsOwed(w.db, w.ledger, set id | id in ids :: (id, chat));
  }

  lemma {:induction false} RunKeepsOwed(cfg: Config, events: seq<Event>)
    requires Valid(cfg)
    ensures Inv(cfg, Run(cfg, events).db) && Kept(Run(cfg, events).db, Run(cfg, events).ledger)
  {
    hide Inv, Next;
    if events == [] {
      EmptyInv(cfg);
    } else {
      RunKeepsOwed(cfg, events[..|events| - 1]);
      NextKeepsOwed(cfg, Run(cfg, events[..|events| - 1]), events[|events| - 1]);
    }
  }

  /**
   * At least once, per chat: over every run a tracked delivery that is marked delivered was sent to every chat it
   * was snapshotted for, and one that still waits, in the queue or as a dead letter, still lists every chat it
   * was not sent to.
   */
  lemma EveryChatAtLeastOnce(cfg: Config, events: seq<Event>, id: string, chat: string)
    requires Valid(cfg)
    requires id in Run(cfg, events).db.states && Run(cfg, events).db.states[id].status != ArchiveOnly
    requires Tracked(Run(cfg, events).db.states[id].event)
    ensures var w := Run(cfg, events);
            var state := w.db.states[id];
            && id in w.ledger.targets
            && (chat in w.ledger.targets[id] && (id, chat) !in w.ledger.sent ==>
                  || (state.sequence in w.db.queue && chat in Chats(w.db.queue[state.sequence].chatIDs))
                  || (state.sequence in w.db.dead && chat in Chats(w.db.dead[state.sequence].item.chatIDs)))
  {
    hide Run;
    RunKeepsOwed(cfg, events);
    var w := Run(cfg, events);
    var state := w.db.states[id];
    assert Located(w.db, id);
    if state.status == Queued {
      assert Owed(w.ledger, w.db.queue[state.sequence]) && Owned(w.db, state.sequence, w.db.queue[state.sequence], Queued);
    } else if state.status == Dead {
      assert Owed(w.ledger, w.db.dead[state.sequence].item) && Owned(w.db, state.sequence, w.db.dead[state.sequence].item, Dead);
    }
  }
}
