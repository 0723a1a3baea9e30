/**
 * The single consumer of the queue: it reserves a rate-limit slot, sends a batch to a chat, and records the result,
 * while other goroutines commit transactions of their own between any two of its steps.
 */
module Worker {
  import opened Queue
  import opened QueueInvariant
  import opened QueueRuns
  import opened ChatDelivery
  import opened WorkerSteps
  import Batching
  import RateLimit
  import Store

  class Worker {
    const store: Store.Store
    const formatter: Batching.Formatter<Item>
    const retryBase: nat
    const retryMax: nat
    const maxAttempts: int
    var clock: nat
    ghost var ledger: Ledger
    ghost var trace: RateLimit.Trace
    ghost var requests: nat
    ghost var tried: set<(string, string)>

    /** Sound, and no request was sent without a slot of its own. */
    ghost predicate Ready()
      reads this, store
    {
      Sound(store.cfg, store.db, ledger, trace, clock) && requests <= |trace.grants|
    }

    constructor (store: Store.Store, formatter: Batching.Formatter<Item>, retryBase: nat, retryMax: nat, maxAttempts: int,
                 now: nat, ghost ledger: Ledger, ghost trace: RateLimit.Trace)
      requires Sound(store.cfg, store.db, ledger, trace, now)
      ensures Ready() && this.store == store && this.formatter == formatter && requests == 0
      ensures this.retryBase == retryBase && this.retryMax == retryMax && this.maxAttempts == maxAttempts
      ensures clock == now && this.ledger == ledger && this.trace == trace
    {
      hide Sound;
      this.store, this.formatter := store, formatter;
      this.retryBase, this.retryMax, this.maxAttempts := retryBase, retryMax, maxAttempts;
      this.clock, this.ledger, this.trace, this.requests, this.tried := now, ledger, trace, 0, {};
    }

    /** Reading the clock. */
    method Tick()
      requires Ready()
      modifies this`clock
      ensures Ready() && clock >= old(clock)
    {
      hide Inv, Kept, RateLimit.Paced;
      var now: nat :| now >= clock;
      clock := now;
    }

    /** A handler or the archive recovery commits one transaction. */
    method HandlerStep()
      requires Ready()
      modifies this`ledger, store
      ensures Ready() && Aside(old(store.db), store.db) && ledger.sent == old(ledger.sent)
    {
      hide Sound, Aside, Noted, Inv, Queue.Admit, Queue.AdmitArchiveOnly, FinalizeArchive;
      var id: string, event: string, raw: string, chats: seq<string> := *, *, *, *;
      var now: nat, ttl: nat :| true;
      Consistency(store.cfg, store.db, ledger, trace, clock);
      var cfg, db := store.cfg, store.db;
      if
      case true =>
        ForeignSound(cfg, db, ledger, trace, clock, Admit(id, event, raw, chats, now, ttl));
        NotedSent(cfg, db, ledger, Admit(id, event, raw, chats, now, ttl));
        ledger := Noted(cfg, db, ledger, Admit(id, event, raw, chats, now, ttl));
        var r := store.Admit(id, event, raw, chats, now, ttl);
      case true =>
        ForeignSound(cfg, db, ledger, trace, clock, AdmitArchiveOnly(id, event, raw));
        NotedAside(cfg, db, ledger, AdmitArchiveOnly(id, event, raw));
        var r := store.AdmitArchiveOnly(id, event, raw);
      case true =>
        ForeignSound(cfg, db, ledger, trace, clock, Finalize(id));
        NotedAside(cfg, db, ledger, Finalize(id));
        var r := store.FinalizeArchive(id);
    }

    /** An operator requeues a dead letter, or the hourly cleanup runs. */
    method UpkeepStep()
      requires Ready()
      modifies store
      ensures Ready() && Aside(old(store.db), store.db)
    {
      hide Sound, Aside, Noted, Inv, RequeueDeadLetter;
      var sequence: nat, now: nat, limit: int :| true;
      Consistency(store.cfg, store.db, ledger, trace, clock);
      var cfg, db := store.cfg, store.db;
      if
      case true =>
        ForeignSound(cfg, db, ledger, trace, clock, Requeue(sequence, now));
        NotedAside(cfg, db, ledger, Requeue(sequence, now));
        var r := store.RequeueDeadLetter(sequence, now);
      case true =>
        ForeignSound(cfg, db, ledger, trace, clock, CleanupDedupe(now, limit));
        NotedAside(cfg, db, ledger, CleanupDedupe(now, limit));
        store.CleanupDedupe(now, limit);
    }

    /** Any number of transactions of other goroutines. */
    method Others()
      requires Ready()
      modifies this`ledger, store
      ensures Ready() && Aside(old(store.db), store.db) && ledger.sent == old(ledger.sent)
    {
      hide Sound, Aside;
      var n: nat :| 0 <= n;
      AsideReflexive(store.db);
      for i := 0 to n
        invariant Ready() && Aside(old(store.db), store.db) && ledger.sent == old(ledger.sent)
      {
        ghost var before := store.db;
        if {
          case true => HandlerStep();
          case true => UpkeepStep();
        }
        AsideTransitive(old(store.db), before, store.db);
      }
    }

    /** The reserve loop: it ends after three waits at most, with a slot unless the store fails or it is cancelled. */
    method Reserve(f: Faults) returns (slot: Slot, ghost waits: nat)
      requires Ready()
      modifies this`clock, this`ledger, this`trace, store
      ensures Ready() && Aside(old(store.db), store.db) && ledger.sent == old(ledger.sent)
      ensures waits <= 3 && clock >= old(clock)
      ensures trace.grants == old(trace.grants) + if slot.Granted? then [clock] else []
      ensures slot.StoreFailed? ==> f.store != {}
      ensures slot.Cancelled? ==> f.cancelled != {}
    {
      hide Inv, Kept, RateLimit.Paced, Aside, RateLimit.Wait, RateLimit.Phase, RateLimit.Reserved;
      waits := 0;
      var round := 0;
      AsideReflexive(store.db);
      PhaseAtMostThree(trace.limiter);
      while true
        invariant Ready() && Aside(old(store.db), store.db) && ledger.sent == old(ledger.sent)
        invariant waits <= 3 && trace.grants == old(trace.grants) && clock >= old(clock)
        invariant forall at: nat :: at >= clock ==> RateLimit.Phase(trace.limiter, at) + waits <= 3
        decreases 3 - waits
      {
        ghost var entry := store.db;
        Others();
        Tick();
        ghost var before, was := store.db, trace;
        AsideTransitive(old(store.db), entry, before);
        if round in f.store {
          return StoreFailed, waits;
        }
        ReserveSound(store.cfg, store.db, ledger, trace, clock, clock);
        Consistency(store.cfg, store.db, ledger, trace, clock);
        var wait := store.ReserveRequest(clock);
        trace := RateLimit.Step(trace, RateLimit.Call(clock));
        AsideTransitive(old(store.db), before, store.db);
        RateLimit.WaitIsPositive(was, clock);
        RateLimit.GrantIffNoObstacle(was, clock);
        if wait <= 0 {
          return Granted, waits;
        }
        waits := waits + 1;
        if round in f.cancelled {
          return Cancelled, waits;
        }
        round := round + 1;
        forall at: nat | at >= clock + wait
          ensures RateLimit.Phase(trace.limiter, at) < RateLimit.Phase(was.limiter, clock)
        {
          RateLimit.WaitingAdvances(was, clock, at);
        }
        var now: nat :| now >= clock + wait;
        clock := now;
      }
    }

    /** One request goes out under the granted slot; if Lark accepts, the deliveries have reached the chat. */
    method Request(chat: string, batch: seq<Item>, accepted: bool)
      requires Ready() && requests < |trace.grants|
      modifies this`ledger, this`requests, this`tried
      ensures Ready() && requests == old(requests) + 1 && tried == old(tried) + Pairs(batch, chat)
      ensures ledger == if accepted then Accepts(old(ledger), batch, chat) else old(ledger)
      ensures accepted ==> forall item <- batch :: (item.deliveryID, chat) in ledger.sent
    {
      hide Sound, Accepts;
      requests, tried := requests + 1, tried + Pairs(batch, chat);
      if accepted {
        AcceptSound(store.cfg, store.db, ledger, trace, clock, batch, chat);
        ledger := Accepts(ledger, batch, chat);
      }
    }

    /**
     * sendBatchToChat. Whatever fails, no chat is recorded as reached that was not sent to, and no request goes out
     * without a slot; the trial decides how far the attempt got, and `trail` in which of the store's states the
     * result was recorded.
     */
    method SendBatchToChat(chat: string, batch: seq<Item>, t: Trial) returns (r: BatchResult, ghost trail: Trail)
      requires Ready() && Known(store.db, batch) && NoRepeats(Store.Sequences(batch))
      modifies this`clock, this`ledger, this`trace, this`requests, this`tried, store
      ensures Ready() && Continues(old(store.db), store.db)
      ensures Recorded(store.cfg, old(store.db), store.db, chat, batch, r, trail) && Decided(trail, t)
      ensures requests == old(requests) + if trail.NotSent? then 0 else 1
      ensures tried == old(tried) + if trail.NotSent? then {} else Pairs(batch, chat)
      ensures trail.NotSent? ==> if r == ContinueRound then t.waiting.store != {} && !t.paused
                                 else t.waiting.cancelled != {} || (t.waiting.store != {} && t.paused)
      ensures ledger.sent == if !trail.NotSent? && t.answer.Accepted? then old(Accepts(ledger, batch, chat).sent) else old(ledger.sent)
      ensures trail.Failed? ==> Patient(batch, retryBase, retryMax, trail.failure, clock)
      ensures trail.Failed? ==> trail.failure.now >= old(clock) && trail.failure.maxAttempts == maxAttempts
    {
      hide Sound, Aside, Continues, Known, Patient, Inv, Conserved, NoRepeats;
      hide Queue.HandleFailure, Queue.CompleteChatDelivery;
      var slot;
      ghost var waits;
      slot, waits := Reserve(t.waiting);
      AsideContinues(old(store.db), store.db);
      if !slot.Granted? {
        return if slot.StoreFailed? && !t.paused then ContinueRound else StopWorker, NotSent;
      }
      Request(chat, batch, t.answer.Accepted?);
      ghost var sent, entry := ledger.sent, store.db;
      Others();
      Tick();
      AsideTransitive(old(store.db), entry, store.db);
      AsideContinues(old(store.db), store.db);
      if t.fault {
        return StopWorker, Unrecorded;
      }
      KnownContinues(old(store.db), store.db, batch);
      ghost var at := store.db;
      SoundConserves(store.cfg, at, ledger, trace, clock);
      if t.answer.Accepted? {
        RecordSuccess(chat, batch);
        r, trail := ContinueRound, Completed(at);
      } else {
        ghost var failure;
        r, failure := RecordFailure(batch, t.answer);
        trail := Failed(at, failure);
      }
      ContinuesTransitive(old(store.db), at, store.db);
    }

    method RecordSuccess(chat: string, batch: seq<Item>)
      requires Ready() && Known(store.db, batch)
      requires forall item <- batch :: Tracked(item.event) ==> (item.deliveryID, chat) in ledger.sent
      modifies store
      ensures Ready() && Continues(old(store.db), store.db)
      ensures store.db == Queue.CompleteChatDelivery(store.cfg, old(store.db), Store.Sequences(batch), chat)
    {
      hide Sound, Continues, Known, Queue.CompleteChatDelivery, Inv;
      Consistency(store.cfg, store.db, ledger, trace, clock);
      CompleteSound(store.cfg, store.db, ledger, trace, clock, batch, chat);
      store.CompleteChatDelivery(batch, chat);
    }

    method RecordFailure(batch: seq<Item>, answer: Answer) returns (r: BatchResult, ghost f: Failure)
      requires Ready() && NoRepeats(Store.Sequences(batch))
      modifies this`clock, this`trace, store
      ensures Ready() && Continues(old(store.db), store.db)
      ensures store.db == Queue.HandleFailure(store.cfg, old(store.db), Store.Sequences(batch), f).0
      ensures Patient(batch, retryBase, retryMax, f, clock) && f.now >= old(clock) && f.maxAttempts == maxAttempts && Reported(f, answer)
      ensures r == if f.retryAfter > 0 then StopRound else ContinueRound
    {
      hide Sound, Continues, Queue.HandleFailure, Inv, NoRepeats, Capped, RateLimit.Cooled;
      var attempt := MostAttempts(batch);
      var delay := Backoff(attempt, retryBase, retryMax);
      forall item | item in batch
        ensures delay >= Capped(retryBase, retryMax, item.attempts)
      {
        CapGrows(retryBase, retryMax, item.attempts, attempt);
      }
      MostIsOne(batch, attempt);
      var retryAfter := if answer.Retry? then answer.retryAfter else 0;
      var permanent := answer.Retry? && answer.permanent;
      if answer.Retry? && retryAfter > delay {
        delay := retryAfter;
      }
      Tick();
      var now := clock;
      ghost var at, l, t := store.db, ledger, trace;
      assert Sound(store.cfg, at, l, t, now);
      Tick();
      var reason: string := *;
      var failure := Failure(now, clock + delay, reason, retryAfter, maxAttempts, permanent);
      f := failure;
      FailSound(store.cfg, at, l, t, now, Store.Sequences(batch), failure);
      Consistency(store.cfg, at, l, t, now);
      SoundConserves(store.cfg, at, l, t, now);
      ExecContinues(store.cfg, at, Call.Fail(Store.Sequences(batch), failure));
      var result := store.HandleFailure(batch, failure);
      trace := RateLimit.Step(trace, RateLimit.Failure(now, retryAfter));
      SoundLater(store.cfg, store.db, ledger, trace, now, clock);
      assert trace.grants == t.grants;
      r := if retryAfter > 0 then StopRound else ContinueRound;
    }

    /** The turn of one chat: its items in batches, until a batch stops the round. */
    method SendToChat(chat: string, wanting: seq<Item>, trials: nat -> Trial,
                      ghost items: seq<Item>, ghost done: set<string>, ghost before: bool) returns (r: BatchResult)
      requires Ready() && Distinct(items) && Known(store.db, items) && wanting == Wanting(items, chat) && chat !in done
      requires before ==> Progress(store.db, items, done, chat, [])
      modifies this`clock, this`ledger, this`trace, this`requests, this`tried, store
      ensures Ready() && Continues(old(store.db), store.db)
      ensures before && (forall j :: Flawless(trials(j))) ==> r == ContinueRound && Progress(store.db, items, done, chat, wanting)
      ensures old(tried) <= tried
      ensures r == ContinueRound && (forall j :: Calm(trials(j).waiting)) ==> Pairs(wanting, chat) <= tried
      ensures (forall j :: Steady(trials(j))) ==> r == ContinueRound
    {
      hide Sound, Continues, Distinct, Known, Recorded, Patient, Progress, Wanting, Pairs;
      var batches := formatter.Split(wanting);
      WantingMembers(items, chat);
      WantingDistinct(items, chat);
      r := ContinueRound;
      ghost var clean := before;
      AsideReflexive(store.db);
      AsideContinues(store.db, store.db);
      NoPairs(chat);
      for j := 0 to |batches|
        invariant Ready() && Continues(old(store.db), store.db)
        invariant r == ContinueRound
        invariant before && (forall j :: Flawless(trials(j))) ==> clean
        invariant clean ==> Progress(store.db, items, done, chat, Batching.Concat(batches[..j]))
        invariant old(tried) <= tried
        invariant (forall j :: Calm(trials(j).waiting)) ==> Pairs(Batching.Concat(batches[..j]), chat) <= tried
      {
        ghost var was, sent := store.db, Batching.Concat(batches[..j]);
        Batching.ConcatNext(batches, j);
        KnownContinues(old(store.db), was, items);
        PartDistinct(wanting, sent, batches[j]);
        KnownSubset(was, items, batches[j]);
        ghost var trail;
        r, trail := SendBatchToChat(chat, batches[j], trials(j));
        if Steady(trials(j)) { SteadyGoesOn(store.cfg, was, store.db, chat, batches[j], r, trail, trials(j)); }
        PairsJoin(sent, batches[j], chat);
        if Flawless(trials(j)) { FlawlessCompletes(trail, trials(j)); }
        ContinuesTransitive(old(store.db), was, store.db);
        if clean && trail.Completed? {
          TurnProgress(store.cfg, was, store.db, items, done, chat, sent, batches[j], r, trail);
        }
        clean := clean && trail.Completed?;
        if r != ContinueRound {
          CompletedContinues(store.cfg, was, store.db, chat, batches[j], r, trail);
          return;
        }
      }
      assert batches[..|batches|] == batches;
    }

    /**
     * sendOrdinary, for items as Due returned them. If every call of the round succeeds, every item is delivered
     * at the end: each chat of each item had its turn.
     */
    method SendOrdinary(items: seq<Item>, trials: (string, nat) -> Trial) returns (r: BatchResult)
      requires Ready() && Distinct(items) && forall item <- items :: Awaiting(store.db, item, {})
      modifies this`clock, this`ledger, this`trace, this`requests, this`tried, store
      ensures Ready() && Continues(old(store.db), store.db)
      ensures (forall c, j :: Flawless(trials(c, j))) ==> r == ContinueRound && AllDelivered(store.db, items)
      ensures r == ContinueRound && (forall c, j :: Calm(trials(c, j).waiting)) ==> AllTried(items, tried)
      ensures (forall c, j :: Steady(trials(c, j))) ==> r == ContinueRound
    {
      hide Sound, Continues, Awaiting, Distinct, Known, Progress, Wanting, Chats, Conserved, Flawless, Pairs, TriedIn, AllTried;
      r := ContinueRound;
      ghost var clean := forall c, j :: Flawless(trials(c, j));
      var byChat := GroupByChat(items);
      var chats := Sort(byChat.Keys);
      ghost var done: set<string> := {};
      AsideReflexive(store.db);
      AsideContinues(store.db, store.db);
      SoundConserves(store.cfg, store.db, ledger, trace, clock);
      WaitingKnown(store.db, items);
      NobodyTried(items, tried);
      for i := 0 to |chats|
        invariant Ready() && Continues(old(store.db), store.db)
        invariant r == ContinueRound && done == set c | c in chats[..i]
        invariant clean ==> forall item <- items :: Awaiting(store.db, item, done)
        invariant (forall c, j :: Calm(trials(c, j).waiting)) ==> TriedIn(items, done, tried)
      {
        assert chats[..i + 1] == chats[..i] + [chats[i]];
        NotYet(chats, i);
        ghost var was := store.db;
        KnownContinues(old(store.db), was, items);
        if clean { TurnStarts(was, items, done, chats[i]); }
        assert chats[i] in byChat && Listed(byChat, chats[i]) == byChat[chats[i]];
        var chat := chats[i];
        ghost var earlier := tried;
        r := SendToChat(chat, byChat[chat], (j: nat) => trials(chat, j), items, done, clean);
        TurnTries(items, done, chat, earlier, tried);
        ContinuesTransitive(old(store.db), was, store.db);
        if clean { TurnEnds(store.db, items, done, chat); }
        if r != ContinueRound {
          return;
        }
        done := done + {chat};
      }
      assert chats[..|chats|] == chats && done == byChat.Keys;
      if clean { AllTurnsDone(store.db, items, byChat); }
      TriedEverywhere(items, byChat, tried);
    }

    /**
     * The ordinary part of one round of Run: of the first `limit` items that are due when the clock is read, all that
     * are not card or onboarding items are taken up.
     */
    method Round(limit: nat, trials: (string, nat) -> Trial)
      returns (r: BatchResult, ordinary: seq<Item>, ghost now: nat, ghost due: seq<Item>, ghost bound: nat)
      requires Ready()
      modifies this`clock, this`ledger, this`trace, this`requests, this`tried, store
      ensures Ready() && Continues(old(store.db), store.db) && |due| <= limit
      ensures now >= old(clock) && Store.FoundDue(old(store.db).queue, now, bound, Store.Sequences(due))
      ensures |due| < limit ==> forall s <- old(store.db).queue :: s < bound
      ensures forall item <- due :: item.sequence in old(store.db).queue && old(store.db).queue[item.sequence] == item
      ensures Distinct(ordinary) && forall item :: item in ordinary <==> item in due && IsOrdinary(item.event)
      ensures (forall c, j :: Flawless(trials(c, j))) ==> r == ContinueRound && AllDelivered(store.db, ordinary)
      ensures r == ContinueRound && (forall c, j :: Calm(trials(c, j).waiting)) ==> AllTried(ordinary, tried)
      ensures (forall c, j :: Steady(trials(c, j))) ==> r == ContinueRound
    {
      hide Sound, Continues, Distinct, Awaiting, Conserved, Inv, Flawless, AllDelivered, AllTried;
      Consistency(store.cfg, store.db, ledger, trace, clock);
      Tick();
      now := clock;
      var items := store.Due(clock, limit);
      due := items;
      bound :| Store.FoundDue(store.db.queue, now, bound, Store.Sequences(due)) && (|due| < limit ==> forall s <- store.db.queue :: s < bound);
      DueDistinct(store.db, clock, items);
      ordinary := PickOrdinary(items);
      forall item | item in ordinary ensures Awaiting(store.db, item, {}) {
        DueAwaits(store.db, item);
      }
      r := SendOrdinary(ordinary, trials);
    }
  }
}
