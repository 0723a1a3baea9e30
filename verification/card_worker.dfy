/** The worker on cards: GitHub workflow and check deliveries, and GitLab pipelines, one chat of an item at a time. */
module CardWorker {
  import opened ByteOrder
  import opened Options
  import opened Queue
  import opened QueueInvariant
  import opened QueueRuns
  import opened ChatDelivery
  import opened WorkerSteps
  import opened Workflow
  import opened Cards
  import Pipeline
  import Worker

  /** What happens to one attempt: the faults while each of the three slots is waited for, the answers, the error of a refusal, the recording. */
  datatype CardTrial = CardTrial(waiting: seq<Faults>, answers: Answers, refusal: Answer, fault: bool)

  predicate Possible(t: CardTrial) {
    |t.waiting| == 3 && ClientAnswers(t.answers) && !t.refusal.Accepted?
  }

  /** Nothing fails. */
  predicate Smooth(t: CardTrial)
    requires Possible(t)
  {
    && (forall i :: 0 <= i < 3 ==> Calm(t.waiting[i])) && !t.fault
    && t.answers.messageID.Some? && t.answers.updated && t.answers.messageStored && t.answers.deleted && t.answers.cleared
    && t.answers.reactionID.Some? && t.answers.reactionStored
  }

  /** An attempt that does not end the round, whether or not it gets through. */
  predicate KeepsGoing(t: CardTrial)
    requires Possible(t)
  {
    && (forall i :: 0 <= i < 3 ==> t.waiting[i].cancelled == {}) && !t.fault
    && (t.refusal.Retry? ==> t.refusal.retryAfter == 0)
  }

  /**
   * The failure is recorded with this answer: its permanence and Retry-After are those of the answer, and the item
   * waits out its backoff. If the recording itself fails, nothing is recorded.
   */
  ghost predicate Answered(item: Item, worker: Worker.Worker, trail: Trail, t: CardTrial, answer: Answer)
    reads worker`clock
  {
    if t.fault then trail.Unrecorded?
    else
      && trail.Failed? && Reported(trail.failure, answer)
      && Patient([item], worker.retryBase, worker.retryMax, trail.failure, worker.clock) && trail.failure.maxAttempts == worker.maxAttempts
  }

  /**
   * What becomes of the item when the attempt gets this far: a refused call is recorded as Lark answered it, a store
   * error as a plain error, a wait without a slot as a plain error or, if it was cancelled, not at all.
   */
  ghost predicate Ended(item: Item, worker: Worker.Worker, h: Halt, r: BatchResult, trail: Trail, t: CardTrial)
    requires Possible(t)
    reads worker`clock
  {
    match h
    case Through => if t.fault then trail.Unrecorded? else trail.Completed?
    case RefusedCall => Answered(item, worker, trail, t, t.refusal)
    case StoreError => Answered(item, worker, trail, t, Answer.Other)
    case NoSlot(i) =>
      && i < 3
      && ((t.waiting[i].cancelled != {} && trail.NotSent? && r == StopWorker)
          || (t.waiting[i].store != {} && Answered(item, worker, trail, t, Answer.Other)))
  }

  function Slots(slots: seq<bool>): nat
    requires |slots| == 3
  {
    (if slots[0] then 1 else 0) + (if slots[1] then 1 else 0) + (if slots[2] then 1 else 0)
  }

  class CardWorker {
    const worker: Worker.Worker
    const cards: CardStore

    constructor (worker: Worker.Worker, cards: CardStore)
      ensures this.worker == worker && this.cards == cards
    {
      this.worker, this.cards := worker, cards;
    }

    /** The attempt ended before the chat could be completed. */
    ghost predicate Stopped(item: Item, chat: string, from: Buckets, h: Halt, r: BatchResult, trail: Trail, t: CardTrial)
      requires Possible(t)
      reads worker.store, worker`clock
    {
      && Continues(from, worker.store.db)
      && Recorded(worker.store.cfg, from, worker.store.db, chat, [item], r, trail)
      && !h.Through? && Ended(item, worker, h, r, trail, t)
    }

    /** workflowFailure: the item is retried or dead-lettered, unless even that cannot be recorded. */
    method Fail(item: Item, chat: string, answer: Answer, t: CardTrial, ghost from: Buckets) returns (r: BatchResult, ghost trail: Trail)
      requires worker.Ready() && Aside(from, worker.store.db) && Possible(t) && !answer.Accepted?
      modifies worker`clock, worker`trace, worker.store
      ensures worker.Ready() && Continues(from, worker.store.db)
      ensures Recorded(worker.store.cfg, from, worker.store.db, chat, [item], r, trail)
      ensures Answered(item, worker, trail, t, answer)
    {
      hide Sound, Aside, Continues, Conserved, Patient, Reported, Queue.HandleFailure;
      ghost var at := worker.store.db;
      AsideContinues(from, at);
      if t.fault {
        return StopWorker, Unrecorded;
      }
      SoundConserves(worker.store.cfg, at, worker.ledger, worker.trace, worker.clock);
      ghost var failure;
      r, failure := worker.RecordFailure([item], answer);
      trail := Failed(at, failure);
      ContinuesTransitive(from, at, worker.store.db);
    }

    /** The slot was not granted. */
    method GiveUp(item: Item, chat: string, slot: Slot, i: nat, t: CardTrial, ghost from: Buckets)
      returns (r: BatchResult, ghost trail: Trail)
      requires worker.Ready() && Aside(from, worker.store.db) && Possible(t) && i < 3
      requires !slot.Granted?
      requires slot.StoreFailed? ==> t.waiting[i].store != {}
      requires slot.Cancelled? ==> t.waiting[i].cancelled != {}
      modifies worker`clock, worker`trace, worker.store
      ensures worker.Ready() && Stopped(item, chat, from, NoSlot(i), r, trail, t)
    {
      hide Sound, Aside, Continues, Answered;
      if slot.Cancelled? {
        AsideContinues(from, worker.store.db);
        return StopWorker, NotSent;
      }
      r, trail := Fail(item, chat, Answer.Other, t, from);
    }

    /** The next request for the card: a slot, then the call; the other goroutines go on. */
    method Call(item: Item, chat: string, waiting: Faults, accepted: bool, ghost from: Buckets) returns (slot: Slot)
      requires worker.Ready() && Aside(from, worker.store.db)
      modifies worker`clock, worker`ledger, worker`trace, worker`requests, worker`tried, worker.store
      ensures worker.Ready() && Aside(from, worker.store.db)
      ensures slot.StoreFailed? ==> waiting.store != {}
      ensures slot.Cancelled? ==> waiting.cancelled != {}
      ensures old(worker.ledger).sent <= worker.ledger.sent
      ensures slot.Granted? && accepted ==> (item.deliveryID, chat) in worker.ledger.sent
      ensures !(slot.Granted? && accepted) ==> worker.ledger.sent == old(worker.ledger).sent
      ensures worker.requests == old(worker.requests) + if slot.Granted? then 1 else 0
    {
      hide Sound, Aside;
      ghost var before := worker.store.db;
      ghost var waits;
      slot, waits := worker.Reserve(waiting);
      AsideTransitive(from, before, worker.store.db);
      if slot.Granted? {
        worker.Request(chat, [item], accepted);
        assert item in [item];
        before := worker.store.db;
        worker.Others();
        AsideTransitive(from, before, worker.store.db);
      }
    }

    /** The card is created, or updated in place; once Lark has accepted it, the chat has been reached. */
    method PutCard(item: Item, chat: string, key: string, t: CardTrial, ghost from: Buckets)
      returns (ok: bool, r: BatchResult, ghost trail: Trail, ghost granted: bool)
      requires worker.Ready() && Aside(from, worker.store.db) && Possible(t) && key in cards.bucket
      modifies worker`clock, worker`ledger, worker`trace, worker`requests, worker`tried, worker.store, cards
      ensures worker.Ready() && worker.requests == old(worker.requests) + if granted then 1 else 0
      ensures var s, a := old(cards.bucket)[key], t.answers;
              && ok == (granted && CardAccepted(s, a) && (s.messageID == "" ==> a.messageStored))
              && (granted && CardAccepted(s, a) ==> (item.deliveryID, chat) in worker.ledger.sent)
              && (ok ==> Aside(from, worker.store.db))
              && (!ok ==> Stopped(item, chat, from, if !granted then NoSlot(0) else if CardAccepted(s, a) then StoreError else RefusedCall,
                                  r, trail, t))
              && cards.bucket == if ok && s.messageID == "" then old(cards.bucket)[key := s.(messageID := a.messageID.value)]
                                 else old(cards.bucket)
      ensures Calm(t.waiting[0]) ==> granted
    {
      hide Sound, Aside, Continues, Recorded, Answered;
      var a, state := t.answers, cards.bucket[key];
      ok, granted := false, false;
      r, trail := StopWorker, NotSent;
      var slot := Call(item, chat, t.waiting[0], CardAccepted(state, a), from);
      if !slot.Granted? {
        r, trail := GiveUp(item, chat, slot, 0, t, from);
        return;
      }
      granted := true;
      if !CardAccepted(state, a) {
        r, trail := Fail(item, chat, t.refusal, t, from);
        return;
      }
      if state.messageID == "" {
        if !a.messageStored {
          r, trail := Fail(item, chat, Answer.Other, t, from);
          return;
        }
        var stored := cards.SetMessage(key, a.messageID.value);
      }
      ok := true;
    }

    /** A reaction is taken off or put on, and then stored. */
    method React(item: Item, chat: string, key: string, i: nat, accepted: bool, stored: bool,
                 reactionID: string, reaction: string, t: CardTrial, ghost from: Buckets)
      returns (ok: bool, r: BatchResult, ghost trail: Trail, ghost granted: bool)
      requires worker.Ready() && Aside(from, worker.store.db) && Possible(t) && key in cards.bucket && i < 3
      modifies worker`clock, worker`ledger, worker`trace, worker`requests, worker`tried, worker.store, cards
      ensures worker.Ready() && worker.ledger.sent == old(worker.ledger).sent
      ensures worker.requests == old(worker.requests) + if granted then 1 else 0
      ensures ok == (granted && accepted && stored)
      ensures ok ==> Aside(from, worker.store.db)
      ensures !ok ==> Stopped(item, chat, from, if !granted then NoSlot(i) else if accepted then StoreError else RefusedCall, r, trail, t)
      ensures Calm(t.waiting[i]) ==> granted
      ensures cards.bucket == if ok then
                                old(cards.bucket)[key := old(cards.bucket)[key].(reactionID := reactionID, reactionType := reaction)]
                              else old(cards.bucket)
    {
      hide Sound, Aside, Continues, Recorded, Answered;
      ok, granted := false, false;
      r, trail := StopWorker, NotSent;
      var slot := Call(item, chat, t.waiting[i], false, from);
      if !slot.Granted? {
        r, trail := GiveUp(item, chat, slot, i, t, from);
        return;
      }
      granted := true;
      if !accepted || !stored {
        r, trail := Fail(item, chat, if accepted then Answer.Other else t.refusal, t, from);
        return;
      }
      var noted := cards.SetReaction(key, reactionID, reaction);
      ok := true;
    }

    /** The reaction part of sendCardToChat: each call takes a slot of its own. */
    method Reconcile(item: Item, chat: string, key: string, reaction: string, t: CardTrial, ghost from: Buckets)
      returns (ok: bool, r: BatchResult, ghost trail: Trail, ghost slots: seq<bool>)
      requires worker.Ready() && Aside(from, worker.store.db) && Possible(t) && key in cards.bucket
      modifies worker`clock, worker`ledger, worker`trace, worker`requests, worker`tried, worker.store, cards
      ensures worker.Ready() && worker.ledger.sent == old(worker.ledger).sent
      ensures |slots| == 3 && slots[0] && worker.requests + 1 == old(worker.requests) + Slots(slots)
      ensures key in cards.bucket && cards.bucket == old(cards.bucket)[key := cards.bucket[key]]
      ensures var (s, h) := Reacted(old(cards.bucket)[key], reaction, t.answers.(slots := slots));
              && cards.bucket[key] == s && ok == h.Through?
              && (ok ==> Aside(from, worker.store.db)) && (!ok ==> Stopped(item, chat, from, h, r, trail, t))
      ensures Smooth(t) ==> ok
    {
      hide Sound, Aside, Calm, Stopped;
      slots := [true, false, false];
      ok, r, trail := true, StopWorker, NotSent;
      ghost var granted;
      var state := cards.bucket[key];
      if state.reactionID != "" && reaction != state.reactionType {
        ok, r, trail, granted := React(item, chat, key, 1, t.answers.deleted, t.answers.cleared, "", "", t, from);
        slots := slots[1 := granted];
        if !ok {
          return;
        }
        state := state.(reactionID := "", reactionType := "");
      }
      if reaction != "" && reaction != state.reactionType {
        var reactionID := if t.answers.reactionID.Some? then t.answers.reactionID.value else "";
        ok, r, trail, granted := React(item, chat, key, 2, t.answers.reactionID.Some?, t.answers.reactionStored,
                                       reactionID, reaction, t, from);
        slots := slots[2 := granted];
      }
    }

    /** sendCardToChat up to the completion. */
    method BringUpToDate(item: Item, chat: string, key: string, reaction: string, t: CardTrial, ghost from: Buckets)
      returns (ok: bool, r: BatchResult, ghost trail: Trail, ghost slots: seq<bool>)
      requires worker.Ready() && Aside(from, worker.store.db) && Possible(t) && key in cards.bucket
      modifies worker`clock, worker`ledger, worker`trace, worker`requests, worker`tried, worker.store, cards
      ensures worker.Ready()
      ensures |slots| == 3 && worker.requests == old(worker.requests) + Slots(slots)
      ensures key in cards.bucket && cards.bucket == old(cards.bucket)[key := cards.bucket[key]]
      ensures var (s, h) := Attempt(old(cards.bucket)[key], reaction, t.answers.(slots := slots));
              && cards.bucket[key] == s && ok == h.Through?
              && (ok ==> Aside(from, worker.store.db)) && (!ok ==> Stopped(item, chat, from, h, r, trail, t))
      ensures slots[0] && CardAccepted(old(cards.bucket)[key], t.answers) ==> (item.deliveryID, chat) in worker.ledger.sent
      ensures ok ==> (item.deliveryID, chat) in worker.ledger.sent
      ensures Smooth(t) ==> ok
    {
      hide Sound, Aside, Calm, Stopped, Reacted;
      slots := [false, false, false];
      ghost var granted;
      ok, r, trail, granted := PutCard(item, chat, key, t, from);
      slots := slots[0 := granted];
      if ok {
        ok, r, trail, slots := Reconcile(item, chat, key, reaction, t, from);
      }
    }

    /**
     * sendCardToChat. Wherever it stops, only message and reaction of this card change, the reaction stays paired, and
     * what stopped it is what is recorded. The chat is completed only after Lark accepted the card and the reaction of
     * the current conclusion is stored; it is completed if nothing fails.
     */
    method SendCard(item: Item, chat: string, key: string, reaction: string, t: CardTrial)
      returns (r: BatchResult, ghost trail: Trail, ghost slots: seq<bool>)
      requires worker.Ready() && Known(worker.store.db, [item]) && Possible(t)
      requires key in cards.bucket && Paired(cards.bucket[key])
      modifies worker`clock, worker`ledger, worker`trace, worker`requests, worker`tried, worker.store, cards
      ensures worker.Ready() && Continues(old(worker.store.db), worker.store.db)
      ensures Recorded(worker.store.cfg, old(worker.store.db), worker.store.db, chat, [item], r, trail)
      ensures |slots| == 3 && worker.requests == old(worker.requests) + Slots(slots)
      ensures key in cards.bucket && cards.bucket == old(cards.bucket)[key := cards.bucket[key]]
      ensures var (s, h) := Attempt(old(cards.bucket)[key], reaction, t.answers.(slots := slots));
              cards.bucket[key] == s && Ended(item, worker, h, r, trail, t)
      ensures SameRun(old(cards.bucket)[key], cards.bucket[key]) && Paired(cards.bucket[key])
      ensures trail.Completed? ==> Reconciled(cards.bucket[key], reaction) && (item.deliveryID, chat) in worker.ledger.sent
      ensures Smooth(t) ==> trail.Completed?
    {
      hide Sound, Aside, Continues, Known, Calm, Recorded, Attempt, Reconciled, SameRun, Paired, Answered;
      ghost var from, before := worker.store.db, cards.bucket[key];
      AsideReflexive(from);
      var ok;
      ok, r, trail, slots := BringUpToDate(item, chat, key, reaction, t, from);
      AttemptReconciles(before, reaction, t.answers.(slots := slots));
      if ok {
        r, trail := Complete(item, chat, t.fault, from);
      }
      AnsweredIsNotCompleted(item, worker, trail, t);
    }

    lemma AnsweredIsNotCompleted(item: Item, worker: Worker.Worker, trail: Trail, t: CardTrial)
      ensures forall answer :: Answered(item, worker, trail, t, answer) ==> !trail.Completed?
    {
    }

    /** CompleteChatDelivery at the end, for a chat that was reached or an item that is drained. */
    method Complete(item: Item, chat: string, fault: bool, ghost from: Buckets) returns (r: BatchResult, ghost trail: Trail)
      requires worker.Ready() && Aside(from, worker.store.db) && Known(from, [item])
      requires Tracked(item.event) ==> (item.deliveryID, chat) in worker.ledger.sent
      modifies worker.store
      ensures worker.Ready() && Continues(from, worker.store.db)
      ensures Recorded(worker.store.cfg, from, worker.store.db, chat, [item], r, trail)
      ensures if fault then trail.Unrecorded? else trail.Completed?
    {
      hide Sound, Aside, Continues, Known, Conserved, Queue.CompleteChatDelivery;
      ghost var at := worker.store.db;
      AsideContinues(from, at);
      if fault {
        return StopWorker, Unrecorded;
      }
      KnownContinues(from, at, [item]);
      SoundConserves(worker.store.cfg, at, worker.ledger, worker.trace, worker.clock);
      worker.RecordSuccess(chat, [item]);
      ContinuesTransitive(from, at, worker.store.db);
      return ContinueRound, Completed(at);
    }

    /** UpsertWorkflow and then sendCardToChat, as both kinds of cards do it. */
    method MergeAndSend(item: Item, chat: string, u: Update, reactionOf: string -> string, t: CardTrial)
      returns (r: BatchResult, ghost trail: Trail, ghost slots: seq<bool>)
      requires worker.Ready() && Known(worker.store.db, [item]) && Possible(t) && cards.AllPaired()
      modifies worker`clock, worker`ledger, worker`trace, worker`requests, worker`tried, worker.store, cards
      ensures worker.Ready() && Continues(old(worker.store.db), worker.store.db) && cards.AllPaired()
      ensures Recorded(worker.store.cfg, old(worker.store.db), worker.store.db, chat, [item], r, trail)
      ensures |slots| == 3 && worker.requests == old(worker.requests) + Slots(slots)
      ensures CardSent(old(cards.bucket), cards.bucket, u, reactionOf, slots, item, worker, r, trail, t)
      ensures trail.Completed? ==> (item.deliveryID, chat) in worker.ledger.sent && CardDone(cards.bucket, u, reactionOf)
      ensures Usable(Some(u)) && Smooth(t) ==> trail.Completed?
    {
      hide Sound, Aside, Continues, Known, Answered, Ended, Smooth, Recorded, Merge, Attempt, Key, Reconciled, SameRun, Paired, Slots;
      AsideReflexive(worker.store.db);
      slots := [false, false, false];
      NoSlots();
      ghost var v := u.(repositoryID := Or(u.repositoryID, u.repository));
      MergedPaired(if Key(u) in cards.bucket then cards.bucket[Key(u)] else Fresh(v), v);
      var upserted := cards.UpsertWorkflow(u);
      if upserted.None? {
        r, trail := Fail(item, chat, Answer.Other, t, worker.store.db);
        AnsweredIsNotCompleted(item, worker, trail, t);
        return;
      }
      var reaction := reactionOf(upserted.value.1.conclusion);
      r, trail, slots := SendCard(item, chat, upserted.value.0, reaction, t);
      SameRunConclusion(upserted.value.1, cards.bucket[Key(u)]);
    }

    /**
     * sendWorkflowToChat: the delivery is merged into its card in this chat, and the card is brought up to date.
     * `parsed` is None for a payload that cannot be parsed, which is recorded as a failure like an unusable one.
     */
    method SendWorkflow(item: Item, chat: string, parsed: Option<Update>, t: CardTrial)
      returns (r: BatchResult, ghost trail: Trail, ghost slots: seq<bool>)
      requires worker.Ready() && Known(worker.store.db, [item]) && Possible(t) && cards.AllPaired()
      modifies worker`clock, worker`ledger, worker`trace, worker`requests, worker`tried, worker.store, cards
      ensures worker.Ready() && Continues(old(worker.store.db), worker.store.db) && cards.AllPaired()
      ensures Recorded(worker.store.cfg, old(worker.store.db), worker.store.db, chat, [item], r, trail)
      ensures |slots| == 3 && worker.requests == old(worker.requests) + Slots(slots)
      ensures if parsed.None? then cards.bucket == old(cards.bucket) && Answered(item, worker, trail, t, Answer.Other)
              else CardSent(old(cards.bucket), cards.bucket, parsed.value.(chatID := chat), WorkflowReaction, slots, item, worker, r, trail, t)
      ensures trail.Completed? ==>
                && (item.deliveryID, chat) in worker.ledger.sent
                && parsed.Some? && CardDone(cards.bucket, parsed.value.(chatID := chat), WorkflowReaction)
      ensures Usable(parsed) && Smooth(t) ==> trail.Completed?
    {
      hide Sound, Aside, Continues, Known, Answered, Smooth, Recorded, CardSent, WorkflowReaction, CardDone, Slots;
      AsideReflexive(worker.store.db);
      slots := [false, false, false];
      NoSlots();
      if parsed.None? {
        r, trail := Fail(item, chat, Answer.Other, t, worker.store.db);
        AnsweredIsNotCompleted(item, worker, trail, t);
        return;
      }
      r, trail, slots := MergeAndSend(item, chat, parsed.value.(chatID := chat), WorkflowReaction, t);
    }

    /**
     * sendWorkflows: every chat of the item in turn, until one does not go through. The at-least-once promise is kept
     * throughout, and if nothing fails the item is delivered.
     */
    method SendWorkflows(item: Item, parsed: Option<Update>, trials: string -> CardTrial) returns (r: BatchResult)
      requires worker.Ready() && Awaiting(worker.store.db, item, {}) && cards.AllPaired()
      requires forall c :: Possible(trials(c))
      modifies worker`clock, worker`ledger, worker`trace, worker`requests, worker`tried, worker.store, cards
      ensures worker.Ready() && Continues(old(worker.store.db), worker.store.db) && cards.AllPaired()
      ensures Usable(parsed) && (forall c :: Smooth(trials(c))) ==>
                r == ContinueRound && AllDelivered(worker.store.db, [item])
      ensures (forall c :: KeepsGoing(trials(c))) ==> r == ContinueRound
      ensures r == ContinueRound && Usable(parsed) ==>
                forall c <- Chats(item.chatIDs) :: Key(parsed.value.(chatID := c)) in cards.bucket
    {
      hide Sound, Continues, Known, Awaiting, Progress, Recorded, Smooth, Conserved, Chats, Wanting, Inv, CardSent, Answered, CardDone, Slots;
      var chats := ItemChatIDs(item);
      r := ContinueRound;
      ghost var clean := Usable(parsed) && forall c :: Smooth(trials(c));
      ghost var done: set<string> := {};
      AsideReflexive(worker.store.db);
      AsideContinues(worker.store.db, worker.store.db);
      SoundConserves(worker.store.cfg, worker.store.db, worker.ledger, worker.trace, worker.clock);
      WaitingKnown(worker.store.db, [item]);
      for i := 0 to |chats|
        invariant worker.Ready() && Continues(old(worker.store.db), worker.store.db) && cards.AllPaired()
        invariant r == ContinueRound && done == set c | c in chats[..i]
        invariant clean ==> Awaiting(worker.store.db, item, done)
        invariant Usable(parsed) ==> forall c <- done :: Key(parsed.value.(chatID := c)) in cards.bucket
      {
        assert chats[..i + 1] == chats[..i] + [chats[i]];
        NotYet(chats, i);
        ghost var was := worker.store.db;
        KnownContinues(old(worker.store.db), was, [item]);
        ghost var trail, slots, cardsBefore := *, *, cards.bucket;
        r, trail, slots := SendWorkflow(item, chats[i], parsed, trials(chats[i]));
        if KeepsGoing(trials(chats[i])) {
          SteadyGoesOn(item, chats[i], parsed, was, cardsBefore, slots, r, trail, trials(chats[i]));
        }
        if Usable(parsed) {
          SentHasCard(cardsBefore, parsed.value.(chatID := chats[i]), slots, item, r, trail, trials(chats[i]));
        }
        ContinuesTransitive(old(worker.store.db), was, worker.store.db);
        CompletedContinues(worker.store.cfg, was, worker.store.db, chats[i], [item], r, trail);
        if clean {
          OneTurn(worker.store.cfg, was, worker.store.db, item, done, chats[i], r, trail);
        }
        if r != ContinueRound {
          return;
        }
        done := done + {chats[i]};
      }
      assert chats[..|chats|] == chats;
      if clean { AllChatsDone(worker.store.db, item, done); }
    }

    lemma SteadyGoesOn(item: Item, chat: string, parsed: Option<Update>, from: Buckets, before: map<string, State>,
                       slots: seq<bool>, r: BatchResult, trail: Trail, t: CardTrial)
      requires Possible(t) && KeepsGoing(t) && |slots| == 3
      requires Recorded(worker.store.cfg, from, worker.store.db, chat, [item], r, trail)
      requires if parsed.None? then Answered(item, worker, trail, t, Answer.Other)
               else CardSent(before, cards.bucket, parsed.value.(chatID := chat), WorkflowReaction, slots, item, worker, r, trail, t)
      ensures r == ContinueRound
    {
      hide Key, CardAfter, Attempt, SameRun, Recorded, Ended, Answered;
      AnsweredGoesOn(item, chat, from, r, trail, t, Answer.Other);
      if parsed.Some? && Usable(parsed) {
        var merged := CardAfter(before, parsed.value.(chatID := chat));
        EndedGoesOn(item, chat, from, Attempt(merged, WorkflowReaction(merged.conclusion), t.answers.(slots := slots)).1, r, trail, t);
      }
    }

    lemma AnsweredGoesOn(item: Item, chat: string, from: Buckets, r: BatchResult, trail: Trail, t: CardTrial, answer: Answer)
      requires Possible(t) && KeepsGoing(t) && (answer.Retry? ==> answer.retryAfter == 0)
      requires Recorded(worker.store.cfg, from, worker.store.db, chat, [item], r, trail)
      ensures Answered(item, worker, trail, t, answer) ==> r == ContinueRound
    {
      hide Patient, Aside, Queue.HandleFailure, Queue.CompleteChatDelivery, Conserved;
    }

    lemma EndedGoesOn(item: Item, chat: string, from: Buckets, h: Halt, r: BatchResult, trail: Trail, t: CardTrial)
      requires Possible(t) && KeepsGoing(t) && Ended(item, worker, h, r, trail, t)
      requires Recorded(worker.store.cfg, from, worker.store.db, chat, [item], r, trail)
      ensures r == ContinueRound
    {
      hide Answered, Aside, Queue.HandleFailure, Queue.CompleteChatDelivery, Conserved;
      AnsweredGoesOn(item, chat, from, r, trail, t, t.refusal);
      AnsweredGoesOn(item, chat, from, r, trail, t, Answer.Other);
    }

    lemma SentHasCard(before: map<string, State>, u: Update, slots: seq<bool>, item: Item, r: BatchResult, trail: Trail, t: CardTrial)
      requires Possible(t) && |slots| == 3 && Usable(Some(u))
      requires CardSent(before, cards.bucket, u, WorkflowReaction, slots, item, worker, r, trail, t)
      ensures Key(u) in cards.bucket && before.Keys <= cards.bucket.Keys
    {
      hide Key, CardAfter, Attempt, SameRun, Ended;
    }

    /** The part of sendGitlabPipeline behind the gate. */
    method SendAdvance(item: Item, chat: string, u: Update, t: CardTrial)
      returns (r: BatchResult, ghost trail: Trail, ghost slots: seq<bool>)
      requires worker.Ready() && Known(worker.store.db, [item]) && Possible(t) && cards.AllPaired() && !Pipeline.Stale(cards.bucket, u)
      modifies worker`clock, worker`ledger, worker`trace, worker`requests, worker`tried, worker.store, cards
      ensures worker.Ready() && Continues(old(worker.store.db), worker.store.db) && cards.AllPaired()
      ensures Recorded(worker.store.cfg, old(worker.store.db), worker.store.db, chat, [item], r, trail)
      ensures |slots| == 3 && worker.requests == old(worker.requests) + Slots(slots)
      ensures CardSent(old(cards.bucket), cards.bucket, u, PipelineReaction, slots, item, worker, r, trail, t)
      ensures PipelineMoved(old(cards.bucket), cards.bucket, u)
      ensures trail.Completed? ==> (item.deliveryID, chat) in worker.ledger.sent && CardDone(cards.bucket, u, PipelineReaction)
      ensures Usable(Some(u)) && Smooth(t) ==> trail.Completed?
    {
      hide Sound, Aside, Continues, Smooth, Recorded, CardSent, PipelineReaction, Key, CardDone, Known, Possible, Paired, Slots;
      hide CardAfter, Pipeline.Stale, PipelineMoved;
      ghost var before := cards.bucket;
      r, trail, slots := MergeAndSend(item, chat, u, PipelineReaction, t);
      SentIsMoved(before, cards.bucket, u, slots, item, worker, r, trail, t);
    }

    /** sendGitlabPipeline for a parsed delivery: it is drained if it does not advance its card, and merged and sent otherwise. */
    method SendStage(item: Item, chat: string, u: Update, t: CardTrial)
      returns (r: BatchResult, ghost trail: Trail, ghost slots: seq<bool>)
      requires worker.Ready() && Known(worker.store.db, [item]) && Possible(t) && cards.AllPaired() && !Tracked(item.event)
      requires u.chatID == chat
      modifies worker`clock, worker`ledger, worker`trace, worker`requests, worker`tried, worker.store, cards
      ensures worker.Ready() && Continues(old(worker.store.db), worker.store.db) && cards.AllPaired()
      ensures Recorded(worker.store.cfg, old(worker.store.db), worker.store.db, chat, [item], r, trail)
      ensures |slots| == 3 && worker.requests == old(worker.requests) + Slots(slots)
      ensures Pipeline.Stale(old(cards.bucket), u) ==> cards.bucket == old(cards.bucket) && worker.ledger == old(worker.ledger)
      ensures Pipeline.Stale(old(cards.bucket), u) ==> worker.requests == old(worker.requests)
      ensures Pipeline.Stale(old(cards.bucket), u) ==> if t.fault then trail.Unrecorded? else trail.Completed?
      ensures !Pipeline.Stale(old(cards.bucket), u) ==>
                && CardSent(old(cards.bucket), cards.bucket, u, PipelineReaction, slots, item, worker, r, trail, t)
                && PipelineMoved(old(cards.bucket), cards.bucket, u)
                && (trail.Completed? ==> (item.deliveryID, chat) in worker.ledger.sent && CardDone(cards.bucket, u, PipelineReaction))
      ensures Usable(Some(u)) && Smooth(t) ==> trail.Completed?
    {
      hide Sound, Aside, Continues, CardSent, Recorded, PipelineMoved, Key, Known, Paired, Calm, Slots, CardDone;
      hide Pipeline.GateKey, Pipeline.Advances;
      AsideReflexive(worker.store.db);
      slots := [false, false, false];
      NoSlots();
      Pipeline.GateReadsMergedKey(chat, u);
      assert u.(chatID := chat) == u;
      var key := Pipeline.GateKey(chat, u);
      if key in cards.bucket && !Pipeline.Advances(cards.bucket[key], u) {
        r, trail := Complete(item, chat, t.fault, worker.store.db);
        return;
      }
      r, trail, slots := SendAdvance(item, chat, u, t);
    }

    /**
     * sendGitlabPipeline: a delivery that does not advance its card is drained without a Lark call; any other is
     * merged, completes only after Lark accepted its card, and lets no card regress. `readable` is false if the stored
     * card cannot be read, which is recorded as a failure like a payload that cannot be parsed.
     */
    method SendGitlabPipeline(item: Item, chat: string, parsed: Option<Update>, readable: bool, t: CardTrial)
      returns (r: BatchResult, ghost trail: Trail, ghost slots: seq<bool>)
      requires worker.Ready() && Known(worker.store.db, [item]) && Possible(t) && cards.AllPaired() && !Tracked(item.event)
      modifies worker`clock, worker`ledger, worker`trace, worker`requests, worker`tried, worker.store, cards
      ensures worker.Ready() && Continues(old(worker.store.db), worker.store.db) && cards.AllPaired()
      ensures Recorded(worker.store.cfg, old(worker.store.db), worker.store.db, chat, [item], r, trail)
      ensures |slots| == 3 && worker.requests == old(worker.requests) + Slots(slots)
      ensures parsed.None? || !readable ==> cards.bucket == old(cards.bucket) && Answered(item, worker, trail, t, Answer.Other)
      ensures parsed.Some? && readable && Pipeline.Stale(old(cards.bucket), parsed.value.(chatID := chat)) ==>
                worker.ledger == old(worker.ledger) && worker.requests == old(worker.requests)
      ensures parsed.Some? && readable ==>
                PipelineOutcome(old(cards.bucket), cards.bucket, parsed.value.(chatID := chat), slots, item, worker, r, trail, t)
      ensures trail.Completed? ==> parsed.Some? && (Pipeline.Stale(old(cards.bucket), parsed.value.(chatID := chat))
                                                    || (item.deliveryID, chat) in worker.ledger.sent)
      ensures Usable(parsed) && readable && Smooth(t) ==> trail.Completed?
    {
      hide Sound, Aside, Continues, Answered, Recorded, PipelineMoved, CardSent, Pipeline.Stale, Known, Paired, Smooth, Slots, CardDone;
      AsideReflexive(worker.store.db);
      slots := [false, false, false];
      NoSlots();
      if parsed.None? || !readable {
        r, trail := Fail(item, chat, Answer.Other, t, worker.store.db);
        AnsweredIsNotCompleted(item, worker, trail, t);
        return;
      }
      r, trail, slots := SendStage(item, chat, parsed.value.(chatID := chat), t);
    }
  }

  lemma NoSlots()
    ensures Slots([false, false, false]) == 0
  {
  }

  /** An unusable delivery changes no card and is a failure; any other is merged, and its card is sent as far as the trial lets it. */
  ghost predicate CardSent(before: map<string, State>, later: map<string, State>, u: Update, reactionOf: string -> string,
                       slots: seq<bool>, item: Item, worker: Worker.Worker, r: BatchResult, trail: Trail, t: CardTrial)
    requires Possible(t) && |slots| == 3
    reads worker`clock
  {
    if !Usable(Some(u)) then later == before && Answered(item, worker, trail, t, Answer.Other)
    else
      var merged := CardAfter(before, u);
      var (card, h) := Attempt(merged, reactionOf(merged.conclusion), t.answers.(slots := slots));
      later == before[Key(u) := card] && SameRun(merged, card) && Ended(item, worker, h, r, trail, t)
  }

  /** A delivery that was not drained: an unusable one changes no card, any other has been delivered to its own card. */
  ghost predicate PipelineMoved(before: map<string, State>, later: map<string, State>, u: Update) {
    if !Usable(Some(u)) then later == before
    else
      var delivered := Pipeline.Deliver(before, Pipeline.Named(u));
      && Key(u) in delivered && Key(u) in later && later == before[Key(u) := later[Key(u)]]
      && SameRun(delivered[Key(u)], later[Key(u)])
  }

  /** A stale delivery takes no slot and changes nothing; any other goes through merge, card and reaction. */
  ghost predicate PipelineOutcome(before: map<string, State>, later: map<string, State>, u: Update, slots: seq<bool>,
                                  item: Item, worker: Worker.Worker, r: BatchResult, trail: Trail, t: CardTrial)
    requires Possible(t) && |slots| == 3
    reads worker`clock
  {
    if Pipeline.Stale(before, u) then
      later == before && Slots(slots) == 0 && if t.fault then trail.Unrecorded? else trail.Completed?
    else
      && CardSent(before, later, u, PipelineReaction, slots, item, worker, r, trail, t) && PipelineMoved(before, later, u)
      && (trail.Completed? ==> CardDone(later, u, PipelineReaction))
  }

  lemma SentIsMoved(before: map<string, State>, later: map<string, State>, u: Update, slots: seq<bool>,
                    item: Item, worker: Worker.Worker, r: BatchResult, trail: Trail, t: CardTrial)
    requires Possible(t) && |slots| == 3 && !Pipeline.Stale(before, u)
    requires CardSent(before, later, u, PipelineReaction, slots, item, worker, r, trail, t)
    ensures PipelineMoved(before, later, u)
  {
    hide Attempt, Key, CardAfter, Pipeline.Deliver, Pipeline.Named, Answered, Ended, SameRun, PipelineReaction;
    MergedIsDelivered(before, u);
  }

  /** The card that the merge stores, before anything is sent. */
  function CardAfter(bucket: map<string, State>, u: Update): State {
    var v := Pipeline.Named(u);
    Merge(if Key(u) in bucket then bucket[Key(u)] else Fresh(v), v)
  }

  lemma MergedIsDelivered(bucket: map<string, State>, u: Update)
    requires !Pipeline.Stale(bucket, u)
    ensures var r := Pipeline.Deliver(bucket, Pipeline.Named(u)); Key(u) in r && r[Key(u)] == CardAfter(bucket, u)
  {
    hide Merge, Pipeline.Advances, Key;
    Pipeline.NamedSameKey(if Key(u) in bucket then bucket[Key(u)] else Fresh(u), u);
  }

  /** The payload could be parsed, and names a repository and a suite. */
  predicate Usable(parsed: Option<Update>) {
    parsed.Some? && parsed.value.repository != "" && parsed.value.suiteID != ""
  }

  /** The card exists and carries the reaction of the conclusion it shows. */
  predicate CardDone(bucket: map<string, State>, u: Update, reactionOf: string -> string) {
    Key(u) in bucket && Reconciled(bucket[Key(u)], reactionOf(bucket[Key(u)].conclusion))
  }

  lemma MergedPaired(s: State, u: Update)
    requires Paired(s) || exists v :: s == Fresh(v)
    ensures Paired(Merge(s, u))
  {
    hide Merge;
    MergeKeepsReaction(s, u);
  }

  lemma SameRunConclusion(s: State, later: State)
    requires SameRun(s, later)
    ensures later.conclusion == s.conclusion
  {
  }

  /** One chat of one item went through. */
  lemma OneTurn(cfg: Config, b: Buckets, db: Buckets, item: Item, done: set<string>, chat: string, r: BatchResult, trail: Trail)
    requires trail.Completed? && Recorded(cfg, b, db, chat, [item], r, trail)
    requires Known(b, [item]) && Awaiting(b, item, done) && chat in Chats(item.chatIDs) && chat !in done
    ensures Awaiting(db, item, done + {chat})
  {
    hide Conserved, Awaiting, Known, Aside, Chats, Recorded;
    TurnStarts(b, [item], done, chat);
    assert [] + [item] == [item];
    TurnProgress(cfg, b, db, [item], done, chat, [], [item], r, trail);
    assert [item][..0] == [] && Wanting([item], chat) == [item];
    TurnEnds(db, [item], done, chat);
    assert item in [item];
  }

  lemma AllChatsDone(b: Buckets, item: Item, done: set<string>)
    requires Awaiting(b, item, done) && forall c <- Chats(item.chatIDs) :: c in done
    ensures AllDelivered(b, [item])
  {
  }
}
