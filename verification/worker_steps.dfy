/** What each step of the worker keeps, and what a round of accepted messages adds up to. */
module WorkerSteps {
  import opened Queue
  import opened QueueInvariant
  import opened QueueCounters
  import opened QueueRuns
  import opened ChatDelivery
  import opened ByteOrder
  import RateLimit
  import Store
  import Dedupe

  datatype BatchResult = ContinueRound | StopRound | StopWorker

  /** The outcome of one Lark call: accepted, a typed retry error, or any other error. */
  datatype Answer = Accepted | Retry(retryAfter: nat, permanent: bool) | Other

  /**
   * What goes wrong while a slot is waited for, by the number of waits so far: the store fails, or the context is
   * cancelled. Cancellation can also hit the pause after a store failure.
   */
  datatype Faults = Faults(store: set<nat>, cancelled: set<nat>)

  datatype Slot = Granted | StoreFailed | Cancelled

  /** One attempt to send a batch: the faults while waiting, Lark's answer, and whether recording the result fails. */
  datatype Trial = Trial(waiting: Faults, paused: bool, answer: Answer, fault: bool)

  predicate Calm(f: Faults) { f.store == {} && f.cancelled == {} }

  predicate Flawless(t: Trial) { Calm(t.waiting) && t.answer.Accepted? && !t.fault }

  /** A trial that does not end the round, whether or not the message gets through. */
  predicate Steady(t: Trial) {
    && t.waiting.cancelled == {} && (t.waiting.store != {} ==> !t.paused)
    && !t.fault && (t.answer.Retry? ==> t.answer.retryAfter == 0)
  }

  // ----- Backoff -----

  function Min(a: nat, b: nat): nat { if a < b then a else b }

  function Doubled(base: nat, times: nat): nat {
    if times == 0 then base else 2 * Doubled(base, times - 1)
  }

  /** The delay before the jitter. */
  function Capped(retryBase: nat, retryMax: nat, attempts: nat): nat {
    Min(Doubled(retryBase, attempts), retryMax)
  }

  /** The delay with the longest jitter. */
  function Jittered(retryMax: nat, delay: nat): nat {
    Min(delay + delay / 5, retryMax)
  }

  /** Doubling is repeated addition of the base to itself: it composes, and one doubling adds the base once. */
  lemma {:induction false} DoublingComposes(base: nat, few: nat, more: nat)
    ensures Doubled(base, 0) == base && Doubled(base, 1) == base + base
    ensures Doubled(Doubled(base, few), more) == Doubled(base, few + more)
  {
    if more > 0 {
      DoublingComposes(base, few, more - 1);
    }
  }

  lemma {:induction false} DoublingGrows(base: nat, few: nat, many: nat)
    requires few <= many
    ensures Doubled(base, few) <= Doubled(base, many)
  {
    if few < many {
      DoublingGrows(base, few, many - 1);
    }
  }

  lemma CapGrows(retryBase: nat, retryMax: nat, few: nat, many: nat)
    requires few <= many
    ensures Capped(retryBase, retryMax, few) <= Capped(retryBase, retryMax, many)
  {
    DoublingGrows(retryBase, few, many);
  }

  lemma MostIsOne(batch: seq<Item>, attempt: nat)
    requires forall item <- batch :: item.attempts <= attempt
    requires attempt == 0 || exists item <- batch :: item.attempts == attempt
    ensures batch != [] ==> exists item <- batch :: item.attempts == attempt
  {
    if batch != [] {
      assert batch[0] in batch;
    }
  }

  /** The largest attempt count of the batch; 0 for an empty one. */
  method MostAttempts(items: seq<Item>) returns (attempt: nat)
    ensures forall item <- items :: item.attempts <= attempt
    ensures attempt == 0 || exists item <- items :: item.attempts == attempt
  {
    attempt := 0;
    for i := 0 to |items|
      invariant forall item <- items[..i] :: item.attempts <= attempt
      invariant attempt == 0 || exists item <- items :: item.attempts == attempt
    {
      assert items[..i + 1] == items[..i] + [items[i]];
      if items[i].attempts > attempt {
        attempt := items[i].attempts;
      }
    }
    assert items[..|items|] == items;
  }

  /** The delay after `attempt` failures: doubled that often, capped, and lengthened by at most a fifth within the cap. */
  method Backoff(attempt: nat, retryBase: nat, retryMax: nat) returns (r: nat)
    ensures Capped(retryBase, retryMax, attempt) <= r <= Jittered(retryMax, Capped(retryBase, retryMax, attempt))
  {
    var delay: nat := retryBase;
    var i := 0;
    while i < attempt && delay < retryMax
      invariant 0 <= i <= attempt
      invariant Min(delay, retryMax) == Min(Doubled(retryBase, i), retryMax)
      decreases attempt - i
    {
      delay := delay * 2;
      if delay > retryMax {
        delay := retryMax;
      }
      i := i + 1;
    }
    DoublingGrows(retryBase, i, attempt);
    var jitter: nat :| jitter <= delay / 5;
    if delay + jitter > retryMax {
      return retryMax;
    }
    r := delay + jitter;
  }

  // ----- Chats of a round -----

  predicate InByteOrder(chats: seq<string>) {
    forall i, j :: 0 <= i < j < |chats| ==> Less(chats[i], chats[j])
  }

  /** sort.Strings over distinct strings. */
  method Sort(keys: set<string>) returns (r: seq<string>)
    ensures InByteOrder(r) && forall c :: c in r <==> c in keys
  {
    r := [];
    var rest := keys;
    while rest != {}
      invariant InByteOrder(r) && rest <= keys
      invariant forall c :: c in keys <==> c in r || c in rest
      invariant forall c, k :: c in r && k in rest ==> Less(c, k)
      decreases |rest|
    {
      FirstExists(rest);
      var k :| k in rest && IsFirst(k, rest);
      rest := rest - {k};
      r := r + [k];
    }
  }

  method ItemChatIDs(item: Item) returns (chats: seq<string>)
    ensures InByteOrder(chats) && forall c :: c in chats <==> c in Chats(item.chatIDs)
  {
    if |item.chatIDs| == 0 {
      return [""];
    }
    var seen: set<string> := {};
    for i := 0 to |item.chatIDs|
      invariant seen == set c | c in item.chatIDs[..i]
    {
      assert item.chatIDs[..i + 1] == item.chatIDs[..i] + [item.chatIDs[i]];
      if item.chatIDs[i] !in seen {
        seen := seen + {item.chatIDs[i]};
      }
    }
    assert item.chatIDs[..|item.chatIDs|] == item.chatIDs;
    chats := Sort(seen);
  }

  /** The items that still have to reach a chat, in queue order. */
  function Wanting(items: seq<Item>, chat: string): seq<Item> {
    if items == [] then []
    else
      var last := items[|items| - 1];
      Wanting(items[..|items| - 1], chat) + if chat in Chats(last.chatIDs) then [last] else []
  }

  lemma {:induction false} WantingMembers(items: seq<Item>, chat: string)
    ensures forall item :: item in Wanting(items, chat) <==> item in items && chat in Chats(item.chatIDs)
  {
    if items != [] {
      WantingMembers(items[..|items| - 1], chat);
      assert items == items[..|items| - 1] + [items[|items| - 1]];
    }
  }

  function Listed(byChat: map<string, seq<Item>>, chat: string): seq<Item> {
    if chat in byChat then byChat[chat] else []
  }

  /** The grouping loop of sendOrdinary: no list is empty, and none holds an item twice for a repeated chat. */
  method GroupByChat(items: seq<Item>) returns (byChat: map<string, seq<Item>>)
    ensures forall c :: Listed(byChat, c) == Wanting(items, c)
    ensures forall c <- byChat :: byChat[c] != []
  {
    byChat := map[];
    for n := 0 to |items|
      invariant forall c :: Listed(byChat, c) == Wanting(items[..n], c)
      invariant forall c <- byChat :: byChat[c] != []
    {
      var item := items[n];
      assert items[..n + 1][..n] == items[..n];
      var chats := ItemChatIDs(item);
      for j := 0 to |chats|
        invariant forall c :: Listed(byChat, c) == Wanting(items[..n], c) + if c in chats[..j] then [item] else []
        invariant forall c <- byChat :: byChat[c] != []
      {
        assert chats[..j + 1] == chats[..j] + [chats[j]];
        assert chats[j] !in chats[..j] by {
          forall k | 0 <= k < j ensures chats[k] != chats[j] { Irreflexive(chats[k]); }
        }
        byChat := byChat[chats[j] := Listed(byChat, chats[j]) + [item]];
      }
      assert chats[..|chats|] == chats;
    }
    assert items[..|items|] == items;
  }

  // ----- What a step keeps -----

  /** The store invariant, the per-chat promise, and the limiter's bucket as the tail of the grants made so far. */
  ghost predicate Sound(cfg: Config, b: Buckets, l: Ledger, t: RateLimit.Trace, clock: nat) {
    Valid(cfg) && Inv(cfg, b) && Kept(b, l) && RateLimit.Paced(t) && t.limiter == b.limiter && t.clock <= clock
  }

  /** The transactions of request handlers, archive recovery, dedupe cleanup and dead-letter requeueing. */
  predicate Foreign(c: Call) {
    c.Admit? || c.AdmitArchiveOnly? || c.Finalize? || c.Requeue? || c.CleanupDedupe?
  }

  /** What the worker can rely on while others run: archived queue items stay put, and delivered stays delivered. */
  ghost predicate Aside(b: Buckets, r: Buckets) {
    && Continues(b, r)
    && (forall s <- b.queue :: b.queue[s].archived ==> s in r.queue && r.queue[s] == b.queue[s])
    && (forall id <- b.states :: id in r.states && (b.states[id].status == Delivered ==> r.states[id].status == Delivered))
  }

  lemma AsideTransitive(a: Buckets, b: Buckets, c: Buckets)
    requires Aside(a, b) && Aside(b, c)
    ensures Aside(a, c)
  {
  }

  lemma AdmitAside(cfg: Config, b: Buckets, c: Call)
    requires Conserved(b) && c.Admit?
    ensures Aside(b, Exec(cfg, b, c))
  {
    hide Dedupe.Evicted, Dedupe.Cleaned, Dedupe.Put, ActiveRoom, ActiveItemBytes, Continues, Conserved;
    ExecContinues(cfg, b, c);
    Disjoint(b, b.next + 1);
  }

  lemma FinalizeAside(cfg: Config, b: Buckets, c: Call)
    requires Conserved(b) && c.Finalize?
    ensures Aside(b, Exec(cfg, b, c))
  {
    hide ActiveItemBytes, Continues, Conserved;
    ExecContinues(cfg, b, c);
  }

  lemma DeadIsNotDelivered(b: Buckets, s: nat)
    requires Conserved(b) && s in b.dead
    ensures b.dead[s].item.deliveryID in b.states && b.states[b.dead[s].item.deliveryID].status == Dead
  {
  }

  lemma RequeueAside(cfg: Config, b: Buckets, c: Call)
    requires Conserved(b) && c.Requeue?
    ensures Aside(b, Exec(cfg, b, c))
  {
    hide ActiveRoom, Continues, ActiveTotal, DeadTotal, Conserved;
    ExecContinues(cfg, b, c);
    Disjoint(b, c.sequence);
    if c.sequence in b.dead { DeadIsNotDelivered(b, c.sequence); }
  }

  lemma ForeignSound(cfg: Config, b: Buckets, l: Ledger, t: RateLimit.Trace, clock: nat, c: Call)
    requires Sound(cfg, b, l, t, clock) && Foreign(c)
    ensures Sound(cfg, Exec(cfg, b, c), Noted(cfg, b, l, c), t, clock) && Aside(b, Exec(cfg, b, c))
  {
    hide Inv, Kept, RateLimit.Paced, Noted, ActiveTotal, DeadTotal, ActiveItemBytes, Dedupe.Evicted, Dedupe.Cleaned, Dedupe.Put;
    hide Conserved, Continues, ActiveRoom;
    InvConserves(cfg, b);
    ExecKeepsInv(cfg, b, c);
    ExecKeepsOwed(cfg, b, l, c);
    ExecContinues(cfg, b, c);
    match c
    case Admit(_, _, _, _, _, _) => AdmitAside(cfg, b, c);
    case Finalize(_) => FinalizeAside(cfg, b, c);
    case Requeue(_, _) => RequeueAside(cfg, b, c);
    case AdmitArchiveOnly(_, _, _) =>
    case CleanupDedupe(_, _) =>
  }

  lemma ReserveSound(cfg: Config, b: Buckets, l: Ledger, t: RateLimit.Trace, clock: nat, now: nat)
    requires Sound(cfg, b, l, t, clock) && clock <= now
    ensures Sound(cfg, Exec(cfg, b, Reserve(now)), l, RateLimit.Step(t, RateLimit.Call(now)), now)
    ensures Aside(b, Exec(cfg, b, Reserve(now)))
  {
    hide Inv, Kept, RateLimit.Reserved;
    InvConserves(cfg, b);
    ExecKeepsInv(cfg, b, Reserve(now));
    ExecKeepsOwed(cfg, b, l, Reserve(now));
    RateLimit.CallKeepsPaced(t, now);
  }

  lemma FailSound(cfg: Config, b: Buckets, l: Ledger, t: RateLimit.Trace, clock: nat, seqs: seq<nat>, f: Failure)
    requires Sound(cfg, b, l, t, clock) && clock <= f.now && NoRepeats(seqs)
    ensures Sound(cfg, Exec(cfg, b, Call.Fail(seqs, f)), l, RateLimit.Step(t, RateLimit.Failure(f.now, f.retryAfter)), f.now)
  {
    hide Inv, Kept, FailAll, ActiveTotal, DeadTotal, RateLimit.Windowed;
    InvConserves(cfg, b);
    ExecKeepsInv(cfg, b, Call.Fail(seqs, f));
    ExecKeepsOwed(cfg, b, l, Call.Fail(seqs, f));
  }

  /** These are the stored identities of the items, whatever has become of the items since they were read. */
  ghost predicate Known(b: Buckets, items: seq<Item>) {
    forall item <- items ::
      && item.deliveryID in b.states
      && b.states[item.deliveryID].sequence == item.sequence > 0
      && b.states[item.deliveryID].event == item.event
  }

  lemma KnownContinues(b: Buckets, r: Buckets, items: seq<Item>)
    requires Known(b, items) && Continues(b, r)
    ensures Known(r, items)
  {
  }

  /** Lark accepted a message with these deliveries. */
  ghost function Accepts(l: Ledger, items: seq<Item>, chat: string): Ledger {
    l.(sent := l.sent + set id | id in DeliveryIDs(items) :: (id, chat))
  }

  ghost function DeliveryIDs(items: seq<Item>): set<string> {
    set item | item in items :: item.deliveryID
  }

  lemma SentMayComplete(b: Buckets, l: Ledger, items: seq<Item>, chat: string)
    requires Conserved(b) && Known(b, items)
    requires forall item <- items :: Tracked(item.event) ==> (item.deliveryID, chat) in l.sent
    ensures MayComplete(b, l, Store.Sequences(items), chat)
  {
  }

  lemma CompleteSound(cfg: Config, b: Buckets, l: Ledger, t: RateLimit.Trace, clock: nat, items: seq<Item>, chat: string)
    requires Sound(cfg, b, l, t, clock) && Known(b, items)
    requires forall item <- items :: Tracked(item.event) ==> (item.deliveryID, chat) in l.sent
    ensures var c := Complete(Store.Sequences(items), chat);
            Sound(cfg, Exec(cfg, b, c), l, t, clock) && Continues(b, Exec(cfg, b, c))
  {
    hide Inv, Kept, CompleteAll, ActiveTotal, RateLimit.Paced, Known, Continues;
    var c := Complete(Store.Sequences(items), chat);
    InvConserves(cfg, b);
    SentMayComplete(b, l, items, chat);
    ExecKeepsInv(cfg, b, c);
    ExecKeepsOwed(cfg, b, l, c);
    ExecContinues(cfg, b, c);
    CompletingKeepsLimiter(b, Store.Sequences(items), chat);
  }

  lemma {:induction false} CompletingKeepsLimiter(b: Buckets, seqs: seq<nat>, chat: string)
    ensures CompleteAll(b, seqs, chat).limiter == b.limiter
  {
    if seqs != [] {
      CompletingKeepsLimiter(b, seqs[..|seqs| - 1], chat);
    }
  }

  // ----- What a round of accepted messages achieves -----

  function Except(chats: seq<string>, done: set<string>): (r: seq<string>) {
    if chats == [] then []
    else if chats[0] in done then Except(chats[1..], done)
    else [chats[0]] + Except(chats[1..], done)
  }

  lemma {:induction false} ExceptOneMore(chats: seq<string>, done: set<string>, chat: string)
    ensures Without(Except(chats, done), chat) == Except(chats, done + {chat})
    ensures forall c :: c in Except(chats, done) <==> c in chats && c !in done
  {
    if chats != [] {
      ExceptOneMore(chats[1..], done, chat);
      assert chats == [chats[0]] + chats[1..];
      assert ([chats[0]] + Except(chats[1..], done))[1..] == Except(chats[1..], done);
    }
  }

  lemma {:induction false} ExceptSame(chats: seq<string>, few: set<string>, many: set<string>)
    requires forall c <- chats :: c in few <==> c in many
    ensures Except(chats, few) == Except(chats, many)
  {
    if chats != [] {
      assert forall c <- chats[1..] :: c in chats;
      ExceptSame(chats[1..], few, many);
    }
  }

  /** The item lacks exactly the chats in `done`, and is delivered once nothing is left. */
  ghost predicate Awaiting(b: Buckets, item: Item, done: set<string>) {
    if Chats(item.chatIDs) <= done then item.deliveryID in b.states && b.states[item.deliveryID].status == Delivered
    else
      && item.archived && item.sequence in b.queue
      && b.queue[item.sequence] == item.(chatIDs := Except(item.chatIDs, done))
  }

  lemma AwaitingDone(b: Buckets, item: Item, few: set<string>, many: set<string>)
    requires Awaiting(b, item, few)
    requires few <= many && forall c <- Chats(item.chatIDs) :: c in many ==> c in few
    ensures Awaiting(b, item, many)
  {
    if item.chatIDs != [] {
      assert forall c <- item.chatIDs :: c in Chats(item.chatIDs);
    }
    ExceptSame(item.chatIDs, few, many);
  }

  lemma CompleteOneAwaiting(b: Buckets, item: Item, done: set<string>, chat: string)
    requires Awaiting(b, item, done) && Known(b, [item])
    requires chat in Chats(item.chatIDs) && chat !in done
    ensures Awaiting(CompleteOne(b, item.sequence, chat), item, done + {chat})
  {
    var remaining := Except(item.chatIDs, done);
    assert item in [item];
    ExceptOneMore(item.chatIDs, done, chat);
    ExceptOneMore(item.chatIDs, done + {chat}, chat);
    WithoutMembers(remaining, chat);
    if item.chatIDs != [] {
      assert Chats(item.chatIDs) <= done + {chat} <==> Without(remaining, chat) == [] by {
        if Without(remaining, chat) != [] {
          assert Without(remaining, chat)[0] in Except(item.chatIDs, done + {chat});
        }
      }
    }
  }

  lemma CompleteOneElsewhere(b: Buckets, s: nat, item: Item, done: set<string>, chat: string)
    requires Conserved(b) && Known(b, [item]) && Awaiting(b, item, done) && s != item.sequence
    ensures Awaiting(CompleteOne(b, s, chat), item, done)
  {
  }

  ghost predicate Distinct(items: seq<Item>) {
    forall i, j :: 0 <= i < j < |items| ==> items[i].sequence != items[j].sequence
  }

  /** Part of a chat's turn: the items in `sent` have reached it as well. */
  ghost predicate Progress(b: Buckets, items: seq<Item>, done: set<string>, chat: string, sent: seq<Item>) {
    forall item <- items :: Awaiting(b, item, if item in sent then done + {chat} else done)
  }

  lemma ProgressAside(b: Buckets, r: Buckets, items: seq<Item>, done: set<string>, chat: string, sent: seq<Item>)
    requires Progress(b, items, done, chat, sent) && Aside(b, r)
    ensures Progress(r, items, done, chat, sent)
  {
  }

  lemma SameSequence(items: seq<Item>, x: Item, y: Item)
    requires Distinct(items) && x in items && y in items && x.sequence == y.sequence
    ensures x == y
  {
  }

  lemma CompleteOneProgress(b: Buckets, items: seq<Item>, done: set<string>, chat: string, sent: seq<Item>, x: Item)
    requires Conserved(b) && Known(b, items) && Distinct(items) && Progress(b, items, done, chat, sent)
    requires x in items && x !in sent && chat in Chats(x.chatIDs) && chat !in done
    ensures Progress(CompleteOne(b, x.sequence, chat), items, done, chat, sent + [x])
  {
    hide Awaiting, Conserved, Distinct, CompleteOne;
    forall item | item in items
      ensures Awaiting(CompleteOne(b, x.sequence, chat), item, if item in sent + [x] then done + {chat} else done)
    {
      if item == x {
        CompleteOneAwaiting(b, x, done, chat);
      } else {
        if item.sequence == x.sequence { SameSequence(items, item, x); }
        CompleteOneElsewhere(b, x.sequence, item, if item in sent then done + {chat} else done, chat);
      }
    }
  }

  /** Completing a batch moves all of its items, and nothing else, past the chat. */
  lemma {:induction false} CompleteAllProgress(cfg: Config, b: Buckets, items: seq<Item>, done: set<string>, chat: string,
                                               sent: seq<Item>, batch: seq<Item>)
    requires Conserved(b) && Known(b, items) && Distinct(items) && Progress(b, items, done, chat, sent)
    requires Distinct(sent + batch) && chat !in done
    requires forall item <- batch :: item in items && chat in Chats(item.chatIDs)
    ensures Progress(CompleteAll(b, Store.Sequences(batch), chat), items, done, chat, sent + batch)
  {
    hide Conserved, Progress, CompleteOne, Known, Continues;
    if batch == [] {
      assert sent + batch == sent;
    } else {
      var front, x := batch[..|batch| - 1], batch[|batch| - 1];
      assert forall item <- front :: item in batch;
      assert (sent + batch)[..|sent + batch| - 1] == sent + front;
      CompleteAllProgress(cfg, b, items, done, chat, sent, front);
      var seqs := Store.Sequences(batch);
      assert seqs[..|seqs| - 1] == Store.Sequences(front);
      var r := CompleteAll(b, Store.Sequences(front), chat);
      CompleteAllKeeps(cfg, b, Store.Sequences(front), chat);
      CompleteAllContinues(b, Store.Sequences(front), chat);
      KnownContinues(b, r, items);
      assert sent + batch == (sent + front) + [x];
      LastIsNew(sent + front, x);
      CompleteOneProgress(r, items, done, chat, sent + front, x);
    }
  }

  lemma LastIsNew(items: seq<Item>, last: Item)
    requires Distinct(items + [last])
    ensures last !in items
  {
    forall i | 0 <= i < |items| ensures items[i] != last {
      assert (items + [last])[i] == items[i] && (items + [last])[|items|] == last;
    }
  }

  lemma {:induction false} WantingDistinct(items: seq<Item>, chat: string)
    requires Distinct(items)
    ensures Distinct(Wanting(items, chat))
  {
    if items != [] {
      var front, last := items[..|items| - 1], items[|items| - 1];
      WantingDistinct(front, chat);
      WantingMembers(front, chat);
      forall i | 0 <= i < |Wanting(front, chat)| ensures Wanting(front, chat)[i].sequence != last.sequence {
        assert Wanting(front, chat)[i] in front;
      }
    }
  }

  lemma PartDistinct(all: seq<Item>, sent: seq<Item>, batch: seq<Item>)
    requires Distinct(all) && sent + batch <= all
    ensures Distinct(sent + batch) && NoRepeats(Store.Sequences(batch))
    ensures forall item <- batch :: item in all
  {
    forall i, j | 0 <= i < j < |batch| ensures batch[i].sequence != batch[j].sequence {
      assert all[|sent| + i] == batch[i] && all[|sent| + j] == batch[j];
    }
    forall i | 0 <= i < |batch| ensures batch[i] in all {
      assert all[|sent| + i] == batch[i];
    }
  }

  lemma KnownSubset(b: Buckets, items: seq<Item>, some: seq<Item>)
    requires Known(b, items) && forall item <- some :: item in items
    ensures Known(b, some)
  {
  }

  lemma TurnProgress(cfg: Config, b: Buckets, db: Buckets, items: seq<Item>, done: set<string>, chat: string,
                     sent: seq<Item>, batch: seq<Item>, r: BatchResult, trail: Trail)
    requires trail.Completed? && Recorded(cfg, b, db, chat, batch, r, trail)
    requires Known(b, items) && Distinct(items) && Progress(b, items, done, chat, sent)
    requires Distinct(sent + batch) && chat !in done
    requires forall item <- batch :: item in items && chat in Chats(item.chatIDs)
    ensures r == ContinueRound && Progress(db, items, done, chat, sent + batch)
  {
    hide Conserved, Progress, Known, Distinct, Aside, Continues, ActiveTotal;
    var at := trail.at;
    ProgressAside(b, at, items, done, chat, sent);
    AsideContinues(b, at);
    KnownContinues(b, at, items);
    CompleteAllProgress(cfg, at, items, done, chat, sent, batch);
    CountersProgress(CompleteAll(at, Store.Sequences(batch), chat), db, items, done, chat, sent + batch);
  }

  lemma CountersProgress(b: Buckets, r: Buckets, items: seq<Item>, done: set<string>, chat: string, sent: seq<Item>)
    requires Progress(b, items, done, chat, sent) && r == b.(count := r.count, bytes := r.bytes)
    ensures Progress(r, items, done, chat, sent)
  {
  }

  // ----- From turn to turn -----

  lemma WaitingKnown(b: Buckets, items: seq<Item>)
    requires Conserved(b) && forall item <- items :: Awaiting(b, item, {})
    ensures Known(b, items)
  {
    hide SequencesUnique, DeadOwned, Except;
    forall item | item in items
      ensures item.deliveryID in b.states
      ensures b.states[item.deliveryID].sequence == item.sequence > 0 && b.states[item.deliveryID].event == item.event
    {
      assert item.chatIDs != [] ==> item.chatIDs[0] in Chats(item.chatIDs);
      assert item.chatIDs == [] ==> "" in Chats(item.chatIDs);
      assert Awaiting(b, item, {});
      assert Owned(b, item.sequence, b.queue[item.sequence], Queued) && Located(b, item.deliveryID);
    }
  }

  lemma TurnStarts(b: Buckets, items: seq<Item>, done: set<string>, chat: string)
    requires forall item <- items :: Awaiting(b, item, done)
    ensures Progress(b, items, done, chat, [])
  {
  }

  lemma TurnEnds(b: Buckets, items: seq<Item>, done: set<string>, chat: string)
    requires Progress(b, items, done, chat, Wanting(items, chat))
    ensures forall item <- items :: Awaiting(b, item, done + {chat})
  {
    hide Awaiting, Wanting;
    WantingMembers(items, chat);
    forall item | item in items ensures Awaiting(b, item, done + {chat}) {
      if item !in Wanting(items, chat) {
        AwaitingDone(b, item, done, done + {chat});
      }
    }
  }

  ghost predicate AllDelivered(b: Buckets, items: seq<Item>) {
    forall item <- items :: item.deliveryID in b.states && b.states[item.deliveryID].status == Delivered
  }

  lemma AllTurnsDone(b: Buckets, items: seq<Item>, byChat: map<string, seq<Item>>)
    requires forall c :: Listed(byChat, c) == Wanting(items, c)
    requires forall item <- items :: Awaiting(b, item, byChat.Keys)
    ensures AllDelivered(b, items)
  {
    hide Wanting, Except;
    forall item | item in items
      ensures item.deliveryID in b.states && b.states[item.deliveryID].status == Delivered
    {
      forall c | c in Chats(item.chatIDs) ensures c in byChat {
        WantingMembers(items, c);
        assert item in Listed(byChat, c);
      }
      assert Awaiting(b, item, byChat.Keys);
    }
  }

  lemma NotYet(chats: seq<string>, i: nat)
    requires InByteOrder(chats) && i < |chats|
    ensures chats[i] !in chats[..i]
  {
    forall k | 0 <= k < i ensures chats[k] != chats[i] { Irreflexive(chats[k]); }
  }

  /** The dispatch loop of Run, for the default branch. */
  method PickOrdinary(items: seq<Item>) returns (ordinary: seq<Item>)
    requires Distinct(items)
    ensures |ordinary| <= |items| && Distinct(ordinary)
    ensures forall item :: item in ordinary <==> item in items && IsOrdinary(item.event)
  {
    ordinary := [];
    for i := 0 to |items|
      invariant |ordinary| <= i && Distinct(ordinary)
      invariant forall item :: item in ordinary <==> item in items[..i] && IsOrdinary(item.event)
    {
      assert items[..i + 1] == items[..i] + [items[i]];
      if IsOrdinary(items[i].event) {
        DistinctGrows(items, i, ordinary);
        ordinary := ordinary + [items[i]];
      }
    }
    assert items[..|items|] == items;
  }

  lemma DueDistinct(b: Buckets, now: nat, items: seq<Item>)
    requires exists bound: nat :: Store.FoundDue(b.queue, now, bound, Store.Sequences(items))
    requires forall item <- items :: item.sequence in b.queue && b.queue[item.sequence] == item
    ensures Distinct(items)
  {
    var seqs := Store.Sequences(items);
    assert forall i :: 0 <= i < |items| ==> seqs[i] == items[i].sequence;
  }

  lemma DistinctGrows(items: seq<Item>, i: nat, some: seq<Item>)
    requires i < |items| && Distinct(items) && Distinct(some) && forall item <- some :: item in items[..i]
    ensures Distinct(some + [items[i]])
  {
    forall k | 0 <= k < |some| ensures some[k].sequence != items[i].sequence {
      assert some[k] in items[..i];
    }
  }

  lemma {:induction false} ExceptNone(chats: seq<string>)
    ensures Except(chats, {}) == chats
  {
    if chats != [] {
      ExceptNone(chats[1..]);
    }
  }

  lemma DueAwaits(b: Buckets, item: Item)
    requires item.sequence in b.queue && b.queue[item.sequence] == item && item.archived
    ensures Awaiting(b, item, {})
  {
    ExceptNone(item.chatIDs);
    assert item.chatIDs != [] ==> item.chatIDs[0] in Chats(item.chatIDs);
    assert item.chatIDs == [] ==> "" in Chats(item.chatIDs);
  }


  /** The default branch of the dispatch in Run. */
  predicate IsOrdinary(event: string) {
    event != "workflow_run" && event != "check_run" && event != "gitlab:pipeline" && event != "lark_event"
  }

  datatype Trail = NotSent | Unrecorded | Completed(at: Buckets) | Failed(at: Buckets, failure: Failure)

  ghost predicate Recorded(cfg: Config, b: Buckets, db: Buckets, chat: string, batch: seq<Item>, r: BatchResult, trail: Trail) {
    match trail
    case NotSent => Aside(b, db) && r != StopRound
    case Unrecorded => Aside(b, db) && r == StopWorker
    case Completed(at) =>
      && Conserved(at) && Aside(b, at) && r == ContinueRound
      && db == Queue.CompleteChatDelivery(cfg, at, Store.Sequences(batch), chat)
    case Failed(at, f) =>
      && Conserved(at) && Aside(b, at) && r == (if f.retryAfter > 0 then StopRound else ContinueRound)
      && db == Queue.HandleFailure(cfg, at, Store.Sequences(batch), f).0
  }

  /** The trial decides how far the attempt got, and what is reported about a refusal. */
  ghost predicate Decided(trail: Trail, t: Trial) {
    match trail
    case NotSent => !Calm(t.waiting)
    case Unrecorded => t.fault
    case Completed(_) => t.answer.Accepted? && !t.fault
    case Failed(_, f) => !t.answer.Accepted? && !t.fault && Reported(f, t.answer)
  }

  predicate Reported(f: Failure, answer: Answer) {
    && f.permanent == (answer.Retry? && answer.permanent)
    && f.retryAfter == if answer.Retry? then answer.retryAfter else 0
  }

  /**
   * A failed batch waits out both Retry-After and the backoff of each of its items, and, counted from when its failure
   * was handled, no longer than Retry-After or the backoff of one of its items with a fifth on top.
   */
  ghost predicate Patient(batch: seq<Item>, retryBase: nat, retryMax: nat, f: Failure, clock: nat) {
    && f.now <= clock && f.retryAt >= f.now + f.retryAfter
    && (forall item <- batch :: f.retryAt >= f.now + Capped(retryBase, retryMax, item.attempts))
    && (batch != [] && f.retryAt > clock + f.retryAfter ==>
          exists item <- batch :: f.retryAt <= clock + Jittered(retryMax, Capped(retryBase, retryMax, item.attempts)))
  }

  lemma SteadyGoesOn(cfg: Config, b: Buckets, db: Buckets, chat: string, batch: seq<Item>, r: BatchResult, trail: Trail, t: Trial)
    requires Recorded(cfg, b, db, chat, batch, r, trail) && Decided(trail, t) && Steady(t)
    requires trail.NotSent? && r != ContinueRound ==> t.waiting.cancelled != {} || (t.waiting.store != {} && t.paused)
    ensures r == ContinueRound
  {
  }

  /** These deliveries, each with this chat. */
  ghost function Pairs(items: seq<Item>, chat: string): set<(string, string)> {
    set id | id in DeliveryIDs(items) :: (id, chat)
  }

  lemma PairsOf(items: seq<Item>, chat: string)
    ensures forall item <- items :: (item.deliveryID, chat) in Pairs(items, chat)
  {
    forall item | item in items ensures item.deliveryID in DeliveryIDs(items) {}
  }

  lemma FlawlessCompletes(trail: Trail, t: Trial)
    requires Decided(trail, t) && Flawless(t)
    ensures trail.Completed?
  {
  }

  lemma CompletedContinues(cfg: Config, b: Buckets, db: Buckets, chat: string, batch: seq<Item>, r: BatchResult, trail: Trail)
    requires Recorded(cfg, b, db, chat, batch, r, trail)
    ensures trail.Completed? ==> r == ContinueRound
  {
  }

  lemma AsideContinues(b: Buckets, r: Buckets)
    requires Aside(b, r)
    ensures Continues(b, r)
  {
  }

  lemma AcceptSound(cfg: Config, b: Buckets, l: Ledger, t: RateLimit.Trace, clock: nat, items: seq<Item>, chat: string)
    requires Sound(cfg, b, l, t, clock)
    ensures Sound(cfg, b, Accepts(l, items, chat), t, clock)
    ensures forall item <- items :: (item.deliveryID, chat) in Accepts(l, items, chat).sent
  {
    hide Inv, Kept, RateLimit.Paced;
    SendingKeepsOwed(b, l, set id | id in DeliveryIDs(items) :: (id, chat));
    forall item | item in items ensures item.deliveryID in DeliveryIDs(items) {}
  }

  lemma PhaseAtMostThree(l: RateLimit.Limiter)
    ensures forall at: nat :: RateLimit.Phase(l, at) <= 3
  {
  }

  lemma Consistency(cfg: Config, b: Buckets, l: Ledger, t: RateLimit.Trace, clock: nat)
    requires Sound(cfg, b, l, t, clock)
    ensures Valid(cfg) && Inv(cfg, b)
  {
  }

  lemma NotedAside(cfg: Config, b: Buckets, l: Ledger, c: Call)
    requires !c.Admit?
    ensures Noted(cfg, b, l, c) == l
  {
  }

  lemma SoundConserves(cfg: Config, b: Buckets, l: Ledger, t: RateLimit.Trace, clock: nat)
    requires Sound(cfg, b, l, t, clock)
    ensures Conserved(b)
  {
  }

  lemma SoundLater(cfg: Config, b: Buckets, l: Ledger, t: RateLimit.Trace, clock: nat, later: nat)
    requires Sound(cfg, b, l, t, clock) && clock <= later
    ensures Sound(cfg, b, l, t, later)
  {
  }

  lemma NotedSent(cfg: Config, b: Buckets, l: Ledger, c: Call)
    ensures Noted(cfg, b, l, c).sent == l.sent
  {
  }

  lemma AsideReflexive(b: Buckets)
    ensures Aside(b, b)
  {
  }

  // ----- Who had a turn -----

  /** A request has gone out for each chat of each item. */
  ghost predicate AllTried(items: seq<Item>, tried: set<(string, string)>) {
    forall item <- items :: forall c <- Chats(item.chatIDs) :: (item.deliveryID, c) in tried
  }

  /** A request has gone out for each item to those of its chats that had their turn. */
  ghost predicate TriedIn(items: seq<Item>, done: set<string>, tried: set<(string, string)>) {
    forall item <- items :: forall c <- Chats(item.chatIDs) :: c in done ==> (item.deliveryID, c) in tried
  }

  lemma NobodyTried(items: seq<Item>, tried: set<(string, string)>)
    ensures TriedIn(items, {}, tried)
  {
  }

  lemma NoPairs(chat: string)
    ensures Pairs([], chat) == {}
  {
  }

  lemma PairsJoin(sent: seq<Item>, batch: seq<Item>, chat: string)
    ensures Pairs(sent + batch, chat) == Pairs(sent, chat) + Pairs(batch, chat)
  {
    assert forall item :: item in sent + batch <==> item in sent || item in batch;
    assert DeliveryIDs(sent + batch) == DeliveryIDs(sent) + DeliveryIDs(batch);
  }

  lemma TurnTries(items: seq<Item>, done: set<string>, chat: string, earlier: set<(string, string)>, tried: set<(string, string)>)
    requires earlier <= tried
    ensures TriedIn(items, done, earlier) && Pairs(Wanting(items, chat), chat) <= tried ==> TriedIn(items, done + {chat}, tried)
  {
    hide Wanting;
    WantingMembers(items, chat);
    PairsOf(Wanting(items, chat), chat);
  }

  lemma TriedEverywhere(items: seq<Item>, byChat: map<string, seq<Item>>, tried: set<(string, string)>)
    requires forall c :: Listed(byChat, c) == Wanting(items, c)
    ensures TriedIn(items, byChat.Keys, tried) ==> AllTried(items, tried)
  {
    hide Wanting;
    forall item, c | item in items && c in Chats(item.chatIDs) ensures c in byChat {
      WantingMembers(items, c);
    }
  }
}
