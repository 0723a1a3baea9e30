/**
 * Progress of the admission protocol: what an undisturbed actor achieves, how an actor can end, and that every step it
 * can take brings it closer to its end.
 */
module Progress {
  import opened Queue
  import opened QueueInvariant
  import opened QueueRuns
  import opened Archive
  import opened Admission
  import Dedupe

  /** n steps of one actor in a row. */
  ghost function Steps(cfg: Config, w: World, pid: nat, now: nat, ttl: nat, n: nat): World {
    if n == 0 then w else Next(cfg, Steps(cfg, w, pid, now, ttl, n - 1), Advance(pid, now, ttl))
  }

  lemma FirstSteps(cfg: Config, w: World, pid: nat, now: nat, ttl: nat)
    ensures Steps(cfg, w, pid, now, ttl, 0) == w
    ensures Steps(cfg, w, pid, now, ttl, 1) == Next(cfg, w, Advance(pid, now, ttl))
    ensures Steps(cfg, w, pid, now, ttl, 2) == Next(cfg, Next(cfg, w, Advance(pid, now, ttl)), Advance(pid, now, ttl))
  {
    hide Next;
  }

  lemma {:induction false} StepsSplit(cfg: Config, w: World, pid: nat, now: nat, ttl: nat, n: nat)
    requires n > 0
    ensures Steps(cfg, w, pid, now, ttl, n) == Steps(cfg, Next(cfg, w, Advance(pid, now, ttl)), pid, now, ttl, n - 1)
  {
    hide Next;
    if n > 1 {
      StepsSplit(cfg, w, pid, now, ttl, n - 1);
    }
  }

  /** The item fits the queue. */
  ghost predicate Fits(cfg: Config, b: Buckets, req: Request, now: nat) {
    b.count < cfg.maxItems
    && b.bytes + ActiveItemBytes(cfg, Item(b.next + 1, req.id, req.event, now, req.body, 0, now, "", false, req.chats)) <= cfg.maxBytes
  }

  /** The request was answered 202 and its actor is gone, with the lock. */
  ghost predicate Answered(w: World, pid: nat, req: Request) {
    && req in w.accepted && pid !in w.actors && w.lock == {}
    && req.id in w.files && w.files[req.id] == File(req.event, req.body)
    && req.id in w.db.states && w.db.states[req.id].archived
  }

  // ----- Undisturbed requests -----

  /** From the reservation on: admission, payload, unlocking, 202. */
  lemma ReservingIsAnswered(cfg: Config, w: World, pid: nat, req: Request, now: nat, ttl: nat)
    requires Valid(cfg) && Safe(cfg, w) && w.lock == {}
    requires pid in w.actors && w.actors[pid] == Reserving(req)
    requires if req.id in w.db.states then Identified(w.db, req.id, req.event, req.body)
             else req.forwarded ==> Fits(cfg, w.db, req, now)
    ensures Answered(Steps(cfg, w, pid, now, ttl, 4), pid, req)
    ensures Continues(w.db, Steps(cfg, w, pid, now, ttl, 4).db)
    ensures req.id in w.db.states ==> Steps(cfg, w, pid, now, ttl, 4).db.queue.Keys == w.db.queue.Keys
    ensures req.id !in w.db.states && req.forwarded ==> w.db.next + 1 in Steps(cfg, w, pid, now, ttl, 4).db.queue
    ensures req.id !in w.db.states && req.forwarded ==>
              Steps(cfg, w, pid, now, ttl, 4).db.queue[w.db.next + 1]
              == Item(w.db.next + 1, req.id, req.event, now, req.body, 0, now, "", true, req.chats)
  {
    hide Safe, AdmitRequest, Queue.FinalizeArchive, Published, Continues, Stepped, Identified;
    var a := Advance(pid, now, ttl);
    var w1, w2 := Steps(cfg, w, pid, now, ttl, 1), Steps(cfg, w, pid, now, ttl, 2);
    var w3, w4 := Steps(cfg, w, pid, now, ttl, 3), Steps(cfg, w, pid, now, ttl, 4);
    FirstSteps(cfg, w, pid, now, ttl);
    ReservingStep(cfg, w, pid, req, now, ttl);
    NextKeepsSafe(cfg, w, a);
    AdmittingStep(cfg, w1, pid, req, now, ttl);
    NextKeepsSafe(cfg, w1, a);
    PublishingStep(cfg, w2, pid, req, now, ttl);
    NextKeepsSafe(cfg, w2, a);
    FinalizingStep(cfg, w3, pid, req, now, ttl);
    ContinuesTransitive(w.db, w2.db, w4.db);
  }

  lemma ReservingStep(cfg: Config, w: World, pid: nat, req: Request, now: nat, ttl: nat)
    requires pid in w.actors && w.actors[pid] == Reserving(req) && w.lock == {}
    ensures var r := Next(cfg, w, Advance(pid, now, ttl));
            r.db == w.db && r.files == w.files && r.lock == {pid} && pid in r.actors && r.actors[pid] == Admitting(req)
  {
  }

  lemma AdmittingStep(cfg: Config, w: World, pid: nat, req: Request, now: nat, ttl: nat)
    requires Valid(cfg) && Safe(cfg, w) && w.lock == {pid} && pid in w.actors && w.actors[pid] == Admitting(req)
    requires if req.id in w.db.states then Identified(w.db, req.id, req.event, req.body)
             else req.forwarded ==> Fits(cfg, w.db, req, now)
    ensures var r := Next(cfg, w, Advance(pid, now, ttl));
            && r.files == w.files && r.lock == {pid} && pid in r.actors && r.actors[pid] == Publishing(req)
            && Continues(w.db, r.db) && Identified(r.db, req.id, req.event, req.body)
            && (req.id in w.db.states ==> r.db == w.db)
            && (req.id !in w.db.states && req.forwarded ==>
                  && r.db.states[req.id].sequence == w.db.next + 1 && !r.db.states[req.id].archived
                  && w.db.next + 1 in r.db.queue
                  && r.db.queue[w.db.next + 1] == Item(w.db.next + 1, req.id, req.event, now, req.body, 0, now, "", false, req.chats))
  {
    hide Durable, ActorsSafe, AcceptedDurable, LockExclusive, Continues, ActiveItemBytes, Dedupe.Evicted, Dedupe.Cleaned, Dedupe.Put;
    AdmitRequestDurable(cfg, w.db, w.files, req, now, ttl);
  }

  lemma PublishingStep(cfg: Config, w: World, pid: nat, req: Request, now: nat, ttl: nat)
    requires Valid(cfg) && Safe(cfg, w) && w.lock == {pid} && pid in w.actors && w.actors[pid] == Publishing(req)
    ensures var r := Next(cfg, w, Advance(pid, now, ttl));
            && r.db == w.db && r.lock == {pid} && pid in r.actors && r.actors[pid] == Finalizing(req)
            && req.id in r.files && r.files[req.id] == File(req.event, req.body)
  {
    hide Durable, ActorsSafe, AcceptedDurable, LockExclusive, Published;
    PublishingIsIdentified(w.db, w.files, w.actors, pid);
    PublishDurable(cfg, w.db, w.files, req.id, req.event, req.body);
  }

  lemma PublishingIsIdentified(b: Buckets, files: Files, actors: map<nat, Actor>, pid: nat)
    requires ActorsSafe(b, files, actors) && pid in actors
    ensures ActorSafe(b, files, actors[pid])
  {
  }

  lemma FinalizingStep(cfg: Config, w: World, pid: nat, req: Request, now: nat, ttl: nat)
    requires Valid(cfg) && Safe(cfg, w) && w.lock <= {pid} && pid in w.actors
    requires w.actors[pid] == Finalizing(req) || w.actors[pid] == FinalizingKnown(req)
    requires req.id in w.files && w.files[req.id] == File(req.event, req.body)
    ensures var r := Next(cfg, w, Advance(pid, now, ttl));
            && Answered(r, pid, req) && Continues(w.db, r.db) && r.files == w.files && r.db.queue.Keys == w.db.queue.Keys
            && (Identified(w.db, req.id, req.event, req.body) && !w.db.states[req.id].archived && w.db.states[req.id].sequence in w.db.queue ==>
                  var s := w.db.states[req.id].sequence; r.db.queue[s] == w.db.queue[s].(archived := true))
  {
    hide Durable, ActorsSafe, AcceptedDurable, LockExclusive, Continues, ActiveItemBytes, Queue.FinalizeArchive;
    PublishingIsIdentified(w.db, w.files, w.actors, pid);
    FinalizeDurable(cfg, w.db, w.files, req.id);
    FinalizeUnlocks(cfg, w.db, req.id);
    assert w.lock - {pid} == {};
  }

  lemma FinalizeUnlocks(cfg: Config, b: Buckets, id: string)
    ensures var r := Queue.FinalizeArchive(cfg, b, id);
            && r.0.queue.Keys == b.queue.Keys
            && (r.1.Ok? && id in b.states && !b.states[id].archived && b.states[id].sequence in b.queue ==>
                  r.0.queue[b.states[id].sequence] == b.queue[b.states[id].sequence].(archived := true))
  {
    hide ActiveItemBytes;
  }

  /** A new delivery, undisturbed and with room in the queue, is answered 202 after five steps, and is queued unlocked. */
  lemma NewDeliveryIsAnswered(cfg: Config, w: World, pid: nat, req: Request, now: nat, ttl: nat)
    requires Valid(cfg) && Safe(cfg, w) && pid !in w.actors && w.lock == {}
    requires req.id !in w.db.states && (req.forwarded ==> Fits(cfg, w.db, req, now))
    ensures var r := Steps(cfg, Next(cfg, w, Spawn(pid, req)), pid, now, ttl, 5);
            && Answered(r, pid, req)
            && (req.forwarded ==>
                  && w.db.next + 1 in r.db.queue
                  && r.db.queue[w.db.next + 1] == Item(w.db.next + 1, req.id, req.event, now, req.body, 0, now, "", true, req.chats))
  {
    hide Safe, Steps;
    var w0 := Next(cfg, w, Spawn(pid, req));
    NextKeepsSafe(cfg, w, Spawn(pid, req));
    NextKeepsSafe(cfg, w0, Advance(pid, now, ttl));
    StepsSplit(cfg, w0, pid, now, ttl, 5);
    ReservingIsAnswered(cfg, Next(cfg, w0, Advance(pid, now, ttl)), pid, req, now, ttl);
  }

  /** A delivery that is admitted, archived and unlocked already is answered 202 after two steps, without any change. */
  lemma KnownDeliveryIsAnswered(cfg: Config, w: World, pid: nat, req: Request, now: nat, ttl: nat)
    requires Valid(cfg) && Safe(cfg, w) && pid !in w.actors && w.lock == {}
    requires Identified(w.db, req.id, req.event, req.body) && w.db.states[req.id].archived
    ensures var r := Steps(cfg, Next(cfg, w, Spawn(pid, req)), pid, now, ttl, 2);
            Answered(r, pid, req) && r.db == w.db && r.files == w.files
  {
    hide Inv, Settled, ActorsSafe, AcceptedDurable, LockExclusive;
    var w0 := Next(cfg, w, Spawn(pid, req));
    FirstSteps(cfg, w0, pid, now, ttl);
  }

  /** One whose payload is archived but which is still locked is unlocked and answered after three steps. */
  lemma LockedDeliveryIsAnswered(cfg: Config, w: World, pid: nat, req: Request, now: nat, ttl: nat)
    requires Valid(cfg) && Safe(cfg, w) && pid !in w.actors && w.lock == {}
    requires Identified(w.db, req.id, req.event, req.body) && !w.db.states[req.id].archived && req.id in w.files
    ensures var r := Steps(cfg, Next(cfg, w, Spawn(pid, req)), pid, now, ttl, 3);
            && Answered(r, pid, req) && r.files == w.files && r.db.queue.Keys == w.db.queue.Keys
            && (w.db.states[req.id].sequence in w.db.queue ==> r.db.queue[w.db.states[req.id].sequence].archived)
  {
    hide Safe;
    var w0 := Next(cfg, w, Spawn(pid, req));
    var w1, w2 := Steps(cfg, w0, pid, now, ttl, 1), Steps(cfg, w0, pid, now, ttl, 2);
    FirstSteps(cfg, w0, pid, now, ttl);
    NextKeepsSafe(cfg, w, Spawn(pid, req));
    NextKeepsSafe(cfg, w0, Advance(pid, now, ttl));
    FiledIsSame(cfg, w, req);
    NextKeepsSafe(cfg, w1, Advance(pid, now, ttl));
    FinalizingStep(cfg, w2, pid, req, now, ttl);
  }

  lemma FiledIsSame(cfg: Config, w: World, req: Request)
    requires Safe(cfg, w) && Identified(w.db, req.id, req.event, req.body) && req.id in w.files
    ensures w.files[req.id] == File(req.event, req.body)
  {
    hide Inv, Settled, ActorsSafe, AcceptedDurable, LockExclusive;
  }

  /** One that a crash left without archived payload goes through a reservation, and no second item is made. */
  lemma UnfiledDeliveryIsAnswered(cfg: Config, w: World, pid: nat, req: Request, now: nat, ttl: nat)
    requires Valid(cfg) && Safe(cfg, w) && pid !in w.actors && w.lock == {}
    requires Identified(w.db, req.id, req.event, req.body) && req.id !in w.files
    ensures var r := Steps(cfg, Next(cfg, w, Spawn(pid, req)), pid, now, ttl, 6);
            Answered(r, pid, req) && r.db.queue.Keys == w.db.queue.Keys
  {
    hide Safe, Steps;
    var a, w0 := Advance(pid, now, ttl), Next(cfg, w, Spawn(pid, req));
    var w1 := Next(cfg, w0, a);
    NextKeepsSafe(cfg, w, Spawn(pid, req));
    NextKeepsSafe(cfg, w0, a);
    NextKeepsSafe(cfg, w1, a);
    StepsSplit(cfg, w0, pid, now, ttl, 6);
    StepsSplit(cfg, w1, pid, now, ttl, 5);
    ReservingIsAnswered(cfg, Next(cfg, w1, a), pid, req, now, ttl);
  }

  // ----- Exits and progress, in any interleaving -----

  predicate HasRequest(a: Actor) { !a.Recovering? && !a.RecoveryFinalizing? }

  /** The ways in which the actor of a request can disappear. */
  ghost predicate Explained(cfg: Config, w: World, a: Action, pid: nat, req: Request) {
    || a.Crash? || a == GiveUp(pid)
    || (&& a.Advance? && a.pid == pid
        && (|| (req.id in w.db.states && !Identified(w.db, req.id, req.event, req.body))
            || (req.id !in w.db.states && req.forwarded && !Fits(cfg, w.db, req, a.now))
            || req in Next(cfg, w, a).accepted))
  }

  /**
   * A request ends only by a crash, a cancelled or failing call, another identity under its delivery ID, a full queue,
   * or a 202.
   */
  lemma RequestsEndExplained(cfg: Config, w: World, a: Action, pid: nat)
    requires Valid(cfg) && Safe(cfg, w) && pid in w.actors && HasRequest(w.actors[pid])
    requires pid !in Next(cfg, w, a).actors
    ensures Explained(cfg, w, a, pid, w.actors[pid].req)
  {
    hide Durable, ActorsSafe, AcceptedDurable, LockExclusive, ActiveItemBytes, Dedupe.Evicted, Dedupe.Cleaned, Dedupe.Put;
    hide Queue.FinalizeArchive, Published, VerifyExisting, Exec, Stepped;
    if a.Advance? && a.pid == pid {
      StepEndsExplained(cfg, w, pid, a.now, a.ttl);
    } else if !a.Crash? && a != GiveUp(pid) {
      OthersLeaveActors(cfg, w, a, pid);
    }
  }

  lemma StepEndsExplained(cfg: Config, w: World, pid: nat, now: nat, ttl: nat)
    requires Valid(cfg) && Safe(cfg, w) && pid in w.actors && HasRequest(w.actors[pid])
    requires pid !in Stepped(cfg, w, pid, now, ttl).actors
    ensures var req := w.actors[pid].req;
            || (req.id in w.db.states && !Identified(w.db, req.id, req.event, req.body))
            || (req.id !in w.db.states && req.forwarded && !Fits(cfg, w.db, req, now))
            || req in Stepped(cfg, w, pid, now, ttl).accepted
  {
    hide Durable, ActorsSafe, AcceptedDurable, LockExclusive, ActiveItemBytes, Dedupe.Evicted, Dedupe.Cleaned, Dedupe.Put;
    hide Queue.FinalizeArchive, Published, VerifyExisting;
    PublishingIsIdentified(w.db, w.files, w.actors, pid);
    var req := w.actors[pid].req;
    match w.actors[pid]
    case Verifying(_, _) => PublishDurable(cfg, w.db, w.files, req.id, req.event, req.body); VerifiedIsPublished(w.files, req);
    case Publishing(_) => PublishDurable(cfg, w.db, w.files, req.id, req.event, req.body);
    case FinalizingKnown(_) => FinalizeDurable(cfg, w.db, w.files, req.id);
    case Finalizing(_) => FinalizeDurable(cfg, w.db, w.files, req.id);
    case _ =>
  }

  lemma VerifiedIsPublished(files: Files, req: Request)
    ensures VerifyExisting(files, req.event, req.id, req.body) == Published(files, req.event, req.id, req.body).1
  {
  }

  /** How many steps an actor has left at most. */
  function Left(a: Actor): nat {
    match a
    case Looking(_) => 6
    case Verifying(_, _) => 5
    case Reserving(_) => 4
    case Admitting(_) => 3
    case Publishing(_) => 2
    case Finalizing(_) => 1
    case FinalizingKnown(_) => 1
    case Recovering(todo) => 2 * |todo| + 1
    case RecoveryFinalizing(todo) => 2 * |todo|
  }

  /** An actor waits only while the archive lock is held, and every other step of its own brings it closer to its end. */
  lemma StepsLeadOn(cfg: Config, w: World, pid: nat, now: nat, ttl: nat)
    requires Valid(cfg) && Safe(cfg, w) && pid in w.actors
    ensures var r := Next(cfg, w, Advance(pid, now, ttl));
            || (r == w && w.lock != {} && !HoldsLock(w.actors[pid]))
            || pid !in r.actors || Left(r.actors[pid]) < Left(w.actors[pid])
  {
    hide Durable, ActorsSafe, AcceptedDurable, LockExclusive, AdmitRequest, Queue.FinalizeArchive, Published, VerifyExisting, LookupDelivery;
  }

  /** Nobody else moves an actor. */
  lemma OthersLeaveActors(cfg: Config, w: World, a: Action, pid: nat)
    requires pid in w.actors && !a.Crash? && a != GiveUp(pid) && !(a.Advance? && a.pid == pid)
    ensures pid in Next(cfg, w, a).actors && Next(cfg, w, a).actors[pid] == w.actors[pid]
  {
    hide AdmitRequest, Queue.FinalizeArchive, Published, VerifyExisting, LookupDelivery, Exec;
  }

  /** Recovery ends of itself only when nothing is left to do. */
  lemma RecoveryEndsDone(cfg: Config, w: World, pid: nat, now: nat, ttl: nat)
    requires Valid(cfg) && Safe(cfg, w) && pid in w.actors && !HasRequest(w.actors[pid])
    requires pid !in Next(cfg, w, Advance(pid, now, ttl)).actors
    ensures w.actors[pid].todo == []
  {
    hide Durable, ActorsSafe, AcceptedDurable, LockExclusive, Queue.FinalizeArchive, Published;
    PublishingIsIdentified(w.db, w.files, w.actors, pid);
    var todo := w.actors[pid].todo;
    if todo != [] {
      assert todo[0] in todo;
      PublishDurable(cfg, w.db, w.files, todo[0].id, todo[0].event, todo[0].raw);
      if todo[0].id in w.files { FinalizeDurable(cfg, w.db, w.files, todo[0].id); }
    }
  }

  /** Two undisturbed steps of recovery archive and unlock the first of its deliveries, and go on to the next. */
  lemma RecoveryClearsNext(cfg: Config, w: World, pid: nat, now: nat, ttl: nat)
    requires Valid(cfg) && Safe(cfg, w) && w.lock == {} && pid in w.actors
    requires w.actors[pid].Recovering? && w.actors[pid].todo != []
    ensures var p, r := w.actors[pid].todo[0], Steps(cfg, w, pid, now, ttl, 2);
            && pid in r.actors && r.actors[pid] == Recovering(w.actors[pid].todo[1..]) && r.lock == {}
            && p.id in r.files && r.files[p.id] == File(p.event, p.raw)
            && p.id in r.db.states && r.db.states[p.id].archived
  {
    hide Durable, ActorsSafe, AcceptedDurable, LockExclusive, Queue.FinalizeArchive, Published, Safe;
    var todo, a := w.actors[pid].todo, Advance(pid, now, ttl);
    var w1 := Next(cfg, w, a);
    FirstSteps(cfg, w, pid, now, ttl);
    RecoveryStores(cfg, w, pid, now, ttl);
    NextKeepsSafe(cfg, w, a);
    DurableOf(cfg, w1);
    FinalizeDurable(cfg, w1.db, w1.files, todo[0].id);
  }

  /** Recovery, once started and undisturbed, archives and unlocks every delivery it took on, and ends. */
  lemma RecoveryFinishes(cfg: Config, w: World, pid: nat, todo: seq<Pending>, now: nat, ttl: nat)
    requires Valid(cfg) && Safe(cfg, w) && w.lock == {} && pid !in w.actors && forall p <- todo :: IsPending(w.db, p)
    ensures var r := Steps(cfg, Next(cfg, w, SpawnRecovery(pid, todo)), pid, now, ttl, 2 * |todo| + 1);
            && pid !in r.actors && r.lock == {}
            && forall p <- todo :: p.id in r.files && r.files[p.id] == File(p.event, p.raw)
                                   && p.id in r.db.states && r.db.states[p.id].archived
  {
    hide Safe, Steps;
    NextKeepsSafe(cfg, w, SpawnRecovery(pid, todo));
    RecoveringFinishes(cfg, Next(cfg, w, SpawnRecovery(pid, todo)), pid, now, ttl);
  }

  lemma {:induction false} RecoveringFinishes(cfg: Config, w: World, pid: nat, now: nat, ttl: nat)
    requires Valid(cfg) && Safe(cfg, w) && w.lock == {} && pid in w.actors && w.actors[pid].Recovering?
    ensures var todo, r := w.actors[pid].todo, Steps(cfg, w, pid, now, ttl, 2 * |w.actors[pid].todo| + 1);
            && pid !in r.actors && r.lock == {} && Extends(w.files, r.files) && Continues(w.db, r.db)
            && forall p <- todo :: p.id in r.files && r.files[p.id] == File(p.event, p.raw)
                                   && p.id in r.db.states && r.db.states[p.id].archived
    decreases |w.actors[pid].todo|
  {
    hide Safe, Next, Continues, Extends;
    var todo, a := w.actors[pid].todo, Advance(pid, now, ttl);
    if todo == [] {
      NothingLeft(cfg, w, pid, now, ttl);
    } else {
      var w1 := Next(cfg, w, a);
      var w2 := Next(cfg, w1, a);
      FirstSteps(cfg, w, pid, now, ttl);
      RecoveryClearsNext(cfg, w, pid, now, ttl);
      NextKeepsSafe(cfg, w, a);
      NextKeepsSafe(cfg, w1, a);
      NextKeepsHistory(cfg, w, a);
      NextKeepsHistory(cfg, w1, a);
      RecoveringFinishes(cfg, w2, pid, now, ttl);
      StepsSplit(cfg, w, pid, now, ttl, 2 * |todo| + 1);
      StepsSplit(cfg, w1, pid, now, ttl, 2 * |todo|);
      var r := Steps(cfg, w2, pid, now, ttl, 2 * |todo| - 1);
      assert r == Steps(cfg, w, pid, now, ttl, 2 * |todo| + 1);
      ExtendsTransitive(w.files, w1.files, w2.files);
      ExtendsTransitive(w.files, w2.files, r.files);
      ContinuesTransitive(w.db, w1.db, w2.db);
      ContinuesTransitive(w.db, w2.db, r.db);
      ArchivedStays(w2, r, todo[0]);
      assert todo == [todo[0]] + todo[1..];
    }
  }

  lemma NothingLeft(cfg: Config, w: World, pid: nat, now: nat, ttl: nat)
    requires pid in w.actors && w.actors[pid] == Recovering([]) && w.lock == {}
    ensures var r := Steps(cfg, w, pid, now, ttl, 1);
            pid !in r.actors && r.lock == {} && Extends(w.files, r.files) && Continues(w.db, r.db)
  {
    FirstSteps(cfg, w, pid, now, ttl);
  }

  lemma ArchivedStays(w: World, later: World, p: Pending)
    requires Extends(w.files, later.files) && Continues(w.db, later.db)
    requires p.id in w.files && w.files[p.id] == File(p.event, p.raw) && p.id in w.db.states && w.db.states[p.id].archived
    ensures p.id in later.files && later.files[p.id] == File(p.event, p.raw)
    ensures p.id in later.db.states && later.db.states[p.id].archived
  {
  }

  lemma DurableOf(cfg: Config, w: World)
    requires Safe(cfg, w)
    ensures Durable(cfg, w.db, w.files)
  {
  }

  lemma RecoveryStores(cfg: Config, w: World, pid: nat, now: nat, ttl: nat)
    requires Valid(cfg) && Safe(cfg, w) && w.lock == {} && pid in w.actors
    requires w.actors[pid].Recovering? && w.actors[pid].todo != []
    ensures var p, r := w.actors[pid].todo[0], Next(cfg, w, Advance(pid, now, ttl));
            && r.lock == {} && r.db == w.db && pid in r.actors && r.actors[pid] == RecoveryFinalizing(w.actors[pid].todo)
            && p.id in r.files && r.files[p.id] == File(p.event, p.raw)
  {
    hide Durable, ActorsSafe, AcceptedDurable, LockExclusive, Published;
    PublishingIsIdentified(w.db, w.files, w.actors, pid);
    var todo := w.actors[pid].todo;
    assert todo[0] in todo;
    PublishDurable(cfg, w.db, w.files, todo[0].id, todo[0].event, todo[0].raw);
  }
}
