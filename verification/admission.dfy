/**
 * Two-phase admission as a concurrent protocol. Webhook handlers, the audit poller and the callback receivers
 * all run the same steps for a request; the recovery goroutine archives what they left behind. Every step is
 * one store transaction or one archive operation, the steps of different actors interleave freely, any actor
 * may give up before any step, and a crash loses every actor and the archive lock but no committed data.
 */
module Admission {
  import opened Queue
  import opened QueueInvariant
  import opened QueueCounters
  import opened QueueRuns
  import opened Archive
  import Dedupe
  import RateLimit

  datatype Request = Request(id: string, event: string, body: string, forwarded: bool, chats: seq<string>)

  /** A pending delivery as PendingArchives read it. */
  datatype Pending = Pending(id: string, event: string, raw: string)

  /** Where an actor stands: the step it is about to take. */
  datatype Actor =
    | Looking(req: Request)
    | Verifying(req: Request, archived: bool)
    | FinalizingKnown(req: Request)
    | Reserving(req: Request)
    | Admitting(req: Request)
    | Publishing(req: Request)
    | Finalizing(req: Request)
    | Recovering(todo: seq<Pending>)
    | RecoveryFinalizing(todo: seq<Pending>)

  datatype World = World(
    db: Buckets,
    files: Files,
    lock: set<nat>,
    actors: map<nat, Actor>,
    accepted: set<Request>)

  const Start := World(Empty, map[], {}, map[], {})

  datatype Action =
    | Spawn(pid: nat, req: Request)
    | SpawnRecovery(pid: nat, todo: seq<Pending>)
    | Advance(pid: nat, now: nat, ttl: nat)
    | GiveUp(pid: nat)
    | Crash
    | Other(call: Call)

  /** The actor is gone, and so is the lock if it held it. */
  function Ended(w: World, pid: nat): World {
    w.(actors := w.actors - {pid}, lock := w.lock - {pid})
  }

  function MovedTo(w: World, pid: nat, a: Actor): World {
    w.(actors := w.actors[pid := a])
  }

  /** The actor answers 202. */
  function Accepted(w: World, pid: nat, req: Request): World {
    Ended(w, pid).(accepted := w.accepted + {req})
  }

  function AdmitRequest(cfg: Config, b: Buckets, req: Request, now: nat, ttl: nat): (Buckets, Outcome<bool>) {
    if req.forwarded then Queue.Admit(cfg, b, req.id, req.event, req.body, req.chats, now, ttl)
    else Queue.AdmitArchiveOnly(b, req.id, req.event, req.body)
  }

  /** One step of one actor. A step that needs the archive lock waits, that is, does nothing, while it is held. */
  function Stepped(cfg: Config, w: World, pid: nat, now: nat, ttl: nat): World
    requires pid in w.actors
  {
    match w.actors[pid]
    case Looking(req) =>
      (match LookupDelivery(w.db, req.id, req.event, req.body)
       case Fail(_) => Ended(w, pid)
       case Ok(found) =>
         if found then MovedTo(w, pid, Verifying(req, w.db.states[req.id].archived)) else MovedTo(w, pid, Reserving(req)))
    case Verifying(req, archived) =>
      if w.lock != {} then w
      else (match VerifyExisting(w.files, req.event, req.id, req.body)
            case Conflict => Ended(w, pid)
            case Missing => MovedTo(w, pid, Reserving(req))
            case Same => if archived then Accepted(w, pid, req) else MovedTo(w, pid, FinalizingKnown(req)))
    case FinalizingKnown(req) =>
      var (db, result) := Queue.FinalizeArchive(cfg, w.db, req.id);
      if result.Fail? then Ended(w, pid) else Accepted(w.(db := db), pid, req)
    case Reserving(req) =>
      if w.lock != {} then w else MovedTo(w.(lock := {pid}), pid, Admitting(req))
    case Admitting(req) =>
      var (db, result) := AdmitRequest(cfg, w.db, req, now, ttl);
      if result.Fail? then Ended(w, pid) else MovedTo(w.(db := db), pid, Publishing(req))
    case Publishing(req) =>
      var (files, existing) := Published(w.files, req.event, req.id, req.body);
      if existing == Conflict then Ended(w, pid) else MovedTo(w.(files := files), pid, Finalizing(req))
    case Finalizing(req) =>
      var (db, result) := Queue.FinalizeArchive(cfg, w.db, req.id);
      if result.Fail? then Ended(w, pid) else Accepted(w.(db := db), pid, req)
    case Recovering(todo) =>
      if todo == [] then Ended(w, pid)
      else if w.lock != {} then w
      else
        var (files, existing) := Published(w.files, todo[0].event, todo[0].id, todo[0].raw);
        if existing == Conflict then Ended(w, pid) else MovedTo(w.(files := files), pid, RecoveryFinalizing(todo))
    case RecoveryFinalizing(todo) =>
      if todo == [] then Ended(w, pid)
      else
        var (db, result) := Queue.FinalizeArchive(cfg, w.db, todo[0].id);
        if result.Fail? then Ended(w, pid) else MovedTo(w.(db := db), pid, Recovering(todo[1..]))
  }

  ghost predicate IsPending(b: Buckets, p: Pending) {
    p.id in b.states && !b.states[p.id].archived && p.event == b.states[p.id].event && p.raw == b.states[p.id].raw
  }

  /** The worker, the operator and the cleanup goroutine: everything but admission and archival. */
  ghost predicate IsOther(b: Buckets, c: Call) {
    !c.Admit? && !c.AdmitArchiveOnly? && !c.Finalize? && FromDue(b, c)
  }

  ghost function Next(cfg: Config, w: World, a: Action): World {
    match a
    case Spawn(pid, req) => if pid in w.actors then w else MovedTo(w, pid, Looking(req))
    case SpawnRecovery(pid, todo) =>
      if pid in w.actors || exists p <- todo :: !IsPending(w.db, p) then w else MovedTo(w, pid, Recovering(todo))
    case Advance(pid, now, ttl) => if pid in w.actors then Stepped(cfg, w, pid, now, ttl) else w
    case GiveUp(pid) => Ended(w, pid)
    case Crash => w.(actors := map[], lock := {})
    case Other(call) => if IsOther(w.db, call) then w.(db := Exec(cfg, w.db, call)) else w
  }

  ghost function Run(cfg: Config, actions: seq<Action>): World {
    if actions == [] then Start else Next(cfg, Run(cfg, actions[..|actions| - 1]), actions[|actions| - 1])
  }

  // ----- The invariant -----

  ghost predicate Identified(b: Buckets, id: string, event: string, body: string) {
    id in b.states && b.states[id].event == event && b.states[id].digest == body
  }

  /** Whatever is archived is the payload of the admitted delivery. */
  ghost predicate FilesMatch(b: Buckets, files: Files) {
    forall id <- files :: Identified(b, id, files[id].event, files[id].payload)
  }

  /** A delivery is marked archived only once its payload is in the archive. */
  ghost predicate ArchivedFiled(b: Buckets, files: Files) {
    forall id <- b.states :: b.states[id].archived ==> id in files
  }

  ghost predicate CapturedAll(b: Buckets, todo: seq<Pending>) {
    forall p <- todo :: Identified(b, p.id, p.event, p.raw)
  }

  /** What an actor may rely on at its next step, whatever the others did meanwhile. */
  ghost predicate ActorSafe(b: Buckets, files: Files, a: Actor) {
    match a
    case Looking(_) => true
    case Reserving(_) => true
    case Admitting(_) => true
    case Verifying(req, archived) =>
      Identified(b, req.id, req.event, req.body) && (archived ==> b.states[req.id].archived)
    case FinalizingKnown(req) => Identified(b, req.id, req.event, req.body) && req.id in files
    case Publishing(req) => Identified(b, req.id, req.event, req.body)
    case Finalizing(req) => Identified(b, req.id, req.event, req.body) && req.id in files
    case Recovering(todo) => CapturedAll(b, todo)
    case RecoveryFinalizing(todo) => CapturedAll(b, todo) && (todo != [] ==> todo[0].id in files)
  }

  ghost predicate ActorsSafe(b: Buckets, files: Files, actors: map<nat, Actor>) {
    forall pid <- actors :: ActorSafe(b, files, actors[pid])
  }

  /** A 202 was only ever sent for a delivery whose payload is archived and which is unlocked for forwarding. */
  ghost predicate AcceptedDurable(b: Buckets, files: Files, accepted: set<Request>) {
    forall req <- accepted ::
      && Identified(b, req.id, req.event, req.body) && b.states[req.id].archived
      && req.id in files && files[req.id] == File(req.event, req.body)
  }

  predicate HoldsLock(a: Actor) {
    a.Admitting? || a.Publishing? || a.Finalizing?
  }

  /** The lock is held by at most one actor, exactly while it is between Reserve and Release. */
  ghost predicate LockExclusive(lock: set<nat>, actors: map<nat, Actor>) {
    && |lock| <= 1
    && (forall pid <- lock :: pid in actors)
    && (forall pid <- actors :: pid in lock <==> HoldsLock(actors[pid]))
  }

  ghost predicate Durable(cfg: Config, b: Buckets, files: Files) {
    Inv(cfg, b) && Settled(b) && FilesMatch(b, files) && ArchivedFiled(b, files)
  }

  ghost predicate Safe(cfg: Config, w: World) {
    && Durable(cfg, w.db, w.files) && ActorsSafe(w.db, w.files, w.actors)
    && AcceptedDurable(w.db, w.files, w.accepted) && LockExclusive(w.lock, w.actors)
  }

  // ----- Stability under the steps of others -----

  lemma DurableStays(b: Buckets, files: Files, later: Buckets, laterFiles: Files, accepted: set<Request>)
    requires AcceptedDurable(b, files, accepted) && Continues(b, later) && Extends(files, laterFiles)
    ensures AcceptedDurable(later, laterFiles, accepted)
  {
  }

  lemma OthersStaySafe(b: Buckets, files: Files, actors: map<nat, Actor>, later: Buckets, laterFiles: Files)
    requires ActorsSafe(b, files, actors) && Continues(b, later) && Extends(files, laterFiles)
    ensures ActorsSafe(later, laterFiles, actors)
  {
  }

  lemma SameContinues(b: Buckets)
    ensures Continues(b, b)
  {
  }

  // ----- Durable data, transaction by transaction -----

  lemma AdmitRequestDurable(cfg: Config, b: Buckets, files: Files, req: Request, now: nat, ttl: nat)
    requires Valid(cfg) && Durable(cfg, b, files)
    ensures var (db, result) := AdmitRequest(cfg, b, req, now, ttl);
            && Durable(cfg, db, files) && Continues(b, db)
            && (result.Ok? ==> Identified(db, req.id, req.event, req.body))
  {
    hide Inv, Settled, ActiveRoom, Dedupe.Evicted, Dedupe.Cleaned, Dedupe.Put;
    var call := if req.forwarded then Call.Admit(req.id, req.event, req.body, req.chats, now, ttl)
                else Call.AdmitArchiveOnly(req.id, req.event, req.body);
    ExecKeepsInv(cfg, b, call);
    InvConserves(cfg, b);
    ExecSettled(cfg, b, call);
    ExecContinues(cfg, b, call);
  }

  lemma FinalizeDurable(cfg: Config, b: Buckets, files: Files, id: string)
    requires Valid(cfg) && Durable(cfg, b, files) && id in files
    ensures var (db, result) := Queue.FinalizeArchive(cfg, b, id);
            && result == Ok(()) && Durable(cfg, db, files) && Continues(b, db) && id in db.states && db.states[id].archived
  {
    hide Settled, Conserved, Counted, Bounded, Deduped, Recoverable;
    FinalizeKeepsInv(cfg, b, id);
    FinalizeNeverFails(cfg, b, id);
    ExecSettled(cfg, b, Call.Finalize(id));
    ExecContinues(cfg, b, Call.Finalize(id));
  }

  /** Publishing the payload of an admitted delivery never meets a conflict. */
  lemma PublishDurable(cfg: Config, b: Buckets, files: Files, id: string, event: string, body: string)
    requires Durable(cfg, b, files) && Identified(b, id, event, body)
    ensures var (later, existing) := Published(files, event, id, body);
            && existing != Conflict && Durable(cfg, b, later) && Extends(files, later)
            && id in later && later[id] == File(event, body)
  {
  }

  lemma {:induction false} DeliverAllArchives(cfg: Config, b: Buckets, seqs: seq<nat>)
    ensures var r := DeliverAll(cfg, b, seqs); forall id <- r.states :: id in b.states && r.states[id].archived == b.states[id].archived
  {
    if seqs != [] { DeliverAllArchives(cfg, b, seqs[..|seqs| - 1]); }
  }

  lemma {:induction false} CompleteAllArchives(b: Buckets, seqs: seq<nat>, chat: string)
    ensures var r := CompleteAll(b, seqs, chat); forall id <- r.states :: id in b.states && r.states[id].archived == b.states[id].archived
  {
    if seqs != [] { CompleteAllArchives(b, seqs[..|seqs| - 1], chat); }
  }

  lemma {:induction false} FailAllArchives(b: Buckets, seqs: seq<nat>, f: Failure, full: bool)
    ensures var r := FailAll(b, seqs, f, full); forall id <- r.states :: id in b.states && r.states[id].archived == b.states[id].archived
  {
    if seqs != [] { FailAllArchives(b, seqs[..|seqs| - 1], f, full); }
  }

  /** Only finalization marks a delivery archived: a requeued dead letter was archived before it died. */
  lemma OtherArchivesNothing(cfg: Config, b: Buckets, c: Call)
    requires Conserved(b) && Settled(b) && IsOther(b, c)
    ensures var r := Exec(cfg, b, c); forall id <- r.states :: id in b.states && (r.states[id].archived ==> b.states[id].archived)
  {
    hide DeliverAll, CompleteAll, FailAll, ActiveRoom, RateLimit.Reserved, ActiveTotal, DeadTotal, Outcomes, NoRepeats;
    hide StatesLocated, SequencesUnique, QueueOwned, DeadLetterFull;
    match c
    case Delete(seqs) => DeliverAllArchives(cfg, b, seqs);
    case Complete(seqs, chat) => CompleteAllArchives(b, seqs, chat);
    case Fail(seqs, failure) => FailAllArchives(b, seqs, failure, DeadLetterFull(cfg, b, seqs, failure));
    case Requeue(sequence, now) =>
      if sequence in b.dead { assert Owned(b, sequence, b.dead[sequence].item, Dead); }
    case CleanupDedupe(now, limit) =>
    case Reserve(now) =>
  }

  lemma OtherDurable(cfg: Config, b: Buckets, files: Files, c: Call)
    requires Valid(cfg) && Durable(cfg, b, files) && IsOther(b, c)
    ensures Durable(cfg, Exec(cfg, b, c), files) && Continues(b, Exec(cfg, b, c))
  {
    hide Inv, Settled, Exec;
    ExecKeepsInv(cfg, b, c);
    InvConserves(cfg, b);
    ExecSettled(cfg, b, c);
    ExecContinues(cfg, b, c);
    OtherArchivesNothing(cfg, b, c);
  }

  // ----- Every step keeps the invariant -----

  lemma LockAfterEnd(lock: set<nat>, actors: map<nat, Actor>, pid: nat)
    requires LockExclusive(lock, actors)
    ensures LockExclusive(lock - {pid}, actors - {pid})
  {
  }

  lemma LockOfOne(lock: set<nat>, pid: nat)
    requires pid in lock && |lock| <= 1
    ensures lock == {pid}
  {
    assert |lock - {pid}| == |lock| - 1;
    assert lock == (lock - {pid}) + {pid};
  }

  lemma EndedKeepsSafe(cfg: Config, w: World, pid: nat)
    requires Safe(cfg, w)
    ensures Safe(cfg, Ended(w, pid))
  {
  }

  /** A step that changes the data and lets the actor move on. */
  lemma MoveKeepsSafe(cfg: Config, w: World, pid: nat, db: Buckets, files: Files, a: Actor)
    requires Safe(cfg, w) && pid in w.actors
    requires Durable(cfg, db, files) && Continues(w.db, db) && Extends(w.files, files)
    requires ActorSafe(db, files, a) && (HoldsLock(a) <==> HoldsLock(w.actors[pid]))
    ensures Safe(cfg, MovedTo(w.(db := db, files := files), pid, a))
  {
    hide Durable, AcceptedDurable, Continues, Extends, ActorSafe;
    OthersStaySafe(w.db, w.files, w.actors, db, files);
    DurableStays(w.db, w.files, db, files, w.accepted);
  }

  /** A step that ends in a 202. */
  lemma AcceptKeepsSafe(cfg: Config, w: World, pid: nat, db: Buckets, req: Request)
    requires Safe(cfg, w) && pid in w.actors
    requires Durable(cfg, db, w.files) && Continues(w.db, db)
    requires Identified(db, req.id, req.event, req.body) && db.states[req.id].archived && req.id in w.files
    ensures Safe(cfg, Accepted(w.(db := db), pid, req))
  {
    hide Inv, Settled, Continues, ActorSafe, LockExclusive;
    SameFiles(w.files);
    OthersStaySafe(w.db, w.files, w.actors, db, w.files);
    DurableStays(w.db, w.files, db, w.files, w.accepted);
    LockAfterEnd(w.lock, w.actors, pid);
  }

  lemma SameFiles(files: Files)
    ensures Extends(files, files)
  {
  }

  lemma StepKeepsSafe(cfg: Config, w: World, pid: nat, now: nat, ttl: nat)
    requires Valid(cfg) && Safe(cfg, w) && pid in w.actors
    ensures Safe(cfg, Stepped(cfg, w, pid, now, ttl))
  {
    match w.actors[pid]
    case Looking(req) => LookupKeepsSafe(cfg, w, pid, now, ttl);
    case Verifying(req, archived) => VerifyKeepsSafe(cfg, w, pid, now, ttl);
    case FinalizingKnown(req) => FinalizeStepKeepsSafe(cfg, w, pid, now, ttl);
    case Reserving(req) => ReserveKeepsSafe(cfg, w, pid, now, ttl);
    case Admitting(req) => AdmitKeepsSafe(cfg, w, pid, now, ttl);
    case Publishing(req) => PublishKeepsSafe(cfg, w, pid, now, ttl);
    case Finalizing(req) => FinalizeStepKeepsSafe(cfg, w, pid, now, ttl);
    case Recovering(todo) => RecoverKeepsSafe(cfg, w, pid, now, ttl);
    case RecoveryFinalizing(todo) => RecoveryFinalizeKeepsSafe(cfg, w, pid, now, ttl);
  }

  lemma LookupKeepsSafe(cfg: Config, w: World, pid: nat, now: nat, ttl: nat)
    requires Safe(cfg, w) && pid in w.actors && w.actors[pid].Looking?
    ensures Safe(cfg, Stepped(cfg, w, pid, now, ttl))
  {
    hide Durable, AcceptedDurable, ActorsSafe, LockExclusive, Continues, Extends;
    EndedKeepsSafe(cfg, w, pid);
    var req := w.actors[pid].req;
    SameContinues(w.db);
    SameFiles(w.files);
    MoveKeepsSafe(cfg, w, pid, w.db, w.files, Reserving(req));
    if LookupDelivery(w.db, req.id, req.event, req.body) == Ok(true) {
      MoveKeepsSafe(cfg, w, pid, w.db, w.files, Verifying(req, w.db.states[req.id].archived));
    }
  }

  lemma VerifyKeepsSafe(cfg: Config, w: World, pid: nat, now: nat, ttl: nat)
    requires Safe(cfg, w) && pid in w.actors && w.actors[pid].Verifying?
    ensures Safe(cfg, Stepped(cfg, w, pid, now, ttl))
  {
    hide Durable, AcceptedDurable, LockExclusive, Continues, Extends;
    EndedKeepsSafe(cfg, w, pid);
    var req := w.actors[pid].req;
    assert ActorSafe(w.db, w.files, w.actors[pid]);
    SameContinues(w.db);
    SameFiles(w.files);
    MoveKeepsSafe(cfg, w, pid, w.db, w.files, Reserving(req));
    if VerifyExisting(w.files, req.event, req.id, req.body) == Same {
      MoveKeepsSafe(cfg, w, pid, w.db, w.files, FinalizingKnown(req));
      if w.actors[pid].archived {
        AcceptKeepsSafe(cfg, w, pid, w.db, req);
      }
    }
  }

  lemma FinalizeStepKeepsSafe(cfg: Config, w: World, pid: nat, now: nat, ttl: nat)
    requires Valid(cfg) && Safe(cfg, w) && pid in w.actors && (w.actors[pid].FinalizingKnown? || w.actors[pid].Finalizing?)
    ensures Safe(cfg, Stepped(cfg, w, pid, now, ttl))
  {
    hide Durable, AcceptedDurable, LockExclusive, Queue.FinalizeArchive;
    var req := w.actors[pid].req;
    assert ActorSafe(w.db, w.files, w.actors[pid]);
    FinalizeDurable(cfg, w.db, w.files, req.id);
    AcceptKeepsSafe(cfg, w, pid, Queue.FinalizeArchive(cfg, w.db, req.id).0, req);
  }

  lemma ReserveKeepsSafe(cfg: Config, w: World, pid: nat, now: nat, ttl: nat)
    requires Safe(cfg, w) && pid in w.actors && w.actors[pid].Reserving?
    ensures Safe(cfg, Stepped(cfg, w, pid, now, ttl))
  {
    hide Durable, AcceptedDurable;
  }

  lemma AdmitKeepsSafe(cfg: Config, w: World, pid: nat, now: nat, ttl: nat)
    requires Valid(cfg) && Safe(cfg, w) && pid in w.actors && w.actors[pid].Admitting?
    ensures Safe(cfg, Stepped(cfg, w, pid, now, ttl))
  {
    hide Durable, AcceptedDurable, LockExclusive, AdmitRequest, Continues, ActorsSafe;
    EndedKeepsSafe(cfg, w, pid);
    var req := w.actors[pid].req;
    AdmitRequestDurable(cfg, w.db, w.files, req, now, ttl);
    if AdmitRequest(cfg, w.db, req, now, ttl).1.Ok? {
      SameFiles(w.files);
      MoveKeepsSafe(cfg, w, pid, AdmitRequest(cfg, w.db, req, now, ttl).0, w.files, Publishing(req));
    }
  }

  lemma PublishKeepsSafe(cfg: Config, w: World, pid: nat, now: nat, ttl: nat)
    requires Safe(cfg, w) && pid in w.actors && w.actors[pid].Publishing?
    ensures Safe(cfg, Stepped(cfg, w, pid, now, ttl))
  {
    hide Durable, AcceptedDurable, LockExclusive, Published, Continues;
    var req := w.actors[pid].req;
    assert ActorSafe(w.db, w.files, w.actors[pid]);
    PublishDurable(cfg, w.db, w.files, req.id, req.event, req.body);
    SameContinues(w.db);
    MoveKeepsSafe(cfg, w, pid, w.db, Published(w.files, req.event, req.id, req.body).0, Finalizing(req));
  }

  lemma RecoverKeepsSafe(cfg: Config, w: World, pid: nat, now: nat, ttl: nat)
    requires Safe(cfg, w) && pid in w.actors && w.actors[pid].Recovering?
    ensures Safe(cfg, Stepped(cfg, w, pid, now, ttl))
  {
    hide Durable, AcceptedDurable, LockExclusive, Published, Continues;
    EndedKeepsSafe(cfg, w, pid);
    var todo := w.actors[pid].todo;
    assert ActorSafe(w.db, w.files, w.actors[pid]);
    if todo != [] {
      assert todo[0] in todo;
      PublishDurable(cfg, w.db, w.files, todo[0].id, todo[0].event, todo[0].raw);
      SameContinues(w.db);
      MoveKeepsSafe(cfg, w, pid, w.db, Published(w.files, todo[0].event, todo[0].id, todo[0].raw).0, RecoveryFinalizing(todo));
    }
  }

  lemma RecoveryFinalizeKeepsSafe(cfg: Config, w: World, pid: nat, now: nat, ttl: nat)
    requires Valid(cfg) && Safe(cfg, w) && pid in w.actors && w.actors[pid].RecoveryFinalizing?
    ensures Safe(cfg, Stepped(cfg, w, pid, now, ttl))
  {
    hide Durable, AcceptedDurable, LockExclusive, Queue.FinalizeArchive;
    EndedKeepsSafe(cfg, w, pid);
    var todo := w.actors[pid].todo;
    assert ActorSafe(w.db, w.files, w.actors[pid]);
    if todo != [] {
      assert todo[0] in todo;
      FinalizeDurable(cfg, w.db, w.files, todo[0].id);
      SameFiles(w.files);
      var db := Queue.FinalizeArchive(cfg, w.db, todo[0].id).0;
      forall p | p in todo[1..] ensures Identified(db, p.id, p.event, p.raw) { assert p in todo; }
      MoveKeepsSafe(cfg, w, pid, db, w.files, Recovering(todo[1..]));
    }
  }

  lemma NextKeepsSafe(cfg: Config, w: World, a: Action)
    requires Valid(cfg) && Safe(cfg, w)
    ensures Safe(cfg, Next(cfg, w, a))
  {
    hide Durable, AcceptedDurable, Stepped;
    match a
    case Spawn(pid, req) =>
    case SpawnRecovery(pid, todo) =>
      if pid !in w.actors && forall p <- todo :: IsPending(w.db, p) { SpawnRecoveryKeepsSafe(cfg, w, pid, todo); }
    case Advance(pid, now, ttl) => if pid in w.actors { StepKeepsSafe(cfg, w, pid, now, ttl); }
    case GiveUp(pid) => EndedKeepsSafe(cfg, w, pid);
    case Crash =>
    case Other(call) => if IsOther(w.db, call) { OtherKeepsSafe(cfg, w, call); }
  }

  lemma SpawnRecoveryKeepsSafe(cfg: Config, w: World, pid: nat, todo: seq<Pending>)
    requires Safe(cfg, w) && pid !in w.actors && forall p <- todo :: IsPending(w.db, p)
    ensures Safe(cfg, MovedTo(w, pid, Recovering(todo)))
  {
    hide Conserved, Settled, FilesMatch, ArchivedFiled, AcceptedDurable, Counted, Bounded, Deduped;
    PendingIsCaptured(w.db, todo);
  }

  lemma PendingIsCaptured(b: Buckets, todo: seq<Pending>)
    requires Recoverable(b) && forall p <- todo :: IsPending(b, p)
    ensures CapturedAll(b, todo)
  {
  }

  lemma OtherKeepsSafe(cfg: Config, w: World, call: Call)
    requires Valid(cfg) && Safe(cfg, w) && IsOther(w.db, call)
    ensures Safe(cfg, w.(db := Exec(cfg, w.db, call)))
  {
    hide Durable, AcceptedDurable, LockExclusive, Exec, Continues, ActorsSafe;
    OtherDurable(cfg, w.db, w.files, call);
    SameFiles(w.files);
    OthersStaySafe(w.db, w.files, w.actors, Exec(cfg, w.db, call), w.files);
    DurableStays(w.db, w.files, Exec(cfg, w.db, call), w.files, w.accepted);
  }

  // ----- Over every run -----

  lemma {:induction false} RunIsSafe(cfg: Config, actions: seq<Action>)
    requires Valid(cfg)
    ensures Safe(cfg, Run(cfg, actions))
  {
    hide Safe, Next;
    if actions == [] {
      StartIsSafe(cfg);
    } else {
      RunIsSafe(cfg, actions[..|actions| - 1]);
      NextKeepsSafe(cfg, Run(cfg, actions[..|actions| - 1]), actions[|actions| - 1]);
    }
  }

  lemma StartIsSafe(cfg: Config)
    ensures Safe(cfg, Start)
  {
  }

  /** An item may be forwarded only if the archive holds exactly its event and its bytes. */
  lemma DueOnlyIfArchived(cfg: Config, actions: seq<Action>, s: nat)
    requires Valid(cfg)
    requires s in Run(cfg, actions).db.queue && Run(cfg, actions).db.queue[s].archived
    ensures var w := Run(cfg, actions);
            var item := w.db.queue[s];
            item.deliveryID in w.files && w.files[item.deliveryID] == File(item.event, item.raw)
  {
    hide Run;
    RunIsSafe(cfg, actions);
    var w := Run(cfg, actions);
    assert Owned(w.db, s, w.db.queue[s], Queued);
  }

  /** What a crash interrupted can always be finished: the permanent state still carries the payload. */
  lemma UnarchivedIsRecoverable(cfg: Config, actions: seq<Action>, id: string)
    requires Valid(cfg)
    requires id in Run(cfg, actions).db.states && !Run(cfg, actions).db.states[id].archived
    ensures var state := Run(cfg, actions).db.states[id]; state.raw == state.digest
  {
    hide Run;
    RunIsSafe(cfg, actions);
  }

  /** A 202 means archived, under any later interleaving and any crash. */
  lemma AcceptedImpliesArchived(cfg: Config, actions: seq<Action>, req: Request)
    requires Valid(cfg) && req in Run(cfg, actions).accepted
    ensures var w := Run(cfg, actions);
            && req.id in w.files && w.files[req.id] == File(req.event, req.body)
            && req.id in w.db.states && w.db.states[req.id].archived
  {
    hide Run;
    RunIsSafe(cfg, actions);
  }

  // ----- What is accepted for forwarding is queued -----

  /**
   * Whether a request is forwarded or only archived is decided by its event and payload: by the event for GitHub and
   * GitLab, by the payload for Lark events.
   */
  predicate Routed(route: (string, string) -> bool, req: Request) {
    req.forwarded == route(req.event, req.body)
  }

  predicate RoutedActor(route: (string, string) -> bool, a: Actor) {
    match a
    case Recovering(_) => true
    case RecoveryFinalizing(_) => true
    case _ => Routed(route, a.req)
  }

  ghost predicate RoutedStates(route: (string, string) -> bool, b: Buckets) {
    forall id <- b.states :: b.states[id].sequence > 0 <==> route(b.states[id].event, b.states[id].digest)
  }

  ghost predicate RoutedWorld(route: (string, string) -> bool, w: World) {
    && (forall pid <- w.actors :: RoutedActor(route, w.actors[pid]))
    && (forall req <- w.accepted :: Routed(route, req))
    && RoutedStates(route, w.db)
  }

  lemma AdmitKeepsRouted(cfg: Config, b: Buckets, route: (string, string) -> bool, req: Request, now: nat, ttl: nat)
    requires RoutedStates(route, b) && Routed(route, req)
    ensures RoutedStates(route, AdmitRequest(cfg, b, req, now, ttl).0)
  {
    hide ActiveRoom, ActiveItemBytes, Dedupe.Evicted, Dedupe.Cleaned, Dedupe.Put;
  }

  lemma NoNewStatesRouted(b: Buckets, later: Buckets, route: (string, string) -> bool)
    requires RoutedStates(route, b) && Continues(b, later) && later.states.Keys <= b.states.Keys
    ensures RoutedStates(route, later)
  {
  }

  lemma FinalizeAddsNothing(cfg: Config, b: Buckets, id: string)
    ensures Queue.FinalizeArchive(cfg, b, id).0.states.Keys == b.states.Keys
  {
  }

  /** One step of an actor keeps what the routing says about the states. */
  lemma StepKeepsRouted(cfg: Config, w: World, pid: nat, now: nat, ttl: nat, route: (string, string) -> bool)
    requires Valid(cfg) && Safe(cfg, w) && RoutedWorld(route, w) && pid in w.actors
    ensures RoutedStates(route, Stepped(cfg, w, pid, now, ttl).db)
  {
    hide Safe, RoutedStates, AdmitRequest, Queue.FinalizeArchive, Continues, Published, VerifyExisting;
    NextKeepsHistory(cfg, w, Advance(pid, now, ttl));
    match w.actors[pid]
    case Admitting(req) => AdmitKeepsRouted(cfg, w.db, route, req, now, ttl);
    case FinalizingKnown(req) => FinalizedRouted(cfg, w.db, req.id, route);
    case Finalizing(req) => FinalizedRouted(cfg, w.db, req.id, route);
    case RecoveryFinalizing(todo) => if todo != [] { FinalizedRouted(cfg, w.db, todo[0].id, route); }
    case _ =>
  }

  lemma FinalizedRouted(cfg: Config, b: Buckets, id: string, route: (string, string) -> bool)
    requires RoutedStates(route, b)
    ensures RoutedStates(route, Queue.FinalizeArchive(cfg, b, id).0)
  {
    hide RoutedStates, Queue.FinalizeArchive;
    FinalizeContinues(cfg, b, id);
    FinalizeAddsNothing(cfg, b, id);
    NoNewStatesRouted(b, Queue.FinalizeArchive(cfg, b, id).0, route);
  }

  lemma StepKeepsActorsRouted(cfg: Config, w: World, pid: nat, now: nat, ttl: nat, route: (string, string) -> bool)
    requires RoutedWorld(route, w) && pid in w.actors
    ensures var r := Stepped(cfg, w, pid, now, ttl);
            && (forall q <- r.actors :: RoutedActor(route, r.actors[q])) && (forall req <- r.accepted :: Routed(route, req))
  {
    hide Queue.FinalizeArchive, AdmitRequest, Published, VerifyExisting, RoutedStates;
  }

  lemma NextKeepsRouted(cfg: Config, w: World, a: Action, route: (string, string) -> bool)
    requires Valid(cfg) && Safe(cfg, w) && RoutedWorld(route, w) && (a.Spawn? ==> Routed(route, a.req))
    ensures RoutedWorld(route, Next(cfg, w, a))
  {
    hide Safe, Stepped, RoutedStates, Exec;
    match a
    case Advance(pid, now, ttl) =>
      if pid in w.actors {
        StepKeepsRouted(cfg, w, pid, now, ttl, route);
        StepKeepsActorsRouted(cfg, w, pid, now, ttl, route);
      }
    case Other(call) =>
      if IsOther(w.db, call) {
        OtherRouted(cfg, w, call, route);
      }
    case _ =>
  }

  lemma OtherRouted(cfg: Config, w: World, c: Call, route: (string, string) -> bool)
    requires Valid(cfg) && Safe(cfg, w) && RoutedStates(route, w.db) && IsOther(w.db, c)
    ensures RoutedStates(route, Exec(cfg, w.db, c))
  {
    hide RoutedStates, Exec, Inv, Settled, FilesMatch, ArchivedFiled, ActorsSafe, AcceptedDurable, LockExclusive, IsOther;
    InvConserves(cfg, w.db);
    OtherArchivesNothing(cfg, w.db, c);
    ExecContinues(cfg, w.db, c);
    NoNewStatesRouted(w.db, Exec(cfg, w.db, c), route);
  }

  lemma {:induction false} RunIsRouted(cfg: Config, actions: seq<Action>, route: (string, string) -> bool)
    requires Valid(cfg) && forall a <- actions :: a.Spawn? ==> Routed(route, a.req)
    ensures RoutedWorld(route, Run(cfg, actions))
  {
    hide Safe, Next, RoutedWorld;
    if actions == [] {
      StartIsRouted(route);
    } else {
      var front, last := actions[..|actions| - 1], actions[|actions| - 1];
      assert last in actions && forall a <- front :: a in actions;
      RunIsRouted(cfg, front, route);
      RunIsSafe(cfg, front);
      NextKeepsRouted(cfg, Run(cfg, front), last, route);
    }
  }

  lemma StartIsRouted(route: (string, string) -> bool)
    ensures RoutedWorld(route, Start)
  {
  }

  /** A forwarded request was queued under a sequence of its own, and is unlocked while it waits; any other was not queued. */
  ghost predicate InPlace(b: Buckets, req: Request)
    requires req.id in b.states
  {
    var state := b.states[req.id];
    if req.forwarded then QueuedOnce(b, req.id) && (state.sequence in b.queue ==> b.queue[state.sequence].archived)
    else state.status == ArchiveOnly && state.sequence == 0
  }

  /** A 202 for a request that is to be forwarded means that it was queued, and any other that it was archived only. */
  lemma AcceptedIsQueued(cfg: Config, actions: seq<Action>, route: (string, string) -> bool, req: Request)
    requires Valid(cfg) && forall a <- actions :: a.Spawn? ==> Routed(route, a.req)
    requires req in Run(cfg, actions).accepted
    ensures req.id in Run(cfg, actions).db.states && InPlace(Run(cfg, actions).db, req)
  {
    hide Run;
    RunIsSafe(cfg, actions);
    RunIsRouted(cfg, actions, route);
    AcceptedPlaced(cfg, Run(cfg, actions), route, req);
  }

  lemma AcceptedPlaced(cfg: Config, w: World, route: (string, string) -> bool, req: Request)
    requires Safe(cfg, w) && RoutedWorld(route, w) && req in w.accepted
    ensures req.id in w.db.states && InPlace(w.db, req)
  {
    hide FilesMatch, ArchivedFiled, ActorsSafe, LockExclusive, Counted, Bounded, Deduped, Recoverable;
    assert Identified(w.db, req.id, req.event, req.body) && Routed(route, req);
    Placement(w.db, req.id);
  }

  /** The payload an actor is about to verify or publish, if its next step is an archive operation. */
  function ArchiveOperand(a: Actor): (r: seq<Pending>) {
    match a
    case Verifying(req, _) => [Pending(req.id, req.event, req.body)]
    case Publishing(req) => [Pending(req.id, req.event, req.body)]
    case Recovering(todo) => todo
    case _ => []
  }

  /** No archive operation, of a handler or of recovery, ever meets a conflict: conflicts stop at the store. */
  lemma ArchiveNeverConflicts(cfg: Config, actions: seq<Action>, pid: nat)
    requires Valid(cfg) && pid in Run(cfg, actions).actors
    ensures var w := Run(cfg, actions);
            forall p <- ArchiveOperand(w.actors[pid]) :: VerifyExisting(w.files, p.event, p.id, p.raw) != Conflict
  {
    hide Run, Inv, Settled, AcceptedDurable, ArchivedFiled, LockExclusive;
    RunIsSafe(cfg, actions);
    var w := Run(cfg, actions);
    assert ActorSafe(w.db, w.files, w.actors[pid]);
    IdentifiedNeverConflicts(w.db, w.files, ArchiveOperand(w.actors[pid]));
  }

  lemma IdentifiedNeverConflicts(b: Buckets, files: Files, operand: seq<Pending>)
    requires FilesMatch(b, files) && CapturedAll(b, operand)
    ensures forall p <- operand :: VerifyExisting(files, p.event, p.id, p.raw) != Conflict
  {
  }

  /** Two actors are never between Reserve and Release at once. */
  lemma OneAdmissionAtATime(cfg: Config, actions: seq<Action>, p: nat, q: nat)
    requires Valid(cfg)
    requires p in Run(cfg, actions).actors && HoldsLock(Run(cfg, actions).actors[p])
    requires q in Run(cfg, actions).actors && HoldsLock(Run(cfg, actions).actors[q])
    ensures p == q
  {
    hide Run;
    RunIsSafe(cfg, actions);
    LockOfOne(Run(cfg, actions).lock, p);
  }

  /** The archive is append-only and identities are permanent, whatever else happens. */
  lemma {:induction false} HistoryIsKept(cfg: Config, earlier: seq<Action>, more: seq<Action>)
    requires Valid(cfg)
    ensures Extends(Run(cfg, earlier).files, Run(cfg, earlier + more).files)
    ensures Continues(Run(cfg, earlier).db, Run(cfg, earlier + more).db)
  {
    hide Next, Safe, Continues, Extends;
    if more == [] {
      SameContinues(Run(cfg, earlier).db);
      SameFiles(Run(cfg, earlier).files);
      assert earlier + more == earlier;
    } else {
      var front, last := more[..|more| - 1], more[|more| - 1];
      HistoryIsKept(cfg, earlier, front);
      var all := earlier + more;
      assert all[..|all| - 1] == earlier + front && all[|all| - 1] == last;
      var w := Run(cfg, earlier + front);
      RunIsSafe(cfg, earlier + front);
      NextKeepsHistory(cfg, w, last);
      ContinuesTransitive(Run(cfg, earlier).db, w.db, Next(cfg, w, last).db);
      ExtendsTransitive(Run(cfg, earlier).files, w.files, Next(cfg, w, last).files);
    }
  }

  lemma ExtendsTransitive(a: Files, b: Files, c: Files)
    requires Extends(a, b) && Extends(b, c)
    ensures Extends(a, c)
  {
  }

  lemma NextKeepsHistory(cfg: Config, w: World, a: Action)
    requires Valid(cfg) && Safe(cfg, w)
    ensures Extends(w.files, Next(cfg, w, a).files) && Continues(w.db, Next(cfg, w, a).db)
  {
    hide Inv, Conserved, Settled, FilesMatch, ArchivedFiled, ActorsSafe, AcceptedDurable, LockExclusive;
    hide Exec, Queue.FinalizeArchive, AdmitRequest;
    SameFiles(w.files);
    SameContinues(w.db);
    InvConserves(cfg, w.db);
    match a
    case Advance(pid, now, ttl) =>
      if pid in w.actors {
        match w.actors[pid]
        case FinalizingKnown(req) => FinalizeContinues(cfg, w.db, req.id);
        case Finalizing(req) => FinalizeContinues(cfg, w.db, req.id);
        case RecoveryFinalizing(todo) => if todo != [] { FinalizeContinues(cfg, w.db, todo[0].id); }
        case Admitting(req) => AdmitRequestDurable(cfg, w.db, w.files, req, now, ttl);
        case Publishing(req) => PublishedIsWriteOnce(w.files, req.event, req.id, req.body);
        case Recovering(todo) => if todo != [] { PublishedIsWriteOnce(w.files, todo[0].event, todo[0].id, todo[0].raw); }
        case _ =>
      }
    case Other(call) => ExecContinues(cfg, w.db, call);
    case _ =>
  }
}
