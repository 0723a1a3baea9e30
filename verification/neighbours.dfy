/**
 * What the other goroutines may do to store and archive between two steps of one of them: request handlers admit,
 * publish and unlock, the worker delivers and fails, the operator requeues, cleanup runs.
 */
module Neighbours {
  import opened Queue
  import opened QueueInvariant
  import opened QueueCounters
  import opened QueueRuns
  import opened Archive
  import opened Store
  import opened Admission

  /** Nothing is forgotten, and no delivery with this prefix is new. */
  ghost predicate Beside(prefix: string, b: Buckets, files: Files, later: Buckets, laterFiles: Files) {
    && Continues(b, later) && Extends(files, laterFiles)
    && forall id <- later.states :: prefix <= id ==> id in b.states
  }

  lemma BesideReflexive(prefix: string, b: Buckets, files: Files)
    ensures Beside(prefix, b, files, b, files)
  {
  }

  lemma BesideTransitive(prefix: string, a: Buckets, f: Files, b: Buckets, g: Files, c: Buckets, h: Files)
    requires Beside(prefix, a, f, b, g) && Beside(prefix, b, g, c, h)
    ensures Beside(prefix, a, f, c, h)
  {
  }

  lemma OtherBeside(cfg: Config, prefix: string, b: Buckets, files: Files, c: Call)
    requires Valid(cfg) && Durable(cfg, b, files) && IsOther(b, c)
    ensures Durable(cfg, Exec(cfg, b, c), files) && Beside(prefix, b, files, Exec(cfg, b, c), files)
  {
    hide Inv, Settled, Exec, IsOther, FilesMatch, ArchivedFiled;
    InvConserves(cfg, b);
    OtherDurable(cfg, b, files, c);
    OtherArchivesNothing(cfg, b, c);
  }

  lemma AdmitBeside(cfg: Config, prefix: string, b: Buckets, files: Files, req: Request, now: nat, ttl: nat)
    requires Valid(cfg) && Durable(cfg, b, files) && !(prefix <= req.id)
    ensures var db := AdmitRequest(cfg, b, req, now, ttl).0; Durable(cfg, db, files) && Beside(prefix, b, files, db, files)
  {
    hide Inv, Settled, FilesMatch, ArchivedFiled, ActiveRoom;
    AdmitRequestDurable(cfg, b, files, req, now, ttl);
  }

  /** A request is admitted, the payload of an admitted one is published, or a published one is unlocked. */
  method AdmissionStep(s: Store, a: Archive, prefix: string)
    requires s.Consistent() && Durable(s.cfg, s.db, a.files)
    modifies s, a`files
    ensures s.Consistent() && Durable(s.cfg, s.db, a.files)
    ensures Beside(prefix, old(s.db), old(a.files), s.db, a.files)
  {
    hide Inv, Durable, Beside, Queue.Admit, Queue.AdmitArchiveOnly, Queue.FinalizeArchive;
    var cfg, db, files := s.cfg, s.db, a.files;
    BesideReflexive(prefix, db, files);
    var id: string, event: string, body: string, chats: seq<string> := *, *, *, *;
    var now: nat, ttl: nat :| true;
    if {
      case !(prefix <= id) =>
        AdmitBeside(cfg, prefix, db, files, Request(id, event, body, true, chats), now, ttl);
        var r := s.Admit(id, event, body, chats, now, ttl);
      case !(prefix <= id) =>
        AdmitBeside(cfg, prefix, db, files, Request(id, event, body, false, chats), now, ttl);
        var r := s.AdmitArchiveOnly(id, event, body);
      case id in db.states && id !in files =>
        PublishBeside(cfg, prefix, db, files, id);
        a.files := files[id := File(db.states[id].event, db.states[id].digest)];
      case id in files =>
        FinalizeBeside(cfg, prefix, db, files, id);
        var r := s.FinalizeArchive(id);
      case true =>
    }
  }

  lemma PublishBeside(cfg: Config, prefix: string, b: Buckets, files: Files, id: string)
    requires Durable(cfg, b, files) && id in b.states && id !in files
    ensures var later := files[id := File(b.states[id].event, b.states[id].digest)];
            Durable(cfg, b, later) && Beside(prefix, b, files, b, later)
  {
    hide Inv, Settled;
    SameContinues(b);
  }

  lemma FinalizeBeside(cfg: Config, prefix: string, b: Buckets, files: Files, id: string)
    requires Valid(cfg) && Durable(cfg, b, files) && id in files
    ensures var db := Queue.FinalizeArchive(cfg, b, id).0;
            && Durable(cfg, db, files) && Beside(prefix, b, files, db, files)
            && id in db.states && db.states[id].archived
  {
    hide Inv, Settled, FilesMatch, ArchivedFiled;
    FinalizeDurable(cfg, b, files, id);
  }

  /** The worker completes, deletes or fails items it read, or takes a slot. */
  method WorkerStep(s: Store, a: Archive, prefix: string)
    requires s.Consistent() && Durable(s.cfg, s.db, a.files)
    modifies s
    ensures s.Consistent() && Durable(s.cfg, s.db, a.files)
    ensures Beside(prefix, old(s.db), a.files, s.db, a.files)
  {
    hide Inv, Durable, Beside, DeliverAll, Queue.CompleteChatDelivery, Queue.HandleFailure;
    var cfg, db, files := s.cfg, s.db, a.files;
    var now: nat, limit: nat :| true;
    var chat: string := *;
    var f: Failure := *;
    var items := s.Due(now, limit);
    DueIsArchived(db, items, f);
    if {
      case true =>
        OtherBeside(cfg, prefix, db, files, Delete(Sequences(items)));
        s.Delete(items);
      case true =>
        OtherBeside(cfg, prefix, db, files, Complete(Sequences(items), chat));
        s.CompleteChatDelivery(items, chat);
      case true =>
        OtherBeside(cfg, prefix, db, files, Call.Fail(Sequences(items), f));
        var r := s.HandleFailure(items, f);
      case true =>
        OtherBeside(cfg, prefix, db, files, Reserve(now));
        var wait := s.ReserveRequest(now);
    }
  }

  lemma DueIsArchived(b: Buckets, items: seq<Item>, f: Failure)
    requires forall item <- items :: item.sequence in b.queue && b.queue[item.sequence] == item && item.archived
    ensures FromDue(b, Call.Fail(Sequences(items), f))
  {
    var seqs := Sequences(items);
    forall s | s in seqs && s in b.queue ensures b.queue[s].archived {
      var i :| 0 <= i < |seqs| && seqs[i] == s;
      assert items[i] in items;
    }
  }

  method UpkeepStep(s: Store, a: Archive, prefix: string)
    requires s.Consistent() && Durable(s.cfg, s.db, a.files)
    modifies s
    ensures s.Consistent() && Durable(s.cfg, s.db, a.files)
    ensures Beside(prefix, old(s.db), a.files, s.db, a.files)
  {
    hide Inv, Durable, Beside, Queue.RequeueDeadLetter;
    var cfg, db, files := s.cfg, s.db, a.files;
    var sequence: nat, now: nat, limit: int :| true;
    if {
      case true =>
        OtherBeside(cfg, prefix, db, files, Requeue(sequence, now));
        var r := s.RequeueDeadLetter(sequence, now);
      case true =>
        OtherBeside(cfg, prefix, db, files, CleanupDedupe(now, limit));
        s.CleanupDedupe(now, limit);
    }
  }

  /** Any number of steps of other goroutines. */
  method Others(s: Store, a: Archive, prefix: string)
    requires s.Consistent() && Durable(s.cfg, s.db, a.files)
    modifies s, a`files
    ensures s.Consistent() && Durable(s.cfg, s.db, a.files)
    ensures Beside(prefix, old(s.db), old(a.files), s.db, a.files)
  {
    hide Inv, Durable, Beside;
    var n: nat :| 0 <= n;
    BesideReflexive(prefix, s.db, a.files);
    for i := 0 to n
      invariant s.Consistent() && Durable(s.cfg, s.db, a.files)
      invariant Beside(prefix, old(s.db), old(a.files), s.db, a.files)
    {
      ghost var db, files := s.db, a.files;
      if {
        case true => AdmissionStep(s, a, prefix);
        case true => WorkerStep(s, a, prefix);
        case true => UpkeepStep(s, a, prefix);
      }
      BesideTransitive(prefix, old(s.db), old(a.files), db, files, s.db, a.files);
    }
  }
}
