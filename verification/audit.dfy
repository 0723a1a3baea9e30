/** The audit-log poller: an overlapping query window behind a durable checkpoint. Times are nanoseconds. */
module Audit {
  import opened Queue
  import opened QueueInvariant
  import opened QueueCounters
  import opened QueueRuns
  import opened Archive
  import opened Store
  import opened Admission
  import opened Neighbours
  import opened Options

  const SECOND: int := 1_000_000_000
  const MILLISECOND: int := 1_000_000
  const OVERLAP: int := 300 * SECOND

  // ----- Records and their timestamps -----

  /** A JSON timestamp: a string, parsed as RFC 3339 if it can be, an integer, or something else. */
  datatype Stamp = Text(at: Option<int>) | Number(n: int) | Other

  function ParseStamp(s: Stamp): Option<int> {
    match s
    case Text(at) => at
    case Number(n) => Some(if -100_000_000_000 < n < 100_000_000_000 then n * SECOND else n * MILLISECOND)
    case Other => None
  }

  /**
   * The Unix seconds and the Unix milliseconds of one instant are both read as that instant exactly if the seconds are
   * zero or have nine to eleven digits: fewer, and the milliseconds are taken for seconds; more, and the seconds for
   * milliseconds.
   */
  lemma SecondsAndMillisecondsAgree(seconds: int)
    ensures ParseStamp(Number(seconds)) == ParseStamp(Number(1000 * seconds)) == Some(seconds * SECOND)
            <==> seconds == 0 || 100_000_000 <= seconds < 100_000_000_000 || -100_000_000_000 < seconds <= -100_000_000
  {
  }

  /** A record: its document ID, its bytes, and its created_at, @timestamp and timestamp fields in this order. */
  datatype Record = Record(documentID: string, raw: string, stamps: seq<Stamp>)

  function FirstStamp(stamps: seq<Stamp>): Option<int> {
    if stamps == [] then None
    else match ParseStamp(stamps[0])
         case Some(t) => Some(t)
         case None => FirstStamp(stamps[1..])
  }

  function CreatedAt(r: Record): Option<int> {
    FirstStamp(r.stamps)
  }

  /** A record was created at the time of the first of its fields that can be read; it has no time if none can be. */
  lemma {:induction false} FirstReadableStampCounts(stamps: seq<Stamp>, k: nat)
    requires k <= |stamps| && forall i :: 0 <= i < k ==> ParseStamp(stamps[i]).None?
    ensures FirstStamp(stamps) == FirstStamp(stamps[k..])
    ensures k < |stamps| && ParseStamp(stamps[k]).Some? ==> FirstStamp(stamps) == ParseStamp(stamps[k])
    ensures k == |stamps| ==> FirstStamp(stamps) == None
  {
    if k == 0 {
      assert stamps[0..] == stamps;
    } else {
      FirstReadableStampCounts(stamps[1..], k - 1);
      assert stamps[1..][k - 1..] == stamps[k..];
    }
  }

  function Created(r: Record): int {
    match CreatedAt(r)
    case Some(t) => t
    case None => 0
  }

  /** The delivery ID; a record without document ID is identified by the digest of its bytes. */
  function AuditID(org: string, r: Record): (id: string)
    ensures Prefix(org) <= id
  {
    Prefix(org) + if r.documentID != "" then r.documentID else r.raw
  }

  /** Every delivery ID of the organization's audit records starts with this, and no other delivery ID does. */
  function Prefix(org: string): string { "audit:" + org + ":" }

  /**
   * Two records are one delivery: they have the same document ID, or, without document IDs, the same bytes, or the
   * document ID of one is the digest of the other.
   */
  predicate OneDelivery(r: Record, q: Record) {
    if r.documentID != "" && q.documentID != "" then r.documentID == q.documentID
    else if r.documentID == "" && q.documentID == "" then r.raw == q.raw
    else if r.documentID != "" then r.documentID == q.raw
    else q.documentID == r.raw
  }

  /** Records share a delivery ID exactly if they are one delivery; nothing else of them matters. */
  lemma AuditIDsAgreeIff(org: string, r: Record, q: Record)
    ensures AuditID(org, r) == AuditID(org, q) <==> OneDelivery(r, q)
  {
    var n := |Prefix(org)|;
    assert AuditID(org, r)[n..] == if r.documentID != "" then r.documentID else r.raw;
    assert AuditID(org, q)[n..] == if q.documentID != "" then q.documentID else q.raw;
  }

  /** Records of two organizations never share one: the name of an organization has no colon. */
  lemma OrganizationsAreSeparate(org: string, other: string, r: Record, q: Record)
    requires ':' !in org && ':' !in other && AuditID(org, r) == AuditID(other, q)
    ensures org == other
    decreases |org|
  {
    if |org| > |other| {
      OrganizationsAreSeparate(other, org, q, r);
    } else {
      var id := AuditID(org, r);
      assert id[6 + |org|] == ':';
      assert forall i :: 0 <= i < |org| ==> org[i] == id[6 + i];
      assert forall i :: 0 <= i < |other| ==> other[i] == id[6 + i];
    }
  }

  /** The record is archived, unlocked, and was queued: it owns a sequence, which archive-only deliveries do not. */
  ghost predicate AdmittedRecord(b: Buckets, org: string, r: Record) {
    && Identified(b, AuditID(org, r), "audit_log", r.raw)
    && b.states[AuditID(org, r)].archived && b.states[AuditID(org, r)].sequence > 0
  }

  /** Every delivery with this prefix was queued. */
  ghost predicate AllQueued(prefix: string, b: Buckets) {
    forall id <- b.states :: prefix <= id ==> b.states[id].sequence > 0
  }

  /** The lower bound of the query: the checkpoint cut to its second, five minutes earlier, not before the epoch. */
  function QueryStart(checkpoint: int): int {
    var second := (checkpoint / SECOND) * SECOND;
    if second < OVERLAP then 0 else second - OVERLAP
  }

  /**
   * The query starts at a whole second, early enough for everything within the overlap, and no more than a second earlier
   * than that.
   */
  lemma QueryOverlaps(checkpoint: int, created: int)
    ensures QueryStart(checkpoint) % SECOND == 0
    ensures created > checkpoint - OVERLAP && created >= 0 ==> created >= QueryStart(checkpoint)
    ensures created <= checkpoint - OVERLAP - SECOND ==> created < QueryStart(checkpoint)
  {
  }

  // ----- One poll -----

  /** The durable state of one organization's poll, and the store it admits into. */
  datatype State = State(checkpoint: Option<int>, bootstrap: Option<int>, db: Buckets)

  /** A record passes if it is newer than the bootstrap; without one, every record passes. */
  ghost predicate Passes(bootstrap: Option<int>, r: Record) {
    bootstrap.Some? ==> CreatedAt(r).Some? && CreatedAt(r).value > bootstrap.value
  }

  /** What happens from the start of a poll to its end, whether or not it succeeds, other goroutines included. */
  ghost predicate Polled(org: string, s: State, later: State, now: int, fetched: seq<Record>, ok: bool) {
    && Continues(s.db, later.db)
    && if s.checkpoint.None? then
         && (later.checkpoint, later.bootstrap) == (if ok then (Some(now), Some(now)) else (s.checkpoint, s.bootstrap))
         && (forall id <- later.db.states :: Prefix(org) <= id ==> id in s.db.states)
       else
         && later.bootstrap == s.bootstrap
         && later.checkpoint == (if ok then Some(now) else s.checkpoint)
         && (forall id <- later.db.states :: Prefix(org) <= id ==> id in s.db.states || FromRecords(org, s.bootstrap, fetched, id))
         && (ok ==> forall r <- fetched :: Passes(s.bootstrap, r) ==> AdmittedRecord(later.db, org, r))
  }

  /** The store and archive errors, or cancellations, that can hit the steps of the admission of one record. */
  datatype Faults = Faults(lookup: bool, verify: bool, reserve: bool, admit: bool, write: bool, finalize: bool)

  const NO_FAULTS := Faults(false, false, false, false, false, false)

  /** Why a record was not admitted; `at` is the state that the refusing transaction found. */
  datatype Refusal = Admitted | Faulty | Conflicting(at: Buckets) | NoSpace | Full(at: Buckets)

  ghost predicate Justified(why: Refusal, cfg: Config, minFree: nat, from: Buckets, id: string, raw: string, now: nat, free: nat, faults: Faults)
    requires |raw| <= MAX_UINT64
  {
    match why
    case Admitted => true
    case Faulty => faults != NO_FAULTS
    case Conflicting(at) => Continues(from, at) && id in at.states && !Identified(at, id, "audit_log", raw)
    case NoSpace => !HasRoom(minFree, free, AdmissionRequired(|raw|))
    case Full(at) => Continues(from, at) && id !in at.states && !ActiveRoom(cfg, at, NewItem(at, id, "audit_log", raw, [], now))
  }

  /** How a poll ended. */
  datatype End = Finished | Cancelled | NotFetched | Unstamped(i: nat) | Refused(i: nat, refusal: Refusal)

  /** A poll that does not finish was cancelled, or not answered, or met a record that it could not place or admit. */
  ghost predicate Explained(end: End, cfg: Config, minFree: nat, org: string, s: State, now: nat, fetched: Option<seq<Record>>,
                            free: nat -> nat, faults: nat -> Faults, cancelAt: nat)
    requires fetched.Some? ==> forall r <- fetched.value :: |r.raw| <= MAX_UINT64
  {
    match end
    case Finished => true
    case Cancelled => cancelAt <= if s.checkpoint.Some? && fetched.Some? then |fetched.value| else 0
    case NotFetched => s.checkpoint.Some? && fetched.None?
    case Unstamped(i) => fetched.Some? && i < |fetched.value| && s.bootstrap.Some? && CreatedAt(fetched.value[i]).None?
    case Refused(i, refusal) =>
      && fetched.Some? && i < |fetched.value| && !refusal.Admitted? && Passes(s.bootstrap, fetched.value[i])
      && fetched.value[i] in fetched.value
      && Justified(refusal, cfg, minFree, s.db, AuditID(org, fetched.value[i]), fetched.value[i].raw, now, free(i), faults(i))
  }

  ghost predicate FromRecords(org: string, bootstrap: Option<int>, records: seq<Record>, id: string) {
    exists r <- records :: AuditID(org, r) == id && Passes(bootstrap, r)
  }

  class Poller {
    const org: string
    const ttl: nat
    const store: Store
    const archive: Archive
    var checkpoint: Option<int>
    var bootstrap: Option<int>

    constructor (org: string, ttl: nat, store: Store, archive: Archive)
      ensures this.org == org && this.ttl == ttl && this.store == store && this.archive == archive
      ensures checkpoint == None && bootstrap == None
    {
      this.org, this.ttl, this.store, this.archive := org, ttl, store, archive;
      checkpoint, bootstrap := None, None;
    }

    ghost function Snapshot(): State
      reads this, store
    {
      State(checkpoint, bootstrap, store.db)
    }

    ghost predicate Sound()
      reads this, store, archive
    {
      store.Consistent() && Durable(store.cfg, store.db, archive.files) && !archive.locked && AllQueued(Prefix(org), store.db)
    }

    /** The other goroutines, while this one may hold the archive lock. */
    method Wait(ghost from: Buckets, ghost fromFiles: Files, ghost id: string)
      requires store.Consistent() && Durable(store.cfg, store.db, archive.files)
      requires AddsOnly(Prefix(org), id, from, fromFiles, store.db, archive.files)
      modifies store, archive`files
      ensures store.Consistent() && Durable(store.cfg, store.db, archive.files)
      ensures AddsOnly(Prefix(org), id, from, fromFiles, store.db, archive.files)
      ensures Continues(old(store.db), store.db) && Extends(old(archive.files), archive.files)
      ensures Continues(from, store.db) && AllQueued(Prefix(org), store.db)
    {
      hide Inv, Durable, Beside, AddsOnly, AllQueued;
      ghost var db, files := store.db, archive.files;
      Others(store, archive, Prefix(org));
      BesideAddsOnly(Prefix(org), id, from, fromFiles, db, files, store.db, archive.files);
      AddsOnlyContinues(Prefix(org), id, from, fromFiles, store.db, archive.files);
    }

    /**
     * The admission steps for one record, in order, with other goroutines at work in between; `free` is the space
     * seen by the reservation. It fails only for a fault, a conflict, or a lack of space on disk or in the queue.
     */
    method AdmitRecord(r: Record, now: nat, free: nat, faults: Faults) returns (ok: bool, ghost why: Refusal)
      requires Sound() && |r.raw| <= MAX_UINT64
      modifies store, archive
      ensures Sound()
      ensures AddsOnly(Prefix(org), AuditID(org, r), old(store.db), old(archive.files), store.db, archive.files)
      ensures ok ==> AdmittedRecord(store.db, org, r)
      ensures ok <==> why.Admitted?
      ensures Justified(why, store.cfg, archive.minFree, old(store.db), AuditID(org, r), r.raw, now, free, faults)
    {
      hide Inv, Durable, AddsOnly, Queue.FinalizeArchive, Queue.Admit, Published, Continues, Extends, AllQueued, ActiveRoom, HasRoom;
      ghost var from, fromFiles := store.db, archive.files;
      var id := AuditID(org, r);
      AddsOnlyReflexive(Prefix(org), id, from, fromFiles);
      Wait(from, fromFiles, id);
      if faults.lookup {
        return false, Faulty;
      }
      var found, archived := store.LookupDelivery(id, "audit_log", r.raw);
      if found.Fail? {
        return false, Conflicting(store.db);
      }
      ghost var seen := store.db;
      Wait(from, fromFiles, id);
      if found.value {
        if faults.verify {
          return false, Faulty;
        }
        StillIdentified(seen, store.db, id, "audit_log", r.raw);
        PublishDurable(store.cfg, store.db, archive.files, id, "audit_log", r.raw);
        if id in archive.files {
          if archived {
            QueuedRecord(from, fromFiles, store.db, archive.files, org, r);
            return true, Admitted;
          }
          if faults.finalize {
            return false, Faulty;
          }
          FinishDelivery(from, fromFiles, id, r);
          return true, Admitted;
        }
      }
      if faults.reserve {
        return false, Faulty;
      }
      var reservation := archive.Reserve(AdmissionRequired(|r.raw|), free);
      if reservation == null {
        return false, NoSpace;
      }
      ok, why := AdmitReserved(reservation, r, now, free, faults, from, fromFiles);
      reservation.Release();
    }

    /** Under the archive lock: the admission, the payload, the unlocking. */
    method AdmitReserved(reservation: Reservation, r: Record, now: nat, ghost free: nat, faults: Faults,
                         ghost from: Buckets, ghost fromFiles: Files) returns (ok: bool, ghost why: Refusal)
      requires store.Consistent() && Durable(store.cfg, store.db, archive.files) && |r.raw| <= MAX_UINT64
      requires reservation.archive == archive && !reservation.released
      requires AddsOnly(Prefix(org), AuditID(org, r), from, fromFiles, store.db, archive.files)
      modifies store, archive`files
      ensures store.Consistent() && Durable(store.cfg, store.db, archive.files)
      ensures AddsOnly(Prefix(org), AuditID(org, r), from, fromFiles, store.db, archive.files) && AllQueued(Prefix(org), store.db)
      ensures ok ==> AdmittedRecord(store.db, org, r)
      ensures ok <==> why.Admitted?
      ensures Justified(why, store.cfg, archive.minFree, from, AuditID(org, r), r.raw, now, free, faults)
    {
      hide Inv, Durable, AddsOnly, Queue.FinalizeArchive, Queue.Admit, Published, Continues, Extends, AllQueued, ActiveRoom, HasRoom;
      var id := AuditID(org, r);
      ghost var seen;
      Wait(from, fromFiles, id);
      if faults.admit {
        return false, Faulty;
      }
      ghost var db := store.db;
      if Queue.Admit(store.cfg, db, id, "audit_log", r.raw, [], now, ttl).1.Fail? {
        AdmitRefused(store.cfg, db, id, "audit_log", r.raw, [], now, ttl);
      }
      AdmitRequestDurable(store.cfg, db, archive.files, Request(id, "audit_log", r.raw, true, []), now, ttl);
      AdmitAddsOne(store.cfg, db, id, "audit_log", r.raw, [], now, ttl);
      AddsOneMore(Prefix(org), id, from, fromFiles, db, archive.files, Queue.Admit(store.cfg, db, id, "audit_log", r.raw, [], now, ttl).0);
      var admitted := store.Admit(id, "audit_log", r.raw, [], now, ttl);
      if admitted.Fail? {
        return false, if id in db.states then Conflicting(db) else Full(db);
      }
      seen := store.db;
      Wait(from, fromFiles, id);
      StillIdentified(seen, store.db, id, "audit_log", r.raw);
      PublishDurable(store.cfg, store.db, archive.files, id, "audit_log", r.raw);
      ghost var files := archive.files;
      var stored := reservation.Store("audit_log", id, r.raw, faults.write);
      FilesGrow(Prefix(org), id, from, fromFiles, store.db, files, archive.files);
      if !stored {
        return false, Faulty;
      }
      seen, files := store.db, archive.files;
      Wait(from, fromFiles, id);
      StillIdentified(seen, store.db, id, "audit_log", r.raw);
      StillFiled(files, archive.files, id);
      if faults.finalize {
        return false, Faulty;
      }
      FinishDelivery(from, fromFiles, id, r);
      return true, Admitted;
    }

    /** FinalizeArchive for an archived record. */
    method FinishDelivery(ghost from: Buckets, ghost fromFiles: Files, id: string, ghost r: Record)
      requires store.Consistent() && Durable(store.cfg, store.db, archive.files)
      requires id == AuditID(org, r) && id in archive.files && Identified(store.db, id, "audit_log", r.raw)
      requires AddsOnly(Prefix(org), id, from, fromFiles, store.db, archive.files)
      modifies store
      ensures store.Consistent() && Durable(store.cfg, store.db, archive.files)
      ensures AddsOnly(Prefix(org), id, from, fromFiles, store.db, archive.files)
      ensures AdmittedRecord(store.db, org, r) && AllQueued(Prefix(org), store.db)
    {
      hide Inv, Durable, AddsOnly, Queue.FinalizeArchive, Continues, Extends, Beside, AllQueued;
      ghost var db := store.db;
      FinalizeBeside(store.cfg, Prefix(org), db, archive.files, id);
      BesideAddsOnly(Prefix(org), id, from, fromFiles, db, archive.files,
                     Queue.FinalizeArchive(store.cfg, db, id).0, archive.files);
      StillIdentified(db, Queue.FinalizeArchive(store.cfg, db, id).0, id, "audit_log", r.raw);
      QueuedRecord(from, fromFiles, Queue.FinalizeArchive(store.cfg, db, id).0, archive.files, org, r);
      AddsOnlyContinues(Prefix(org), id, from, fromFiles, Queue.FinalizeArchive(store.cfg, db, id).0, archive.files);
      var finalized := store.FinalizeArchive(id);
    }

    /**
     * PollOnce. `fetched` is what the API returned for the query, or None if the request failed; `cancelAt` is
     * the record before which the context is cancelled, if any; `faults` are the faults met by each record.
     */
    method PollOnce(now: nat, fetched: Option<seq<Record>>, free: nat -> nat, faults: nat -> Faults, cancelAt: nat)
      returns (ok: bool, ghost end: End)
      requires Sound()
      requires fetched.Some? ==> forall r <- fetched.value :: |r.raw| <= MAX_UINT64
      modifies this, store, archive
      ensures Sound()
      ensures Polled(org, old(Snapshot()), Snapshot(), now, if fetched.Some? then fetched.value else [], ok)
      ensures ok <==> end.Finished?
      ensures Explained(end, store.cfg, archive.minFree, org, old(Snapshot()), now, fetched, free, faults, cancelAt)
    {
      hide Inv, Durable, Beside, Continues, Passes, AdmittedRecord, AddsOnly, AllQueued, Justified;
      ghost var before, files := store.db, archive.files;
      Others(store, archive, Prefix(org));
      NothingAdded(org, before, files, store.db, archive.files);
      BesideQueued(Prefix(org), before, files, store.db, archive.files);
      if checkpoint.None? {
        if cancelAt == 0 {
          return false, Cancelled;
        }
        checkpoint, bootstrap := Some(now), Some(now);
        return true, Finished;
      }
      if fetched.None? {
        return false, NotFetched;
      }
      var records := fetched.value;
      for i := 0 to |records|
        invariant Sound() && checkpoint == old(checkpoint) && bootstrap == old(bootstrap)
        invariant Continues(before, store.db)
        invariant forall id <- store.db.states :: Prefix(org) <= id ==> id in before.states || FromRecords(org, bootstrap, records, id)
        invariant forall j :: 0 <= j < i && Passes(bootstrap, records[j]) ==> AdmittedRecord(store.db, org, records[j])
      {
        if i == cancelAt {
          return false, Cancelled;
        }
        var r := records[i];
        if bootstrap.Some? {
          var created := CreatedAt(r);
          if created.None? {
            return false, Unstamped(i);
          }
          if created.value <= bootstrap.value {
            NotPassed(bootstrap, r);
            continue;
          }
        }
        Passed(bootstrap, r);
        ghost var earlier, earlierFiles := store.db, archive.files;
        ghost var why;
        var admitted;
        admitted, why := AdmitRecord(r, now, free(i), faults(i));
        JustifiedBefore(why, store.cfg, archive.minFree, before, earlier, AuditID(org, r), r.raw, now, free(i), faults(i));
        OneRecord(org, bootstrap, records, r, before, earlier, earlierFiles, store.db, archive.files);
        AdmittedStay(earlier, store.db, org, records[..i]);
        if !admitted {
          return false, Refused(i, why);
        }
      }
      ghost var last, lastFiles := store.db, archive.files;
      Others(store, archive, Prefix(org));
      NothingAdded(org, last, lastFiles, store.db, archive.files);
      BesideQueued(Prefix(org), last, lastFiles, store.db, archive.files);
      ContinuesTransitive(before, last, store.db);
      AdmittedStay(last, store.db, org, records);
      if cancelAt == |records| {
        return false, Cancelled;
      }
      checkpoint := Some(now);
      return true, Finished;
    }
  }

  /** Nothing is forgotten, of the deliveries with the prefix at most this one is new, and all of them were queued. */
  ghost predicate AddsOnly(prefix: string, id: string, b: Buckets, files: Files, later: Buckets, laterFiles: Files) {
    && Continues(b, later) && Extends(files, laterFiles)
    && (forall j <- later.states :: prefix <= j ==> j in b.states || j == id)
    && AllQueued(prefix, later)
  }

  lemma AddsOnlyReflexive(prefix: string, id: string, b: Buckets, files: Files)
    requires AllQueued(prefix, b)
    ensures AddsOnly(prefix, id, b, files, b, files)
  {
  }

  lemma AddsOnlyContinues(prefix: string, id: string, b: Buckets, files: Files, later: Buckets, laterFiles: Files)
    requires AddsOnly(prefix, id, b, files, later, laterFiles)
    ensures Continues(b, later) && AllQueued(prefix, later)
  {
  }

  lemma BesideAddsOnly(prefix: string, id: string, a: Buckets, f: Files, b: Buckets, g: Files, c: Buckets, h: Files)
    requires AddsOnly(prefix, id, a, f, b, g) && Beside(prefix, b, g, c, h)
    ensures AddsOnly(prefix, id, a, f, c, h) && Continues(b, c) && Extends(g, h)
  {
  }

  lemma BesideQueued(prefix: string, b: Buckets, files: Files, later: Buckets, laterFiles: Files)
    requires AllQueued(prefix, b) && Beside(prefix, b, files, later, laterFiles)
    ensures AllQueued(prefix, later)
  {
  }

  lemma AddsOneMore(prefix: string, id: string, a: Buckets, f: Files, b: Buckets, g: Files, c: Buckets)
    requires AddsOnly(prefix, id, a, f, b, g) && Continues(b, c) && c.states.Keys <= b.states.Keys + {id}
    requires id in c.states && id !in b.states ==> c.states[id].sequence > 0
    ensures AddsOnly(prefix, id, a, f, c, g)
  {
  }

  /** An archived record of the organization is an admitted one. */
  lemma QueuedRecord(from: Buckets, fromFiles: Files, b: Buckets, files: Files, org: string, r: Record)
    requires AddsOnly(Prefix(org), AuditID(org, r), from, fromFiles, b, files)
    requires Identified(b, AuditID(org, r), "audit_log", r.raw) && b.states[AuditID(org, r)].archived
    ensures AdmittedRecord(b, org, r)
  {
  }

  lemma AdmitRefused(cfg: Config, b: Buckets, id: string, event: string, raw: string, chats: seq<string>, now: nat, ttl: nat)
    requires Queue.Admit(cfg, b, id, event, raw, chats, now, ttl).1.Fail?
    ensures if id in b.states then !Identified(b, id, event, raw)
            else !ActiveRoom(cfg, b, NewItem(b, id, event, raw, chats, now))
  {
  }

  lemma JustifiedBefore(why: Refusal, cfg: Config, minFree: nat, before: Buckets, from: Buckets, id: string, raw: string,
                        now: nat, free: nat, faults: Faults)
    requires |raw| <= MAX_UINT64 && Continues(before, from)
    requires Justified(why, cfg, minFree, from, id, raw, now, free, faults)
    ensures Justified(why, cfg, minFree, before, id, raw, now, free, faults)
  {
  }

  lemma FilesGrow(prefix: string, id: string, a: Buckets, f: Files, b: Buckets, g: Files, h: Files)
    requires AddsOnly(prefix, id, a, f, b, g) && Extends(g, h)
    ensures AddsOnly(prefix, id, a, f, b, h)
  {
  }

  lemma StillIdentified(b: Buckets, later: Buckets, id: string, event: string, raw: string)
    requires Identified(b, id, event, raw) && Continues(b, later)
    ensures Identified(later, id, event, raw)
    ensures b.states[id].archived ==> later.states[id].archived
  {
  }

  lemma StillFiled(files: Files, later: Files, id: string)
    requires id in files && Extends(files, later)
    ensures id in later
  {
  }

  lemma NothingAdded(org: string, b: Buckets, files: Files, later: Buckets, laterFiles: Files)
    requires Beside(Prefix(org), b, files, later, laterFiles)
    ensures Continues(b, later)
    ensures forall id <- later.states :: Prefix(org) <= id ==> id in b.states
  {
  }

  lemma NotPassed(bootstrap: Option<int>, r: Record)
    requires bootstrap.Some? && CreatedAt(r).Some? && CreatedAt(r).value <= bootstrap.value
    ensures !Passes(bootstrap, r)
  {
  }

  lemma Passed(bootstrap: Option<int>, r: Record)
    requires bootstrap.Some? ==> CreatedAt(r).Some? && CreatedAt(r).value > bootstrap.value
    ensures Passes(bootstrap, r)
  {
  }

  lemma OneRecord(org: string, bootstrap: Option<int>, records: seq<Record>, r: Record,
                  before: Buckets, b: Buckets, files: Files, later: Buckets, laterFiles: Files)
    requires Continues(before, b) && r in records && Passes(bootstrap, r)
    requires forall id <- b.states :: Prefix(org) <= id ==> id in before.states || FromRecords(org, bootstrap, records, id)
    requires AddsOnly(Prefix(org), AuditID(org, r), b, files, later, laterFiles)
    ensures Continues(before, later) && Continues(b, later)
    ensures forall id <- later.states :: Prefix(org) <= id ==> id in before.states || FromRecords(org, bootstrap, records, id)
  {
    hide Passes;
  }

  lemma AdmitAddsOne(cfg: Config, b: Buckets, id: string, event: string, raw: string, chats: seq<string>, now: nat, ttl: nat)
    ensures var r := Queue.Admit(cfg, b, id, event, raw, chats, now, ttl).0;
            r.states.Keys <= b.states.Keys + {id} && (id in r.states && id !in b.states ==> r.states[id].sequence > 0)
  {
  }

  lemma AdmittedStay(b: Buckets, later: Buckets, org: string, records: seq<Record>)
    requires Continues(b, later)
    ensures forall r <- records :: AdmittedRecord(b, org, r) ==> AdmittedRecord(later, org, r)
  {
  }

  // ----- Whole runs: no gap -----

  /** The API: it returns only records from the query start on, and every such record visible when the poll began. */
  ghost predicate Fetches(all: Record -> bool, visible: Record -> int, start: int, pollStarted: int, fetched: seq<Record>) {
    && (forall r <- fetched :: all(r) && Created(r) >= start)
    && (forall r :: all(r) && Created(r) >= start && visible(r) <= pollStarted ==> r in fetched)
  }

  /** Every record is stamped, appears within five minutes of its creation, and is a delivery of its own. */
  ghost predicate Timely(all: Record -> bool, visible: Record -> int) {
    && (forall r :: all(r) ==> CreatedAt(r).Some? && Created(r) <= visible(r) <= Created(r) + OVERLAP)
    && (forall r, q :: all(r) && all(q) && OneDelivery(r, q) ==> r == q)
  }

  lemma EachHasItsID(org: string, all: Record -> bool, visible: Record -> int)
    requires Timely(all, visible)
    ensures forall r, q :: all(r) && all(q) && AuditID(org, r) == AuditID(org, q) ==> r == q
  {
    forall r, q | all(r) && all(q) && AuditID(org, r) == AuditID(org, q) ensures r == q {
      AuditIDsAgreeIff(org, r, q);
    }
  }

  datatype Step = Poll(now: int, fetched: seq<Record>, ok: bool) | Elsewhere

  /** Between polls other actors work on the store, under delivery IDs that are not audit records. */
  ghost predicate StepAllowed(org: string, all: Record -> bool, visible: Record -> int, s: State, step: Step, later: State) {
    match step
    case Poll(now, fetched, ok) =>
      && now >= 0
      && (s.checkpoint.Some? ==> Fetches(all, visible, QueryStart(s.checkpoint.value), now, fetched))
      && Polled(org, s, later, now, fetched, ok)
    case Elsewhere =>
      && later.checkpoint == s.checkpoint && later.bootstrap == s.bootstrap && Continues(s.db, later.db)
      && (forall id <- later.db.states :: Prefix(org) <= id ==> id in s.db.states)
  }

  ghost predicate Trace(org: string, all: Record -> bool, visible: Record -> int, states: seq<State>, steps: seq<Step>) {
    && |states| == |steps| + 1
    && states[0].checkpoint == None && states[0].bootstrap == None
    && (forall r :: all(r) ==> AuditID(org, r) !in states[0].db.states)
    && (forall i :: 0 <= i < |steps| ==> StepAllowed(org, all, visible, states[i], steps[i], states[i + 1]))
  }

  /** Up to the checkpoint nothing after the bootstrap is missing, and nothing before the bootstrap was admitted. */
  ghost predicate NoGap(org: string, all: Record -> bool, visible: Record -> int, s: State) {
    && (s.checkpoint.None? <==> s.bootstrap.None?)
    && (s.checkpoint.None? ==> forall r :: all(r) ==> AuditID(org, r) !in s.db.states)
    && (s.checkpoint.Some? ==>
          && s.bootstrap.value >= 0
          && (forall r :: all(r) && Created(r) > s.bootstrap.value && visible(r) <= s.checkpoint.value
                ==> AdmittedRecord(s.db, org, r))
          && (forall r :: all(r) && Created(r) <= s.bootstrap.value ==> AuditID(org, r) !in s.db.states))
  }

  lemma FirstPollKeepsNoGap(org: string, all: Record -> bool, visible: Record -> int, s: State, step: Step, later: State)
    requires Timely(all, visible) && NoGap(org, all, visible, s) && s.checkpoint.None?
    requires step.Poll? && StepAllowed(org, all, visible, s, step, later)
    ensures NoGap(org, all, visible, later)
  {
  }

  /** The heart of the argument: a record that became visible since the last checkpoint lies in the query window. */
  lemma NewlyVisibleIsFetched(all: Record -> bool, visible: Record -> int, checkpoint: int, now: int,
                              fetched: seq<Record>, r: Record)
    requires Timely(all, visible) && Fetches(all, visible, QueryStart(checkpoint), now, fetched)
    requires all(r) && Created(r) >= 0 && checkpoint < visible(r) <= now
    ensures r in fetched
  {
    QueryOverlaps(checkpoint, Created(r));
  }

  lemma LaterPollKeepsNoGap(org: string, all: Record -> bool, visible: Record -> int, s: State, step: Step, later: State)
    requires Timely(all, visible) && NoGap(org, all, visible, s) && s.checkpoint.Some?
    requires step.Poll? && StepAllowed(org, all, visible, s, step, later)
    ensures NoGap(org, all, visible, later)
  {
    EachHasItsID(org, all, visible);
    forall r | all(r) && Created(r) > s.bootstrap.value && visible(r) <= later.checkpoint.value
      ensures AdmittedRecord(later.db, org, r)
    {
      if visible(r) <= s.checkpoint.value {
        assert AdmittedRecord(s.db, org, r);
      } else {
        NewlyVisibleIsFetched(all, visible, s.checkpoint.value, step.now, step.fetched, r);
        assert Passes(s.bootstrap, r);
      }
    }
  }

  lemma ElsewhereKeepsNoGap(org: string, all: Record -> bool, visible: Record -> int, s: State, later: State)
    requires NoGap(org, all, visible, s) && StepAllowed(org, all, visible, s, Elsewhere, later)
    ensures NoGap(org, all, visible, later)
  {
    if s.checkpoint.Some? {
      forall r | all(r) && Created(r) > s.bootstrap.value && visible(r) <= s.checkpoint.value
        ensures AdmittedRecord(later.db, org, r)
      {
        assert AdmittedRecord(s.db, org, r);
      }
    }
  }

  lemma {:induction false} TraceHasNoGap(org: string, all: Record -> bool, visible: Record -> int,
                                         states: seq<State>, steps: seq<Step>, k: nat)
    requires Timely(all, visible) && Trace(org, all, visible, states, steps) && k < |states|
    ensures NoGap(org, all, visible, states[k])
  {
    hide Timely, Fetches, NoGap;
    if k == 0 {
      StartHasNoGap(org, all, visible, states[0]);
    } else {
      TraceHasNoGap(org, all, visible, states, steps, k - 1);
      var s, step, later := states[k - 1], steps[k - 1], states[k];
      assert StepAllowed(org, all, visible, s, step, later);
      match step
      case Poll(_, _, _) =>
        if s.checkpoint.None? {
          FirstPollKeepsNoGap(org, all, visible, s, step, later);
        } else {
          LaterPollKeepsNoGap(org, all, visible, s, step, later);
        }
      case Elsewhere => ElsewhereKeepsNoGap(org, all, visible, s, later);
    }
  }

  lemma StartHasNoGap(org: string, all: Record -> bool, visible: Record -> int, s: State)
    requires s.checkpoint.None? && s.bootstrap.None? && forall r :: all(r) ==> AuditID(org, r) !in s.db.states
    ensures NoGap(org, all, visible, s)
  {
  }

  /**
   * No audit gap: when a poll succeeds, every record created after the bootstrap and visible when that poll
   * began is archived and has been admitted exactly once, however many polls failed before; and no record from
   * before the bootstrap ever is. Poll times need not even be ordered.
   */
  lemma NoAuditGap(org: string, all: Record -> bool, visible: Record -> int,
                   states: seq<State>, steps: seq<Step>, k: nat, r: Record)
    requires Timely(all, visible) && Trace(org, all, visible, states, steps)
    requires k < |steps| && steps[k].Poll? && steps[k].ok && states[k].checkpoint.Some?
    requires all(r) && Conserved(states[k + 1].db)
    ensures states[k + 1].bootstrap.Some?
    ensures var db, boot := states[k + 1].db, states[k + 1].bootstrap.value;
            && (Created(r) > boot && visible(r) <= steps[k].now ==> AdmittedRecord(db, org, r) && QueuedOnce(db, AuditID(org, r)))
            && (Created(r) <= boot ==> AuditID(org, r) !in db.states)
  {
    hide Timely, Fetches;
    TraceHasNoGap(org, all, visible, states, steps, k + 1);
    assert StepAllowed(org, all, visible, states[k], steps[k], states[k + 1]);
    TraceHasNoGap(org, all, visible, states, steps, k);
    if AuditID(org, r) in states[k + 1].db.states {
      Placement(states[k + 1].db, AuditID(org, r));
    }
  }
}
