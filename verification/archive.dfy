/** The permanent archive: one payload per delivery, written once, with a lock that serialises admissions. */
module Archive {

  datatype File = File(event: string, payload: string)

  type Files = map<string, File>

  datatype Existing = Missing | Same | Conflict

  /** verifyExisting: the directory of a delivery holds nothing, this very payload, or something else. */
  function VerifyExisting(files: Files, event: string, id: string, payload: string): Existing {
    if id !in files then Missing
    else if files[id] == File(event, payload) then Same
    else Conflict
  }

  /** store: publishing never replaces a file. */
  function Published(files: Files, event: string, id: string, payload: string): (Files, Existing) {
    var existing := VerifyExisting(files, event, id, payload);
    (if existing == Missing then files[id := File(event, payload)] else files, existing)
  }

  /** What is archived stays archived, byte for byte. */
  ghost predicate Extends(files: Files, later: Files) {
    forall id <- files :: id in later && later[id] == files[id]
  }

  lemma PublishedIsWriteOnce(files: Files, event: string, id: string, payload: string)
    ensures var r := Published(files, event, id, payload);
            && Extends(files, r.0)
            && id in r.0
            && (r.1 != Conflict <==> r.0[id] == File(event, payload))
  {
  }

  const MAX_UINT64: nat := 0xFFFF_FFFF_FFFF_FFFF
  const OVERHEAD: nat := 0x20_0000

  /** The space an admission reserves, saturating instead of wrapping. */
  function AdmissionRequired(payloadBytes: nat): (required: nat)
    requires payloadBytes <= MAX_UINT64
    ensures required == if 4 * payloadBytes + OVERHEAD <= MAX_UINT64 then 4 * payloadBytes + OVERHEAD else MAX_UINT64
  {
    if payloadBytes > (MAX_UINT64 - OVERHEAD) / 4 then MAX_UINT64 else 4 * payloadBytes + OVERHEAD
  }

  /** checkSpace. */
  predicate HasRoom(minFree: nat, free: nat, required: nat) {
    required != MAX_UINT64 && !(free < minFree || free - minFree < required)
  }

  /** An admission that passes the check leaves the configured reserve free, whatever the payload size. */
  lemma AdmissionLeavesReserve(minFree: nat, free: nat, payloadBytes: nat)
    requires payloadBytes <= MAX_UINT64 && free <= MAX_UINT64
    ensures HasRoom(minFree, free, AdmissionRequired(payloadBytes))
            <==> minFree + 4 * payloadBytes + OVERHEAD <= free && 4 * payloadBytes + OVERHEAD < MAX_UINT64
  {
  }

  class Archive {
    const minFree: nat
    var files: Files
    var locked: bool

    constructor (minFree: nat, files: Files)
      ensures this.minFree == minFree && this.files == files && !locked
    {
      this.minFree := minFree;
      this.files := files;
      locked := false;
    }

    /** Store outside a reservation, as recovery uses it: lock, check the space unless the payload is there, publish. */
    method Store(event: string, id: string, payload: string, free: nat) returns (stored: bool)
      requires !locked
      modifies this`files
      ensures files == if stored then Published(old(files), event, id, payload).0 else old(files)
      ensures stored <==> match VerifyExisting(old(files), event, id, payload)
                          case Same => true
                          case Conflict => false
                          case Missing => HasRoom(minFree, free, |payload|)
    {
      if id in files {
        return files[id] == File(event, payload);
      }
      if |payload| == MAX_UINT64 || free < minFree || free - minFree < |payload| {
        return false;
      }
      files := files[id := File(event, payload)];
      return true;
    }

    /** Waits for the lock, checks the space, and keeps the lock only on success. */
    method Reserve(required: nat, free: nat) returns (r: Reservation?)
      requires !locked
      modifies this`locked
      ensures (r != null) == HasRoom(minFree, free, required)
      ensures r != null ==> fresh(r) && r.archive == this && !r.released
      ensures locked == (r != null)
    {
      if required == MAX_UINT64 || free < minFree || free - minFree < required {
        return null;
      }
      locked := true;
      r := new Reservation(this);
    }
  }

  class Reservation {
    const archive: Archive
    var released: bool

    constructor (archive: Archive)
      ensures this.archive == archive && !released
    {
      this.archive := archive;
      released := false;
    }

    /** A released reservation stores nothing; `fault` is a disk error before the payload is published. */
    method Store(event: string, id: string, payload: string, fault: bool) returns (stored: bool)
      modifies archive`files
      ensures released || fault ==> !stored && archive.files == old(archive.files)
      ensures !released && !fault ==> var r := Published(old(archive.files), event, id, payload);
                                      archive.files == r.0 && stored == (r.1 != Conflict)
    {
      if released || fault {
        return false;
      }
      if id in archive.files {
        return archive.files[id] == File(event, payload);
      }
      archive.files := archive.files[id := File(event, payload)];
      return true;
    }

    /** Releasing twice does not free a lock that someone else took in between. */
    method Release()
      modifies this`released, archive`locked
      ensures released
      ensures archive.locked == (old(released) && old(archive.locked))
    {
      if !released {
        released := true;
        archive.locked := false;
      }
    }
  }
}
