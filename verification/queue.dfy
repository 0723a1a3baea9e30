/**
 * The durable queue: buckets, and each bbolt transaction as a function from the buckets it found to the
 * buckets it commits. A transaction that returns an error commits nothing.
 */
module Queue {
  import opened Totals
  import Dedupe
  import RateLimit

  datatype Item = Item(
    sequence: nat,
    deliveryID: string,
    event: string,
    receivedAt: nat,
    raw: string,
    attempts: nat,
    nextAttempt: nat,
    lastError: string,
    archived: bool,
    chatIDs: seq<string>)

  datatype DeadItem = DeadItem(item: Item, failedAt: nat)

  datatype Status = Queued | Dead | Delivered | ArchiveOnly

  /** The permanent identity of a delivery. The SHA-256 digest is represented by the payload it was taken of. */
  datatype DeliveryState = DeliveryState(
    event: string,
    digest: string,
    sequence: nat,
    status: Status,
    archived: bool,
    raw: string)

  datatype Error = QueueFull | NotFound | DuplicateItem | DeliveryConflict | StatsUnderflow | StatsOverflow

  datatype Outcome<+T> = Ok(value: T) | Fail(error: Error)

  datatype Buckets = Buckets(
    queue: map<nat, Item>,
    dead: map<nat, DeadItem>,
    states: map<string, DeliveryState>,
    next: nat,
    count: nat,
    bytes: nat,
    deadCount: nat,
    deadBytes: nat,
    dedupe: Dedupe.Index,
    limiter: RateLimit.Limiter)

  const Empty := Buckets(map[], map[], map[], 0, 0, 0, 0, 0, Dedupe.Empty, RateLimit.Fresh)

  /**
   * The limits, and the JSON lengths the accounting depends on: `head` of the immutable fields of an item,
   * `quoted` of one chat ID, `deadSize` of an encoded dead letter.
   */
  datatype Config = Config(
    maxItems: nat,
    maxBytes: nat,
    dedupeMax: nat,
    deadMaxItems: nat,
    deadMaxBytes: nat,
    head: (nat, string, string, nat, string) -> nat,
    quoted: string -> nat,
    deadSize: DeadItem -> nat)

  const U64: nat := 0x1_0000_0000_0000_0000

  /** The limits are uint64 values, and configuration loading rejects a dedupe limit of zero. */
  predicate Valid(cfg: Config) {
    cfg.maxItems < U64 && cfg.maxBytes < U64 && cfg.deadMaxItems < U64 && cfg.deadMaxBytes < U64
    && 0 < cfg.dedupeMax < U64
  }

  /** uint64 subtraction, wrapping. */
  function Minus(a: nat, b: nat): nat {
    (a - b) % U64
  }

  // ----- Sizes -----

  const METADATA_RESERVE: nat := 512

  function QuotedList(cfg: Config, chats: seq<string>): nat {
    if chats == [] then 0 else cfg.quoted(chats[0]) + 1 + QuotedList(cfg, chats[1..])
  }

  /** The field ,"chat_ids":[...] of the encoding; it is omitted when empty. */
  function ChatField(cfg: Config, chats: seq<string>): nat {
    if chats == [] then 0 else 13 + QuotedList(cfg, chats)
  }

  function ActiveItemBytes(cfg: Config, item: Item): nat {
    cfg.head(item.sequence, item.deliveryID, item.event, item.receivedAt, item.raw)
    + ChatField(cfg, item.chatIDs) + METADATA_RESERVE
  }

  ghost function ActiveWeight(cfg: Config): Item -> nat {
    (item: Item) => ActiveItemBytes(cfg, item)
  }

  ghost function ActiveTotal(cfg: Config, queue: map<nat, Item>): nat {
    Total(queue, ActiveWeight(cfg))
  }

  ghost function DeadTotal(cfg: Config, dead: map<nat, DeadItem>): nat {
    Total(dead, cfg.deadSize)
  }

  predicate ActiveRoom(cfg: Config, b: Buckets, item: Item) {
    !(b.count >= cfg.maxItems || b.bytes > cfg.maxBytes || ActiveItemBytes(cfg, item) > cfg.maxBytes - b.bytes)
  }

  // ----- Admission -----

  function NewItem(b: Buckets, id: string, event: string, raw: string, chats: seq<string>, now: nat): Item {
    Item(b.next + 1, id, event, now, raw, 0, now, "", false, chats)
  }

  function Admit(cfg: Config, b: Buckets, id: string, event: string, raw: string, chats: seq<string>, now: nat, ttl: nat)
    : (Buckets, Outcome<bool>)
  {
    if id in b.states then
      (b, if b.states[id].event != event || b.states[id].digest != raw then Fail(DeliveryConflict) else Ok(true))
    else
      var item := NewItem(b, id, event, raw, chats, now);
      if !ActiveRoom(cfg, b, item) then (b, Fail(QueueFull))
      else
        var dedupe := Dedupe.Evicted(Dedupe.Cleaned(b.dedupe, now, 1000), Minus(cfg.dedupeMax, 1));
        (b.(queue := b.queue[item.sequence := item],
            states := b.states[id := DeliveryState(event, raw, item.sequence, Queued, false, raw)],
            next := item.sequence,
            count := b.count + 1,
            bytes := b.bytes + ActiveItemBytes(cfg, item),
            dedupe := Dedupe.Put(dedupe, id, now + ttl)),
         Ok(false))
  }

  function AdmitArchiveOnly(b: Buckets, id: string, event: string, raw: string): (Buckets, Outcome<bool>) {
    if id in b.states then
      (b, if b.states[id].event != event || b.states[id].digest != raw then Fail(DeliveryConflict) else Ok(true))
    else
      (b.(states := b.states[id := DeliveryState(event, raw, 0, ArchiveOnly, false, raw)]), Ok(false))
  }

  function LookupDelivery(b: Buckets, id: string, event: string, raw: string): Outcome<bool> {
    if id !in b.states then Ok(false)
    else if b.states[id].event != event || b.states[id].digest != raw then Fail(DeliveryConflict)
    else Ok(true)
  }

  function FinalizeArchive(cfg: Config, b: Buckets, id: string): (Buckets, Outcome<()>) {
    if id !in b.states then (b, Fail(NotFound))
    else if b.states[id].archived then (b, Ok(()))
    else
      var state := b.states[id].(archived := true, raw := "");
      var done := b.(states := b.states[id := state]);
      if state.sequence !in b.queue then (done, Ok(()))
      else
        var item := b.queue[state.sequence];
        var unlocked := item.(archived := true);
        var oldBytes, newBytes := ActiveItemBytes(cfg, item), ActiveItemBytes(cfg, unlocked);
        if b.bytes < oldBytes then (b, Fail(StatsUnderflow))
        else if U64 - 1 - (b.bytes - oldBytes) < newBytes then (b, Fail(StatsOverflow))
        else (done.(queue := b.queue[state.sequence := unlocked], bytes := b.bytes - oldBytes + newBytes), Ok(()))
  }

  // ----- Completion -----

  function WithStatus(states: map<string, DeliveryState>, id: string, status: Status): map<string, DeliveryState> {
    if id in states then states[id := states[id].(status := status)] else states
  }

  /** The queue entry s is gone and its delivery is marked delivered; the counters are left alone. */
  function Removed(b: Buckets, s: nat): Buckets
    requires s in b.queue
  {
    b.(queue := b.queue - {s}, states := WithStatus(b.states, b.queue[s].deliveryID, Delivered))
  }

  function DeliverOne(cfg: Config, b: Buckets, s: nat): Buckets {
    if s !in b.queue then b
    else
      var item := b.queue[s];
      Removed(b, s).(count := Minus(b.count, 1), bytes := Minus(b.bytes, ActiveItemBytes(cfg, item)))
  }

  /** Delete. */
  function DeliverAll(cfg: Config, b: Buckets, seqs: seq<nat>): Buckets {
    if seqs == [] then b
    else DeliverOne(cfg, DeliverAll(cfg, b, seqs[..|seqs| - 1]), seqs[|seqs| - 1])
  }

  function Without(chats: seq<string>, chat: string): (r: seq<string>) {
    if chats == [] then []
    else if chats[0] == chat then Without(chats[1..], chat)
    else [chats[0]] + Without(chats[1..], chat)
  }

  function CompleteOne(b: Buckets, s: nat, chat: string): Buckets {
    if s !in b.queue then b
    else
      var item := b.queue[s];
      var remaining := Without(item.chatIDs, chat);
      if (item.chatIDs == [] && chat != "") || (item.chatIDs != [] && |remaining| == |item.chatIDs|) then b
      else if remaining != [] then b.(queue := b.queue[s := item.(chatIDs := remaining)])
      else Removed(b, s)
  }

  function CompleteAll(b: Buckets, seqs: seq<nat>, chat: string): Buckets {
    if seqs == [] then b
    else CompleteOne(CompleteAll(b, seqs[..|seqs| - 1], chat), seqs[|seqs| - 1], chat)
  }

  ghost function RebuildActiveStats(cfg: Config, b: Buckets): Buckets {
    b.(count := |b.queue|, bytes := ActiveTotal(cfg, b.queue))
  }

  ghost function RebuildDeadStats(cfg: Config, b: Buckets): Buckets {
    b.(deadCount := |b.dead|, deadBytes := DeadTotal(cfg, b.dead))
  }

  ghost function CompleteChatDelivery(cfg: Config, b: Buckets, seqs: seq<nat>, chat: string): Buckets {
    RebuildActiveStats(cfg, CompleteAll(b, seqs, chat))
  }

  // ----- Failure -----

  datatype Failure = Failure(
    now: nat,
    retryAt: nat,
    reason: string,
    retryAfter: nat,
    maxAttempts: int,
    permanent: bool)

  datatype FailureResult = FailureResult(retried: nat, deadLettered: nat, full: bool)

  /** At most the first 256 bytes. */
  function TrimReason(reason: string): (r: string)
    ensures r <= reason && |r| == if |reason| < 256 then |reason| else 256
  {
    if |reason| > 256 then reason[..256] else reason
  }

  predicate Exhausted(item: Item, f: Failure) {
    f.permanent || item.attempts + 1 >= f.maxAttempts
  }

  function Failed(item: Item, f: Failure): Item {
    item.(attempts := item.attempts + 1, lastError := TrimReason(f.reason))
  }

  function Retried(item: Item, f: Failure, full: bool): Item {
    var failed := Failed(item, f).(nextAttempt := f.retryAt);
    if full then failed.(lastError := TrimReason("dead-letter capacity full: " + TrimReason(f.reason))) else failed
  }

  /** The preflight: how many of the items would die, and the bytes they would take in the dead-letter bucket. */
  function Doomed(cfg: Config, b: Buckets, seqs: seq<nat>, f: Failure): (r: (nat, nat)) {
    if seqs == [] then (0, 0)
    else
      var before, s := Doomed(cfg, b, seqs[..|seqs| - 1], f), seqs[|seqs| - 1];
      if s in b.queue && Exhausted(b.queue[s], f)
      then (before.0 + 1, before.1 + cfg.deadSize(DeadItem(Failed(b.queue[s], f), f.now)))
      else before
  }

  predicate DeadLetterFull(cfg: Config, b: Buckets, seqs: seq<nat>, f: Failure) {
    var doomed := Doomed(cfg, b, seqs, f);
    doomed.0 > 0
    && (b.deadCount > cfg.deadMaxItems || b.deadBytes > cfg.deadMaxBytes
        || doomed.0 > cfg.deadMaxItems - b.deadCount || doomed.1 > cfg.deadMaxBytes - b.deadBytes)
  }

  function Buried(b: Buckets, s: nat, item: Item, at: nat): Buckets {
    b.(dead := b.dead[s := DeadItem(item, at)],
       queue := b.queue - {s},
       states := WithStatus(b.states, item.deliveryID, Dead))
  }

  function FailOne(b: Buckets, s: nat, f: Failure, full: bool): Buckets {
    if s !in b.queue then b
    else if Exhausted(b.queue[s], f) && !full then
      Buried(b, s, Failed(b.queue[s], f), f.now)
    else b.(queue := b.queue[s := Retried(b.queue[s], f, full)])
  }

  function FailAll(b: Buckets, seqs: seq<nat>, f: Failure, full: bool): Buckets {
    if seqs == [] then b
    else FailOne(FailAll(b, seqs[..|seqs| - 1], f, full), seqs[|seqs| - 1], f, full)
  }

  /** How many of the items stay in the queue for another attempt, and how many move to the dead letters. */
  function Outcomes(b: Buckets, seqs: seq<nat>, f: Failure, full: bool): (nat, nat) {
    if seqs == [] then (0, 0)
    else
      var before, s := Outcomes(b, seqs[..|seqs| - 1], f, full), seqs[|seqs| - 1];
      if s !in b.queue then before
      else if Exhausted(b.queue[s], f) && !full then (before.0, before.1 + 1)
      else (before.0 + 1, before.1)
  }

  ghost predicate NoRepeats(seqs: seq<nat>) {
    forall i, j :: 0 <= i < j < |seqs| ==> seqs[i] != seqs[j]
  }

  ghost function HandleFailure(cfg: Config, b: Buckets, seqs: seq<nat>, f: Failure): (Buckets, Outcome<FailureResult>) {
    if !NoRepeats(seqs) then (b, Fail(DuplicateItem))
    else
      var full := DeadLetterFull(cfg, b, seqs, f);
      var outcomes := Outcomes(b, seqs, f, full);
      var moved := FailAll(b, seqs, f, full);
      var cooled := moved.(limiter := RateLimit.Cooled(b.limiter, f.now, f.retryAfter));
      (RebuildDeadStats(cfg, RebuildActiveStats(cfg, cooled)),
       Ok(FailureResult(outcomes.0, outcomes.1, full)))
  }

  // ----- Requeue, reopen -----

  ghost function RequeueDeadLetter(cfg: Config, b: Buckets, s: nat, now: nat): (Buckets, Outcome<()>) {
    if s !in b.dead then (b, Fail(NotFound))
    else
      var item := b.dead[s].item.(attempts := 0, nextAttempt := now, lastError := "");
      if !ActiveRoom(cfg, b, item) then (b, Fail(QueueFull))
      else
        var id := item.deliveryID;
        var states := if id in b.states
                      then b.states[id := b.states[id].(sequence := s, status := Queued, archived := true, raw := "")]
                      else b.states;
        var moved := b.(queue := b.queue[s := item], dead := b.dead - {s}, states := states);
        (RebuildDeadStats(cfg, RebuildActiveStats(cfg, moved)), Ok(()))
  }
}
