/** The card states, and bringing one card and its status reaction up to date with a failure possible at every call. */
module Cards {
  import opened ByteOrder
  import opened Options
  import opened Workflow

  /** workflowReaction. */
  function WorkflowReaction(conclusion: string): string {
    match conclusion
    case "success" => "DONE"
    case "failure" => "ERROR"
    case "timed_out" => "ERROR"
    case "action_required" => "ERROR"
    case "cancelled" => "CrossMark"
    case "skipped" => "CrossMark"
    case "neutral" => "CrossMark"
    case "stale" => "CrossMark"
    case _ => ""
  }

  /** gitlabPipelineReaction. */
  function PipelineReaction(conclusion: string): string {
    match conclusion
    case "success" => "DONE"
    case "failed" => "ERROR"
    case "canceled" => "CrossMark"
    case "skipped" => "CrossMark"
    case _ => ""
  }

  /** The stored reaction has an ID and a type, or neither. */
  predicate Paired(s: State) {
    s.reactionID == "" <==> s.reactionType == ""
  }

  predicate Reconciled(s: State, reaction: string) {
    s.messageID != "" && s.reactionType == reaction && (s.reactionID == "" <==> reaction == "")
  }

  /** A later state of the same card that differs in its message and reaction only. */
  predicate SameRun(s: State, later: State) {
    later == s.(messageID := later.messageID, reactionID := later.reactionID, reactionType := later.reactionType)
  }

  /** The answers of Lark and the store to the calls of one attempt. The client never returns an empty ID. */
  datatype Answers = Answers(
    slots: seq<bool>,
    messageID: Option<string>,
    updated: bool,
    messageStored: bool,
    deleted: bool,
    cleared: bool,
    reactionID: Option<string>,
    reactionStored: bool)

  predicate ClientAnswers(a: Answers) {
    |a.slots| == 3 && a.messageID != Some("") && a.reactionID != Some("")
  }

  class CardStore {
    var bucket: map<string, State>

    constructor ()
      ensures bucket == map[]
    {
      bucket := map[];
    }

    /** UpsertWorkflow; None is the error for an update without repository or suite. */
    method UpsertWorkflow(u: Update) returns (r: Option<(string, State)>)
      modifies this
      ensures u.repository == "" || u.suiteID == "" ==> r == None && bucket == old(bucket)
      ensures u.repository != "" && u.suiteID != "" ==>
                var v := u.(repositoryID := Or(u.repositoryID, u.repository));
                var s := if Key(u) in old(bucket) then old(bucket)[Key(u)] else Fresh(v);
                && r == Some((Key(u), Merge(s, v))) && bucket == old(bucket)[Key(u) := Merge(s, v)]
    {
      if u.repository == "" || u.suiteID == "" {
        return None;
      }
      var update := u;
      if update.repositoryID == "" {
        update := update.(repositoryID := update.repository);
      }
      var key := update.repositoryID + NUL + update.suiteID;
      if update.chatID != "" {
        key := update.chatID + NUL + key;
      }
      var state := if key in bucket then bucket[key] else Fresh(update);
      state := MergeUpdate(state, update);
      bucket := bucket[key := state];
      return Some((key, state));
    }

    method SetMessage(key: string, messageID: string) returns (ok: bool)
      modifies this
      ensures ok == (key in old(bucket))
      ensures bucket == if ok then old(bucket)[key := old(bucket)[key].(messageID := messageID)] else old(bucket)
    {
      if key !in bucket {
        return false;
      }
      bucket := bucket[key := bucket[key].(messageID := messageID)];
      return true;
    }

    method SetReaction(key: string, reactionID: string, reactionType: string) returns (ok: bool)
      modifies this
      ensures ok == (key in old(bucket))
      ensures bucket == if ok then
                          old(bucket)[key := old(bucket)[key].(reactionID := reactionID, reactionType := reactionType)]
                        else old(bucket)
    {
      if key !in bucket {
        return false;
      }
      bucket := bucket[key := bucket[key].(reactionID := reactionID, reactionType := reactionType)];
      return true;
    }

    /** What the store holds between transactions: no card has half a reaction. */
    ghost predicate AllPaired()
      reads this
    {
      forall key <- bucket :: Paired(bucket[key])
    }
  }

  /** Merging a delivery leaves the message and the reaction alone, so a card stays paired between attempts. */
  lemma MergeKeepsReaction(s: State, u: Update)
    ensures var r := Merge(s, u);
            r.messageID == s.messageID && r.reactionID == s.reactionID && r.reactionType == s.reactionType
    ensures Paired(s) ==> Paired(Merge(s, u))
    ensures Paired(Fresh(u))
  {
  }

  /** How far an attempt got: all the way, to a slot it was not granted, to a call that Lark refused, to a failing store. */
  datatype Halt = Through | NoSlot(i: nat) | RefusedCall | StoreError

  /** Taking off a reaction of an earlier conclusion and putting on the one for the current. */
  function Reacted(s: State, reaction: string, a: Answers): (State, Halt)
    requires ClientAnswers(a)
  {
    var stale := s.reactionID != "" && reaction != s.reactionType;
    if stale && !a.slots[1] then (s, NoSlot(1))
    else if stale && !a.deleted then (s, RefusedCall)
    else if stale && !a.cleared then (s, StoreError)
    else
      var clean := if stale then s.(reactionID := "", reactionType := "") else s;
      if reaction == "" || reaction == clean.reactionType then (clean, Through)
      else if !a.slots[2] then (clean, NoSlot(2))
      else if a.reactionID.None? then (clean, RefusedCall)
      else if !a.reactionStored then (clean, StoreError)
      else (clean.(reactionID := a.reactionID.value, reactionType := reaction), Through)
  }

  /** Lark accepts the card itself: the creation of a new one, or the update of one that exists. */
  predicate CardAccepted(s: State, a: Answers) {
    if s.messageID == "" then a.messageID.Some? else a.updated
  }

  /** One attempt to bring a card up to date, as a function: what it has stored when it ends, and where it stops. */
  function Attempt(s: State, reaction: string, a: Answers): (State, Halt)
    requires ClientAnswers(a)
  {
    if !a.slots[0] then (s, NoSlot(0))
    else if !CardAccepted(s, a) then (s, RefusedCall)
    else if s.messageID == "" && !a.messageStored then (s, StoreError)
    else Reacted(if s.messageID == "" then s.(messageID := a.messageID.value) else s, reaction, a)
  }

  lemma AttemptReconciles(s: State, reaction: string, a: Answers)
    requires ClientAnswers(a) && Paired(s)
    ensures var (r, h) := Attempt(s, reaction, a);
            SameRun(s, r) && Paired(r) && (h.Through? ==> Reconciled(r, reaction))
  {
  }

  predicate NothingFails(a: Answers) {
    && a.slots == [true, true, true] && a.messageID.Some? && a.updated && a.messageStored && a.deleted && a.cleared
    && a.reactionID.Some? && a.reactionStored
  }

  /**
   * An attempt stops only where something failed: at a slot it was not granted, at a call that Lark refused, at a store
   * error. If nothing failed, it gets through.
   */
  lemma AttemptStopsAtFault(s: State, reaction: string, a: Answers)
    requires ClientAnswers(a)
    ensures match Attempt(s, reaction, a).1
            case Through => true
            case NoSlot(i) => i < 3 && !a.slots[i]
            case RefusedCall => !CardAccepted(s, a) || !a.deleted || a.reactionID.None?
            case StoreError => !a.messageStored || !a.cleared || !a.reactionStored
    ensures NothingFails(a) ==> Attempt(s, reaction, a).1 == Through
  {
  }

  /**
   * What an attempt leaves behind: a card that has a message keeps it, one without gets it exactly if Lark created it and
   * the store took it; a reaction that fits stays as it is, one that does not is never kept once its deletion is stored;
   * and no reaction is stored but the one that fits.
   */
  lemma AttemptRemembers(s: State, reaction: string, a: Answers)
    requires ClientAnswers(a) && Paired(s)
    ensures var (r, h) := Attempt(s, reaction, a);
            var reached := a.slots[0] && CardAccepted(s, a) && (s.messageID == "" ==> a.messageStored);
            && r.messageID == (if s.messageID == "" && reached then a.messageID.value else s.messageID)
            && (!reached || s.reactionType == reaction ==> r.reactionID == s.reactionID && r.reactionType == s.reactionType)
            && (reached && s.reactionType != reaction ==>
                  if s.reactionID != "" && !(a.slots[1] && a.deleted && a.cleared) then
                    r.reactionID == s.reactionID && r.reactionType == s.reactionType
                  else if reaction != "" && a.slots[2] && a.reactionID.Some? && a.reactionStored then
                    r.reactionID == a.reactionID.value && r.reactionType == reaction
                  else r.reactionID == "" && r.reactionType == "")
  {
  }

  /** The life of one card: deliveries merged into it, and attempts to send it, each cut short anywhere. */
  datatype Event = Merged(u: Update) | Tried(a: Answers)

  function Lived(s: State, reactionOf: string -> string, events: seq<Event>): (State, bool)
    requires forall e <- events :: e.Tried? ==> ClientAnswers(e.a)
  {
    if events == [] then (s, false)
    else
      var front, last := events[..|events| - 1], events[|events| - 1];
      assert last in events && forall e <- front :: e in events;
      var before := Lived(s, reactionOf, front).0;
      match last
      case Merged(u) => (Merge(before, u), false)
      case Tried(a) => var (s, h) := Attempt(before, reactionOf(before.conclusion), a); (s, h.Through?)
  }

  /** Once a card has its message it keeps it: it is never created twice. */
  lemma {:induction false} MessageIsKept(s: State, reactionOf: string -> string, events: seq<Event>)
    requires s.messageID != "" && forall e <- events :: e.Tried? ==> ClientAnswers(e.a)
    ensures Lived(s, reactionOf, events).0.messageID == s.messageID
  {
    hide Merge, Reacted;
    if events != [] {
      var front, last := events[..|events| - 1], events[|events| - 1];
      assert last in events && forall e <- front :: e in events;
      MessageIsKept(s, reactionOf, front);
      var before := Lived(s, reactionOf, front).0;
      match last
      case Merged(u) => MergeKeepsReaction(before, u);
      case Tried(a) => ReactedKeepsMessage(before, reactionOf(before.conclusion), a);
    }
  }

  lemma ReactedKeepsMessage(s: State, reaction: string, a: Answers)
    requires ClientAnswers(a)
    ensures Reacted(s, reaction, a).0.messageID == s.messageID
  {
  }

  /**
   * Over the whole life of a card, whatever failed in between: ID and type of the reaction are stored together or
   * not at all, and whenever an attempt completes the stored reaction is the one for the current conclusion.
   */
  lemma {:induction false} ReactionsAreReconciled(u: Update, reactionOf: string -> string, events: seq<Event>)
    requires forall e <- events :: e.Tried? ==> ClientAnswers(e.a)
    ensures var (s, done) := Lived(Fresh(u), reactionOf, events);
            Paired(s) && (done ==> Reconciled(s, reactionOf(s.conclusion)))
  {
    hide Merge, Attempt;
    if events != [] {
      var front, last := events[..|events| - 1], events[|events| - 1];
      assert last in events && forall e <- front :: e in events;
      ReactionsAreReconciled(u, reactionOf, front);
      var before := Lived(Fresh(u), reactionOf, front).0;
      match last
      case Merged(v) => MergeKeepsReaction(before, v);
      case Tried(a) => AttemptReconciles(before, reactionOf(before.conclusion), a);
    }
  }
}
