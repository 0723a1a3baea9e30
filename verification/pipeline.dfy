/** GitLab pipeline cards: the gate in front of the merge, and their joint behaviour over every run. */
module Pipeline {
  import opened ByteOrder
  import opened Options
  import opened Workflow
  import opened Cards

  /** gitlabPipelineStatusRank. */
  function Rank(status: string): Option<nat> {
    match status
    case "created" => Some(0)
    case "waiting_for_resource" => Some(1)
    case "preparing" => Some(2)
    case "waiting_for_callback" => Some(3)
    case "pending" => Some(4)
    case "scheduled" => Some(4)
    case "manual" => Some(4)
    case "running" => Some(5)
    case "canceling" => Some(6)
    case "success" => Some(7)
    case "failed" => Some(7)
    case "skipped" => Some(7)
    case "canceled" => Some(8)
    case _ => None
  }

  predicate Final(status: string) {
    status == "success" || status == "failed" || status == "canceled" || status == "skipped"
  }

  /** gitlabPipelineAdvances. */
  predicate Advances(s: State, u: Update) {
    if s.status == "" || s.updatedAt == 0 then true
    else match Rank(u.status)
         case None => u.updatedAt > s.updatedAt
         case Some(incoming) =>
           match Rank(s.status)
           case None => true
           case Some(stored) =>
             if incoming > stored then true
             else if incoming < stored then false
             else u.updatedAt > s.updatedAt
  }

  /** gitlabPipelineKey. */
  function GateKey(chatID: string, u: Update): string {
    var repositoryID := if u.repositoryID != "" then u.repositoryID else u.repository;
    if chatID == "" then repositoryID + NUL + u.suiteID
    else chatID + NUL + (repositoryID + NUL + u.suiteID)
  }

  /** The gate reads the state that the merge then updates. */
  lemma GateReadsMergedKey(chatID: string, u: Update)
    ensures GateKey(chatID, u) == Key(u.(chatID := chatID))
  {
  }

  type Bucket = map<string, State>

  /** The stored card is already further than the update. */
  predicate Stale(bucket: Bucket, u: Update) {
    Key(u) in bucket && !Advances(bucket[Key(u)], u)
  }

  /** sendGitlabPipeline up to the card: gate, then merge; an update that does not advance is dropped. */
  function Deliver(bucket: Bucket, u: Update): Bucket {
    var key := Key(u);
    if Stale(bucket, u) then bucket
    else bucket[key := Merge(if key in bucket then bucket[key] else Fresh(u), u)]
  }

  function DeliverAll(bucket: Bucket, updates: seq<Update>): Bucket {
    if updates == [] then bucket else Deliver(DeliverAll(bucket, updates[..|updates| - 1]), updates[|updates| - 1])
  }

  /** A timed pipeline delivery with a known status, as gitlabPipelineUpdate builds it. */
  predicate IsPipelineUpdate(u: Update) {
    && u.check.None? && u.runAttempt == 0 && u.updatedAt > 0 && u.authoritative
    && Rank(u.status).Some?
    && u.conclusion == (if Final(u.status) then u.status else "")
  }

  /** A card that pipeline deliveries made: it has a known stage, and a conclusion exactly if that stage is final. */
  predicate IsPipelineCard(s: State) {
    && s.runAttempt == 0 && s.updatedAt > 0
    && Rank(s.status).Some?
    && s.conclusion == (if Final(s.status) then s.status else "")
  }

  lemma FinalIffLast(status: string)
    requires Rank(status).Some?
    ensures Final(status) <==> Rank(status).value >= 7
    ensures status != "completed" && status != ""
  {
  }

  lemma FirstDeliveryMakesCard(u: Update)
    requires IsPipelineUpdate(u)
    ensures IsPipelineCard(Merge(Fresh(u), u))
  {
  }

  /** One gated delivery keeps the card well formed and moves neither stage nor time backwards. */
  lemma DeliveryAdvances(s: State, u: Update)
    requires IsPipelineCard(s) && IsPipelineUpdate(u) && Advances(s, u)
    ensures var r := Merge(s, u);
            && IsPipelineCard(r)
            && Rank(r.status).value >= Rank(s.status).value && r.updatedAt >= s.updatedAt
  {
    hide Rank, Final;
    FinalIffLast(u.status);
    FinalIffLast(s.status);
  }

  ghost predicate AllCards(bucket: Bucket) {
    forall key <- bucket :: IsPipelineCard(bucket[key])
  }

  ghost predicate Regressed(before: State, later: State)
    requires IsPipelineCard(before) && IsPipelineCard(later)
  {
    Rank(later.status).value < Rank(before.status).value || later.updatedAt < before.updatedAt
  }

  /**
   * Over any run of timed deliveries, in any order and with any repetitions, cards stay well formed and none
   * ever goes back to an earlier stage or an earlier time.
   */
  lemma {:induction false} CardsNeverRegress(bucket: Bucket, updates: seq<Update>)
    requires AllCards(bucket) && forall u <- updates :: IsPipelineUpdate(u)
    ensures AllCards(DeliverAll(bucket, updates))
    ensures forall key <- bucket :: key in DeliverAll(bucket, updates) && !Regressed(bucket[key], DeliverAll(bucket, updates)[key])
  {
    hide Rank, IsPipelineCard, IsPipelineUpdate, Merge, Advances;
    if updates != [] {
      var front, last := updates[..|updates| - 1], updates[|updates| - 1];
      assert last in updates && forall u <- front :: u in updates;
      CardsNeverRegress(bucket, front);
      var before := DeliverAll(bucket, front);
      var key := Key(last);
      FirstDeliveryMakesCard(last);
      if key in before && Advances(before[key], last) {
        DeliveryAdvances(before[key], last);
      }
    }
  }

  /** The update with the repository name in place of a missing repository ID, as UpsertWorkflow completes it. */
  function Named(u: Update): Update {
    u.(repositoryID := Or(u.repositoryID, u.repository))
  }

  /** Neither key, gate nor merge look at what was completed. */
  lemma NamedSameKey(s: State, u: Update)
    ensures Key(Named(u)) == Key(u)
    ensures Advances(s, Named(u)) == Advances(s, u)
    ensures Merge(s, Named(u)) == Merge(s, u)
  {
    hide Rank, WithCheck;
    assert Taken(s, Named(u)) == Taken(s, u);
  }

  // ----- Convergence -----

  /** Deliveries of one pipeline. */
  ghost predicate OfPipeline(updates: set<Update>, key: string) {
    forall u <- updates :: IsPipelineUpdate(u) && Key(u) == key
  }

  /** No delivery has a higher stage or a later time, and one with the same stage rank and time says the same. */
  ghost predicate Dominates(m: Update, updates: set<Update>) {
    && m in updates
    && forall v <- updates ::
         && Rank(v.status).Some? && Rank(m.status).Some?
         && Rank(v.status).value <= Rank(m.status).value && v.updatedAt <= m.updatedAt
         && (Rank(v.status) == Rank(m.status) && v.updatedAt == m.updatedAt ==> v.status == m.status)
  }

  function ShownCard(bucket: Bucket, key: string): Option<View> {
    if key in bucket then Some(Shown(bucket[key])) else None
  }

  lemma FirstStageIsShown(u: Update)
    requires IsPipelineUpdate(u)
    ensures IsPipelineCard(Merge(Fresh(u), u)) && Shown(Merge(Fresh(u), u)) == Announced(u)
  {
    hide Rank, Final;
    FinalIffLast(u.status);
  }

  /** The delivery passes the gate with a time that the merge accepts. */
  predicate Supplants(u: Update, shown: Update)
    requires Rank(u.status).Some? && Rank(shown.status).Some?
  {
    var rise := Rank(u.status).value - Rank(shown.status).value;
    (rise > 0 && u.updatedAt >= shown.updatedAt) || (rise == 0 && u.updatedAt > shown.updatedAt)
  }

  lemma NextStage(s: State, shown: Update, u: Update)
    requires IsPipelineUpdate(shown) && IsPipelineUpdate(u)
    requires IsPipelineCard(s) && Shown(s) == Announced(shown)
    ensures var r := if Advances(s, u) then Merge(s, u) else s;
            IsPipelineCard(r) && Shown(r) == Announced(if Supplants(u, shown) then u else shown)
  {
    hide Rank, Final;
    FinalIffLast(u.status);
    FinalIffLast(shown.status);
  }

  /** Whatever was delivered, the card shows one of the deliveries; from the dominating one on, it shows that one. */
  lemma {:induction false} DominatingIsShown(bucket: Bucket, key: string, updates: seq<Update>, all: set<Update>, m: Update)
    returns (shown: Update)
    requires key !in bucket && updates != [] && OfPipeline(all, key) && Elements(updates) <= all && Dominates(m, all)
    ensures shown in updates && (m in updates ==> Announced(shown) == Announced(m))
    ensures var r := DeliverAll(bucket, updates); key in r && IsPipelineCard(r[key]) && Shown(r[key]) == Announced(shown)
    decreases |updates|
  {
    hide Rank, Merge, Shown, Advances, IsPipelineCard, Key;
    var front, last := updates[..|updates| - 1], updates[|updates| - 1];
    assert updates == front + [last];
    assert last in Elements(updates);
    if front == [] {
      FirstStageIsShown(last);
      shown := last;
    } else {
      assert Elements(front) <= Elements(updates);
      var before := DominatingIsShown(bucket, key, front, all, m);
      assert before in Elements(front);
      NextStage(DeliverAll(bucket, front)[key], before, last);
      shown := if Supplants(last, before) then last else before;
    }
  }

  /** Whatever the order and the repetitions, the card ends on the stage that dominates the others. */
  lemma LatestStageIsShown(bucket: Bucket, key: string, updates: seq<Update>, m: Update)
    requires key !in bucket && OfPipeline(Elements(updates), key) && Dominates(m, Elements(updates))
    ensures ShownCard(DeliverAll(bucket, updates), key) == Some(Announced(m))
  {
    hide DeliverAll, Dominates, OfPipeline;
    assert m in updates by { DominatorDelivered(m, updates); }
    var shown := DominatingIsShown(bucket, key, updates, Elements(updates), m);
  }

  lemma DominatorDelivered(m: Update, updates: seq<Update>)
    requires Dominates(m, Elements(updates))
    ensures m in updates
  {
  }

  /** Every delivery of the same updates, in any order and with any repetitions, ends with the same card. */
  ghost predicate Convergent(bucket: Bucket, key: string, updates: set<Update>) {
    forall p: seq<Update>, q: seq<Update> :: Elements(p) == updates && Elements(q) == updates
      ==> ShownCard(DeliverAll(bucket, p), key) == ShownCard(DeliverAll(bucket, q), key)
  }

  /** A delivery that none of the others supplants stays on the card. */
  lemma {:induction false} FirstStays(bucket: Bucket, key: string, first: Update, rest: seq<Update>, all: set<Update>)
    requires key !in bucket && OfPipeline(all, key) && first in all && Elements(rest) <= all
    requires forall v <- all :: !Supplants(v, first)
    ensures var r := DeliverAll(bucket, [first] + rest);
            key in r && IsPipelineCard(r[key]) && Shown(r[key]) == Announced(first)
    decreases |rest|
  {
    hide Rank, Merge, Shown, Announced, Advances, IsPipelineCard, Key, Supplants;
    var updates := [first] + rest;
    if rest == [] {
      assert updates[..0] == [] && updates[0] == first;
      assert DeliverAll(bucket, updates) == Deliver(bucket, first);
      FirstStageIsShown(first);
    } else {
      var front, last := rest[..|rest| - 1], rest[|rest| - 1];
      assert updates[..|updates| - 1] == [first] + front && updates[|updates| - 1] == last;
      assert last in Elements(rest) && Elements(front) <= Elements(rest);
      FirstStays(bucket, key, first, front, all);
      NextStage(DeliverAll(bucket, [first] + front)[key], first, last);
    }
  }

  /** The highest stage, and the latest of that stage. */
  lemma {:induction false} HighestExists(updates: set<Update>, key: string) returns (m: Update)
    requires updates != {} && OfPipeline(updates, key)
    ensures m in updates
    ensures forall v <- updates :: Rank(v.status).value < Rank(m.status).value
                                   || (Rank(v.status) == Rank(m.status) && v.updatedAt <= m.updatedAt)
    decreases |updates|
  {
    hide Rank, Key, Final;
    m :| m in updates;
    var rest := updates - {m};
    if rest != {} {
      var n := HighestExists(rest, key);
      if Rank(n.status).value > Rank(m.status).value || (Rank(n.status) == Rank(m.status) && n.updatedAt > m.updatedAt) {
        m := n;
      }
    }
  }

  /** The latest time, and the highest stage of that time. */
  lemma {:induction false} LatestExists(updates: set<Update>, key: string) returns (m: Update)
    requires updates != {} && OfPipeline(updates, key)
    ensures m in updates
    ensures forall v <- updates :: v.updatedAt < m.updatedAt
                                   || (v.updatedAt == m.updatedAt && Rank(v.status).value <= Rank(m.status).value)
    decreases |updates|
  {
    hide Rank, Key, Final;
    m :| m in updates;
    var rest := updates - {m};
    if rest != {} {
      var n := LatestExists(rest, key);
      if n.updatedAt > m.updatedAt || (n.updatedAt == m.updatedAt && Rank(n.status).value > Rank(m.status).value) {
        m := n;
      }
    }
  }

  lemma {:induction false} Listing(updates: set<Update>) returns (l: seq<Update>)
    ensures Elements(l) == updates
    decreases |updates|
  {
    l := [];
    if updates != {} {
      var u :| u in updates;
      var rest := Listing(updates - {u});
      l := rest + [u];
      assert Elements(l) == Elements(rest) + {u};
    }
  }

  lemma StartsWith(bucket: Bucket, key: string, updates: set<Update>, l: seq<Update>, first: Update)
    requires key !in bucket && OfPipeline(updates, key) && Elements(l) == updates && first in updates
    requires forall v <- updates :: !Supplants(v, first)
    ensures Elements([first] + l) == updates
    ensures ShownCard(DeliverAll(bucket, [first] + l), key) == Some(Announced(first))
  {
    hide DeliverAll, OfPipeline, Supplants;
    FirstStays(bucket, key, first, l, updates);
  }

  /**
   * The deliveries of a pipeline end with the same card in every order exactly if one of them dominates: the gate
   * compares stages, the merge behind it compares times, and where no delivery wins both, the order of arrival decides.
   */
  lemma StagesConvergeIff(bucket: Bucket, key: string, updates: set<Update>)
    requires key !in bucket && updates != {} && OfPipeline(updates, key)
    ensures Convergent(bucket, key, updates) <==> exists m :: Dominates(m, updates)
  {
    hide DeliverAll, ShownCard;
    if m :| Dominates(m, updates) {
      forall p: seq<Update>, q: seq<Update> | Elements(p) == updates && Elements(q) == updates
        ensures ShownCard(DeliverAll(bucket, p), key) == ShownCard(DeliverAll(bucket, q), key)
      {
        LatestStageIsShown(bucket, key, p, m);
        LatestStageIsShown(bucket, key, q, m);
      }
    }
    if Convergent(bucket, key, updates) {
      ConvergentDominated(bucket, key, updates);
    }
  }

  lemma ConvergentDominated(bucket: Bucket, key: string, updates: set<Update>)
    requires key !in bucket && updates != {} && OfPipeline(updates, key) && Convergent(bucket, key, updates)
    ensures exists m :: Dominates(m, updates)
  {
    hide DeliverAll, ShownCard, Key, Final, Rank;
    var l := Listing(updates);
    var m := HighestExists(updates, key);
    var x := LatestExists(updates, key);
    StartsWith(bucket, key, updates, l, m);
    StartsWith(bucket, key, updates, l, x);
    assert Announced(m) == Announced(x);
    forall v | v in updates && Rank(v.status) == Rank(m.status) && v.updatedAt == m.updatedAt
      ensures v.status == m.status
    {
      StartsWith(bucket, key, updates, l, v);
      assert Announced(m) == Announced(v);
    }
    assert Dominates(m, updates);
  }

  /** A higher stage is never older, and what has the same stage rank and the same time says the same. */
  ghost predicate Staged(updates: set<Update>, key: string) {
    && OfPipeline(updates, key)
    && forall u, v :: u in updates && v in updates ==> Agree(u, v)
  }

  ghost predicate Agree(u: Update, v: Update) {
    && Rank(u.status).Some? && Rank(v.status).Some?
    && (Rank(u.status).value > Rank(v.status).value ==> u.updatedAt >= v.updatedAt)
    && (Rank(u.status).value < Rank(v.status).value ==> u.updatedAt <= v.updatedAt)
    && (Rank(u.status) == Rank(v.status) && u.updatedAt == v.updatedAt ==> u.status == v.status)
  }

  /**
   * Stages that agree pair by pair converge, also where several stages carry the creation time of the pipeline.
   */
  lemma StagesConverge(bucket: Bucket, key: string, p: seq<Update>, q: seq<Update>)
    requires key !in bucket && p != [] && Elements(p) == Elements(q) && Staged(Elements(p), key)
    ensures ShownCard(DeliverAll(bucket, p), key) == ShownCard(DeliverAll(bucket, q), key)
  {
    hide DeliverAll, ShownCard, Key, Final, Rank;
    assert p[0] in Elements(p);
    var m := HighestExists(Elements(p), key);
    assert forall v <- Elements(p) :: Agree(m, v);
    LatestStageIsShown(bucket, key, p, m);
    LatestStageIsShown(bucket, key, q, m);
  }

  function DeliverBoth(u: Update, v: Update): State {
    var first := Merge(Fresh(u), u);
    if Advances(first, v) then Merge(first, v) else first
  }

  /** Two stages end with the same card in both orders exactly if they agree. */
  lemma TwoStagesConvergeIff(u: Update, v: Update)
    requires IsPipelineUpdate(u) && IsPipelineUpdate(v)
    ensures Shown(DeliverBoth(u, v)) == Shown(DeliverBoth(v, u)) <==> Agree(u, v)
  {
    hide Rank, Final, Merge, Shown, Advances, IsPipelineCard;
    FirstStageIsShown(u);
    FirstStageIsShown(v);
    NextStage(Merge(Fresh(u), u), u, v);
    NextStage(Merge(Fresh(v), v), v, u);
  }

  /** A pipeline that is pending and then manual: both deliveries carry its creation time, and the first one stays. */
  lemma PendingAndManualDiverge() returns (pending: Update, manual: Update)
    ensures IsPipelineUpdate(pending) && IsPipelineUpdate(manual) && Key(pending) == Key(manual)
    ensures Shown(DeliverBoth(pending, manual)).status == "pending" && Shown(DeliverBoth(manual, pending)).status == "manual"
  {
    pending := Update("", "gitlab:1", "acme/repo", "7", 7, 0, 0, "", "", "main", "", "pending", "", 10, true, None);
    manual := pending.(status := "manual");
    hide Merge, Shown, Advances, IsPipelineCard;
    FirstStageIsShown(pending);
    FirstStageIsShown(manual);
    NextStage(Merge(Fresh(pending), pending), pending, manual);
    NextStage(Merge(Fresh(manual), manual), manual, pending);
  }

  // ----- Retries -----

  /** The merge takes the delivery: it makes its card, or is not older than it. */
  predicate MergeTakes(bucket: Bucket, u: Update) {
    Key(u) !in bucket || u.updatedAt >= bucket[Key(u)].updatedAt
  }

  /** A delivery of the same pipeline, of the same stage rank or a higher one, that is not older than the card it meets. */
  ghost predicate OvertakenBy(bucket: Bucket, u: Update, more: seq<Update>, i: nat)
    requires i < |more|
  {
    && Key(more[i]) == Key(u)
    && Rank(more[i].status).Some? && Rank(u.status).Some? && Rank(more[i].status).value >= Rank(u.status).value
    && MergeTakes(DeliverAll(bucket, more[..i]), more[i])
  }

  ghost predicate Overtaken(bucket: Bucket, u: Update, more: seq<Update>) {
    exists i :: 0 <= i < |more| && OvertakenBy(bucket, u, more, i)
  }

  /**
   * A delivery whose card call failed is retried against a bucket that was changed by it and by whatever was delivered
   * while it waited. The retry is drained without touching Lark exactly if the first try was merged, or if another
   * delivery of its stage rank or above has been merged since; so "delivered" does not imply "sent".
   */
  lemma RetryIsDrainedIffMerged(bucket: Bucket, u: Update, more: seq<Update>)
    requires AllCards(bucket) && IsPipelineUpdate(u) && !Stale(bucket, u) && forall v <- more :: IsPipelineUpdate(v)
    ensures var tried := Deliver(bucket, u);
            Stale(DeliverAll(tried, more), u) <==> MergeTakes(bucket, u) || Overtaken(tried, u, more)
  {
    hide Rank, Final, Key, Merge, Advances, IsPipelineCard, IsPipelineUpdate, Overtaken;
    var tried := Deliver(bucket, u);
    TriedCard(bucket, u);
    CardsNeverRegress(tried, more);
    var later := DeliverAll(tried, more)[Key(u)];
    assert !Regressed(tried[Key(u)], later);
    NotAdvancingIff(later, u);
    if !MergeTakes(bucket, u) {
      OvertakenIffReached(tried, u, more);
    }
  }

  lemma NotAdvancingIff(s: State, u: Update)
    requires IsPipelineCard(s) && IsPipelineUpdate(u)
    ensures !Advances(s, u) <==> Rank(s.status).value > Rank(u.status).value
                                 || (Rank(s.status).value == Rank(u.status).value && s.updatedAt >= u.updatedAt)
  {
    hide Rank, Final;
    FinalIffLast(s.status);
    FinalIffLast(u.status);
  }

  /** The card after the first try: the delivery itself, or an unchanged card that is lower and newer. */
  lemma TriedCard(bucket: Bucket, u: Update)
    requires AllCards(bucket) && IsPipelineUpdate(u) && !Stale(bucket, u)
    ensures var tried := Deliver(bucket, u);
            && AllCards(tried) && Key(u) in tried
            && var s := tried[Key(u)];
               if MergeTakes(bucket, u) then Rank(s.status).value == Rank(u.status).value && s.updatedAt == u.updatedAt
               else Rank(s.status).value < Rank(u.status).value && s.updatedAt > u.updatedAt
  {
    hide Rank, Final, Key;
    FinalIffLast(u.status);
    if Key(u) in bucket {
      FinalIffLast(bucket[Key(u)].status);
      DeliveryAdvances(bucket[Key(u)], u);
    } else {
      FirstStageIsShown(u);
    }
  }

  /** A lower card reaches the stage rank of the delivery exactly if a merged delivery brings it there. */
  lemma {:induction false} OvertakenIffReached(bucket: Bucket, u: Update, more: seq<Update>)
    requires AllCards(bucket) && IsPipelineUpdate(u) && forall v <- more :: IsPipelineUpdate(v)
    requires Key(u) in bucket && Rank(bucket[Key(u)].status).value < Rank(u.status).value
    ensures var r := DeliverAll(bucket, more);
            && AllCards(r) && Key(u) in r
            && (Rank(r[Key(u)].status).value >= Rank(u.status).value <==> Overtaken(bucket, u, more))
    decreases |more|
  {
    hide Rank, Final, Key, Merge, Advances, IsPipelineCard, IsPipelineUpdate, OvertakenBy;
    CardsNeverRegress(bucket, more);
    if more != [] {
      var front, last := more[..|more| - 1], more[|more| - 1];
      assert last in more && forall v <- front :: v in more;
      CardsNeverRegress(bucket, front);
      OvertakenIffReached(bucket, u, front);
      OvertakenStep(bucket, u, more);
      if Key(last) == Key(u) {
        ReachedStep(DeliverAll(bucket, front), u, last);
      }
      OvertakenLast(bucket, u, more);
    }
  }

  lemma OvertakenStep(bucket: Bucket, u: Update, more: seq<Update>)
    requires more != []
    ensures Overtaken(bucket, u, more) <==>
              Overtaken(bucket, u, more[..|more| - 1]) || OvertakenBy(bucket, u, more, |more| - 1)
  {
    hide Rank, Key, MergeTakes;
    var front := more[..|more| - 1];
    forall i | 0 <= i < |front| ensures OvertakenBy(bucket, u, front, i) <==> OvertakenBy(bucket, u, more, i) {
      assert front[..i] == more[..i];
    }
  }

  lemma OvertakenLast(bucket: Bucket, u: Update, more: seq<Update>)
    requires more != [] && IsPipelineUpdate(u) && IsPipelineUpdate(more[|more| - 1])
    ensures OvertakenBy(bucket, u, more, |more| - 1) <==>
              && Key(more[|more| - 1]) == Key(u)
              && Rank(more[|more| - 1].status).value >= Rank(u.status).value
              && MergeTakes(DeliverAll(bucket, more[..|more| - 1]), more[|more| - 1])
  {
    hide Rank, Key, MergeTakes, Final;
  }

  lemma ReachedStep(bucket: Bucket, u: Update, v: Update)
    requires AllCards(bucket) && IsPipelineUpdate(u) && IsPipelineUpdate(v) && Key(v) == Key(u) && Key(u) in bucket
    ensures var r := Deliver(bucket, v);
            && Key(u) in r && IsPipelineCard(r[Key(u)])
            && (Rank(r[Key(u)].status).value >= Rank(u.status).value <==>
                  Rank(bucket[Key(u)].status).value >= Rank(u.status).value
                  || (Rank(v.status).value >= Rank(u.status).value && MergeTakes(bucket, v)))
  {
    hide Rank, Final, Key;
    FinalIffLast(v.status);
    FinalIffLast(bucket[Key(u)].status);
    if Advances(bucket[Key(u)], v) {
      DeliveryAdvances(bucket[Key(u)], v);
    }
  }

  /** The first delivery of a running pipeline: once its state is stored, no retry ever creates the card. */
  lemma FirstRetryIsDrained() returns (running: Update)
    ensures IsPipelineUpdate(running) && !Stale(map[], running)
    ensures var stored := Deliver(map[], running);
            Stale(stored, running) && Key(running) in stored && stored[Key(running)].messageID == ""
  {
    hide Key, Merge, Advances, Final;
    running := Update("", "gitlab:1", "acme/repo", "7", 7, 0, 0, "", "", "main", "", "running", "", 10, true, None);
    assert IsPipelineUpdate(running) by { FinalIffLast("running"); }
    RetryIsDrainedIffMerged(map[], running, []);
    MergeKeepsReaction(Fresh(running), running);
  }

  /**
   * A card that runs since 20, and a failure of time 15 that passes the gate, is not merged, and whose card call
   * fails: a cancellation of time 25 that arrives before the retry drains it unsent.
   */
  lemma UnmergedIsDrained() returns (running: Update, failed: Update, canceled: Update)
    ensures IsPipelineUpdate(running) && IsPipelineUpdate(failed) && IsPipelineUpdate(canceled)
    ensures var stored := Deliver(map[], running);
            && !Stale(stored, failed) && !MergeTakes(stored, failed)
            && !Stale(Deliver(stored, failed), failed)
            && Stale(DeliverAll(Deliver(stored, failed), [canceled]), failed)
  {
    hide Key, Merge, Advances, Final, IsPipelineCard;
    running := Update("", "gitlab:1", "acme/repo", "7", 7, 0, 0, "", "", "main", "", "running", "", 20, true, None);
    failed := running.(status := "failed", conclusion := "failed", updatedAt := 15);
    canceled := running.(status := "canceled", conclusion := "canceled", updatedAt := 25);
    ThreeUpdates(running, failed, canceled);
    var stored := Deliver(map[], running);
    SameKeys(running, failed, canceled);
    FirstStageIsShown(running);
    assert stored[Key(running)] == Merge(Fresh(running), running);
    NotAdvancingIff(stored[Key(running)], failed);
    TriedCard(stored, failed);
    RetryIsDrainedIffMerged(stored, failed, []);
    RetryIsDrainedIffMerged(stored, failed, [canceled]);
    assert [canceled][..0] == [] && OvertakenBy(Deliver(stored, failed), failed, [canceled], 0) by {
      assert DeliverAll(Deliver(stored, failed), []) == Deliver(stored, failed);
      UnmergedKeepsTime(stored, failed);
    }
  }

  lemma ThreeUpdates(running: Update, failed: Update, canceled: Update)
    requires running.check.None? && running.runAttempt == 0 && running.updatedAt == 20 && running.authoritative
    requires running.status == "running" && running.conclusion == ""
    requires failed == running.(status := "failed", conclusion := "failed", updatedAt := 15)
    requires canceled == running.(status := "canceled", conclusion := "canceled", updatedAt := 25)
    ensures IsPipelineUpdate(running) && IsPipelineUpdate(failed) && IsPipelineUpdate(canceled)
    ensures Rank(running.status) == Some(5) && Rank(failed.status) == Some(7) && Rank(canceled.status) == Some(8)
  {
  }

  lemma SameKeys(u: Update, v: Update, w: Update)
    requires v == u.(status := v.status, conclusion := v.conclusion, updatedAt := v.updatedAt)
    requires w == u.(status := w.status, conclusion := w.conclusion, updatedAt := w.updatedAt)
    ensures Key(v) == Key(u) && Key(w) == Key(u)
  {
  }

  lemma UnmergedKeepsTime(bucket: Bucket, u: Update)
    requires AllCards(bucket) && IsPipelineUpdate(u) && !Stale(bucket, u) && !MergeTakes(bucket, u)
    ensures Key(u) in Deliver(bucket, u) && Deliver(bucket, u)[Key(u)].updatedAt == bucket[Key(u)].updatedAt
  {
    hide Rank, Final, Key;
  }
}
