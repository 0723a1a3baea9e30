/** The checks of one card within one attempt: which delivery of a check is shown, in whatever order they arrive. */
module CardChecks {
  import opened Options
  import opened Workflow
  import opened CheckOrder

  /** No update brings a new attempt. */
  ghost predicate SameAttempt(s: State, p: seq<Update>) {
    forall u <- p :: u.runAttempt <= s.runAttempt
  }

  /** The update delivers this check, and it can belong to the attempt. */
  predicate Brings(s: State, u: Update, id: string) {
    u.check.Some? && u.check.value.id == id && OfAttempt(s, u.check.value)
  }

  predicate Ended(c: Check) {
    c.status == "completed" || c.conclusion != ""
  }

  // ----- One delivery -----

  lemma AttemptGoesOn(s: State, u: Update)
    requires u.runAttempt <= s.runAttempt
    ensures var r := Merge(s, u);
            && r.runAttempt == s.runAttempt && r.attemptStartedAt == s.attemptStartedAt
            && r.checks == WithCheck(s, u.check).checks
  {
  }

  /** The first delivery of a check is stored exactly if it is not older than the attempt, or untimed in the first one. */
  lemma FirstDeliveryIsStoredIff(s: State, u: Update, c: Check)
    requires u.runAttempt <= s.runAttempt && u.check == Some(c) && c.id != "" && c.id !in s.checks
    ensures var ofAttempt := if CheckTime(c) == 0 then s.runAttempt <= 1 else CheckTime(c) >= s.attemptStartedAt;
            Merge(s, u).checks == if ofAttempt then s.checks[c.id := c] else s.checks
  {
    AttemptGoesOn(s, u);
  }

  /**
   * A stored check that has ended gives way exactly to a timed delivery of it that is not older, nor older than the
   * attempt; every other check stays.
   */
  lemma EndedCheckGivesWayIff(s: State, u: Update, id: string, c: Check)
    requires u.runAttempt <= s.runAttempt && id != "" && id in s.checks && Ended(s.checks[id])
    requires u.check == Some(c) && c.id == id
    ensures var t := CheckTime(c);
            var later := t != 0 && t >= CheckTime(s.checks[id]) && t >= s.attemptStartedAt;
            Merge(s, u).checks == if later then s.checks[id := c] else s.checks
  {
    AttemptGoesOn(s, u);
    assert s.checks[id := s.checks[id]] == s.checks;
  }

  /** The time of a stored check goes back exactly if a check that has not ended is replaced by one that ended earlier. */
  lemma CheckTimeGoesBackIff(s: State, u: Update, id: string)
    requires u.runAttempt <= s.runAttempt && id != "" && id in s.checks
    ensures id in Merge(s, u).checks
    ensures CheckTime(Merge(s, u).checks[id]) < CheckTime(s.checks[id])
            <==> Brings(s, u, id) && !Ended(s.checks[id]) && Ended(u.check.value) && CheckTime(u.check.value) < CheckTime(s.checks[id])
  {
    AttemptGoesOn(s, u);
  }

  /** While every delivery of a check reports its end, its time never decreases. */
  lemma {:induction false} EndedCheckNeverRegresses(s: State, p: seq<Update>, id: string)
    requires id != "" && id in s.checks && Ended(s.checks[id]) && SameAttempt(s, p)
    requires forall u <- p :: u.check.Some? && u.check.value.id == id ==> Ended(u.check.value)
    ensures var r := MergeAll(s, p);
            && r.runAttempt == s.runAttempt
            && id in r.checks && Ended(r.checks[id]) && CheckTime(r.checks[id]) >= CheckTime(s.checks[id])
  {
    hide Merge, CheckTime, Terminal, OfAttempt;
    if p != [] {
      var front, last := p[..|p| - 1], p[|p| - 1];
      assert forall u <- front :: u in p;
      EndedCheckNeverRegresses(s, front, id);
      var r := MergeAll(s, front);
      AttemptGoesOn(r, last);
      CheckTimeGoesBackIff(r, last, id);
    }
  }

  /** A repeated completion takes the place of a later restart of its check. */
  lemma RestartIsOvertaken() returns (s: State, restarted: Update, repeated: Update)
    ensures IsCheckUpdate(restarted) && IsCheckUpdate(repeated) && SameAttempt(s, [restarted, repeated])
    ensures "3" in s.checks && s.checks["3"] == repeated.check.value
    ensures "3" in MergeAll(s, [restarted]).checks && CheckTime(MergeAll(s, [restarted]).checks["3"]) == 40
    ensures "3" in MergeAll(s, [restarted, repeated]).checks && CheckTime(MergeAll(s, [restarted, repeated]).checks["3"]) == 30
  {
    var done := Check("3", "unit", "completed", "failure", "", 12, 30, 0);
    var again := Check("3", "unit", "in_progress", "", "", 40, 0, 0);
    repeated := Update("", "1", "acme/repo", "2", 0, 0, 0, "", "", "", "", "", "", 30, true, Some(done));
    restarted := repeated.(check := Some(again), updatedAt := 40);
    s := Fresh(repeated).(runAttempt := 1, attemptStartedAt := 10, status := "in_progress", updatedAt := 10, checks := map["3" := done]);
    hide Merge;
    MergeOne(s, restarted);
    MergeTwo(s, restarted, repeated);
    AttemptGoesOn(s, restarted);
    AttemptGoesOn(Merge(s, restarted), repeated);
  }

  /**
   * After a new attempt a check is shown exactly if it is not older than the attempt: than its start if the run update
   * named one, and than the update otherwise.
   */
  lemma NewAttemptCutsOff(s: State, u: Update, v: Update, c: Check)
    requires u.runAttempt > s.runAttempt && s.runAttempt > 0 && u.check.None? && HasTime(u)
    requires v.runAttempt <= u.runAttempt && v.check == Some(c) && c.id != "" && CheckTime(c) > 0
    ensures var start := if u.runStartedAt > 0 then u.runStartedAt else u.updatedAt;
            Merge(Merge(s, u), v).checks == if CheckTime(c) >= start then map[c.id := c] else map[]
  {
    hide CheckTime, Terminal;
    AttemptGoesOn(Merge(s, u), v);
  }

  // ----- Any order -----

  /** The deliveries of the check. */
  ghost function Brought(s: State, p: seq<Update>, id: string): set<Check> {
    set u | u in p && Brings(s, u, id) :: u.check.value
  }

  /** It is the only latest delivery, and it reports the end if any does. */
  ghost predicate HasLastWord(m: Check, all: set<Check>) {
    && m in all && (forall c <- all :: c != m ==> CheckTime(c) < CheckTime(m))
    && (Ended(m) || forall c <- all :: !Ended(c))
  }

  /** Timed deliveries of one check that can belong to the attempt. */
  ghost predicate Timed(s: State, all: set<Check>, id: string) {
    forall c <- all :: c.id == id && CheckTime(c) > 0 && OfAttempt(s, c)
  }

  /** The stored check is one of those that were delivered. */
  ghost predicate Holds(s: State, r: State, brought: set<Check>, id: string) {
    && r.runAttempt == s.runAttempt && r.attemptStartedAt == s.attemptStartedAt
    && (id in r.checks <==> brought != {})
    && (id in r.checks ==> r.checks[id] in brought)
  }

  lemma BroughtStep(s: State, front: seq<Update>, last: Update, id: string)
    ensures Brought(s, front + [last], id) == Brought(s, front, id) + if Brings(s, last, id) then {last.check.value} else {}
  {
    assert forall u :: u in front + [last] <==> u in front || u == last;
  }

  lemma HoldsStep(s: State, r: State, brought: set<Check>, u: Update, id: string)
    requires Holds(s, r, brought, id) && u.runAttempt <= s.runAttempt && id != ""
    ensures Holds(s, Merge(r, u), brought + (if Brings(s, u, id) then {u.check.value} else {}), id)
  {
    hide CheckTime, Terminal;
    AttemptGoesOn(r, u);
  }

  lemma {:induction false} CardHolds(s: State, p: seq<Update>, id: string)
    requires SameAttempt(s, p) && id != "" && id !in s.checks
    ensures Holds(s, MergeAll(s, p), Brought(s, p, id), id)
  {
    hide Merge, Brings, Holds;
    if p == [] {
      NothingHeld(s, id);
    } else {
      var front, last := p[..|p| - 1], p[|p| - 1];
      assert p == front + [last];
      CardHolds(s, front, id);
      BroughtStep(s, front, last, id);
      HoldsStep(s, MergeAll(s, front), Brought(s, front, id), last, id);
    }
  }

  lemma NothingHeld(s: State, id: string)
    requires id !in s.checks
    ensures Holds(s, s, Brought(s, [], id), id)
  {
  }

  /** Once the delivery that has the last word has arrived, nothing replaces it. */
  lemma LastWordStep(s: State, r: State, brought: set<Check>, u: Update, all: set<Check>, id: string, m: Check)
    requires Holds(s, r, brought, id) && u.runAttempt <= s.runAttempt && id != "" && brought <= all
    requires Timed(s, all, id) && HasLastWord(m, all) && (m in brought ==> r.checks[id] == m)
    requires Brings(s, u, id) ==> u.check.value in all
    ensures m in brought || (Brings(s, u, id) && u.check.value == m) ==> id in Merge(r, u).checks && Merge(r, u).checks[id] == m
  {
    hide CheckTime;
    AttemptGoesOn(r, u);
  }

  lemma {:induction false} LastWordIsShown(s: State, p: seq<Update>, all: set<Check>, id: string, m: Check)
    requires SameAttempt(s, p) && id != "" && id !in s.checks
    requires Timed(s, all, id) && HasLastWord(m, all) && Brought(s, p, id) <= all && m in Brought(s, p, id)
    ensures id in MergeAll(s, p).checks && MergeAll(s, p).checks[id] == m
  {
    hide Merge, Brings, HasLastWord, Timed;
    var front, last := p[..|p| - 1], p[|p| - 1];
    assert p == front + [last];
    BroughtStep(s, front, last, id);
    CardHolds(s, front, id);
    if m in Brought(s, front, id) {
      LastWordIsShown(s, front, all, id, m);
    }
    LastWordStep(s, MergeAll(s, front), Brought(s, front, id), last, all, id, m);
  }

  /** The check that is stored in the end. */
  function Stored(s: State, p: seq<Update>, id: string): Option<Check> {
    if id in MergeAll(s, p).checks then Some(MergeAll(s, p).checks[id]) else None
  }

  /** Whatever else arrives in the attempt, these deliveries of the check end with the same one. */
  ghost predicate CheckConverges(s: State, all: set<Check>, id: string) {
    forall p: seq<Update>, q: seq<Update> ::
      SameAttempt(s, p) && SameAttempt(s, q) && Brought(s, p, id) == all && Brought(s, q, id) == all ==> Stored(s, p, id) == Stored(s, q, id)
  }

  /** An update that brings nothing but the check. */
  function Only(s: State, c: Check): Update {
    Update(s.chatID, s.repositoryID, s.repository, s.suiteID, 0, s.runAttempt, 0, "", "", "", "", "", "", 0, false, Some(c))
  }

  lemma {:induction false} ListChecks(s: State, all: set<Check>, id: string) returns (p: seq<Update>)
    requires Timed(s, all, id)
    ensures SameAttempt(s, p) && Brought(s, p, id) == all
    decreases |all|
  {
    p := [];
    if all != {} {
      var c :| c in all;
      var rest := ListChecks(s, all - {c}, id);
      p := rest + [Only(s, c)];
      BroughtStep(s, rest, Only(s, c), id);
    }
  }

  /** A delivery that arrives once more leaves the stored one alone only if it is older, and does not report a new end. */
  lemma RepeatedIsOlder(s: State, r: State, all: set<Check>, id: string, c: Check)
    requires Holds(s, r, all, id) && Timed(s, all, id) && id != "" && c in all
    requires id in Merge(r, Only(s, c)).checks && Merge(r, Only(s, c)).checks[id] == r.checks[id]
    ensures c != r.checks[id] ==> CheckTime(c) < CheckTime(r.checks[id]) && (Ended(r.checks[id]) || !Ended(c))
  {
    hide CheckTime;
    AttemptGoesOn(r, Only(s, c));
  }

  lemma ConvergentHasLastWord(s: State, all: set<Check>, id: string)
    requires id != "" && id !in s.checks && all != {} && Timed(s, all, id) && CheckConverges(s, all, id)
    ensures exists m :: HasLastWord(m, all)
  {
    hide Merge, Brings, CheckTime, Terminal, Timed;
    var l := ListChecks(s, all, id);
    CardHolds(s, l, id);
    var r := MergeAll(s, l);
    var m := r.checks[id];
    forall c | c in all && c != m ensures CheckTime(c) < CheckTime(m) && (Ended(m) || !Ended(c)) {
      var p := l + [Only(s, c)];
      OnlyBrings(s, all, id, c);
      BroughtStep(s, l, Only(s, c), id);
      assert p[..|p| - 1] == l && Brought(s, p, id) == all && SameAttempt(s, p);
      assert Stored(s, p, id) == Stored(s, l, id);
      RepeatedIsOlder(s, r, all, id, c);
    }
    assert HasLastWord(m, all);
  }

  lemma OnlyBrings(s: State, all: set<Check>, id: string, c: Check)
    requires Timed(s, all, id) && c in all
    ensures Brings(s, Only(s, c), id) && Only(s, c).check.value == c
  {
  }

  /**
   * The timed deliveries of a check end with the same one, in every order, with any repetitions and whatever else arrives
   * in the attempt, if and only if one of them is later than all the others and reports the end if any of them does.
   */
  lemma CheckConvergesIff(s: State, all: set<Check>, id: string)
    requires id != "" && id !in s.checks && all != {} && Timed(s, all, id)
    ensures CheckConverges(s, all, id) <==> exists m :: HasLastWord(m, all)
  {
    hide MergeAll, HasLastWord, Brings, Timed;
    if m :| HasLastWord(m, all) {
      assert m in all by { LastWordIsThere(m, all); }
      forall p: seq<Update>, q: seq<Update> | SameAttempt(s, p) && SameAttempt(s, q) && Brought(s, p, id) == all && Brought(s, q, id) == all
        ensures Stored(s, p, id) == Stored(s, q, id)
      {
        LastWordIsShown(s, p, all, id, m);
        LastWordIsShown(s, q, all, id, m);
      }
    }
    if CheckConverges(s, all, id) {
      ConvergentHasLastWord(s, all, id);
    }
  }

  lemma LastWordIsThere(m: Check, all: set<Check>)
    requires HasLastWord(m, all)
    ensures m in all
  {
  }

  /** A delivery of before this time: by its completion or, while there is none, its start or, failing both, its update. */
  predicate Before(c: Check, t: nat) {
    if c.completedAt > 0 then c.completedAt < t
    else if c.startedAt > 0 then c.startedAt < t
    else 0 < c.updatedAt < t
  }

  /**
   * A check that has completed is shown as it completed last, whatever the order and the repetitions: of the deliveries
   * that can belong to the attempt, one ended, was completed, and all the others are of before that.
   */
  lemma LatestCompletionIsShown(s: State, p: seq<Update>, id: string, m: Check)
    requires SameAttempt(s, p) && id != "" && id !in s.checks
    requires m in Brought(s, p, id) && Ended(m) && m.completedAt > 0
    requires forall c <- Brought(s, p, id) :: c != m ==> Before(c, m.completedAt)
    ensures id in MergeAll(s, p).checks && MergeAll(s, p).checks[id] == m
  {
    hide MergeAll, Terminal;
    LastWordIsShown(s, p, Brought(s, p, id), id, m);
  }
}
