/**
 * The durable card state of a check suite: merging workflow and check deliveries that arrive late, out of order
 * and more than once. A time of 0 stands for a zero timestamp.
 */
module Workflow {
  import opened ByteOrder
  import opened Options


  datatype Check = Check(
    id: string,
    name: string,
    status: string,
    conclusion: string,
    detailsURL: string,
    startedAt: nat,
    completedAt: nat,
    updatedAt: nat)

  datatype State = State(
    chatID: string,
    repositoryID: string,
    repository: string,
    suiteID: string,
    runID: int,
    runAttempt: int,
    attemptStartedAt: nat,
    workflowName: string,
    url: string,
    headBranch: string,
    headSHA: string,
    status: string,
    conclusion: string,
    updatedAt: nat,
    messageID: string,
    reactionID: string,
    reactionType: string,
    checks: map<string, Check>,
    revision: nat)

  datatype Update = Update(
    chatID: string,
    repositoryID: string,
    repository: string,
    suiteID: string,
    runID: int,
    runAttempt: int,
    runStartedAt: nat,
    workflowName: string,
    url: string,
    headBranch: string,
    headSHA: string,
    status: string,
    conclusion: string,
    updatedAt: nat,
    authoritative: bool,
    check: Option<Check>)

  function Fresh(u: Update): State {
    State(u.chatID, u.repositoryID, u.repository, u.suiteID, 0, 0, 0, "", "", "", "", "", "", 0, "", "", "", map[], 0)
  }

  predicate Terminal(status: string, conclusion: string) {
    status == "completed" || conclusion != ""
  }

  function CheckTime(c: Check): nat {
    if c.completedAt != 0 then c.completedAt else if c.startedAt != 0 then c.startedAt else c.updatedAt
  }

  predicate HasTime(u: Update) {
    u.authoritative || u.updatedAt != 0
  }

  predicate Accepts(s: State, u: Update) {
    if u.runAttempt > s.runAttempt then true
    else if HasTime(u) then u.updatedAt >= s.updatedAt
    else !(Terminal(s.status, s.conclusion) && !Terminal(u.status, u.conclusion) && u.runAttempt <= s.runAttempt)
  }

  function Or(value: string, fallback: string): string {
    if value != "" then value else fallback
  }

  /** A higher attempt starts over; checks survive it only if no attempt was known before. */
  function Restarted(s: State, u: Update): State {
    if u.runAttempt > s.runAttempt then
      s.(runAttempt := u.runAttempt,
         attemptStartedAt := if u.runStartedAt == 0 && HasTime(u) then u.updatedAt else u.runStartedAt,
         checks := if s.runAttempt > 0 then map[] else s.checks,
         conclusion := "")
    else s
  }

  function Described(s: State, u: Update): State {
    s.(repository := Or(u.repository, s.repository),
       workflowName := Or(u.workflowName, s.workflowName),
       url := Or(u.url, s.url),
       headBranch := Or(u.headBranch, s.headBranch),
       headSHA := Or(u.headSHA, s.headSHA),
       runID := if u.runID != 0 then u.runID else s.runID)
  }

  function Taken(s: State, u: Update): State {
    var restarted := Restarted(Described(s, u), u);
    restarted.(status := Or(u.status, restarted.status),
               conclusion := if u.conclusion != "" || u.status == "completed" then u.conclusion else restarted.conclusion,
               updatedAt := if HasTime(u) then u.updatedAt else restarted.updatedAt)
  }

  /** Whether a check can belong to the attempt that is shown. */
  predicate OfAttempt(s: State, c: Check) {
    && !(s.runAttempt > 1 && CheckTime(c) == 0)
    && !(CheckTime(c) != 0 && s.attemptStartedAt != 0 && CheckTime(c) < s.attemptStartedAt)
  }

  predicate Replaces(checks: map<string, Check>, c: Check) {
    c.id !in checks
    || (CheckTime(c) != 0 && CheckTime(c) >= CheckTime(checks[c.id]))
    || (!Terminal(checks[c.id].status, checks[c.id].conclusion) && Terminal(c.status, c.conclusion))
  }

  function WithCheck(s: State, check: Option<Check>): State {
    if check.Some? && check.value.id != "" && OfAttempt(s, check.value) && Replaces(s.checks, check.value)
    then s.(checks := s.checks[check.value.id := check.value])
    else s
  }

  function Merge(s: State, u: Update): State {
    var merged := WithCheck(if Accepts(s, u) then Taken(s, u) else s, u.check);
    merged.(revision := s.revision + 1)
  }

  function MergeAll(s: State, updates: seq<Update>): State {
    if updates == [] then s else Merge(MergeAll(s, updates[..|updates| - 1]), updates[|updates| - 1])
  }

  // ----- The merge as the transaction carries it out -----

  method TakeUpdate(s: State, u: Update) returns (state: State)
    ensures state == if Accepts(s, u) then Taken(s, u) else s
  {
    state := s;
    var accept := true;
    var hasTime := u.authoritative || u.updatedAt != 0;
    if hasTime {
      accept := u.updatedAt >= state.updatedAt;
    } else if Terminal(state.status, state.conclusion) && !Terminal(u.status, u.conclusion) && u.runAttempt <= state.runAttempt {
      accept := false;
    }
    if u.runAttempt > state.runAttempt {
      accept := true;
    }
    if !accept {
      return;
    }
    state := DescribeFrom(state, u);
    if u.runAttempt > state.runAttempt {
      var previousAttempt := state.runAttempt;
      state := state.(runAttempt := u.runAttempt, attemptStartedAt := u.runStartedAt);
      if state.attemptStartedAt == 0 && hasTime {
        state := state.(attemptStartedAt := u.updatedAt);
      }
      if previousAttempt > 0 {
        state := state.(checks := map[]);
      }
      state := state.(conclusion := "");
    }
    if u.status != "" {
      state := state.(status := u.status);
    }
    if u.conclusion != "" || u.status == "completed" {
      state := state.(conclusion := u.conclusion);
    }
    if hasTime {
      state := state.(updatedAt := u.updatedAt);
    }
  }

  /** Empty fields of an update leave what is known. */
  method DescribeFrom(s: State, u: Update) returns (state: State)
    ensures state == Described(s, u)
  {
    state := s;
    if u.repository != "" { state := state.(repository := u.repository); }
    if u.workflowName != "" { state := state.(workflowName := u.workflowName); }
    if u.url != "" { state := state.(url := u.url); }
    if u.headBranch != "" { state := state.(headBranch := u.headBranch); }
    if u.headSHA != "" { state := state.(headSHA := u.headSHA); }
    if u.runID != 0 { state := state.(runID := u.runID); }
  }

  method TakeCheck(s: State, u: Option<Check>) returns (state: State)
    ensures state == WithCheck(s, u)
  {
    state := s;
    if u.Some? && u.value.id != "" {
      var check := u.value;
      var checkAt := CheckTime(check);
      var validAttempt := !(state.runAttempt > 1 && checkAt == 0);
      if checkAt != 0 && state.attemptStartedAt != 0 && checkAt < state.attemptStartedAt {
        validAttempt := false;
      }
      if validAttempt {
        var replace := check.id !in state.checks;
        if !replace {
          var earlier := state.checks[check.id];
          replace := (checkAt != 0 && checkAt >= CheckTime(earlier))
                  || (!Terminal(earlier.status, earlier.conclusion) && Terminal(check.status, check.conclusion));
        }
        if replace {
          state := state.(checks := state.checks[check.id := check]);
        }
      }
    }
  }

  method MergeUpdate(s: State, u: Update) returns (r: State)
    ensures r == Merge(s, u)
  {
    r := TakeUpdate(s, u);
    r := TakeCheck(r, u.check);
    r := r.(revision := r.revision + 1);
  }

  // ----- Keys -----

  /** The bucket key of UpsertWorkflow. */
  function Key(u: Update): string {
    var repositoryID := if u.repositoryID == "" then u.repository else u.repositoryID;
    var key := repositoryID + NUL + u.suiteID;
    if u.chatID != "" then u.chatID + NUL + key else key
  }

  lemma {:induction false} CutAtNul(a: string, x: string, b: string, y: string)
    requires NoNul(a) && NoNul(b) && a + NUL + x == b + NUL + y
    ensures a == b && x == y
  {
    var left, right := a + NUL + x, b + NUL + y;
    assert left[0] == if a == [] then '\0' else a[0];
    assert right[0] == if b == [] then '\0' else b[0];
    if a == [] {
      assert left[1..] == x && right[1..] == y;
    } else {
      assert left[1..] == a[1..] + NUL + x && right[1..] == b[1..] + NUL + y;
      CutAtNul(a[1..], x, b[1..], y);
      assert a == [a[0]] + a[1..] && b == [b[0]] + b[1..];
    }
  }

  lemma NulSeparates(a: string, b: string, t: string)
    requires NoNul(t)
    ensures a + NUL + b != t
  {
  }

  /** Cards of different chats, repositories or suites never share a key, as long as the names hold no NUL. */
  lemma KeyIsFaithful(u: Update, v: Update)
    requires NoNul(u.chatID) && NoNul(u.repositoryID) && NoNul(u.repository) && NoNul(u.suiteID)
    requires NoNul(v.chatID) && NoNul(v.repositoryID) && NoNul(v.repository) && NoNul(v.suiteID)
    requires Key(u) == Key(v)
    ensures u.chatID == v.chatID && u.suiteID == v.suiteID
    ensures Or(u.repositoryID, u.repository) == Or(v.repositoryID, v.repository)
  {
    var r, q := Or(u.repositoryID, u.repository), Or(v.repositoryID, v.repository);
    if u.chatID == "" && v.chatID == "" {
      CutAtNul(r, u.suiteID, q, v.suiteID);
    } else if u.chatID != "" && v.chatID != "" {
      assert Key(u) == u.chatID + NUL + (r + NUL + u.suiteID) && Key(v) == v.chatID + NUL + (q + NUL + v.suiteID);
      CutAtNul(u.chatID, r + NUL + u.suiteID, v.chatID, q + NUL + v.suiteID);
      CutAtNul(r, u.suiteID, q, v.suiteID);
    } else if u.chatID == "" {
      assert Key(v) == v.chatID + NUL + (q + NUL + v.suiteID);
      NulSeparates(q, v.suiteID, u.suiteID);
      CutAtNul(r, u.suiteID, v.chatID, q + NUL + v.suiteID);
    } else {
      assert Key(u) == u.chatID + NUL + (r + NUL + u.suiteID);
      NulSeparates(r, u.suiteID, v.suiteID);
      CutAtNul(u.chatID, r + NUL + u.suiteID, q, v.suiteID);
    }
  }

  // ----- Monotonicity -----

  /** (RunAttempt, UpdatedAt) never decreases lexicographically, for any update whatsoever. */
  lemma AttemptAndTimeNeverRegress(s: State, u: Update)
    ensures var r := Merge(s, u);
            r.runAttempt > s.runAttempt || (r.runAttempt == s.runAttempt && r.updatedAt >= s.updatedAt)
  {
  }

  lemma {:induction false} RunNeverRegresses(s: State, updates: seq<Update>, i: nat)
    requires i <= |updates|
    ensures var r, e := MergeAll(s, updates), MergeAll(s, updates[..i]);
            r.runAttempt > e.runAttempt || (r.runAttempt == e.runAttempt && r.updatedAt >= e.updatedAt)
    decreases |updates|
  {
    if i == |updates| {
      assert updates[..i] == updates;
    } else {
      var front := updates[..|updates| - 1];
      RunNeverRegresses(s, front, i);
      assert front[..i] == updates[..i];
      AttemptAndTimeNeverRegress(MergeAll(s, front), updates[|updates| - 1]);
    }
  }

  // ----- Checks of superseded attempts -----

  /** Every stored check is timed and, if the start of the attempt is known, not older than it. */
  ghost predicate ChecksOfAttempt(s: State) {
    s.runAttempt > 1
    && forall id <- s.checks :: CheckTime(s.checks[id]) != 0
                                && (s.attemptStartedAt != 0 ==> CheckTime(s.checks[id]) >= s.attemptStartedAt)
  }

  ghost predicate Supersedes(s: State, u: Update) {
    s.runAttempt > 0 && u.runAttempt > s.runAttempt
  }

  lemma MergeKeepsChecks(s: State, u: Update)
    requires ChecksOfAttempt(s) || Supersedes(s, u)
    ensures ChecksOfAttempt(Merge(s, u))
  {
  }

  /** Once a positive attempt was superseded, no check of an earlier attempt is ever shown again. */
  lemma {:induction false} SupersededChecksStayOut(s: State, updates: seq<Update>, i: nat)
    requires i < |updates| && Supersedes(MergeAll(s, updates[..i]), updates[i])
    ensures ChecksOfAttempt(MergeAll(s, updates))
    decreases |updates|
  {
    var front, last := updates[..|updates| - 1], updates[|updates| - 1];
    if i < |updates| - 1 {
      assert front[..i] == updates[..i];
      SupersededChecksStayOut(s, front, i);
    }
    MergeKeepsChecks(MergeAll(s, front), last);
  }

  /** A rerun clears the checks of the card exactly if an attempt was known before, or there were none. */
  lemma RerunClearsChecksIff(s: State, u: Update)
    requires u.runAttempt > s.runAttempt && u.check.None?
    ensures Merge(s, u).checks == map[] <==> s.runAttempt > 0 || s.checks == map[]
    ensures u.conclusion == "" ==> Merge(s, u).conclusion == ""
  {
  }

  /** A check that arrives before the first seen run, of attempt 2, stays on the card. */
  lemma CheckSurvivesRerun() returns (check: Update, rerun: Update)
    ensures IsCheckUpdate(check) && IsRunUpdate(rerun) && rerun.runAttempt == 2
    ensures "3" in MergeAll(Fresh(check), [check, rerun]).checks
  {
    check := Update("", "1", "acme/repo", "2", 0, 0, 0, "", "", "", "", "", "", 30, true,
                    Some(Check("3", "unit", "completed", "failure", "", 12, 30, 0)));
    rerun := Update("", "1", "acme/repo", "2", 7, 2, 40, "CI", "", "", "", "queued", "", 40, true, None);
    MergeTwo(Fresh(check), check, rerun);
    var s := Merge(Fresh(check), check);
    assert s.runAttempt == 0 && "3" in s.checks;
    RerunClearsChecksIff(s, rerun);
    assert Merge(s, rerun).checks == s.checks;
  }

  // ----- Convergence -----

  /** A timestamped workflow_run delivery. */
  predicate IsRunUpdate(u: Update) {
    u.check.None? && u.updatedAt > 0 && u.runAttempt >= 1 && u.status != ""
    && (u.status != "completed" ==> u.conclusion == "")
  }

  /** The times order the lifecycle strictly, respect the attempts, and put the completion last in its attempt. */
  ghost predicate Lifecycle(updates: set<Update>) {
    && (forall u <- updates :: IsRunUpdate(u))
    && (forall u, v :: u in updates && v in updates && u != v ==> u.updatedAt != v.updatedAt)
    && (forall u, v :: u in updates && v in updates && u.runAttempt < v.runAttempt ==> u.updatedAt < v.updatedAt)
    && (forall u, v :: u in updates && v in updates && u != v && u.runAttempt == v.runAttempt && u.status == "completed"
          ==> v.updatedAt < u.updatedAt)
  }

  /** What a card shows of the run. */
  datatype View = View(runAttempt: int, status: string, conclusion: string, updatedAt: nat)

  function Shown(s: State): View {
    View(s.runAttempt, s.status, s.conclusion, s.updatedAt)
  }

  function Announced(u: Update): View {
    View(u.runAttempt, u.status, u.conclusion, u.updatedAt)
  }

  ghost function Elements(updates: seq<Update>): set<Update> {
    set u | u in updates
  }

  ghost predicate IsLatest(u: Update, updates: set<Update>) {
    u in updates && forall v <- updates :: v.updatedAt <= u.updatedAt
  }

  ghost predicate NothingShown(s: State) {
    s.runAttempt == 0 && s.updatedAt == 0
  }

  lemma OneMore(s: State, m: Update, u: Update, updates: set<Update>)
    requires Lifecycle(updates) && m in updates && u in updates
    requires Shown(s) == Announced(m)
    ensures Shown(Merge(s, u)) == Announced(if u.updatedAt > m.updatedAt then u else m)
  {
  }

  /** Whatever the order and the repetitions, the card shows the latest update it has seen. */
  lemma {:induction false} LatestIsShown(s: State, updates: seq<Update>) returns (m: Update)
    requires NothingShown(s) && updates != [] && Lifecycle(Elements(updates))
    ensures IsLatest(m, Elements(updates)) && Shown(MergeAll(s, updates)) == Announced(m)
    decreases |updates|
  {
    hide Merge, Shown, Announced;
    var front, last := updates[..|updates| - 1], updates[|updates| - 1];
    assert updates == front + [last];
    assert Elements(updates) == Elements(front) + {last};
    if front == [] {
      FirstIsShown(s, last);
      m := last;
    } else {
      var before := LatestIsShown(s, front);
      OneMore(MergeAll(s, front), before, last, Elements(updates));
      m := if last.updatedAt > before.updatedAt then last else before;
    }
  }

  lemma FirstIsShown(s: State, u: Update)
    requires NothingShown(s) && IsRunUpdate(u)
    ensures Shown(Merge(s, u)) == Announced(u)
  {
  }

  /** Convergence: two deliveries of the same updates, in any orders and with any repetitions, show the same card. */
  lemma MergeConverges(s: State, t: State, p: seq<Update>, q: seq<Update>)
    requires NothingShown(s) && NothingShown(t)
    requires p != [] && Elements(p) == Elements(q) && Lifecycle(Elements(p))
    ensures Shown(MergeAll(s, p)) == Shown(MergeAll(t, q))
  {
    assert p[0] in Elements(p);
    var m := LatestIsShown(s, p);
    var n := LatestIsShown(t, q);
  }

  /** What a card says about the run beside its status. */
  datatype Names = Names(repository: string, workflowName: string, url: string, headBranch: string, headSHA: string, runID: int)

  function NamesOf(s: State): Names {
    Names(s.repository, s.workflowName, s.url, s.headBranch, s.headSHA, s.runID)
  }

  function NamesIn(u: Update): Names {
    Names(u.repository, u.workflowName, u.url, u.headBranch, u.headSHA, u.runID)
  }

  predicate FullyNamed(u: Update) {
    u.repository != "" && u.workflowName != "" && u.url != "" && u.headBranch != "" && u.headSHA != "" && u.runID != 0
  }

  /** The latest update of a lifecycle also names the run, in every order. */
  lemma {:induction false} LatestNamesRun(s: State, updates: seq<Update>, m: Update)
    requires NothingShown(s) && Lifecycle(Elements(updates)) && IsLatest(m, Elements(updates)) && FullyNamed(m)
    ensures NamesOf(MergeAll(s, updates)) == NamesIn(m)
    decreases |updates|
  {
    hide Merge, Shown, Announced, NamesOf, NamesIn;
    var front, last := updates[..|updates| - 1], updates[|updates| - 1];
    assert updates == front + [last];
    assert Elements(updates) == Elements(front) + {last};
    if front == [] {
      FirstIsShown(s, last);
      AcceptedNames(s, last);
    } else {
      var before := LatestIsShown(s, front);
      if last == m {
        ShownIsNotLater(MergeAll(s, front), before, m, Elements(updates));
        AcceptedNames(MergeAll(s, front), m);
      } else {
        LatestNamesRun(s, front, m);
        ShownIsNotLater(MergeAll(s, front), before, m, Elements(updates));
        LaterIsShown(MergeAll(s, front), before, m, Elements(front));
        RefusedNames(MergeAll(s, front), last);
      }
    }
  }

  lemma ShownIsNotLater(s: State, shown: Update, m: Update, updates: set<Update>)
    requires Lifecycle(updates) && IsLatest(m, updates) && shown in updates && Shown(s) == Announced(shown)
    ensures s.runAttempt <= m.runAttempt && s.updatedAt <= m.updatedAt
    ensures forall u <- updates :: u != m ==> u.updatedAt < m.updatedAt && u.runAttempt <= m.runAttempt
  {
  }

  lemma LaterIsShown(s: State, shown: Update, m: Update, updates: set<Update>)
    requires IsLatest(shown, updates) && m in updates && Shown(s) == Announced(shown)
    requires Lifecycle(updates) && forall u <- updates :: u.updatedAt <= m.updatedAt
    ensures s.updatedAt == m.updatedAt && s.runAttempt == m.runAttempt
  {
  }

  lemma AcceptedNames(s: State, u: Update)
    requires IsRunUpdate(u) && FullyNamed(u) && (u.runAttempt > s.runAttempt || u.updatedAt >= s.updatedAt)
    ensures NamesOf(Merge(s, u)) == NamesIn(u)
  {
  }

  lemma RefusedNames(s: State, u: Update)
    requires IsRunUpdate(u) && u.runAttempt <= s.runAttempt && u.updatedAt < s.updatedAt
    ensures NamesOf(Merge(s, u)) == NamesOf(s)
  {
  }

  // ----- Where convergence ends -----

  /** A timestamped check_run delivery; it carries no attempt and no status of its own. */
  predicate IsCheckUpdate(u: Update) {
    u.check.Some? && u.updatedAt > 0 && u.runAttempt == 0 && u.status == "" && u.conclusion == ""
  }

  /**
   * Check times advance UpdatedAt as well. So the two orders of a check and a run update end with different statuses
   * exactly if the run update brings no new attempt, would be accepted and change the status, and is older than the check.
   */
  lemma CheckHidesRunIff(s: State, c: Update, u: Update)
    requires IsCheckUpdate(c) && IsRunUpdate(u) && s.runAttempt >= 0
    ensures Merge(Merge(s, c), u).status != Merge(Merge(s, u), c).status
            <==> s.runAttempt >= u.runAttempt && s.updatedAt <= u.updatedAt < c.updatedAt && s.status != u.status
  {
    hide Merge;
    CheckKeepsStatus(s, c);
    RunSetsStatus(Merge(s, c), u);
    RunSetsStatus(s, u);
    CheckKeepsStatus(Merge(s, u), c);
  }

  lemma CheckKeepsStatus(s: State, c: Update)
    requires IsCheckUpdate(c) && s.runAttempt >= 0
    ensures var r := Merge(s, c);
            && r.status == s.status && r.runAttempt == s.runAttempt
            && r.updatedAt == if c.updatedAt >= s.updatedAt then c.updatedAt else s.updatedAt
  {
    hide OfAttempt, Replaces;
  }

  lemma RunSetsStatus(s: State, u: Update)
    requires IsRunUpdate(u)
    ensures var r, taken := Merge(s, u), u.runAttempt > s.runAttempt || u.updatedAt >= s.updatedAt;
            && r.status == (if taken then u.status else s.status)
            && r.runAttempt == (if u.runAttempt > s.runAttempt then u.runAttempt else s.runAttempt)
            && r.updatedAt == (if taken then u.updatedAt else s.updatedAt)
            && r.conclusion == if !taken then s.conclusion
                               else if u.status == "completed" || u.runAttempt > s.runAttempt then u.conclusion else s.conclusion
  {
  }

  /** The run has ended: it is completed, or has a conclusion. */
  predicate HasEnded(status: string, conclusion: string) {
    status == "completed" || conclusion != ""
  }

  /** Without a time an update still counts, unless it would reopen a run of its attempt that has ended. */
  lemma UntimedNeverReopens(s: State, u: Update)
    requires !HasTime(u) && u.runAttempt <= s.runAttempt
    ensures var r, reopens := Merge(s, u), HasEnded(s.status, s.conclusion) && !HasEnded(u.status, u.conclusion);
            && r.status == (if u.status == "" || reopens then s.status else u.status)
            && r.updatedAt == s.updatedAt && r.runAttempt == s.runAttempt
            && (HasEnded(s.status, s.conclusion) ==> HasEnded(r.status, r.conclusion))
  {
  }

  /** So a run that has ended stays ended, whatever untimed updates of its attempt still arrive. */
  lemma {:induction false} EndedRunStaysEnded(s: State, updates: seq<Update>)
    requires HasEnded(s.status, s.conclusion) && forall u <- updates :: !HasTime(u) && u.runAttempt <= s.runAttempt
    ensures var r := MergeAll(s, updates); r.runAttempt == s.runAttempt && HasEnded(r.status, r.conclusion)
  {
    hide Merge, HasEnded, HasTime;
    if updates != [] {
      var front, last := updates[..|updates| - 1], updates[|updates| - 1];
      assert last in updates && forall u <- front :: u in updates;
      EndedRunStaysEnded(s, front);
      UntimedNeverReopens(MergeAll(s, front), last);
    }
  }

  /** With checks mixed in, the order of delivery is visible for good: a completed run can stay "in_progress". */
  lemma ChecksBreakConvergence() returns (s: State, run: Update, check: Update)
    ensures IsRunUpdate(run) && IsCheckUpdate(check)
    ensures Shown(MergeAll(s, [run, check])).status == "completed"
    ensures Shown(MergeAll(s, [check, run])).status == "in_progress"
  {
    run := Update("", "1", "acme/repo", "2", 7, 1, 10, "CI", "", "", "", "completed", "success", 20, true, None);
    check := Update("", "1", "acme/repo", "2", 0, 0, 0, "", "", "", "", "", "", 30, true,
                    Some(Check("3", "unit", "completed", "success", "", 12, 30, 0)));
    s := Fresh(run).(runAttempt := 1, attemptStartedAt := 10, status := "in_progress", updatedAt := 10);
    hide Merge;
    MergeTwo(s, run, check);
    MergeTwo(s, check, run);
    RunSetsStatus(s, run);
    CheckKeepsStatus(s, check);
    CheckKeepsStatus(Merge(s, run), check);
    RunSetsStatus(Merge(s, check), run);
  }

  lemma MergeTwo(s: State, u: Update, v: Update)
    ensures MergeAll(s, [u, v]) == Merge(Merge(s, u), v)
  {
    hide Merge;
    assert [u, v][..1] == [u];
    assert [u][..0] == [];
    assert MergeAll(s, [u]) == Merge(s, u);
  }
}
