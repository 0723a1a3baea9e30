/** Workflow runs and checks of one card in every order: when does the card end with the same status? */
module CheckOrder {
  import opened Options
  import opened Workflow
  import Pipeline

  /** Timestamped run and check deliveries. */
  ghost predicate Mixed(all: set<Update>) {
    forall u <- all :: IsRunUpdate(u) || IsCheckUpdate(u)
  }

  predicate IsTop(u: Update, attempt: int) {
    IsRunUpdate(u) && u.runAttempt == attempt
  }

  /** The highest attempt of the runs. */
  ghost predicate HighestAttempt(all: set<Update>, attempt: int) {
    (exists u <- all :: IsTop(u, attempt)) && forall u <- all :: IsRunUpdate(u) ==> u.runAttempt <= attempt
  }

  /** Some check is later than every run of the highest attempt. */
  ghost predicate CheckIsLast(all: set<Update>, attempt: int) {
    exists c <- all :: Outlasts(c, all, attempt)
  }

  ghost predicate Outlasts(c: Update, all: set<Update>, attempt: int) {
    IsCheckUpdate(c) && forall f <- all :: IsTop(f, attempt) ==> f.updatedAt < c.updatedAt
  }

  /**
   * The time from which on a run can end up on the card: that of the earliest run of the highest attempt if a check is
   * later than all of them, and that of the latest otherwise.
   */
  ghost predicate IsLimit(all: set<Update>, attempt: int, limit: nat) {
    && (exists f <- all :: IsTop(f, attempt) && f.updatedAt == limit)
    && forall f <- all :: IsTop(f, attempt) ==> if CheckIsLast(all, attempt) then f.updatedAt >= limit else f.updatedAt <= limit
  }

  ghost predicate SameStatusFrom(all: set<Update>, limit: nat) {
    forall u, v :: u in all && v in all && IsRunUpdate(u) && IsRunUpdate(v) && u.updatedAt >= limit && v.updatedAt >= limit
      ==> u.status == v.status
  }

  ghost predicate StatusConverges(s: State, all: set<Update>) {
    forall p: seq<Update>, q: seq<Update> :: Elements(p) == all && Elements(q) == all
      ==> MergeAll(s, p).status == MergeAll(s, q).status
  }

  lemma {:induction false} MergeAppend(s: State, p: seq<Update>, q: seq<Update>)
    ensures MergeAll(s, p + q) == MergeAll(MergeAll(s, p), q)
    decreases |q|
  {
    hide Merge;
    if q == [] {
      assert p + q == p;
    } else {
      assert (p + q)[..|p + q| - 1] == p + q[..|q| - 1];
      MergeAppend(s, p, q[..|q| - 1]);
    }
  }

  lemma MergeOne(s: State, u: Update)
    ensures MergeAll(s, [u]) == Merge(s, u)
  {
    hide Merge;
    assert [u][..0] == [];
  }

  // ----- One status from the limit on is enough -----

  ghost predicate TopSeen(p: seq<Update>, attempt: int, limit: nat) {
    exists f <- p :: IsTop(f, attempt) && f.updatedAt >= limit
  }

  /** What holds of the card while the deliveries come in. */
  ghost predicate Tracks(r: State, p: seq<Update>, attempt: int, limit: nat, status: string) {
    && 0 <= r.runAttempt <= attempt
    && (r.runAttempt == attempt <==> TopSeen(p, attempt, 0))
    && (r.runAttempt == attempt && r.updatedAt > limit ==> r.status == status)
    && (TopSeen(p, attempt, limit) ==> r.runAttempt == attempt && r.updatedAt >= limit && r.status == status)
  }

  lemma {:induction false} CardTracks(s: State, p: seq<Update>, all: set<Update>, attempt: int, limit: nat, status: string)
    requires NothingShown(s) && Mixed(all) && HighestAttempt(all, attempt) && IsLimit(all, attempt, limit)
    requires Elements(p) <= all
    requires forall v <- all :: IsRunUpdate(v) && v.updatedAt >= limit ==> v.status == status
    ensures Tracks(MergeAll(s, p), p, attempt, limit, status)
    decreases |p|
  {
    hide Merge, IsLimit, Tracks;
    if p == [] {
      NothingTracks(s, p, all, attempt, limit, status);
    } else {
      var front, last := p[..|p| - 1], p[|p| - 1];
      assert p == front + [last] && last in Elements(p);
      assert Elements(front) <= Elements(p);
      CardTracks(s, front, all, attempt, limit, status);
      TracksStep(MergeAll(s, front), front, last, all, attempt, limit, status);
    }
  }

  lemma NothingTracks(s: State, p: seq<Update>, all: set<Update>, attempt: int, limit: nat, status: string)
    requires NothingShown(s) && HighestAttempt(all, attempt) && p == []
    ensures Tracks(MergeAll(s, p), p, attempt, limit, status)
  {
  }

  lemma TopSeenStep(front: seq<Update>, last: Update, attempt: int, limit: nat)
    ensures TopSeen(front + [last], attempt, limit) <==> TopSeen(front, attempt, limit) || (IsTop(last, attempt) && last.updatedAt >= limit)
  {
    var p := front + [last];
    assert p[|p| - 1] == last;
  }

  lemma TracksStep(r: State, front: seq<Update>, last: Update, all: set<Update>, attempt: int, limit: nat, status: string)
    requires Tracks(r, front, attempt, limit, status)
    requires Mixed(all) && HighestAttempt(all, attempt) && IsLimit(all, attempt, limit) && last in all && Elements(front) <= all
    requires forall v <- all :: IsRunUpdate(v) && v.updatedAt >= limit ==> v.status == status
    ensures Tracks(Merge(r, last), front + [last], attempt, limit, status)
  {
    hide Merge, TopSeen, IsLimit;
    TopSeenStep(front, last, attempt, 0);
    TopSeenStep(front, last, attempt, limit);
    TopSeenLater(front, attempt, limit);
    if IsRunUpdate(last) {
      RunSetsStatus(r, last);
    } else {
      CheckKeepsStatus(r, last);
      Shielded(all, attempt, limit, last, front);
    }
  }

  lemma TopSeenLater(p: seq<Update>, attempt: int, limit: nat)
    ensures TopSeen(p, attempt, limit) ==> TopSeen(p, attempt, 0)
  {
  }

  /** A check beyond the limit comes only where every run of the highest attempt counts. */
  lemma Shielded(all: set<Update>, attempt: int, limit: nat, c: Update, front: seq<Update>)
    requires HighestAttempt(all, attempt) && IsLimit(all, attempt, limit) && c in all && IsCheckUpdate(c)
    requires Elements(front) <= all
    ensures c.updatedAt > limit && TopSeen(front, attempt, 0) ==> TopSeen(front, attempt, limit)
  {
    assert CheckIsLast(all, attempt) || !Outlasts(c, all, attempt);
    forall f | f in front ensures f in all { assert f in Elements(front); }
  }

  // ----- More than one status from the limit on is too many -----

  /** Before the highest attempt is seen, whatever comes leaves a lower one. */
  lemma {:induction false} LowStays(s: State, p: seq<Update>, attempt: int)
    requires 0 <= s.runAttempt < attempt
    requires forall u <- p :: (IsRunUpdate(u) && u.runAttempt < attempt) || IsCheckUpdate(u)
    ensures 0 <= MergeAll(s, p).runAttempt < attempt
    decreases |p|
  {
    hide Merge;
    if p != [] {
      var front, last := p[..|p| - 1], p[|p| - 1];
      assert last in p && forall u <- front :: u in p;
      LowStays(s, front, attempt);
      if IsRunUpdate(last) {
        RunSetsStatus(MergeAll(s, front), last);
      } else {
        CheckKeepsStatus(MergeAll(s, front), last);
      }
    }
  }

  /** Runs of the shown attempt that are older than the card do nothing. */
  lemma {:induction false} OldTopsIgnored(s: State, p: seq<Update>, attempt: int)
    requires s.runAttempt == attempt && forall u <- p :: IsTop(u, attempt) && u.updatedAt < s.updatedAt
    ensures var r := MergeAll(s, p); r.status == s.status && r.runAttempt == attempt && r.updatedAt == s.updatedAt
    decreases |p|
  {
    hide Merge;
    if p != [] {
      var front, last := p[..|p| - 1], p[|p| - 1];
      assert last in p && forall u <- front :: u in p;
      OldTopsIgnored(s, front, attempt);
      RunSetsStatus(MergeAll(s, front), last);
    }
  }

  /** After the runs of the highest attempt, the card is no later than they are. */
  lemma {:induction false} TopsBound(s: State, p: seq<Update>, attempt: int, limit: nat)
    requires s.runAttempt < attempt && p != [] && forall u <- p :: IsTop(u, attempt) && u.updatedAt <= limit
    ensures var r := MergeAll(s, p); r.runAttempt == attempt && r.updatedAt <= limit
    decreases |p|
  {
    hide Merge;
    var front, last := p[..|p| - 1], p[|p| - 1];
    assert last in p && forall u <- front :: u in p;
    if front != [] {
      TopsBound(s, front, attempt, limit);
    }
    RunSetsStatus(MergeAll(s, front), last);
  }

  ghost function Lower(all: set<Update>, attempt: int): set<Update> {
    set u | u in all && !IsTop(u, attempt)
  }

  ghost function Tops(all: set<Update>, attempt: int): set<Update> {
    set u | u in all && IsTop(u, attempt)
  }

  /** Every run from the limit on is the last word in some order. */
  lemma EndsWith(s: State, all: set<Update>, attempt: int, limit: nat, v: Update) returns (p: seq<Update>)
    requires NothingShown(s) && Mixed(all) && HighestAttempt(all, attempt) && IsLimit(all, attempt, limit)
    requires v in all && IsRunUpdate(v) && v.updatedAt >= limit
    ensures Elements(p) == all && MergeAll(s, p).status == v.status
  {
    hide Merge, IsLimit, HighestAttempt;
    var low := Pipeline.Listing(Lower(all, attempt));
    var tops := Pipeline.Listing(Tops(all, attempt));
    SplitUp(all, attempt, low, tops);
    AttemptIsPositive(all, attempt);
    LowStays(s, low, attempt);
    var before := MergeAll(s, low);
    if CheckIsLast(all, attempt) {
      var c :| c in all && Outlasts(c, all, attempt);
      var f := FirstTop(all, attempt, limit);
      var middle := if IsTop(v, attempt) then [v, c] else [f, v, c];
      ShieldedByCheck(before, f, v, c, attempt);
      p := low + middle + tops;
      MergeAppend(s, low + middle, tops);
      MergeAppend(s, low, middle);
      TopsAreOlder(all, attempt, tops, c);
      OldTopsIgnored(MergeAll(s, low + middle), tops, attempt);
      assert Elements(p) == Elements(low) + Elements(middle) + Elements(tops);
      assert Elements(middle) <= all;
    } else {
      TopsAreOld(all, attempt, limit, tops);
      TopsBound(before, tops, attempt, limit);
      MergeAppend(s, low, tops);
      MergeAppend(s, low + tops, [v]);
      MergeOne(MergeAll(s, low + tops), v);
      RunSetsStatus(MergeAll(s, low + tops), v);
      p := low + tops + [v];
      assert Elements(p) == Elements(low) + Elements(tops) + {v};
    }
  }

  lemma SplitUp(all: set<Update>, attempt: int, low: seq<Update>, tops: seq<Update>)
    requires Mixed(all) && HighestAttempt(all, attempt)
    requires Elements(low) == Lower(all, attempt) && Elements(tops) == Tops(all, attempt)
    ensures Elements(low) + Elements(tops) == all && tops != []
    ensures forall u <- low :: (IsRunUpdate(u) && u.runAttempt < attempt) || IsCheckUpdate(u)
    ensures forall u <- tops :: u in all && IsTop(u, attempt)
  {
    forall u | u in low ensures (IsRunUpdate(u) && u.runAttempt < attempt) || IsCheckUpdate(u) { assert u in Elements(low); }
    forall u | u in tops ensures u in all && IsTop(u, attempt) { assert u in Elements(tops); }
    var f :| f in all && IsTop(f, attempt);
    assert f in Elements(tops);
  }

  lemma AttemptIsPositive(all: set<Update>, attempt: int)
    requires HighestAttempt(all, attempt)
    ensures attempt >= 1
  {
  }

  lemma FirstTop(all: set<Update>, attempt: int, limit: nat) returns (f: Update)
    requires IsLimit(all, attempt, limit)
    ensures f in all && IsTop(f, attempt) && f.updatedAt == limit
  {
    f :| f in all && IsTop(f, attempt) && f.updatedAt == limit;
  }

  lemma TopsAreOlder(all: set<Update>, attempt: int, tops: seq<Update>, c: Update)
    requires Outlasts(c, all, attempt) && forall u <- tops :: u in all && IsTop(u, attempt)
    ensures forall u <- tops :: u.updatedAt < c.updatedAt
  {
  }

  lemma TopsAreOld(all: set<Update>, attempt: int, limit: nat, tops: seq<Update>)
    requires IsLimit(all, attempt, limit) && !CheckIsLast(all, attempt) && forall u <- tops :: u in all && IsTop(u, attempt)
    ensures forall u <- tops :: u.updatedAt <= limit
  {
  }

  /** A run of the highest attempt, a run that is not older, and then the check. */
  lemma ShieldedByCheck(s: State, f: Update, v: Update, c: Update, attempt: int)
    requires 0 <= s.runAttempt < attempt && IsTop(f, attempt) && IsRunUpdate(v) && IsCheckUpdate(c)
    requires v.runAttempt <= attempt && v.updatedAt >= f.updatedAt
    ensures var r := MergeAll(s, if IsTop(v, attempt) then [v, c] else [f, v, c]);
            r.runAttempt == attempt && r.status == v.status && r.updatedAt >= c.updatedAt
  {
    hide Merge;
    if IsTop(v, attempt) {
      MergeTwo(s, v, c);
      RunSetsStatus(s, v);
      CheckKeepsStatus(Merge(s, v), c);
    } else {
      assert [f, v, c] == [f] + [v, c];
      MergeAppend(s, [f], [v, c]);
      MergeOne(s, f);
      MergeTwo(Merge(s, f), v, c);
      RunSetsStatus(s, f);
      RunSetsStatus(Merge(s, f), v);
      CheckKeepsStatus(Merge(Merge(s, f), v), c);
    }
  }

  /**
   * Runs and checks of one card, in any order and with any repetitions, end with the same status exactly if all runs
   * from the limit on carry one status. Without a late check only the latest runs of the last attempt count; a check
   * that is later than all of them lets any of them have the last word, and runs of earlier attempts with them.
   */
  lemma StatusConvergesIff(s: State, all: set<Update>, attempt: int, limit: nat)
    requires NothingShown(s) && Mixed(all) && HighestAttempt(all, attempt) && IsLimit(all, attempt, limit)
    ensures StatusConverges(s, all) <==> SameStatusFrom(all, limit)
  {
    hide IsLimit, HighestAttempt, Mixed, MergeAll;
    if StatusConverges(s, all) {
      forall u, v | u in all && v in all && IsRunUpdate(u) && IsRunUpdate(v) && u.updatedAt >= limit && v.updatedAt >= limit
        ensures u.status == v.status
      {
        var p := EndsWith(s, all, attempt, limit, u);
        var q := EndsWith(s, all, attempt, limit, v);
      }
    }
    if SameStatusFrom(all, limit) {
      var f := FirstTop(all, attempt, limit);
      forall p: seq<Update>, q: seq<Update> | Elements(p) == all && Elements(q) == all
        ensures MergeAll(s, p).status == MergeAll(s, q).status
      {
        AllTracked(s, p, all, attempt, limit, f);
        AllTracked(s, q, all, attempt, limit, f);
      }
    }
  }

  lemma AllTracked(s: State, p: seq<Update>, all: set<Update>, attempt: int, limit: nat, f: Update)
    requires NothingShown(s) && Mixed(all) && HighestAttempt(all, attempt) && IsLimit(all, attempt, limit)
    requires Elements(p) == all && SameStatusFrom(all, limit)
    requires f in all && IsTop(f, attempt) && f.updatedAt == limit
    ensures MergeAll(s, p).status == f.status
  {
    hide MergeAll, IsLimit, HighestAttempt, Mixed;
    CardTracks(s, p, all, attempt, limit, f.status);
    assert f in Elements(p);
    assert TopSeen(p, attempt, limit);
  }

  /** There is such an attempt and such a limit as soon as there is a run. */
  lemma LimitExists(all: set<Update>) returns (attempt: int, limit: nat)
    requires Mixed(all) && exists u <- all :: IsRunUpdate(u)
    ensures HighestAttempt(all, attempt) && IsLimit(all, attempt, limit)
  {
    var runs := set u | u in all && IsRunUpdate(u);
    var run :| run in all && IsRunUpdate(run);
    assert run in runs;
    var top := Greatest(runs, (u: Update) => u.runAttempt);
    attempt := top.runAttempt;
    assert IsTop(top, attempt);
    var tops := Tops(all, attempt);
    assert top in tops;
    var sign := if CheckIsLast(all, attempt) then -1 else 1;
    var f := Greatest(tops, (u: Update) => sign * u.updatedAt);
    limit := f.updatedAt;
    assert forall u <- all :: IsRunUpdate(u) ==> u in runs;
    assert forall u <- all :: IsTop(u, attempt) ==> u in tops;
  }

  lemma {:induction false} Greatest(all: set<Update>, key: Update -> int) returns (m: Update)
    requires all != {}
    ensures m in all && forall u <- all :: key(u) <= key(m)
    decreases |all|
  {
    m :| m in all;
    if all - {m} != {} {
      var n := Greatest(all - {m}, key);
      if key(n) > key(m) { m := n; }
    }
  }
}
