/**
 * The lease on an onboarding callback: several requests for one delivery may run at once, each claims, works,
 * and publishes a toast before its deadline. A pending claim goes stale after `stale`; every write is refused
 * once the deadline is `guard` or less away; a deadline lies at most `budget` after the request began.
 */
module Onboarding {

  datatype Timing = Timing(stale: nat, guard: nat, budget: nat)

  /** callbackBudget, also passed as the stale timeout, and callbackCommitGuard, in milliseconds. */
  const SERVICE := Timing(2500, 500, 2500)

  /** The stored outcome; with an empty toast it is a claim pending since `pendingAt`. */
  datatype Result = Result(toastType: string, content: string, pendingAt: nat)

  predicate Published(r: Result) {
    r.toastType != "" && r.content != ""
  }

  /** contextCommitErr: the context has ended, or ends too soon for the commit. */
  predicate TooLate(t: Timing, clock: nat, deadline: nat) {
    clock >= deadline || deadline - clock <= t.guard
  }

  /** ClaimOnboardingCallbackResultContext, with `now` read by the caller before it waited for the transaction. */
  function Claim(t: Timing, results: map<string, Result>, delivery: string, now: nat, clock: nat, deadline: nat)
    : (map<string, Result>, bool)
  {
    if TooLate(t, clock, deadline) then (results, false)
    else if delivery in results && (Published(results[delivery]) || results[delivery].pendingAt + t.stale > now) then (results, false)
    else (results[delivery := Result("", "", now)], true)
  }

  /** SetOnboardingCallbackResultContext: it does not look at what is stored. */
  function Publish(t: Timing, results: map<string, Result>, delivery: string, toastType: string, content: string, clock: nat, deadline: nat)
    : (map<string, Result>, bool)
  {
    if toastType == "" || content == "" || TooLate(t, clock, deadline) then (results, false)
    else (results[delivery := Result(toastType, content, 0)], true)
  }

  /**
   * A claim is granted exactly if enough time is left and nothing is stored for the delivery, or a claim that went stale
   * by the caller's own reading of the clock; then that claim is stored, and otherwise nothing changes.
   */
  lemma ClaimedIff(t: Timing, results: map<string, Result>, delivery: string, now: nat, clock: nat, deadline: nat)
    ensures var (later, claimed) := Claim(t, results, delivery, now, clock, deadline);
            && (claimed <==> clock + t.guard < deadline
                             && (delivery in results ==>
                                   (results[delivery].toastType == "" || results[delivery].content == "")
                                   && now >= results[delivery].pendingAt + t.stale))
            && later == if claimed then results[delivery := Result("", "", now)] else results
  {
  }

  /** A toast is stored exactly if it is not empty and enough time is left, whatever is stored already. */
  lemma PublishedIff(t: Timing, results: map<string, Result>, delivery: string, toastType: string, content: string, clock: nat, deadline: nat)
    ensures var (later, stored) := Publish(t, results, delivery, toastType, content, clock, deadline);
            && (stored <==> toastType != "" && content != "" && clock + t.guard < deadline)
            && later == if stored then results[delivery := Result(toastType, content, 0)] else results
  {
  }

  class CallbackStore {
    const timing: Timing
    var results: map<string, Result>

    constructor (timing: Timing)
      ensures this.timing == timing && results == map[]
    {
      this.timing := timing;
      results := map[];
    }

    /** The context is checked before the transaction, at its start and before the write; time passes in between. */
    method ClaimContext(delivery: string, now: nat, clocks: (nat, nat, nat), deadline: nat) returns (claimed: bool)
      requires clocks.0 <= clocks.1 <= clocks.2
      modifies this
      ensures (results, claimed) == Claim(timing, old(results), delivery, now, clocks.2, deadline)
    {
      if TooLate(timing, clocks.0, deadline) || TooLate(timing, clocks.1, deadline) {
        return false;
      }
      if delivery in results {
        var result := results[delivery];
        if (result.toastType != "" && result.content != "") || result.pendingAt + timing.stale > now {
          return false;
        }
      }
      if TooLate(timing, clocks.2, deadline) {
        return false;
      }
      results := results[delivery := Result("", "", now)];
      return true;
    }

    method SetContext(delivery: string, toastType: string, content: string, clocks: (nat, nat, nat), deadline: nat) returns (stored: bool)
      requires clocks.0 <= clocks.1 <= clocks.2
      modifies this
      ensures (results, stored) == Publish(timing, old(results), delivery, toastType, content, clocks.2, deadline)
    {
      if toastType == "" || content == "" {
        return false;
      }
      if TooLate(timing, clocks.0, deadline) || TooLate(timing, clocks.1, deadline) || TooLate(timing, clocks.2, deadline) {
        return false;
      }
      results := results[delivery := Result(toastType, content, 0)];
      return true;
    }
  }

  // ----- The protocol -----

  datatype Phase = Arrived | Clocked(now: nat) | Claimed(at: nat) | Done

  datatype Caller = Caller(delivery: string, deadline: nat, phase: Phase)

  datatype World = World(clock: nat, results: map<string, Result>, callers: map<nat, Caller>)

  const Start := World(0, map[], map[])

  datatype Action =
    | Tick(time: nat)
    | Arrive(pid: nat, delivery: string, deadline: nat)
    | ReadClock(pid: nat)
    | TakeClaim(pid: nat)
    | TryPublish(pid: nat, toastType: string, content: string)
    | Crash

  function WithPhase(w: World, pid: nat, phase: Phase): World
    requires pid in w.callers
  {
    w.(callers := w.callers[pid := w.callers[pid].(phase := phase)])
  }

  /** One step; an action that does not fit the state of its caller does nothing. */
  function Next(t: Timing, w: World, a: Action): World {
    match a
    case Tick(time) => w.(clock := w.clock + time)
    case Arrive(pid, delivery, deadline) =>
      if pid in w.callers || deadline > w.clock + t.budget then w
      else w.(callers := w.callers[pid := Caller(delivery, deadline, Arrived)])
    case ReadClock(pid) =>
      if pid in w.callers && w.callers[pid].phase.Arrived? then WithPhase(w, pid, Clocked(w.clock)) else w
    case TakeClaim(pid) =>
      if pid in w.callers && w.callers[pid].phase.Clocked? then
        var c := w.callers[pid];
        var (results, claimed) := Claim(t, w.results, c.delivery, c.phase.now, w.clock, c.deadline);
        WithPhase(w.(results := results), pid, if claimed then Claimed(c.phase.now) else Done)
      else w
    case TryPublish(pid, toastType, content) =>
      if pid in w.callers && w.callers[pid].phase.Claimed? then
        var c := w.callers[pid];
        WithPhase(w.(results := Publish(t, w.results, c.delivery, toastType, content, w.clock, c.deadline).0), pid, Done)
      else w
    case Crash => w.(callers := map[])
  }

  function Run(t: Timing, w: World, actions: seq<Action>): World
    decreases |actions|
  {
    if actions == [] then w else Run(t, Next(t, w, actions[0]), actions[1..])
  }

  // ----- Write-once -----

  /** A claimer that can still write. */
  predicate Live(t: Timing, w: World, pid: nat) {
    pid in w.callers && w.callers[pid].phase.Claimed? && !TooLate(t, w.clock, w.callers[pid].deadline)
  }

  /** A caller's clock reading is not in the future and its deadline is within the budget of that reading. */
  ghost predicate Timed(t: Timing, w: World, c: Caller) {
    match c.phase
    case Arrived => c.deadline <= w.clock + t.budget
    case Clocked(now) => now <= w.clock && c.deadline <= now + t.budget
    case Claimed(at) => at <= w.clock && c.deadline <= at + t.budget
    case Done => true
  }

  ghost predicate AllTimed(t: Timing, w: World) {
    forall pid <- w.callers :: Timed(t, w, w.callers[pid])
  }

  ghost predicate HasClaim(results: map<string, Result>, c: Caller)
    requires c.phase.Claimed?
  {
    c.delivery in results && results[c.delivery] == Result("", "", c.phase.at)
  }

  /** At most one claimer of a delivery can still write, and then the stored claim is its own. */
  ghost predicate LeaseExclusive(t: Timing, w: World) {
    && (forall p :: Live(t, w, p) ==> HasClaim(w.results, w.callers[p]))
    && (forall p, q :: Live(t, w, p) && Live(t, w, q) && w.callers[p].delivery == w.callers[q].delivery ==> p == q)
  }

  ghost predicate Leased(t: Timing, w: World) {
    AllTimed(t, w) && LeaseExclusive(t, w)
  }

  lemma NextKeepsTimed(t: Timing, w: World, a: Action)
    requires AllTimed(t, w)
    ensures AllTimed(t, Next(t, w, a))
  {
  }

  /** A successful claim supersedes only claimers whose time to write is over. */
  lemma ClaimSupersedes(t: Timing, w: World, pid: nat, q: nat)
    requires t.budget <= t.stale + t.guard && Leased(t, w)
    requires pid in w.callers && w.callers[pid].phase.Clocked?
    requires Claim(t, w.results, w.callers[pid].delivery, w.callers[pid].phase.now, w.clock, w.callers[pid].deadline).1
    requires Live(t, w, q)
    ensures w.callers[q].delivery != w.callers[pid].delivery
  {
    assert Timed(t, w, w.callers[q]) && Timed(t, w, w.callers[pid]);
  }

  lemma NextKeepsLeased(t: Timing, w: World, a: Action)
    requires t.budget <= t.stale + t.guard && Leased(t, w)
    ensures Leased(t, Next(t, w, a))
  {
    NextKeepsTimed(t, w, a);
    var r := Next(t, w, a);
    match a
    case TakeClaim(pid) =>
      if pid in w.callers && w.callers[pid].phase.Clocked? {
        var c := w.callers[pid];
        if Claim(t, w.results, c.delivery, c.phase.now, w.clock, c.deadline).1 {
          forall q | Live(t, w, q) ensures w.callers[q].delivery != c.delivery { ClaimSupersedes(t, w, pid, q); }
        }
        forall q | Live(t, r, q) && q != pid ensures Live(t, w, q) {}
      }
    case TryPublish(pid, toastType, content) =>
      forall q | Live(t, r, q) ensures Live(t, w, q) && q != pid {}
    case Tick(_) => forall q | Live(t, r, q) ensures Live(t, w, q) {}
    case Arrive(_, _, _) => forall q | Live(t, r, q) ensures Live(t, w, q) {}
    case ReadClock(_) => forall q | Live(t, r, q) ensures Live(t, w, q) {}
    case Crash =>
  }

  ghost predicate KeepsPublished(w: World, later: World) {
    forall d <- w.results :: Published(w.results[d]) ==> d in later.results && later.results[d] == w.results[d]
  }

  lemma NextKeepsPublished(t: Timing, w: World, a: Action)
    requires Leased(t, w)
    ensures KeepsPublished(w, Next(t, w, a))
  {
  }

  lemma {:induction false} RunKeepsPublished(t: Timing, w: World, actions: seq<Action>)
    requires t.budget <= t.stale + t.guard && Leased(t, w)
    ensures KeepsPublished(w, Run(t, w, actions)) && Leased(t, Run(t, w, actions))
    decreases |actions|
  {
    hide Leased, Next;
    if actions != [] {
      NextKeepsLeased(t, w, actions[0]);
      NextKeepsPublished(t, w, actions[0]);
      RunKeepsPublished(t, Next(t, w, actions[0]), actions[1..]);
    }
  }

  /** Write-once: a toast that was stored is never replaced, in any run. */
  ghost predicate WriteOnce(t: Timing) {
    forall before: seq<Action>, after: seq<Action> ::
      KeepsPublished(Run(t, Start, before), Run(t, Run(t, Start, before), after))
  }

  /** The overwriting run when the deadline outlives the stale timeout: claim, let it go stale, claim again, publish twice. */
  lemma OverwriteRun(t: Timing) returns (before: seq<Action>, after: seq<Action>)
    requires t.budget > t.stale + t.guard
    ensures !KeepsPublished(Run(t, Start, before), Run(t, Run(t, Start, before), after))
  {
    var first := [Arrive(1, "d", t.budget), ReadClock(1), TakeClaim(1), Tick(t.stale)];
    var second := [Arrive(2, "d", t.stale + t.budget), ReadClock(2), TakeClaim(2), TryPublish(2, "success", "bound")];
    before, after := first + second, [TryPublish(1, "error", "retry")];
    var w4 := ClaimGoesStale(t, first);
    var w8 := AnotherPublishes(t, w4, second);
    RunFour(t, Start, first);
    RunFour(t, w4, second);
    RunAppend(t, Start, first, second);
    RunOne(t, w8, after[0]);
    assert Next(t, w8, after[0]).results["d"] == Result("error", "retry", 0);
  }

  lemma ClaimGoesStale(t: Timing, a: seq<Action>) returns (w: World)
    requires a == [Arrive(1, "d", t.budget), ReadClock(1), TakeClaim(1), Tick(t.stale)]
    requires t.budget > t.stale + t.guard
    ensures w == Next(t, Next(t, Next(t, Next(t, Start, a[0]), a[1]), a[2]), a[3])
    ensures w == World(t.stale, map["d" := Result("", "", 0)], map[1 := Caller("d", t.budget, Claimed(0))])
  {
    var w1 := Next(t, Start, a[0]);
    var w2 := Next(t, w1, a[1]);
    var w3 := Next(t, w2, a[2]);
    w := Next(t, w3, a[3]);
  }

  lemma AnotherPublishes(t: Timing, w4: World, a: seq<Action>) returns (w: World)
    requires a == [Arrive(2, "d", t.stale + t.budget), ReadClock(2), TakeClaim(2), TryPublish(2, "success", "bound")]
    requires t.budget > t.stale + t.guard
    requires w4 == World(t.stale, map["d" := Result("", "", 0)], map[1 := Caller("d", t.budget, Claimed(0))])
    ensures w == Next(t, Next(t, Next(t, Next(t, w4, a[0]), a[1]), a[2]), a[3])
    ensures w.clock == t.stale && w.results == map["d" := Result("success", "bound", 0)]
    ensures 1 in w.callers && w.callers[1] == Caller("d", t.budget, Claimed(0))
  {
    var w5 := Next(t, w4, a[0]);
    var w6 := Next(t, w5, a[1]);
    var w7 := Next(t, w6, a[2]);
    assert w7.callers[2].phase == Claimed(t.stale);
    w := Next(t, w7, a[3]);
  }

  lemma RunFour(t: Timing, w: World, a: seq<Action>)
    requires |a| == 4
    ensures Run(t, w, a) == Next(t, Next(t, Next(t, Next(t, w, a[0]), a[1]), a[2]), a[3])
  {
    hide Next;
    RunAppend(t, w, a[..3], a[3..]);
    RunAppend(t, w, a[..2], a[2..3]);
    RunAppend(t, w, a[..1], a[1..2]);
    assert a[..3] + a[3..] == a && a[..2] + a[2..3] == a[..3] && a[..1] + a[1..2] == a[..2];
    RunOne(t, w, a[0]);
    assert a[..1] == [a[0]] && a[1..2] == [a[1]] && a[2..3] == [a[2]] && a[3..] == [a[3]];
    RunOne(t, Run(t, w, a[..1]), a[1]);
    RunOne(t, Run(t, w, a[..2]), a[2]);
    RunOne(t, Run(t, w, a[..3]), a[3]);
  }

  lemma RunOne(t: Timing, w: World, a: Action)
    ensures Run(t, w, [a]) == Next(t, w, a)
  {
  }

  lemma {:induction false} RunAppend(t: Timing, w: World, a: seq<Action>, b: seq<Action>)
    ensures Run(t, w, a + b) == Run(t, Run(t, w, a), b)
    decreases |a|
  {
    if a == [] {
      assert a + b == b;
    } else {
      assert (a + b)[1..] == a[1..] + b && (a + b)[0] == a[0];
      RunAppend(t, Next(t, w, a[0]), a[1..], b);
    }
  }

  lemma StartLeased(t: Timing)
    ensures Leased(t, Start)
  {
  }

  /** Stored toasts never change, in any run, exactly when the budget is no longer than stale timeout plus guard. */
  lemma WriteOnceIffFenced(t: Timing)
    ensures WriteOnce(t) <==> t.budget <= t.stale + t.guard
  {
    hide KeepsPublished, Run;
    if t.budget <= t.stale + t.guard {
      StartLeased(t);
      forall before: seq<Action>, after: seq<Action>
        ensures KeepsPublished(Run(t, Start, before), Run(t, Run(t, Start, before), after))
      {
        RunKeepsPublished(t, Start, before);
        RunKeepsPublished(t, Run(t, Start, before), after);
      }
    } else {
      var before, after := OverwriteRun(t);
      assert !KeepsPublished(Run(t, Start, before), Run(t, Run(t, Start, before), after));
    }
  }

  /** The service's own constants are on the safe side. */
  lemma ServiceIsWriteOnce()
    ensures WriteOnce(SERVICE)
  {
    WriteOnceIffFenced(SERVICE);
  }
}
