/**
 * The durable sliding-window limiter: at most 5 requests in a second and 100 in a minute, and none before
 * the end of a Retry-After cooldown. Times are nanoseconds; 0 stands for "no cooldown recorded".
 */
module RateLimit {

  const SECOND: nat := 1_000_000_000
  const MINUTE: nat := 60 * SECOND
  const PER_SECOND: nat := 5
  const PER_MINUTE: nat := 100

  /** The rate bucket is keyed by (time, serial number), so a cursor meets the recorded times in ascending order. */
  datatype Limiter = Limiter(history: seq<nat>, cooldown: nat)

  const Fresh := Limiter([], 0)

  function After(times: seq<nat>, cutoff: int): (r: seq<nat>) {
    if times == [] then []
    else if times[0] > cutoff then [times[0]] + After(times[1..], cutoff)
    else After(times[1..], cutoff)
  }

  /** Put under the key (now, n): after every recorded time that is not later. */
  function Recorded(times: seq<nat>, now: nat): (r: seq<nat>) {
    if times == [] || times[0] > now then [now] + times
    else [times[0]] + Recorded(times[1..], now)
  }

  /** The wait that ReserveRequest reports; zero is a grant. */
  function Wait(l: Limiter, now: nat): int {
    var minute := After(l.history, now - MINUTE);
    var second := After(minute, now - SECOND);
    if l.cooldown > now then l.cooldown - now
    else if |second| >= PER_SECOND then second[0] + SECOND - now
    else if |minute| >= PER_MINUTE then minute[0] + MINUTE - now
    else 0
  }

  function Reserved(l: Limiter, now: nat): Limiter {
    var minute := After(l.history, now - MINUTE);
    if l.cooldown > now then l
    else if Wait(l, now) != 0 then l.(history := minute)
    else l.(history := Recorded(minute, now))
  }

  /** The cooldown that HandleFailure persists: it only ever moves forward. */
  function Cooled(l: Limiter, now: nat, retryAfter: nat): Limiter {
    if retryAfter > 0 && now + retryAfter > l.cooldown then l.(cooldown := now + retryAfter) else l
  }

  ghost predicate Ascending(times: seq<nat>) {
    forall i, j :: 0 <= i < j < |times| ==> times[i] <= times[j]
  }

  /** On an ascending sequence the scan of a suffix keeps a suffix. */
  lemma {:induction false} AfterIsSuffix(times: seq<nat>, base: nat, cutoff: int) returns (k: nat)
    requires Ascending(times) && base <= |times|
    ensures base <= k <= |times| && After(times[base..], cutoff) == times[k..]
    ensures forall i :: base <= i < k ==> times[i] <= cutoff
    ensures forall i :: k <= i < |times| ==> times[i] > cutoff
    decreases |times| - base
  {
    if base == |times| {
      k := base;
    } else {
      assert times[base..][1..] == times[base + 1..];
      k := AfterIsSuffix(times, base + 1, cutoff);
      if times[base] > cutoff {
        k := base;
        assert times[base..] == [times[base]] + times[base + 1..];
        AfterKeepsAll(times[base + 1..], cutoff);
      }
    }
  }

  lemma {:induction false} AfterKeepsAll(times: seq<nat>, cutoff: int)
    requires forall t <- times :: t > cutoff
    ensures After(times, cutoff) == times
  {
    if times != [] {
      assert times[0] in times;
      assert forall t <- times[1..] :: t in times;
      AfterKeepsAll(times[1..], cutoff);
    }
  }

  lemma {:induction false} RecordedAtEnd(times: seq<nat>, now: nat)
    requires forall t <- times :: t <= now
    ensures Recorded(times, now) == times + [now]
  {
    if times != [] {
      assert times[0] in times;
      assert forall t <- times[1..] :: t in times;
      RecordedAtEnd(times[1..], now);
    }
  }

  // ----- Whole runs -----

  /** What happens to the limiter over time; a restart keeps the bucket and so is no event. */
  datatype Event = Call(at: nat) | Failure(at: nat, retryAfter: nat)

  /** The limiter with the history of every grant ever made, and of every cooldown ever requested as (at, until). */
  datatype Trace = Trace(limiter: Limiter, grants: seq<nat>, clock: nat, cooldowns: set<(nat, nat)>)

  const Start := Trace(Fresh, [], 0, {})

  ghost function Step(t: Trace, e: Event): Trace {
    match e
    case Call(at) =>
      Trace(Reserved(t.limiter, at), if Wait(t.limiter, at) == 0 then t.grants + [at] else t.grants, at, t.cooldowns)
    case Failure(at, retryAfter) =>
      Trace(Cooled(t.limiter, at, retryAfter), t.grants, at,
            if retryAfter > 0 then t.cooldowns + {(at, at + retryAfter)} else t.cooldowns)
  }

  ghost function Run(events: seq<Event>): Trace {
    if events == [] then Start else Step(Run(events[..|events| - 1]), events[|events| - 1])
  }

  ghost predicate ClockNondecreasing(events: seq<Event>) {
    forall i, j :: 0 <= i < j < |events| ==> events[i].at <= events[j].at
  }

  /** The bucket is the grants of the last minute at least, and no grant breaks a window. */
  ghost predicate Paced(t: Trace) {
    && Ascending(t.grants)
    && (forall g <- t.grants :: g <= t.clock)
    && |t.limiter.history| <= |t.grants|
    && t.limiter.history == t.grants[|t.grants| - |t.limiter.history|..]
    && (forall i :: 0 <= i < |t.grants| - |t.limiter.history| ==> t.grants[i] + MINUTE <= t.clock)
    && Windowed(t.grants)
    && (forall c <- t.cooldowns :: c.1 <= t.limiter.cooldown)
  }

  /** The sixth grant from any grant is a second later, the hundred-and-first a minute later. */
  ghost predicate Windowed(grants: seq<nat>) {
    && (forall i :: 0 <= i < |grants| - PER_SECOND ==> grants[i] + SECOND <= grants[i + PER_SECOND])
    && (forall i :: 0 <= i < |grants| - PER_MINUTE ==> grants[i] + MINUTE <= grants[i + PER_MINUTE])
  }

  /** No grant falls inside a cooldown requested before it. */
  ghost predicate CooldownsRespected(t: Trace) {
    forall g, c :: g in t.grants && c in t.cooldowns && c.0 < g ==> c.1 <= g
  }

  /** After the scan: the live bucket is a suffix of all grants, those of the last minute. */
  lemma ScanIsSuffix(t: Trace, now: nat) returns (m: nat, s: nat)
    requires Paced(t) && t.clock <= now
    ensures m <= s <= |t.grants|
    ensures After(t.limiter.history, now - MINUTE) == t.grants[m..]
    ensures After(t.grants[m..], now - SECOND) == t.grants[s..]
    ensures forall i :: 0 <= i < m ==> t.grants[i] + MINUTE <= now
    ensures forall i :: m <= i < |t.grants| ==> t.grants[i] + MINUTE > now
    ensures forall i :: 0 <= i < s ==> t.grants[i] + SECOND <= now
    ensures forall i :: s <= i < |t.grants| ==> t.grants[i] + SECOND > now
  {
    m := AfterIsSuffix(t.grants, |t.grants| - |t.limiter.history|, now - MINUTE);
    s := AfterIsSuffix(t.grants, m, now - SECOND);
  }

  lemma CallKeepsPaced(t: Trace, now: nat)
    requires Paced(t) && t.clock <= now
    ensures Paced(Step(t, Call(now)))
  {
    hide After, Recorded, Windowed;
    if t.limiter.cooldown <= now {
      var m, s := ScanIsSuffix(t, now);
      if Wait(t.limiter, now) == 0 {
        forall g <- t.grants[m..] ensures g <= now { assert g in t.grants; }
        RecordedAtEnd(t.grants[m..], now);
        assert t.grants[m..] + [now] == (t.grants + [now])[m..];
        GrantKeepsWindows(t.grants, now, m, s);
        var r := Step(t, Call(now));
        assert |r.limiter.history| == |t.grants| - m + 1;
        assert |r.grants| - |r.limiter.history| == m;
        forall i | 0 <= i < |t.grants| ensures t.grants[i] <= now { assert t.grants[i] in t.grants; }
      }
    }
  }

  /** The arithmetic of one grant: with few recent grants, the fifth-last and the hundredth-last lie a window back. */
  lemma GrantKeepsWindows(grants: seq<nat>, now: nat, m: nat, s: nat)
    requires m <= |grants| && s <= |grants|
    requires |grants| - s < PER_SECOND && |grants| - m < PER_MINUTE
    requires forall i :: 0 <= i < m ==> grants[i] + MINUTE <= now
    requires forall i :: 0 <= i < s ==> grants[i] + SECOND <= now
    requires Windowed(grants)
    ensures Windowed(grants + [now])
  {
  }

  lemma FailureKeepsPaced(t: Trace, now: nat, retryAfter: nat)
    requires Paced(t) && t.clock <= now
    ensures Paced(Step(t, Failure(now, retryAfter)))
  {
  }

  lemma StartIsPaced()
    ensures Paced(Start)
  {
  }

  lemma {:induction false} RunIsPaced(events: seq<Event>)
    requires ClockNondecreasing(events)
    ensures Paced(Run(events))
    ensures events != [] ==> Run(events).clock == events[|events| - 1].at
    ensures events == [] ==> Run(events).clock == 0
  {
    hide Paced, Step;
    if events == [] {
      StartIsPaced();
    } else {
      var before := events[..|events| - 1];
      RunIsPaced(before);
      StepKeepsPaced(Run(before), events[|events| - 1]);
    }
  }

  lemma StepKeepsPaced(t: Trace, e: Event)
    requires Paced(t) && t.clock <= e.at
    ensures Paced(Step(t, e)) && Step(t, e).clock == e.at
  {
    hide Paced, Wait, Reserved, Cooled;
    match e
    case Call(at) => CallKeepsPaced(t, at);
    case Failure(at, retryAfter) => FailureKeepsPaced(t, at, retryAfter);
  }

  /**
   * Over any run with nondecreasing times, a window of one second holds at most 5 grants and a window of one
   * minute at most 100, although the scan deletes old entries.
   */
  lemma RateBound(events: seq<Event>, i: nat, j: nat)
    requires ClockNondecreasing(events)
    requires i <= j < |Run(events).grants|
    ensures var g := Run(events).grants;
            && (g[j] - g[i] < SECOND ==> j - i + 1 <= PER_SECOND)
            && (g[j] - g[i] < MINUTE ==> j - i + 1 <= PER_MINUTE)
  {
    RunIsPaced(events);
    var g := Run(events).grants;
    assert Windowed(g);
    if j - i >= PER_SECOND {
      assert g[i] + SECOND <= g[i + PER_SECOND];
    }
    if j - i >= PER_MINUTE {
      assert g[i] + MINUTE <= g[i + PER_MINUTE];
    }
  }

  lemma {:induction false} NoGrantInCooldown(events: seq<Event>)
    requires ClockNondecreasing(events)
    ensures CooldownsRespected(Run(events))
  {
    if events != [] {
      var before, last := events[..|events| - 1], events[|events| - 1];
      NoGrantInCooldown(before);
      RunIsPaced(before);
      StepRespectsCooldowns(Run(before), last);
    }
  }

  lemma StepRespectsCooldowns(t: Trace, e: Event)
    requires Paced(t) && CooldownsRespected(t) && t.clock <= e.at
    ensures CooldownsRespected(Step(t, e))
  {
  }

  // ----- Waits -----

  lemma WaitIsPositive(t: Trace, now: nat)
    requires Paced(t) && t.clock <= now
    ensures Wait(t.limiter, now) >= 0
  {
    hide After;
    if t.limiter.cooldown <= now {
      var m, s := ScanIsSuffix(t, now);
    }
  }

  /** A refused call is told to wait a positive time, and every earlier retry is refused as well. */
  lemma WaitIsExact(t: Trace, now: nat, retry: nat)
    requires Paced(t) && t.clock <= now
    requires Wait(t.limiter, now) != 0
    requires retry >= now
    ensures Wait(t.limiter, now) > 0
    ensures retry < now + Wait(t.limiter, now) ==> Wait(Reserved(t.limiter, now), retry) != 0
  {
    hide After, Recorded, Windowed, Paced;
    if t.limiter.cooldown <= now {
      var m, s := ScanIsSuffix(t, now);
      CallKeepsPaced(t, now);
      var later := Step(t, Call(now));
      var m', s' := ScanIsSuffix(later, retry);
      assert later.grants == t.grants;
      if |t.grants| - s >= PER_SECOND {
        assert Wait(t.limiter, now) == t.grants[s] + SECOND - now;
        assert retry < now + Wait(t.limiter, now) ==> s' <= s;
      } else {
        assert retry < now + Wait(t.limiter, now) ==> m' <= m;
      }
    }
  }

  /** What still stands between a caller and a grant: a cooldown, a full second, a full minute, nothing. */
  function Phase(l: Limiter, now: nat): nat {
    var minute := After(l.history, now - MINUTE);
    if l.cooldown > now then 3
    else if |After(minute, now - SECOND)| >= PER_SECOND then 2
    else if |minute| >= PER_MINUTE then 1
    else 0
  }

  /** The windows hold no more than their limits even while a caller is refused. */
  lemma WindowsNeverOverfull(t: Trace, now: nat, m: nat, s: nat)
    requires Paced(t) && t.clock <= now && m <= s <= |t.grants|
    requires forall i :: m <= i < |t.grants| ==> t.grants[i] + MINUTE > now
    requires forall i :: s <= i < |t.grants| ==> t.grants[i] + SECOND > now
    ensures |t.grants| - s <= PER_SECOND && |t.grants| - m <= PER_MINUTE
  {
    forall i | 0 <= i < |t.grants| ensures t.grants[i] <= now { assert t.grants[i] in t.grants; }
    WindowFrom(t.grants, s);
    WindowFrom(t.grants, m);
  }

  lemma WindowFrom(grants: seq<nat>, i: nat)
    requires Windowed(grants)
    ensures i + PER_SECOND < |grants| ==> grants[i] + SECOND <= grants[i + PER_SECOND]
    ensures i + PER_MINUTE < |grants| ==> grants[i] + MINUTE <= grants[i + PER_MINUTE]
  {
  }

  /**
   * A caller that sleeps as long as it was told, while nobody else reserves and no new cooldown arrives, never
   * meets the same obstacle twice: three waits at most come before a grant.
   */
  lemma WaitingAdvances(t: Trace, now: nat, later: nat)
    requires Paced(t) && t.clock <= now
    requires Wait(t.limiter, now) != 0
    requires later >= now + Wait(t.limiter, now)
    ensures Phase(Reserved(t.limiter, now), later) < Phase(t.limiter, now) <= 3
  {
    hide After, Recorded, Paced;
    if t.limiter.cooldown <= now {
      var m, s := ScanIsSuffix(t, now);
      WindowsNeverOverfull(t, now, m, s);
      CallKeepsPaced(t, now);
      WaitIsPositive(t, now);
      var after := Step(t, Call(now));
      assert after.grants == t.grants && after.clock == now;
      var m', s' := ScanIsSuffix(after, later);
      ScanMovesForward(t.grants, m, m', now, later, MINUTE);
      ScanMovesForward(t.grants, s, s', now, later, SECOND);
    }
  }

  lemma ScanMovesForward(grants: seq<nat>, k: nat, k': nat, now: nat, later: nat, window: nat)
    requires k <= |grants| && k' <= |grants| && now <= later
    requires forall i :: 0 <= i < k ==> grants[i] + window <= now
    requires forall i :: k' <= i < |grants| ==> grants[i] + window > later
    ensures k <= k'
    ensures k < |grants| && grants[k] + window <= later ==> k < k'
  {
    assert k == 0 || grants[k - 1] + window <= now;
  }

  lemma GrantIffNoObstacle(t: Trace, now: nat)
    requires Paced(t) && t.clock <= now
    ensures Wait(t.limiter, now) == 0 <==> Phase(t.limiter, now) == 0
  {
    hide After;
    if t.limiter.cooldown <= now {
      var m, s := ScanIsSuffix(t, now);
    }
  }

  /** The stored cooldown is the latest that was requested. */
  lemma {:induction false} CooldownIsRequested(events: seq<Event>)
    requires ClockNondecreasing(events)
    ensures var t := Run(events); t.limiter.cooldown == 0 || exists c <- t.cooldowns :: c.1 == t.limiter.cooldown
  {
    hide After;
    if events != [] {
      var before, last := events[..|events| - 1], events[|events| - 1];
      CooldownIsRequested(before);
      if last.Failure? && last.retryAfter > 0 {
        assert (last.at, last.at + last.retryAfter) in Run(events).cooldowns;
      }
    }
  }

  /**
   * After any run a request is granted exactly if every cooldown that was requested is over, the fifth-last grant is at
   * least a second old and the hundredth-last at least a minute.
   */
  lemma GrantIffRoom(events: seq<Event>, at: nat)
    requires ClockNondecreasing(events) && Run(events).clock <= at
    ensures var t := Run(events);
            var g := t.grants;
            Wait(t.limiter, at) == 0
            <==> (forall c <- t.cooldowns :: c.1 <= at)
                 && (|g| >= 5 ==> g[|g| - 5] + 1_000_000_000 <= at)
                 && (|g| >= 100 ==> g[|g| - 100] + 60_000_000_000 <= at)
  {
    hide After, Run, Wait, Windowed;
    RunIsPaced(events);
    CooldownIsRequested(events);
    var t := Run(events);
    GrantIffNoObstacle(t, at);
    if t.limiter.cooldown <= at {
      var m, s := ScanIsSuffix(t, at);
    }
  }

  lemma {:induction false} AfterAppend(times: seq<nat>, t: nat, cutoff: int)
    ensures After(times + [t], cutoff) == After(times, cutoff) + if t > cutoff then [t] else []
  {
    if times == [] {
      assert times + [t] == [t];
    } else {
      assert (times + [t])[1..] == times[1..] + [t];
      AfterAppend(times[1..], t, cutoff);
    }
  }

  lemma {:induction false} AfterAbove(times: seq<nat>, cutoff: int)
    ensures forall t <- After(times, cutoff) :: t > cutoff
  {
    if times != [] {
      AfterAbove(times[1..], cutoff);
    }
  }

  /** ReserveRequest: one cursor pass that deletes what is older than a minute and collects both windows. */
  method ReserveRequest(l: Limiter, now: nat) returns (r: Limiter, wait: int)
    ensures wait == Wait(l, now) && r == Reserved(l, now)
  {
    r, wait := l, 0;
    if l.cooldown > now {
      wait := l.cooldown - now;
      return;
    }
    var recentSecond, recentMinute := [], [];
    for i := 0 to |l.history|
      invariant recentMinute == After(l.history[..i], now - MINUTE)
      invariant recentSecond == After(recentMinute, now - SECOND)
    {
      var t := l.history[i];
      assert l.history[..i + 1] == l.history[..i] + [t];
      AfterAppend(l.history[..i], t, now - MINUTE);
      if t > now - MINUTE {
        AfterAppend(recentMinute, t, now - SECOND);
        recentMinute := recentMinute + [t];
        if t > now - SECOND {
          recentSecond := recentSecond + [t];
        }
      }
    }
    assert l.history[..|l.history|] == l.history;
    r := l.(history := recentMinute);
    if |recentSecond| >= PER_SECOND {
      wait := recentSecond[0] + SECOND - now;
      AfterAbove(recentMinute, now - SECOND);
      assert recentSecond[0] in recentSecond;
      return;
    }
    if |recentMinute| >= PER_MINUTE {
      wait := recentMinute[0] + MINUTE - now;
      AfterAbove(l.history, now - MINUTE);
      assert recentMinute[0] in recentMinute;
      return;
    }
    r := l.(history := Recorded(recentMinute, now));
  }
}
