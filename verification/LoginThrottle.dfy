/** The sign-in limiter of server/src/auth.rs and the order in which
    server/src/auth_http.rs uses it. One row per scope; the scope's hash is
    taken to be injective, so rows are keyed by the scope itself. */
module LoginThrottle {
  import opened Text

  const LOGIN_WINDOW: nat := 15 * 60
  const LOGIN_BLOCK: nat := 15 * 60
  const LOGIN_MAX_FAILURES: nat := 8

  datatype Limit = Limit(failures: nat, windowStartedAt: nat, blockedUntil: nat)

  type Limits = map<string, Limit>

  // ----- What the three statements do to the table -----

  predicate WindowOver(row: Limit, now: nat) {
    row.windowStartedAt + LOGIN_WINDOW <= now
  }

  function RetryAfter(limits: Limits, scope: string, now: nat): Option<nat> {
    if scope in limits && limits[scope].blockedUntil > now
    then Some(limits[scope].blockedUntil - now) else None
  }

  function AfterCheck(limits: Limits, scope: string, now: nat): Limits {
    if scope in limits && limits[scope].blockedUntil <= now && WindowOver(limits[scope], now)
    then limits - {scope} else limits
  }

  /** The upsert: a fresh row, a restarted window, or one more failure. */
  function FailedRow(limits: Limits, scope: string, max: nat, now: nat): Limit {
    if scope !in limits then Limit(1, now, 0)
    else
      var row := limits[scope];
      if WindowOver(row, now) then Limit(1, now, 0)
      else Limit(row.failures + 1, row.windowStartedAt,
                 if row.failures + 1 >= max then now + LOGIN_BLOCK else row.blockedUntil)
  }

  function AfterFailure(limits: Limits, scope: string, max: nat, now: nat): Limits {
    limits[scope := FailedRow(limits, scope, max, now)]
  }

  // ----- The store -----

  datatype Session = RateLimited(retryAfter: nat) | Unauthorized | SignedIn

  class AuthStore {
    var limits: Limits

    constructor ()
      ensures limits == map[]
    {
      limits := map[];
    }

    method LoginRetryAfter(scope: string, now: nat) returns (retry: Option<nat>)
      modifies this
      ensures retry == RetryAfter(old(limits), scope, now)
      ensures limits == AfterCheck(old(limits), scope, now)
    {
      if scope !in limits {
        return None;
      }
      var row := limits[scope];
      if row.blockedUntil > now {
        return Some(row.blockedUntil - now);
      }
      if row.windowStartedAt + LOGIN_WINDOW <= now {
        limits := limits - {scope};
      }
      return None;
    }

    method RecordLoginFailureLimited(scope: string, maxFailures: nat, now: nat)
      modifies this
      ensures limits == AfterFailure(old(limits), scope, maxFailures, now)
    {
      if scope !in limits {
        limits := limits[scope := Limit(1, now, 0)];
      } else {
        var row := limits[scope];
        var over := row.windowStartedAt + LOGIN_WINDOW <= now;
        limits := limits[scope := Limit(
          if over then 1 else row.failures + 1,
          if over then now else row.windowStartedAt,
          if over then 0 else if row.failures + 1 >= maxFailures then now + LOGIN_BLOCK else row.blockedUntil)];
      }
    }

    method ClearLoginFailures(scope: string)
      modifies this
      ensures limits == old(limits) - {scope}
    {
      limits := limits - {scope};
    }

    /** Check, verify, then record or clear; `verified` is the password's verdict. */
    method PasswordSession(scope: string, verified: bool, now: nat) returns (session: Session)
      modifies this
      ensures limits == Attempted(old(limits), Attempt(scope, now, verified), LOGIN_MAX_FAILURES)
      ensures session.RateLimited? <==> RetryAfter(old(limits), scope, now).Some?
      ensures session.RateLimited? ==> RetryAfter(old(limits), scope, now) == Some(session.retryAfter)
      ensures session.SignedIn? ==> verified && scope !in limits
      ensures session.Unauthorized? ==> !verified && scope in limits
    {
      var retry := LoginRetryAfter(scope, now);
      if retry.Some? {
        return RateLimited(retry.value);
      }
      if !verified {
        RecordLoginFailureLimited(scope, LOGIN_MAX_FAILURES, now);
        return Unauthorized;
      }
      ClearLoginFailures(scope);
      return SignedIn;
    }
  }

  // ----- Runs -----

  datatype Attempt = Attempt(scope: string, now: nat, verified: bool)

  function Attempted(limits: Limits, e: Attempt, max: nat): Limits {
    if RetryAfter(limits, e.scope, e.now).Some? then AfterCheck(limits, e.scope, e.now)
    else
      var checked := AfterCheck(limits, e.scope, e.now);
      if e.verified then checked - {e.scope} else AfterFailure(checked, e.scope, max, e.now)
  }

  /** A failure the limiter let through: when, in which window, and the how
      many-th of that window it was. */
  datatype Failure = Failure(time: nat, window: nat, rank: nat)

  datatype Trace = Trace(limits: Limits, log: seq<Failure>)

  function Step(t: Trace, e: Attempt, scope: string, max: nat): Trace {
    var limits := Attempted(t.limits, e, max);
    if e.scope == scope && !e.verified && RetryAfter(t.limits, scope, e.now).None?
    then Trace(limits, t.log + [Failure(e.now, limits[scope].windowStartedAt, limits[scope].failures)])
    else Trace(limits, t.log)
  }

  /** Any interleaving of attempts on any scopes, logging one scope's failures. */
  function Run(events: seq<Attempt>, scope: string, max: nat): Trace {
    if events == [] then Trace(map[], [])
    else Step(Run(events[..|events| - 1], scope, max), events[|events| - 1], scope, max)
  }

  predicate ClockNeverGoesBack(events: seq<Attempt>) {
    forall i, j :: 0 <= i < j < |events| ==> events[i].now <= events[j].now
  }

  predicate NoSuccessOn(events: seq<Attempt>, scope: string) {
    forall i :: 0 <= i < |events| && events[i].scope == scope ==> !events[i].verified
  }

  /** The budget a window really has: the insert never blocks, so a limit below
      two still lets two failures through. */
  function Budget(max: nat): nat {
    if max < 2 then 2 else max
  }

  // ----- What every run keeps -----

  predicate RowOk(row: Limit, max: nat) {
    && 1 <= row.failures <= Budget(max)
    && (row.failures < Budget(max) ==> row.blockedUntil == 0)
    && (row.failures == Budget(max) ==> row.blockedUntil >= row.windowStartedAt + LOGIN_BLOCK)
  }

  /** When a block has ended, its window has ended too. */
  lemma BlockOutlivesWindow(row: Limit, max: nat, now: nat)
    requires RowOk(row, max) && row.blockedUntil != 0 && row.blockedUntil <= now
    ensures WindowOver(row, now)
  {
  }

  /** One logged failure after another: the same window and the next rank, or a
      new window that starts no sooner than the old one (and any block) ended. */
  predicate Follows(f: Failure, g: Failure, max: nat) {
    && f.time <= g.time
    && if g.window == f.window then g.rank == f.rank + 1
       else g.rank == 1 && g.time == g.window && f.window + LOGIN_WINDOW <= g.window
            && (f.rank == Budget(max) ==> f.time + LOGIN_BLOCK <= g.window)
  }

  predicate LogOk(log: seq<Failure>, max: nat) {
    && (forall i :: 0 <= i < |log| ==>
         && 1 <= log[i].rank <= Budget(max)
         && log[i].window <= log[i].time < log[i].window + LOGIN_WINDOW
         && (log[i].rank == 1 ==> log[i].time == log[i].window))
    && (forall i :: 0 < i < |log| ==> Follows(log[i - 1], log[i], max))
  }

  /** The scope's row is exactly the tail of its log. */
  predicate Tied(t: Trace, scope: string, max: nat, now: nat) {
    && (scope in t.limits ==> RowOk(t.limits[scope], max))
    && LogOk(t.log, max)
    && (t.log == [] ==> scope !in t.limits)
    && (t.log != [] ==>
         var f := t.log[|t.log| - 1];
         && f.time <= now
         && (scope in t.limits ==>
              && t.limits[scope].windowStartedAt == f.window && t.limits[scope].failures == f.rank
              && (f.rank == Budget(max) ==> t.limits[scope].blockedUntil == f.time + LOGIN_BLOCK))
         && (scope !in t.limits ==>
              && f.window + LOGIN_WINDOW <= now
              && (f.rank == Budget(max) ==> f.time + LOGIN_BLOCK <= now)))
  }

  lemma {:induction false} RunKeepsTied(events: seq<Attempt>, scope: string, max: nat, now: nat)
    requires ClockNeverGoesBack(events) && NoSuccessOn(events, scope)
    requires forall i :: 0 <= i < |events| ==> events[i].now <= now
    ensures Tied(Run(events, scope, max), scope, max, now)
  {
    if events != [] {
      var n := |events| - 1;
      var e := events[n];
      assert forall i :: 0 <= i < n ==> events[..n][i] == events[i];
      RunKeepsTied(events[..n], scope, max, e.now);
      StepKeepsTied(Run(events[..n], scope, max), e, scope, max, now);
    }
  }

  lemma StepKeepsTied(t: Trace, e: Attempt, scope: string, max: nat, now: nat)
    requires Tied(t, scope, max, e.now) && e.now <= now
    requires e.scope == scope ==> !e.verified
    ensures Tied(Step(t, e, scope, max), scope, max, now)
  {
    var log := Step(t, e, scope, max).log;
    if |log| > |t.log| {
      forall i | 0 < i < |log| ensures Follows(log[i - 1], log[i], max) {
        if i < |t.log| {
          assert Follows(t.log[i - 1], t.log[i], max);
        }
      }
    }
  }

  // ----- The sliding-window bound -----

  function FailuresWithin(log: seq<Failure>, from: int, until: int): nat {
    if log == [] then 0
    else FailuresWithin(log[..|log| - 1], from, until)
         + (if from <= log[|log| - 1].time < until then 1 else 0)
  }

  lemma {:induction false} TimesAscend(log: seq<Failure>, max: nat, i: nat, j: nat)
    requires LogOk(log, max) && i <= j < |log|
    ensures log[i].time <= log[j].time && log[i].window <= log[j].window
    decreases j
  {
    if i < j {
      TimesAscend(log, max, i, j - 1);
      assert Follows(log[j - 1], log[j], max);
    }
  }

  lemma {:induction false} RanksInOneWindow(log: seq<Failure>, max: nat, i: nat, j: nat)
    requires LogOk(log, max) && i <= j < |log| && log[i].window == log[j].window
    ensures log[j].rank == log[i].rank + (j - i)
    decreases j
  {
    if i < j {
      TimesAscend(log, max, i, j - 1);
      TimesAscend(log, max, j - 1, j);
      assert Follows(log[j - 1], log[j], max);
      RanksInOneWindow(log, max, i, j - 1);
    }
  }

  /** Where the first window change after `i` happens. */
  lemma {:induction false} FirstChange(log: seq<Failure>, max: nat, i: nat, j: nat) returns (k: nat)
    requires LogOk(log, max) && i < j < |log| && log[i].window != log[j].window
    ensures i < k <= j && log[k - 1].window == log[i].window && log[k].window != log[i].window
    decreases j - i
  {
    if log[i + 1].window != log[i].window {
      k := i + 1;
    } else {
      k := FirstChange(log, max, i + 1, j);
    }
  }

  /** Two failures less than a window apart have at most 2 * budget - 3 steps
      between them. */
  lemma SpanBound(log: seq<Failure>, max: nat, i: nat, j: nat)
    requires LogOk(log, max) && i <= j < |log|
    requires log[j].time < log[i].time + LOGIN_WINDOW
    ensures j - i + 1 <= 2 * Budget(max) - 2
  {
    if log[i].window == log[j].window {
      RanksInOneWindow(log, max, i, j);
    } else {
      var k := FirstChange(log, max, i, j);
      assert Follows(log[k - 1], log[k], max);
      TimesAscend(log, max, i, k - 1);
      TimesAscend(log, max, k, j);
      RanksInOneWindow(log, max, i, k - 1);
      if log[k].window != log[j].window {
        var m := FirstChange(log, max, k, j);
        assert Follows(log[m - 1], log[m], max);
        TimesAscend(log, max, m, j);
      }
      RanksInOneWindow(log, max, k, j);
    }
  }

  lemma {:induction false} CountFromFirst(log: seq<Failure>, from: int, until: int, i: nat)
    requires i <= |log|
    requires forall k :: 0 <= k < i ==> !(from <= log[k].time < until)
    ensures FailuresWithin(log, from, until) <= |log| - i
  {
    if |log| > i {
      CountFromFirst(log[..|log| - 1], from, until, i);
    } else if log != [] {
      CountFromFirst(log[..|log| - 1], from, until, i - 1);
    }
  }

  lemma {:induction false} LogBound(log: seq<Failure>, max: nat, from: int)
    requires LogOk(log, max)
    ensures FailuresWithin(log, from, from + LOGIN_WINDOW) <= 2 * Budget(max) - 2
  {
    if log != [] {
      var j := |log| - 1;
      if from <= log[j].time < from + LOGIN_WINDOW {
        var i := 0;
        while !(from <= log[i].time < from + LOGIN_WINDOW)
          invariant 0 <= i <= j
          invariant forall k :: 0 <= k < i ==> !(from <= log[k].time < from + LOGIN_WINDOW)
          decreases j - i
        {
          i := i + 1;
        }
        SpanBound(log, max, i, j);
        CountFromFirst(log, from, from + LOGIN_WINDOW, i);
      } else {
        LogBound(log[..j], max, from);
      }
    }
  }

  /** Over every run, any LOGIN_WINDOW seconds let at most 2 * budget - 2
      failures of one scope through. */
  lemma SlidingWindowBound(events: seq<Attempt>, scope: string, max: nat, from: int)
    requires ClockNeverGoesBack(events) && NoSuccessOn(events, scope)
    ensures FailuresWithin(Run(events, scope, max).log, from, from + LOGIN_WINDOW) <= 2 * Budget(max) - 2
  {
    var now := if events == [] then 0 else events[|events| - 1].now;
    RunKeepsTied(events, scope, max, now);
    LogBound(Run(events, scope, max).log, max, from);
  }

  // ----- The bound is reached -----

  function Burst(scope: string, now: nat, count: nat): seq<Attempt> {
    seq(count, i => Attempt(scope, now, false))
  }

  /** A trace whose next failure at `now` will be number `rank + 1` of the
      window that starts at `start`. */
  predicate Primed(t: Trace, scope: string, start: nat, rank: nat, now: nat) {
    if rank == 0 then now == start && (scope in t.limits ==> t.limits[scope].blockedUntil <= now && WindowOver(t.limits[scope], now))
    else scope in t.limits && t.limits[scope] == Limit(rank, start, 0)
  }

  lemma OneMoreFailure(t: Trace, scope: string, max: nat, start: nat, rank: nat, now: nat, from: int)
    requires rank < Budget(max) && start <= now < start + LOGIN_WINDOW && from <= now < from + LOGIN_WINDOW
    requires Primed(t, scope, start, rank, now)
    ensures var t' := Step(t, Attempt(scope, now, false), scope, max);
            && FailuresWithin(t'.log, from, from + LOGIN_WINDOW) == FailuresWithin(t.log, from, from + LOGIN_WINDOW) + 1
            && (rank + 1 < Budget(max) ==> Primed(t', scope, start, rank + 1, now))
  {
    var t' := Step(t, Attempt(scope, now, false), scope, max);
    assert t'.log[..|t.log|] == t.log;
  }

  function Repeated(t: Trace, scope: string, max: nat, now: nat, count: nat): Trace {
    if count == 0 then t else Step(Repeated(t, scope, max, now, count - 1), Attempt(scope, now, false), scope, max)
  }

  lemma {:induction false} BurstIsRepeated(events: seq<Attempt>, scope: string, max: nat, now: nat, count: nat)
    ensures Run(events + Burst(scope, now, count), scope, max) == Repeated(Run(events, scope, max), scope, max, now, count)
  {
    var all := events + Burst(scope, now, count);
    if count == 0 {
      assert all == events;
    } else {
      assert all[..|all| - 1] == events + Burst(scope, now, count - 1);
      BurstIsRepeated(events, scope, max, now, count - 1);
    }
  }

  /** A burst of failures inside a window that still has room for all of them. */
  lemma {:induction false} BurstRun(t: Trace, scope: string, max: nat, start: nat, rank: nat, now: nat, count: nat, from: int)
    requires count + rank <= Budget(max) && from <= now < from + LOGIN_WINDOW
    requires start <= now < start + LOGIN_WINDOW
    requires Primed(t, scope, start, rank, now)
    ensures var t' := Repeated(t, scope, max, now, count);
            && FailuresWithin(t'.log, from, from + LOGIN_WINDOW) == FailuresWithin(t.log, from, from + LOGIN_WINDOW) + count
            && (count + rank < Budget(max) ==> Primed(t', scope, start, count + rank, now))
    decreases count
  {
    if count > 0 {
      BurstRun(t, scope, max, start, rank, now, count - 1, from);
      OneMoreFailure(Repeated(t, scope, max, now, count - 1), scope, max, start, rank + count - 1, now, from);
    }
  }

  /** One failure, all but two more at the very end of its window, and a full
      budget right after. */
  function WorstCase(scope: string, max: nat): seq<Attempt>
  {
    Burst(scope, 0, 1) + Burst(scope, LOGIN_WINDOW - 1, Budget(max) - 2) + Burst(scope, LOGIN_WINDOW, Budget(max))
  }

  lemma WorstCaseOrdered(scope: string, max: nat)
    ensures ClockNeverGoesBack(WorstCase(scope, max)) && NoSuccessOn(WorstCase(scope, max), scope)
  {
    var events := WorstCase(scope, max);
    assert forall i :: 0 <= i < |events| ==>
        events[i] == Attempt(scope, if i == 0 then 0 else if i < Budget(max) - 1 then LOGIN_WINDOW - 1 else LOGIN_WINDOW, false);
  }

  /** For every limit, zero and one included, some run fills the bound. */
  lemma SlidingWindowTight(scope: string, max: nat)
    ensures ClockNeverGoesBack(WorstCase(scope, max)) && NoSuccessOn(WorstCase(scope, max), scope)
    ensures FailuresWithin(Run(WorstCase(scope, max), scope, max).log, LOGIN_WINDOW - 1, 2 * LOGIN_WINDOW - 1)
         == 2 * Budget(max) - 2
  {
    WorstCaseOrdered(scope, max);
    var from := LOGIN_WINDOW - 1;
    var (first, late) := (Burst(scope, 0, 1), Burst(scope, LOGIN_WINDOW - 1, Budget(max) - 2));
    FirstFailure(scope, max, from);
    BurstIsRepeated(first, scope, max, LOGIN_WINDOW - 1, Budget(max) - 2);
    BurstRun(Run(first, scope, max), scope, max, 0, 1, LOGIN_WINDOW - 1, Budget(max) - 2, from);
    BurstIsRepeated(first + late, scope, max, LOGIN_WINDOW, Budget(max));
    BurstRun(Run(first + late, scope, max), scope, max, LOGIN_WINDOW, 0, LOGIN_WINDOW, Budget(max), from);
  }

  lemma FirstFailure(scope: string, max: nat, from: int)
    requires from > 0
    ensures var t := Run(Burst(scope, 0, 1), scope, max);
            && scope in t.limits && t.limits[scope] == Limit(1, 0, 0)
            && FailuresWithin(t.log, from, from + LOGIN_WINDOW) == 0
  {
    var events := Burst(scope, 0, 1);
    assert events[..0] == [];
    assert Run(events[..0], scope, max) == Trace(map[], []);
    var t := Run(events, scope, max);
    assert t.log == [Failure(0, 0, 1)];
    assert t.log[..0] == [];
  }

  // ----- Retry-After -----

  /** The advertised wait is exact: refused at every second before it, let
      through at the end of it. */
  lemma RetryAfterIsExact(limits: Limits, scope: string, now: nat, later: nat)
    requires RetryAfter(limits, scope, now).Some? && now <= later
    ensures var wait := RetryAfter(limits, scope, now).value;
            0 < wait && (RetryAfter(limits, scope, later).Some? <==> later < now + wait)
  {
  }

  /** In a run it never exceeds LOGIN_BLOCK. */
  lemma RetryAfterIsBounded(events: seq<Attempt>, scope: string, max: nat, now: nat)
    requires ClockNeverGoesBack(events) && NoSuccessOn(events, scope)
    requires forall i :: 0 <= i < |events| ==> events[i].now <= now
    ensures var wait := RetryAfter(Run(events, scope, max).limits, scope, now);
            wait.Some? ==> wait.value <= LOGIN_BLOCK
  {
    RunKeepsTied(events, scope, max, now);
  }

  /** A request after a full budget in one window is refused: the failure that
      spends the budget blocks the scope for LOGIN_BLOCK seconds. */
  lemma SpentBudgetBlocks(events: seq<Attempt>, scope: string, max: nat, now: nat)
    requires ClockNeverGoesBack(events) && NoSuccessOn(events, scope)
    requires forall i :: 0 <= i < |events| ==> events[i].now <= now
    requires var log := Run(events, scope, max).log;
             log != [] && log[|log| - 1].rank == Budget(max) && now < log[|log| - 1].time + LOGIN_BLOCK
    ensures RetryAfter(Run(events, scope, max).limits, scope, now).Some?
  {
    RunKeepsTied(events, scope, max, now);
  }
}
