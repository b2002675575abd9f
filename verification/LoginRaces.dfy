/** The sign-in limiter with each statement of an attempt a step of its own
    (server/src/auth_http.rs, server/src/auth.rs): the check is a query and, for
    a row whose window is over, a delete that no longer looks at the row; a
    failure reads the clock and is then recorded. Any number of attempts may be
    between any two of these steps. */
module LoginRaces {
  import opened Text
  import opened LoginThrottle

  /** Where an attempt is: it has seen a row whose window is over and has yet to
      delete it, or it is past the check, or its password was wrong and it has
      read the clock for its record. */
  datatype Stage = Stale | Checked | Timed(read: nat)

  datatype Event =
    | Select(scope: string, read: nat, now: nat)
    | Delete(scope: string, now: nat)
    | Succeed(scope: string, now: nat)
    | Read(scope: string, now: nat)
    | Record(scope: string, read: nat, now: nat)
    | GiveUp(scope: string, stage: Stage, now: nat)

  datatype Race = Race(limits: Limits, flights: map<string, multiset<Stage>>, log: seq<Failure>)

  function Flying(t: Race, scope: string): multiset<Stage> {
    if scope in t.flights then t.flights[scope] else multiset{}
  }

  /** The event's attempt is at the step before it; an attempt may always start. */
  predicate CanHappen(flight: multiset<Stage>, e: Event) {
    match e
    case Select(_, _, _) => true
    case Delete(_, _) => Stale in flight
    case Succeed(_, _) => Checked in flight
    case Read(_, _) => Checked in flight
    case Record(_, read, _) => Timed(read) in flight
    case GiveUp(_, stage, _) => stage in flight
  }

  /** The attempts of the event's scope after it. */
  function FlightAfter(limits: Limits, flight: multiset<Stage>, e: Event): multiset<Stage>
    requires CanHappen(flight, e)
  {
    match e
    case Select(s, read, _) =>
      if RetryAfter(limits, s, read).Some? then flight
      else if s in limits && WindowOver(limits[s], read) then flight + multiset{Stale}
      else flight + multiset{Checked}
    case Delete(_, _) => flight - multiset{Stale} + multiset{Checked}
    case Succeed(_, _) => flight - multiset{Checked}
    case Read(_, now) => flight - multiset{Checked} + multiset{Timed(now)}
    case Record(_, read, _) => flight - multiset{Timed(read)}
    case GiveUp(_, stage, _) => flight - multiset{stage}
  }

  function LimitsAfter(limits: Limits, e: Event, max: nat): Limits {
    if e.Delete? || e.Succeed? then limits - {e.scope}
    else if e.Record? then AfterFailure(limits, e.scope, max, e.read)
    else limits
  }

  /** Any interleaving of attempts on any scopes, logging one scope's failures. */
  function Happens(t: Race, e: Event, scope: string, max: nat): Race {
    var flight := Flying(t, e.scope);
    if !CanHappen(flight, e) then t
    else
      var limits := LimitsAfter(t.limits, e, max);
      Race(limits, t.flights[e.scope := FlightAfter(t.limits, flight, e)],
           if e.Record? && e.scope == scope
           then t.log + [Failure(e.now, limits[scope].windowStartedAt, limits[scope].failures)] else t.log)
  }

  function Outcome(t: Race, events: seq<Event>, scope: string, max: nat): Race
    decreases |events|
  {
    if events == [] then t else Outcome(Happens(t, events[0], scope, max), events[1..], scope, max)
  }

  const START := Race(map[], map[], [])

  /** The clock does not go back from `now`, a query's clock was read before it,
      and no attempt on the scope succeeds. */
  predicate Plays(events: seq<Event>, scope: string, now: nat)
    decreases |events|
  {
    events == [] || (MayHappen(events[0], scope, now) && Plays(events[1..], scope, events[0].now))
  }

  predicate MayHappen(e: Event, scope: string, now: nat) {
    now <= e.now && (e.Select? ==> e.read <= e.now) && !(e.Succeed? && e.scope == scope)
  }

  /** At most `k` attempts on the scope are under way at any time. */
  predicate AtMost(t: Race, events: seq<Event>, scope: string, max: nat, k: nat)
    decreases |events|
  {
    |Flying(t, scope)| <= k && (events == [] || AtMost(Happens(t, events[0], scope, max), events[1..], scope, max, k))
  }

  /** No failure recorded in the LOGIN_WINDOW seconds from `from` has a clock
      from before them. */
  predicate Fresh(events: seq<Event>, scope: string, from: int)
    decreases |events|
  {
    events == [] || (IsFresh(events[0], scope, from) && Fresh(events[1..], scope, from))
  }

  predicate IsFresh(e: Event, scope: string, from: int) {
    e.Record? && e.scope == scope && from <= e.now < from + LOGIN_WINDOW ==> from <= e.read
  }

  /** The query and the delete of an undisturbed check are LoginThrottle's. */
  lemma CheckIsItsSteps(t: Race, scope: string, now: nat, max: nat)
    requires Flying(t, scope) == multiset{}
    ensures var n := Happens(Happens(t, Select(scope, now, now), scope, max), Delete(scope, now), scope, max);
            && n.limits == AfterCheck(t.limits, scope, now) && n.log == t.log
            && Flying(n, scope) == if RetryAfter(t.limits, scope, now).Some? then multiset{} else multiset{Checked}
  {
    assert multiset{} + multiset{Stale} - multiset{Stale} + multiset{Checked} == multiset{Checked};
    assert multiset{} + multiset{Checked} == multiset{Checked};
  }

  lemma FailureIsItsSteps(t: Race, scope: string, now: nat, max: nat)
    requires Flying(t, scope) == multiset{Checked}
    ensures var n := Happens(Happens(t, Read(scope, now), scope, max), Record(scope, now, now), scope, max);
            && n.limits == AfterFailure(t.limits, scope, max, now)
            && n.log == t.log + [Failure(now, n.limits[scope].windowStartedAt, n.limits[scope].failures)]
            && Flying(n, scope) == multiset{}
  {
    assert multiset{Checked} - multiset{Checked} + multiset{Timed(now)} == multiset{Timed(now)};
    assert multiset{Timed(now)} - multiset{Timed(now)} == multiset{};
  }

  lemma SuccessIsItsStep(t: Race, scope: string, now: nat, max: nat)
    requires Flying(t, scope) == multiset{Checked}
    ensures var n := Happens(t, Succeed(scope, now), scope, max);
            n.limits == t.limits - {scope} && n.log == t.log && Flying(n, scope) == multiset{}
  {
    assert multiset{Checked} - multiset{Checked} == multiset{};
  }

  lemma RefusedStays(t: Race, e: Event, scope: string, max: nat)
    requires Flying(t, scope) == multiset{} && e.scope == scope && !e.Select?
    ensures Happens(t, e, scope, max) == t
  {
  }

  function Steps(scope: string, verified: bool, now: nat): seq<Event> {
    [Select(scope, now, now), Delete(scope, now)]
    + if verified then [Succeed(scope, now)] else [Read(scope, now), Record(scope, now, now)]
  }

  lemma StepsRun(t: Race, scope: string, verified: bool, now: nat, max: nat)
    ensures var m := Happens(Happens(t, Select(scope, now, now), scope, max), Delete(scope, now), scope, max);
            Outcome(t, Steps(scope, verified, now), scope, max)
            == if verified then Happens(m, Succeed(scope, now), scope, max)
               else Happens(Happens(m, Read(scope, now), scope, max), Record(scope, now, now), scope, max)
  {
    var (select, delete) := (Select(scope, now, now), Delete(scope, now));
    var (read, record) := (Read(scope, now), Record(scope, now, now));
    var m := Happens(Happens(t, select, scope, max), delete, scope, max);
    hide Happens, Outcome;
    if verified {
      RunTwo(t, select, delete, [Succeed(scope, now)], scope, max);
      RunOne(m, Succeed(scope, now), scope, max);
    } else {
      RunTwo(t, select, delete, [read, record], scope, max);
      RunTwo(m, read, record, [], scope, max);
      RunNone(Happens(Happens(m, read, scope, max), record, scope, max), scope, max);
      assert [read, record] + [] == [read, record];
    }
  }

  /** An attempt none of whose steps are interleaved is one of LoginThrottle's. */
  lemma AttemptIsItsSteps(t: Race, scope: string, verified: bool, now: nat, max: nat)
    requires Flying(t, scope) == multiset{}
    ensures var n := Outcome(t, Steps(scope, verified, now), scope, max);
            && Trace(n.limits, n.log) == Step(Trace(t.limits, t.log), Attempt(scope, now, verified), scope, max)
            && Flying(n, scope) == multiset{}
  {
    var m := Happens(Happens(t, Select(scope, now, now), scope, max), Delete(scope, now), scope, max);
    StepsRun(t, scope, verified, now, max);
    CheckIsItsSteps(t, scope, now, max);
    hide Happens, Outcome, Flying, AfterCheck, Steps;
    if RetryAfter(t.limits, scope, now).Some? {
      RefusedStays(m, Succeed(scope, now), scope, max);
      RefusedStays(m, Read(scope, now), scope, max);
      RefusedStays(m, Record(scope, now, now), scope, max);
    } else if verified {
      SuccessIsItsStep(m, scope, now, max);
    } else {
      FailureIsItsSteps(m, scope, now, max);
    }
    hide FailedRow, RetryAfter;
  }

  lemma RunNone(t: Race, scope: string, max: nat)
    ensures Outcome(t, [], scope, max) == t
  {
  }

  lemma RunOne(t: Race, e: Event, scope: string, max: nat)
    ensures Outcome(t, [e], scope, max) == Happens(t, e, scope, max)
  {
    hide Happens;
    assert [e][1..] == [];
  }

  lemma RunTwo(t: Race, e: Event, f: Event, rest: seq<Event>, scope: string, max: nat)
    ensures Outcome(t, [e, f] + rest, scope, max)
         == Outcome(Happens(Happens(t, e, scope, max), f, scope, max), rest, scope, max)
  {
    hide Happens;
    assert ([e, f] + rest)[1..] == [f] + rest && ([f] + rest)[1..] == rest;
  }

  function RowOf(limits: Limits, scope: string): Option<Limit> {
    if scope in limits then Some(limits[scope]) else None
  }

  lemma Later(e: Event, scope: string, now: nat)
    requires MayHappen(e, scope, now)
    ensures now <= e.now
  {
  }

  lemma OthersAreUntouched(t: Race, e: Event, scope: string, max: nat)
    requires e.scope != scope
    ensures var n := Happens(t, e, scope, max);
            RowOf(n.limits, scope) == RowOf(t.limits, scope) && Flying(n, scope) == Flying(t, scope) && n.log == t.log
  {
    hide FlightAfter, CanHappen, FailedRow;
  }

  // ----- What every run keeps -----

  /** A row of this or an earlier second, blocked only after `max` failures and
      for no longer than LOGIN_BLOCK from now. */
  predicate RowFits(limits: Limits, scope: string, max: nat, now: nat) {
    scope in limits ==>
      && limits[scope].windowStartedAt <= now && limits[scope].blockedUntil <= now + LOGIN_BLOCK
      && (limits[scope].failures < max ==> limits[scope].blockedUntil == 0)
  }

  predicate ClocksFit(flight: multiset<Stage>, now: nat) {
    forall stage :: stage in flight && stage.Timed? ==> stage.read <= now
  }

  /** What every run keeps, however late its records. */
  predicate Facts(t: Race, scope: string, max: nat, now: nat) {
    RowFits(t.limits, scope, max, now) && ClocksFit(Flying(t, scope), now)
  }

  /** Where a stage of the flight after an event comes from. */
  predicate ComesFrom(limits: Limits, flight: multiset<Stage>, e: Event, stage: Stage) {
    || stage in flight
    || (e.Select? && !stage.Timed? && RetryAfter(limits, e.scope, e.read).None?)
    || (e.Delete? && stage == Checked && Stale in flight)
    || (e.Read? && stage == Timed(e.now) && Checked in flight)
  }

  lemma StagesComeFrom(limits: Limits, flight: multiset<Stage>, e: Event, stage: Stage)
    requires CanHappen(flight, e) && stage in FlightAfter(limits, flight, e)
    ensures ComesFrom(limits, flight, e, stage)
  {
  }

  lemma FlightComesFrom(t: Race, e: Event, scope: string, max: nat)
    requires e.scope == scope
    ensures forall stage :: stage in Flying(Happens(t, e, scope, max), scope) ==>
              ComesFrom(t.limits, Flying(t, scope), e, stage)
  {
    hide FlightAfter, CanHappen, LimitsAfter;
    forall stage | stage in Flying(Happens(t, e, scope, max), scope)
      ensures ComesFrom(t.limits, Flying(t, scope), e, stage)
    {
      if CanHappen(Flying(t, scope), e) {
        StagesComeFrom(t.limits, Flying(t, scope), e, stage);
      }
    }
  }

  lemma OwnLimits(t: Race, e: Event, scope: string, max: nat)
    requires e.scope == scope
    ensures Happens(t, e, scope, max).limits
         == if CanHappen(Flying(t, scope), e) then LimitsAfter(t.limits, e, max) else t.limits
  {
    hide FlightAfter, CanHappen, LimitsAfter;
  }

  lemma LimitsKeepFit(limits: Limits, e: Event, max: nat, now: nat)
    requires RowFits(limits, e.scope, max, now) && now <= e.now && (e.Record? ==> e.read <= e.now)
    ensures RowFits(LimitsAfter(limits, e, max), e.scope, max, e.now)
  {
  }

  lemma ClocksKeepFit(t: Race, e: Event, scope: string, max: nat, now: nat)
    requires ClocksFit(Flying(t, scope), now) && now <= e.now && e.scope == scope
    ensures ClocksFit(Flying(Happens(t, e, scope, max), scope), e.now)
  {
    FlightComesFrom(t, e, scope, max);
    hide Happens, Flying, FlightAfter, RetryAfter;
  }

  lemma OwnRowFits(t: Race, e: Event, scope: string, max: nat, now: nat)
    requires Facts(t, scope, max, now) && now <= e.now && e.scope == scope
    ensures RowFits(Happens(t, e, scope, max).limits, scope, max, e.now)
  {
    OwnLimits(t, e, scope, max);
    hide Happens, Flying, FlightAfter, LimitsAfter;
    if CanHappen(Flying(t, scope), e) {
      LimitsKeepFit(t.limits, e, max, now);
    }
  }

  lemma EventKeepsFacts(t: Race, e: Event, scope: string, max: nat, now: nat)
    requires Facts(t, scope, max, now) && MayHappen(e, scope, now)
    ensures Facts(Happens(t, e, scope, max), scope, max, e.now)
  {
    if e.scope != scope {
      OthersAreUntouched(t, e, scope, max);
    } else {
      ClocksKeepFit(t, e, scope, max, now);
      OwnRowFits(t, e, scope, max, now);
    }
    hide Happens, Flying, FlightAfter, LimitsAfter;
  }

  function LastTime(events: seq<Event>, now: nat): nat {
    if events == [] then now else events[|events| - 1].now
  }

  lemma {:induction false} RunKeepsFacts(t: Race, events: seq<Event>, scope: string, max: nat, now: nat)
    requires Facts(t, scope, max, now) && Plays(events, scope, now)
    ensures Facts(Outcome(t, events, scope, max), scope, max, LastTime(events, now))
    decreases |events|
  {
    hide Facts, Happens, MayHappen;
    if events != [] {
      EventKeepsFacts(t, events[0], scope, max, now);
      RunKeepsFacts(Happens(t, events[0], scope, max), events[1..], scope, max, events[0].now);
    }
  }

  // ----- A block that ends early -----

  /** Some steps later, before the block's end, the scope is let through. */
  ghost predicate CutShort(t: Race, scope: string, max: nat, now: nat, end: nat) {
    exists events: seq<Event>, at: nat :: LetThroughAfter(t, events, scope, max, now, at) && at < end
  }

  ghost predicate LetThroughAfter(t: Race, events: seq<Event>, scope: string, max: nat, now: nat, at: nat) {
    && Plays(events, scope, now) && now <= at && (forall e :: e in events ==> e.now <= at)
    && RetryAfter(Outcome(t, events, scope, max).limits, scope, at).None?
  }

  /** In a window begun at `start`, a failure recorded with this clock reopens
      the window, or blocks to before `end`. */
  predicate Shortens(start: nat, read: nat, end: nat) {
    start + LOGIN_WINDOW <= read || read + LOGIN_BLOCK < end
  }

  /** Some attempt under way can let the scope through before `end`. */
  predicate Threatened(flight: multiset<Stage>, start: nat, end: nat) {
    || Stale in flight
    || (Checked in flight && start + LOGIN_WINDOW < end)
    || exists stage :: stage in flight && stage.Timed? && Shortens(start, stage.read, end)
  }

  predicate RowBlocks(limits: Limits, scope: string, max: nat, start: nat, end: nat) {
    && scope in limits && limits[scope].failures >= max
    && limits[scope].windowStartedAt == start && end <= limits[scope].blockedUntil
  }

  /** A blocked row that no attempt under way can open before `end`. */
  predicate StaysBlocked(t: Race, scope: string, max: nat, start: nat, now: nat, end: nat) {
    && RowBlocks(t.limits, scope, max, start, end) && end <= now + LOGIN_BLOCK
    && !Threatened(Flying(t, scope), start, end)
  }

  lemma RowStaysBlocked(limits: Limits, e: Event, max: nat, start: nat, end: nat)
    requires RowBlocks(limits, e.scope, max, start, end) && !e.Delete? && !e.Succeed?
    requires e.Record? ==> !Shortens(start, e.read, end)
    ensures RowBlocks(LimitsAfter(limits, e, max), e.scope, max, start, end)
  {
  }

  lemma NoThreatComes(t: Race, e: Event, scope: string, max: nat, start: nat, now: nat, end: nat)
    requires StaysBlocked(t, scope, max, start, now, end) && MayHappen(e, scope, now) && e.now < end && e.scope == scope
    ensures !Threatened(Flying(Happens(t, e, scope, max), scope), start, end)
  {
    FlightComesFrom(t, e, scope, max);
    hide Happens, Flying, FlightAfter, LimitsAfter, CanHappen;
  }

  lemma BlockStep(t: Race, e: Event, scope: string, max: nat, start: nat, now: nat, end: nat)
    requires StaysBlocked(t, scope, max, start, now, end) && MayHappen(e, scope, now) && e.now < end
    ensures StaysBlocked(Happens(t, e, scope, max), scope, max, start, e.now, end)
  {
    if e.scope != scope {
      OthersAreUntouched(t, e, scope, max);
      hide Happens, Threatened;
    } else {
      NoThreatComes(t, e, scope, max, start, now, end);
      OwnLimits(t, e, scope, max);
      hide Happens, Flying, FlightAfter, LimitsAfter, RowBlocks, Shortens;
      if CanHappen(Flying(t, scope), e) {
        RowStaysBlocked(t.limits, e, max, start, end);
      }
    }
  }

  lemma {:induction false} BlockHolds(t: Race, events: seq<Event>, scope: string, max: nat, start: nat, now: nat, at: nat,
                                      end: nat)
    requires StaysBlocked(t, scope, max, start, now, end) && Plays(events, scope, now)
    requires now <= at < end && forall e :: e in events ==> e.now <= at
    ensures RetryAfter(Outcome(t, events, scope, max).limits, scope, at).Some?
    decreases |events|
  {
    if events != [] {
      var e := events[0];
      assert e in events;
      hide StaysBlocked, Happens, MayHappen;
      BlockStep(t, e, scope, max, start, now, end);
      Later(e, scope, now);
      forall f | f in events[1..]
        ensures f.now <= at
      {
        assert f in events;
      }
      BlockHolds(Happens(t, e, scope, max), events[1..], scope, max, start, e.now, at, end);
    }
  }

  lemma OneLetsThrough(t: Race, e: Event, scope: string, max: nat, now: nat, at: nat)
    requires MayHappen(e, scope, now) && e.now <= at && now <= at
    requires RetryAfter(Happens(t, e, scope, max).limits, scope, at).None?
    ensures LetThroughAfter(t, [e], scope, max, now, at)
  {
    hide Happens, MayHappen, RetryAfter;
    RunOne(t, e, scope, max);
    assert [e][1..] == [] && Plays([], scope, e.now);
  }

  lemma DeleteCuts(t: Race, scope: string, max: nat, now: nat)
    requires Stale in Flying(t, scope)
    ensures LetThroughAfter(t, [Delete(scope, now)], scope, max, now, now)
  {
    OneLetsThrough(t, Delete(scope, now), scope, max, now, now);
  }

  lemma RecordCuts(t: Race, scope: string, max: nat, now: nat, read: nat, end: nat) returns (at: nat)
    requires Facts(t, scope, max, now) && scope in t.limits && now < end <= t.limits[scope].blockedUntil
    requires Timed(read) in Flying(t, scope) && Shortens(t.limits[scope].windowStartedAt, read, end)
    ensures LetThroughAfter(t, [Record(scope, read, now)], scope, max, now, at) && at < end
  {
    at := if read + LOGIN_BLOCK < now || WindowOver(t.limits[scope], read) then now else read + LOGIN_BLOCK;
    OwnLimits(t, Record(scope, read, now), scope, max);
    hide Happens, FlightAfter, Flying;
    OneLetsThrough(t, Record(scope, read, now), scope, max, now, at);
  }

  lemma ReadThenRecordCuts(t: Race, scope: string, max: nat, now: nat, at: nat)
    requires scope in t.limits && now <= at && WindowOver(t.limits[scope], at) && Checked in Flying(t, scope)
    ensures LetThroughAfter(t, [Read(scope, at), Record(scope, at, at)], scope, max, now, at)
  {
    var (read, record) := (Read(scope, at), Record(scope, at, at));
    var m := Happens(t, read, scope, max);
    assert Timed(at) in Flying(m, scope) && m.limits == t.limits;
    OwnLimits(m, record, scope, max);
    hide Happens, FlightAfter, Flying;
    OneLetsThrough(m, record, scope, max, at, at);
    assert [read, record][1..] == [record];
  }

  /** While a scope is blocked, the promised wait can be cut short in some run
      without a success exactly when an attempt under way has yet to delete the
      row, or is past the check while the window ends before the block, or has
      read a clock for which the window is over or which is older than that of
      the failure the block is counted from. */
  lemma BlockCanBeCutShortExactlyWhen(t: Race, scope: string, max: nat, now: nat)
    requires Facts(t, scope, max, now) && scope in t.limits && now < t.limits[scope].blockedUntil
    ensures var (start, end) := (t.limits[scope].windowStartedAt, t.limits[scope].blockedUntil);
            CutShort(t, scope, max, now, end) <==> Threatened(Flying(t, scope), start, end)
  {
    var (start, end, flight) := (t.limits[scope].windowStartedAt, t.limits[scope].blockedUntil, Flying(t, scope));
    hide Happens, Flying, LetThroughAfter;
    if Stale in flight {
      DeleteCuts(t, scope, max, now);
    } else if Checked in flight && start + LOGIN_WINDOW < end {
      var at := if now < start + LOGIN_WINDOW then start + LOGIN_WINDOW else now;
      ReadThenRecordCuts(t, scope, max, now, at);
    } else if exists stage :: stage in flight && stage.Timed? && Shortens(start, stage.read, end) {
      var stage :| stage in flight && stage.Timed? && Shortens(start, stage.read, end);
      var at := RecordCuts(t, scope, max, now, stage.read, end);
    } else {
      forall events: seq<Event>, at: nat | LetThroughAfter(t, events, scope, max, now, at) && at < end
        ensures false
      {
        NotLetThrough(t, events, scope, max, now, at);
      }
    }
  }

  lemma NotLetThrough(t: Race, events: seq<Event>, scope: string, max: nat, now: nat, at: nat)
    requires Facts(t, scope, max, now) && scope in t.limits && at < t.limits[scope].blockedUntil && now <= at
    requires !Threatened(Flying(t, scope), t.limits[scope].windowStartedAt, t.limits[scope].blockedUntil)
    ensures !LetThroughAfter(t, events, scope, max, now, at)
  {
    hide Outcome, Plays;
    if Plays(events, scope, now) && forall e :: e in events ==> e.now <= at {
      BlockHolds(t, events, scope, max, t.limits[scope].windowStartedAt, now, at, t.limits[scope].blockedUntil);
    }
  }
}
