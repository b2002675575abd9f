/** Runs of LoginRaces that reach the bound of LoginRaceBound, exceed it by a
    late record, and lift a block by a late delete. */
module LoginRaceRuns {
  import opened Text
  import opened LoginThrottle
  import opened LoginRaces
  import opened LoginRaceBound

  // ----- The bound is reached -----

  /** The scope tried, its limit, the attempts at once and the interval's start. */
  datatype Game = Game(scope: string, max: nat, k: nat, from: int)

  /** The events lead from `t` to `n` within the given times and attempts. */
  ghost predicate Goes(g: Game, t: Race, events: seq<Event>, now: nat, until: nat, n: Race) {
    && Plays(events, g.scope, now) && Fresh(events, g.scope, g.from) && AtMost(t, events, g.scope, g.max, g.k)
    && Outcome(t, events, g.scope, g.max) == n
    && now <= until && forall e :: e in events ==> e.now <= until
  }

  lemma GoesFirst(g: Game, t: Race, e: Event, rest: seq<Event>, now: nat, until: nat, n: Race)
    requires MayHappen(e, g.scope, now) && IsFresh(e, g.scope, g.from) && |Flying(t, g.scope)| <= g.k
    requires Goes(g, Happens(t, e, g.scope, g.max), rest, e.now, until, n)
    ensures Goes(g, t, [e] + rest, now, until, n)
  {
    hide Happens, MayHappen, IsFresh;
    assert ([e] + rest)[1..] == rest && ([e] + rest)[0] == e;
    assert now <= e.now by { assert MayHappen(e, g.scope, now); Later(e, g.scope, now); }
  }

  lemma GoesLater(g: Game, t: Race, events: seq<Event>, now: nat, later: nat, until: nat, n: Race)
    requires now <= later && Goes(g, t, events, later, until, n)
    ensures Goes(g, t, events, now, until, n)
  {
    hide Happens, IsFresh;
  }

  lemma GoesStart(g: Game, t: Race, events: seq<Event>, now: nat, until: nat, n: Race)
    requires events != [] && Goes(g, t, events, now, until, n)
    ensures MayHappen(events[0], g.scope, now) && IsFresh(events[0], g.scope, g.from) && |Flying(t, g.scope)| <= g.k
    ensures Goes(g, Happens(t, events[0], g.scope, g.max), events[1..], events[0].now, until, n)
  {
    hide Happens, MayHappen, IsFresh;
    assert events[0] in events;
  }

  lemma {:induction false} GoesJoin(g: Game, t: Race, a: seq<Event>, b: seq<Event>, now: nat, mid: nat, until: nat,
                                    m: Race, n: Race)
    requires Goes(g, t, a, now, mid, m) && Goes(g, m, b, mid, until, n)
    ensures Goes(g, t, a + b, now, until, n)
    decreases |a|
  {
    if a == [] {
      assert a + b == b;
      GoesLater(g, t, b, now, mid, until, n);
    } else {
      hide Goes, Happens;
      var (e, rest) := (a[0], a[1..]);
      assert a == [e] + rest && a + b == [e] + (rest + b);
      GoesStart(g, t, a, now, mid, m);
      GoesJoin(g, Happens(t, e, g.scope, g.max), rest, b, e.now, mid, until, m, n);
      GoesFirst(g, t, e, rest + b, now, until, n);
    }
  }

  /** `s` late deletes and `p` attempts past the check. */
  function Flight(s: nat, p: nat): multiset<Stage> {
    multiset{}[Stale := s][Checked := p]
  }

  /** The scope's row, its attempts, and the failures counted from `from` on. */
  predicate At(g: Game, t: Race, row: Option<Limit>, s: nat, p: nat, count: nat) {
    && RowOf(t.limits, g.scope) == row && Flying(t, g.scope) == Flight(s, p)
    && FailuresWithin(t.log, g.from, g.from + LOGIN_WINDOW) == count
  }

  lemma OneGoes(g: Game, t: Race, e: Event)
    requires MayHappen(e, g.scope, e.now) && IsFresh(e, g.scope, g.from) && |Flying(t, g.scope)| <= g.k
    requires |Flying(Happens(t, e, g.scope, g.max), g.scope)| <= g.k
    ensures Goes(g, t, [e], e.now, e.now, Happens(t, e, g.scope, g.max))
  {
    hide Happens, MayHappen, IsFresh;
    var n := Happens(t, e, g.scope, g.max);
    assert Goes(g, n, [], e.now, e.now, n);
    GoesFirst(g, t, e, [], e.now, e.now, n);
    assert [e] + [] == [e];
  }

  /** The query lets an attempt on, or finds the window over. */
  lemma SelectGoes(g: Game, t: Race, now: nat, row: Limit, s: nat, p: nat, count: nat) returns (n: Race)
    requires At(g, t, Some(row), s, p, count) && s + p < g.k && row.blockedUntil <= now
    ensures Goes(g, t, [Select(g.scope, now, now)], now, now, n)
    ensures var over := WindowOver(row, now);
            At(g, n, Some(row), if over then s + 1 else s, if over then p else p + 1, count)
  {
    n := Happens(t, Select(g.scope, now, now), g.scope, g.max);
    assert Flight(s, p) + multiset{Stale} == Flight(s + 1, p);
    assert Flight(s, p) + multiset{Checked} == Flight(s, p + 1);
    OneGoes(g, t, Select(g.scope, now, now));
  }

  lemma DeleteGoes(g: Game, t: Race, now: nat, row: Option<Limit>, s: nat, p: nat, count: nat) returns (n: Race)
    requires At(g, t, row, s, p, count) && s + p <= g.k && s > 0
    ensures Goes(g, t, [Delete(g.scope, now)], now, now, n) && At(g, n, None, s - 1, p + 1, count)
  {
    n := Happens(t, Delete(g.scope, now), g.scope, g.max);
    assert Flight(s, p) - multiset{Stale} + multiset{Checked} == Flight(s - 1, p + 1);
    OneGoes(g, t, Delete(g.scope, now));
  }

  function Fail(scope: string, now: nat): seq<Event> {
    [Read(scope, now)] + [Record(scope, now, now)]
  }

  /** The row after a failure. */
  function Next(row: Option<Limit>, max: nat, now: nat): Limit {
    FailedRow(if row.Some? then map["" := row.value] else map[], "", max, now)
  }

  lemma FailMoves(g: Game, t: Race, now: nat, row: Option<Limit>, s: nat, p: nat, count: nat)
    requires At(g, t, row, s, p, count) && p > 0 && g.from <= now < g.from + LOGIN_WINDOW
    ensures var m := Happens(t, Read(g.scope, now), g.scope, g.max);
            && Flying(m, g.scope) == Flight(s, p - 1) + multiset{Timed(now)}
            && At(g, Happens(m, Record(g.scope, now, now), g.scope, g.max), Some(Next(row, g.max, now)), s, p - 1, count + 1)
  {
    hide FlightAfter;
    var m := Happens(t, Read(g.scope, now), g.scope, g.max);
    var n := Happens(m, Record(g.scope, now, now), g.scope, g.max);
    assert Flying(m, g.scope) == Flight(s, p - 1) + multiset{Timed(now)} by {
      ReadFlight(t.limits, g.scope, now, s, p);
    }
    assert Flying(n, g.scope) == Flight(s, p - 1) by {
      RecordFlight(m.limits, g.scope, now, Flight(s, p - 1));
    }
    hide Flight, CanHappen;
    assert n.log[..|t.log|] == t.log;
  }

  lemma ReadFlight(limits: Limits, scope: string, now: nat, s: nat, p: nat)
    requires p > 0
    ensures FlightAfter(limits, Flight(s, p), Read(scope, now)) == Flight(s, p - 1) + multiset{Timed(now)}
  {
    assert Flight(s, p) - multiset{Checked} == Flight(s, p - 1);
  }

  lemma RecordFlight(limits: Limits, scope: string, now: nat, flight: multiset<Stage>)
    ensures FlightAfter(limits, flight + multiset{Timed(now)}, Record(scope, now, now)) == flight
  {
    assert flight + multiset{Timed(now)} - multiset{Timed(now)} == flight;
  }

  lemma FailGoes(g: Game, t: Race, now: nat, row: Option<Limit>, s: nat, p: nat, count: nat) returns (n: Race)
    requires At(g, t, row, s, p, count) && s + p <= g.k && p > 0 && g.from <= now < g.from + LOGIN_WINDOW
    ensures Goes(g, t, Fail(g.scope, now), now, now, n) && At(g, n, Some(Next(row, g.max, now)), s, p - 1, count + 1)
  {
    var m := Happens(t, Read(g.scope, now), g.scope, g.max);
    n := Happens(m, Record(g.scope, now, now), g.scope, g.max);
    FailMoves(g, t, now, row, s, p, count);
    hide Happens, Goes, FailuresWithin, RowOf;
    OneGoes(g, t, Read(g.scope, now));
    OneGoes(g, m, Record(g.scope, now, now));
    GoesJoin(g, t, [Read(g.scope, now)], [Record(g.scope, now, now)], now, now, now, m, n);
  }

  function Repeated(events: seq<Event>, m: nat): seq<Event> {
    if m == 0 then [] else events + Repeated(events, m - 1)
  }

  lemma NoneGo(g: Game, t: Race, now: nat, row: Option<Limit>, s: nat, p: nat, count: nat)
    requires At(g, t, row, s, p, count) && s + p <= g.k
    ensures Goes(g, t, [], now, now, t)
  {
  }

  /** `m` attempts query an unblocked row. */
  lemma {:induction false} SelectsGo(g: Game, t: Race, now: nat, m: nat, row: Limit, s: nat, p: nat, count: nat)
    returns (n: Race)
    requires At(g, t, Some(row), s, p, count) && s + p + m <= g.k && row.blockedUntil <= now
    ensures Goes(g, t, Repeated([Select(g.scope, now, now)], m), now, now, n)
    ensures var over := WindowOver(row, now);
            At(g, n, Some(row), if over then s + m else s, if over then p else p + m, count)
    decreases m
  {
    hide At, Goes;
    n := t;
    if m == 0 {
      NoneGo(g, t, now, Some(row), s, p, count);
    } else {
      var next := SelectGoes(g, t, now, row, s, p, count);
      var over := WindowOver(row, now);
      n := SelectsGo(g, next, now, m - 1, row, if over then s + 1 else s, if over then p else p + 1, count);
      GoesJoin(g, t, [Select(g.scope, now, now)], Repeated([Select(g.scope, now, now)], m - 1), now, now, now, next, n);
    }
  }

  /** `m` attempts past the check fail in a window that is not over. */
  lemma {:induction false} FailsGo(g: Game, t: Race, now: nat, m: nat, row: Limit, s: nat, p: nat, count: nat)
    returns (n: Race, last: Limit)
    requires At(g, t, Some(row), s, p, count) && m <= p && s + p <= g.k
    requires !WindowOver(row, now) && g.from <= now < g.from + LOGIN_WINDOW
    ensures Goes(g, t, Repeated(Fail(g.scope, now), m), now, now, n)
    ensures At(g, n, Some(last), s, p - m, count + m)
    ensures m == 0 ==> last == row
    ensures m > 0 && row.failures + m >= g.max ==> last.blockedUntil == now + LOGIN_BLOCK
    decreases m
  {
    hide At, Goes, Fail;
    n, last := t, row;
    if m == 0 {
      NoneGo(g, t, now, Some(row), s, p, count);
    } else {
      var next := FailGoes(g, t, now, Some(row), s, p, count);
      var failed := Next(Some(row), g.max, now);
      n, last := FailsGo(g, next, now, m - 1, failed, s, p - 1, count + 1);
      GoesJoin(g, t, Fail(g.scope, now), Repeated(Fail(g.scope, now), m - 1), now, now, now, next, n);
    }
  }

  function Pair(scope: string, now: nat): seq<Event> {
    [Select(scope, now, now)] + Fail(scope, now)
  }

  /** `m` attempts one after another, with room for all in the budget. */
  lemma {:induction false} PairsGo(g: Game, t: Race, now: nat, m: nat, start: nat, rank: nat, s: nat, count: nat)
    returns (n: Race)
    requires At(g, t, Some(Limit(rank, start, 0)), s, 0, count) && s < g.k && 1 <= rank && rank + m < Budget(g.max)
    requires start <= now < start + LOGIN_WINDOW && g.from <= now < g.from + LOGIN_WINDOW
    ensures Goes(g, t, Repeated(Pair(g.scope, now), m), now, now, n)
    ensures At(g, n, Some(Limit(rank + m, start, 0)), s, 0, count + m)
    decreases m
  {
    hide At, Goes, Fail;
    n := t;
    var row := Limit(rank, start, 0);
    if m == 0 {
      NoneGo(g, t, now, Some(row), s, 0, count);
    } else {
      var looked := SelectGoes(g, t, now, row, s, 0, count);
      var next := FailGoes(g, looked, now, Some(row), s, 1, count);
      assert Next(Some(row), g.max, now) == Limit(rank + 1, start, 0);
      n := PairsGo(g, next, now, m - 1, start, rank + 1, s, count + 1);
      GoesJoin(g, t, [Select(g.scope, now, now)], Fail(g.scope, now), now, now, now, looked, next);
      GoesJoin(g, t, Pair(g.scope, now), Repeated(Pair(g.scope, now), m - 1), now, now, now, next, n);
    }
  }

  /** A late delete makes room for a window: its own attempt and all but two of
      the budget fail, then as many attempts as hold no delete back. */
  function Window(scope: string, max: nat, now: nat, d: nat): seq<Event> {
    [Delete(scope, now)] + (Fail(scope, now) + (Repeated(Pair(scope, now), Budget(max) - 2)
    + (Repeated([Select(scope, now, now)], d) + Repeated(Fail(scope, now), d))))
  }

  lemma WindowGoes(g: Game, t: Race, now: nat, d: nat, row: Option<Limit>, count: nat) returns (n: Race, last: Limit)
    requires 1 <= d <= g.k && At(g, t, row, g.k - d + 1, 0, count) && g.from <= now < g.from + LOGIN_WINDOW
    ensures Goes(g, t, Window(g.scope, g.max, now, d), now, now, n)
    ensures At(g, n, Some(last), g.k - d, 0, count + Budget(g.max) - 1 + d)
    ensures last.blockedUntil == now + LOGIN_BLOCK
  {
    hide At, Goes, Fail, Pair;
    var b := Budget(g.max);
    var s := g.k - d;
    var (selects, fails, pairs) :=
      (Repeated([Select(g.scope, now, now)], d), Repeated(Fail(g.scope, now), d), Repeated(Pair(g.scope, now), b - 2));
    var t1 := DeleteGoes(g, t, now, row, s + 1, 0, count);
    var t2 := FailGoes(g, t1, now, None, s, 1, count);
    var t3 := PairsGo(g, t2, now, b - 2, now, 1, s, count + 1);
    var t4 := SelectsGo(g, t3, now, d, Limit(b - 1, now, 0), s, 0, count + b - 1);
    n, last := FailsGo(g, t4, now, d, Limit(b - 1, now, 0), s, d, count + b - 1);
    hide Repeated;
    GoesJoin(g, t3, selects, fails, now, now, now, t4, n);
    GoesJoin(g, t2, pairs, selects + fails, now, now, now, t3, n);
    GoesJoin(g, t1, Fail(g.scope, now), pairs + (selects + fails), now, now, now, t2, n);
    GoesJoin(g, t, [Delete(g.scope, now)], Fail(g.scope, now) + (pairs + (selects + fails)), now, now, now, t1, n);
  }

  /** The windows of `d`, `d` + 1, .. `g.k` attempts. */
  function Windows(g: Game, now: nat, d: nat): seq<Event>
    decreases g.k - d
  {
    if d > g.k then [] else Window(g.scope, g.max, now, d) + Windows(g, now, d + 1)
  }

  lemma {:induction false} WindowsGo(g: Game, t: Race, now: nat, d: nat, row: Option<Limit>, count: nat) returns (n: Race)
    requires 1 <= d <= g.k + 1 && At(g, t, row, g.k - d + 1, 0, count) && g.from <= now < g.from + LOGIN_WINDOW
    ensures Goes(g, t, Windows(g, now, d), now, now, n)
    ensures FailuresWithin(n.log, g.from, g.from + LOGIN_WINDOW) == count + Ahead(d, g.k, Budget(g.max))
    decreases g.k - d
  {
    hide Goes, Window, FailuresWithin, Happens;
    if d > g.k {
      n := t;
      NoneGo(g, t, now, row, 0, 0, count);
    } else {
      var next, last := WindowGoes(g, t, now, d, row, count);
      n := WindowsGo(g, next, now, d + 1, Some(last), count + Budget(g.max) - 1 + d);
      hide At;
      GoesJoin(g, t, Window(g.scope, g.max, now, d), Windows(g, now, d + 1), now, now, now, next, n);
    }
  }

  /** The first failure of all, read at 0 and recorded at `at`. */
  function Opening(scope: string, at: nat): seq<Event> {
    [Select(scope, 0, 0), Read(scope, 0), Record(scope, 0, at)]
  }

  /** At the end of the window it opens, all but two of the budget; then every
      attempt finds that window over. */
  function Lead(g: Game): seq<Event> {
    var late := LOGIN_WINDOW - 1;
    Repeated(Pair(g.scope, late), Budget(g.max) - 2) + Repeated([Select(g.scope, LOGIN_WINDOW, LOGIN_WINDOW)], g.k)
  }

  lemma LeadGoes(g: Game, t: Race, count: nat) returns (n: Race)
    requires g.k >= 1 && g.from == LOGIN_WINDOW - 1 && At(g, t, Some(Limit(1, 0, 0)), 0, 0, count)
    ensures Goes(g, t, Lead(g), LOGIN_WINDOW - 1, LOGIN_WINDOW, n)
    ensures At(g, n, Some(Limit(Budget(g.max) - 1, 0, 0)), g.k, 0, count + Budget(g.max) - 2)
  {
    hide At, Goes, Pair, FailuresWithin, Happens;
    var (late, b) := (LOGIN_WINDOW - 1, Budget(g.max));
    var selects := Repeated([Select(g.scope, LOGIN_WINDOW, LOGIN_WINDOW)], g.k);
    var m := PairsGo(g, t, late, b - 2, 0, 1, 0, count);
    n := SelectsGo(g, m, LOGIN_WINDOW, g.k, Limit(b - 1, 0, 0), 0, 0, count + b - 2);
    GoesLater(g, m, selects, late, LOGIN_WINDOW, LOGIN_WINDOW, n);
    GoesJoin(g, t, Repeated(Pair(g.scope, late), b - 2), selects, late, late, LOGIN_WINDOW, m, n);
  }

  /** After the lead the attempts delete one by one. */
  function Rest(g: Game): seq<Event> {
    Lead(g) + Windows(g, LOGIN_WINDOW, 1)
  }

  lemma RestGoes(g: Game, t: Race, count: nat) returns (n: Race)
    requires g.k >= 1 && g.from == LOGIN_WINDOW - 1 && At(g, t, Some(Limit(1, 0, 0)), 0, 0, count)
    ensures Goes(g, t, Rest(g), LOGIN_WINDOW - 1, LOGIN_WINDOW, n)
    ensures FailuresWithin(n.log, g.from, g.from + LOGIN_WINDOW) == count + Budget(g.max) - 2 + Ahead(1, g.k, Budget(g.max))
  {
    hide At, Goes, FailuresWithin, Lead, Windows;
    var b := Budget(g.max);
    var m := LeadGoes(g, t, count);
    n := WindowsGo(g, m, LOGIN_WINDOW, 1, Some(Limit(b - 1, 0, 0)), count + b - 2);
    GoesJoin(g, t, Lead(g), Windows(g, LOGIN_WINDOW, 1), LOGIN_WINDOW - 1, LOGIN_WINDOW, LOGIN_WINDOW, m, n);
  }

  /** The states of the opening. */
  function Opened(g: Game): Race {
    Race(map[], map[g.scope := multiset{Checked}], [])
  }

  function Clocked(g: Game): Race {
    Race(map[], map[g.scope := multiset{Timed(0)}], [])
  }

  function Begun(g: Game, at: nat): Race {
    Race(map[g.scope := Limit(1, 0, 0)], map[g.scope := multiset{}], [Failure(at, 0, 1)])
  }

  lemma OpeningSteps(g: Game, at: nat)
    ensures Happens(START, Select(g.scope, 0, 0), g.scope, g.max) == Opened(g)
    ensures Happens(Opened(g), Read(g.scope, 0), g.scope, g.max) == Clocked(g)
    ensures Happens(Clocked(g), Record(g.scope, 0, at), g.scope, g.max) == Begun(g, at)
  {
    assert multiset{} + multiset{Checked} == multiset{Checked};
    assert multiset{Checked} - multiset{Checked} + multiset{Timed(0)} == multiset{Timed(0)};
    assert multiset{Timed(0)} - multiset{Timed(0)} == multiset{};
  }

  lemma BegunAt(g: Game, at: nat)
    requires g.from == LOGIN_WINDOW - 1 && at <= g.from
    ensures At(g, Begun(g, at), Some(Limit(1, 0, 0)), 0, 0, if at == g.from then 1 else 0)
  {
    assert [Failure(at, 0, 1)][..0] == [];
    assert Flying(Begun(g, at), g.scope) == Flight(0, 0);
  }

  lemma PlaysFirst(t: Race, e: Event, rest: seq<Event>, scope: string, max: nat, k: nat, from: int, now: nat)
    requires MayHappen(e, scope, now) && |Flying(t, scope)| <= k
    requires Plays(rest, scope, e.now) && AtMost(Happens(t, e, scope, max), rest, scope, max, k)
    ensures var events := [e] + rest;
            && Plays(events, scope, now) && AtMost(t, events, scope, max, k)
            && Outcome(t, events, scope, max) == Outcome(Happens(t, e, scope, max), rest, scope, max)
            && (Fresh(rest, scope, from) && IsFresh(e, scope, from) ==> Fresh(events, scope, from))
  {
    hide Happens, MayHappen, IsFresh;
    assert ([e] + rest)[1..] == rest;
  }

  lemma GoesPlays(g: Game, t: Race, events: seq<Event>, now: nat, until: nat, n: Race)
    requires Goes(g, t, events, now, until, n)
    ensures Plays(events, g.scope, now) && Fresh(events, g.scope, g.from) && AtMost(t, events, g.scope, g.max, g.k)
    ensures Outcome(t, events, g.scope, g.max) == n
  {
  }

  lemma OpeningThen(g: Game, at: nat, rest: seq<Event>, n: Race)
    requires g.k >= 1 && at < LOGIN_WINDOW && g.from == LOGIN_WINDOW - 1
    requires Goes(g, Begun(g, at), rest, LOGIN_WINDOW - 1, LOGIN_WINDOW, n)
    ensures var events := Opening(g.scope, at) + rest;
            && Plays(events, g.scope, 0) && AtMost(START, events, g.scope, g.max, g.k)
            && Outcome(START, events, g.scope, g.max) == n && (at == 0 ==> Fresh(events, g.scope, g.from))
  {
    hide Happens, Plays, AtMost, Fresh, Outcome, Goes;
    GoesLater(g, Begun(g, at), rest, at, LOGIN_WINDOW - 1, LOGIN_WINDOW, n);
    GoesPlays(g, Begun(g, at), rest, at, LOGIN_WINDOW, n);
    OpeningSteps(g, at);
    OpeningSizes(g);
    hide Flying, Clocked, Opened, Begun;
    var (select, read, record) := (Select(g.scope, 0, 0), Read(g.scope, 0), Record(g.scope, 0, at));
    PlaysFirst(Clocked(g), record, rest, g.scope, g.max, g.k, g.from, 0);
    PlaysFirst(Opened(g), read, [record] + rest, g.scope, g.max, g.k, g.from, 0);
    PlaysFirst(START, select, [read] + ([record] + rest), g.scope, g.max, g.k, g.from, 0);
    assert Opening(g.scope, at) + rest == [select] + ([read] + ([record] + rest));
  }

  lemma OpeningSizes(g: Game)
    ensures |Flying(START, g.scope)| == 0 && |Flying(Opened(g), g.scope)| == 1 && |Flying(Clocked(g), g.scope)| == 1
  {
  }

  /** For every limit and every number of attempts at once, some run fills the
      bound. */
  lemma RaceTight(scope: string, max: nat, k: nat)
    requires k >= 1
    ensures var events := Opening(scope, 0) + Rest(Game(scope, max, k, LOGIN_WINDOW - 1));
            && Plays(events, scope, 0) && AtMost(START, events, scope, max, k) && Fresh(events, scope, LOGIN_WINDOW - 1)
            && FailuresWithin(Outcome(START, events, scope, max).log, LOGIN_WINDOW - 1, 2 * LOGIN_WINDOW - 1)
               == (k + 1) * Budget(max) - 2 + k * (k - 1) / 2
  {
    hide At, Goes, Happens, Opening, Rest;
    var g := Game(scope, max, k, LOGIN_WINDOW - 1);
    BegunAt(g, 0);
    var n := RestGoes(g, Begun(g, 0), 0);
    OpeningThen(g, 0, Rest(g), n);
    AheadInAll(1, k, Budget(max));
    assert (k + 1) * Budget(max) == k * Budget(max) + Budget(max);
  }

  /** The bound needs the fresh clocks: with one failure recorded in the interval
      by a clock from before it, the same run exceeds it. */
  lemma LateRecordExceeds(scope: string, max: nat, k: nat)
    requires k >= 1
    ensures var events := Opening(scope, LOGIN_WINDOW - 1) + Rest(Game(scope, max, k, LOGIN_WINDOW - 1));
            && Plays(events, scope, 0) && AtMost(START, events, scope, max, k)
            && FailuresWithin(Outcome(START, events, scope, max).log, LOGIN_WINDOW - 1, 2 * LOGIN_WINDOW - 1)
               == (k + 1) * Budget(max) - 1 + k * (k - 1) / 2
  {
    hide At, Goes, Happens, Opening, Rest;
    var g := Game(scope, max, k, LOGIN_WINDOW - 1);
    BegunAt(g, LOGIN_WINDOW - 1);
    var n := RestGoes(g, Begun(g, LOGIN_WINDOW - 1), 1);
    OpeningThen(g, LOGIN_WINDOW - 1, Rest(g), n);
    AheadInAll(1, k, Budget(max));
    assert (k + 1) * Budget(max) == k * Budget(max) + Budget(max);
  }

  /** A full window while all but one of the deletes are held back. */
  function Held(g: Game): seq<Event> {
    Lead(g) + Window(g.scope, g.max, LOGIN_WINDOW, 1)
  }

  /** With two attempts at once, for every limit: one of them opens a window
      that is filled, and the scope is told to wait for LOGIN_BLOCK seconds; the
      other's delete then lets the scope through in the same second. */
  lemma LateDeleteLiftsBlock(scope: string, max: nat)
    ensures var events := Opening(scope, 0) + Held(Game(scope, max, 2, LOGIN_WINDOW - 1));
            var t := Outcome(START, events, scope, max);
            && Plays(events, scope, 0) && AtMost(START, events, scope, max, 2)
            && RetryAfter(t.limits, scope, LOGIN_WINDOW) == Some(LOGIN_BLOCK)
            && RetryAfter(Happens(t, Delete(scope, LOGIN_WINDOW), scope, max).limits, scope, LOGIN_WINDOW) == None
  {
    hide Goes, Happens, Opening, Held;
    var g := Game(scope, max, 2, LOGIN_WINDOW - 1);
    BegunAt(g, 0);
    var b := Budget(max);
    hide At;
    var m := LeadGoes(g, Begun(g, 0), 0);
    var t, last := WindowGoes(g, m, LOGIN_WINDOW, 1, Some(Limit(b - 1, 0, 0)), b - 2);
    GoesJoin(g, Begun(g, 0), Lead(g), Window(scope, max, LOGIN_WINDOW, 1), LOGIN_WINDOW - 1, LOGIN_WINDOW, LOGIN_WINDOW, m, t);
    assert Lead(g) + Window(scope, max, LOGIN_WINDOW, 1) == Held(g) by { HeldIs(g); }
    OpeningThen(g, 0, Held(g), t);
    HeldEnds(g, t, last, 2 * b - 2);
  }

  lemma HeldIs(g: Game)
    ensures Held(g) == Lead(g) + Window(g.scope, g.max, LOGIN_WINDOW, 1)
  {
  }

  lemma HeldEnds(g: Game, t: Race, last: Limit, count: nat)
    requires At(g, t, Some(last), 1, 0, count) && last.blockedUntil == LOGIN_WINDOW + LOGIN_BLOCK
    ensures RetryAfter(t.limits, g.scope, LOGIN_WINDOW) == Some(LOGIN_BLOCK)
    ensures RetryAfter(Happens(t, Delete(g.scope, LOGIN_WINDOW), g.scope, g.max).limits, g.scope, LOGIN_WINDOW) == None
  {
  }
}
