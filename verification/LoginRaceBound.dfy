/** How many failures of one scope any LOGIN_WINDOW seconds let through when the
    steps of LoginRaces interleave. */
module LoginRaceBound {
  import opened Text
  import opened LoginThrottle
  import opened LoginRaces

  // ----- What every run keeps -----

  /** A row with a budget left has no block; one begun in the interval and
      without a budget is blocked until after it. */
  predicate RowOk(row: Limit, max: nat, from: int) {
    && 1 <= row.failures
    && (row.failures < Budget(max) ==> row.blockedUntil == 0)
    && (row.failures >= Budget(max) && row.windowStartedAt >= from ==> row.blockedUntil >= from + LOGIN_WINDOW)
  }

  /** At most `k` attempts under way, and clocks and a row of this or an earlier
      second. */
  predicate Tied(t: Race, scope: string, max: nat, k: nat, from: int, now: nat) {
    && |Flying(t, scope)| <= k && ClocksFit(Flying(t, scope), now)
    && (scope in t.limits ==> RowOk(t.limits[scope], max, from) && t.limits[scope].windowStartedAt <= now)
  }

  lemma EventKeepsTied(t: Race, e: Event, scope: string, max: nat, k: nat, from: int, now: nat)
    requires Tied(t, scope, max, k, from, now) && |Flying(Happens(t, e, scope, max), scope)| <= k
    requires MayHappen(e, scope, now) && IsFresh(e, scope, from) && e.now < from + LOGIN_WINDOW
    ensures Tied(Happens(t, e, scope, max), scope, max, k, from, e.now)
  {
    if e.scope != scope {
      OthersAreUntouched(t, e, scope, max);
    } else {
      ClocksKeepFit(t, e, scope, max, now);
      OwnRowIsOk(t, e, scope, max, from, now);
    }
    hide Happens, Flying, RowOk;
  }

  lemma OwnRowIsOk(t: Race, e: Event, scope: string, max: nat, from: int, now: nat)
    requires e.scope == scope && MayHappen(e, scope, now) && IsFresh(e, scope, from) && e.now < from + LOGIN_WINDOW
    requires ClocksFit(Flying(t, scope), now)
    requires scope in t.limits ==> RowOk(t.limits[scope], max, from) && t.limits[scope].windowStartedAt <= now
    ensures var limits := Happens(t, e, scope, max).limits;
            scope in limits ==> RowOk(limits[scope], max, from) && limits[scope].windowStartedAt <= e.now
  {
    OwnLimits(t, e, scope, max);
    hide Happens, FlightAfter, Flying;
  }

  // ----- The room a state leaves -----

  /** The failures of the windows still to come when all but `d` of `k` attempts
      hold a delete back: a window that `d` of them can overrun by `d` admits
      b - 1 + d, and each late delete makes room for a window with one more. */
  function Ahead(d: int, k: nat, b: nat): int
    decreases k - d
  {
    if d > k then 0 else b - 1 + d + Ahead(d + 1, k, b)
  }

  lemma {:induction false} AheadFalls(d: int, k: nat, b: nat)
    requires 1 <= d && b >= 2
    ensures 0 <= Ahead(d + 1, k, b) <= Ahead(d, k, b)
    decreases k - d
  {
    if d <= k {
      AheadFalls(d + 1, k, b);
    }
  }

  lemma {:induction false} AheadFromFirst(d: int, k: nat, b: nat)
    requires 1 <= d <= k + 1 && b >= 2
    ensures Ahead(1, k, b) >= Ahead(d, k, b) + d - 1
    decreases d
  {
    if d > 1 {
      AheadFromFirst(d - 1, k, b);
    }
  }

  /** How many failures a row, `p` attempts past the query's verdict and `s`
      late deletes still admit before from + LOGIN_WINDOW. */
  function Room(row: Option<Limit>, p: int, s: int, b: nat, k: nat, from: int): int {
    var d := k - s;
    match row
    case None => Ahead(if d < 1 then 1 else d, k, b)
    case Some(r) =>
      if r.windowStartedAt >= from then
        if r.failures >= b then p + Ahead(d + 1, k, b)
        else if d < 1 then Ahead(1, k, b)
        else Ahead(d, k, b) - r.failures
      else if r.failures < b then b - 1 - r.failures + Ahead(1, k, b)
      else if r.blockedUntil < from + LOGIN_WINDOW then Ahead(1, k, b)
      else if p >= 1 then p - 1 + Ahead(d, k, b)
      else Ahead(d + 1, k, b)
  }

  function Late(t: Race, scope: string): nat {
    Flying(t, scope)[Stale]
  }

  function Past(t: Race, scope: string): int {
    |Flying(t, scope)| - Flying(t, scope)[Stale]
  }

  lemma PastIsNatural(t: Race, scope: string)
    ensures Past(t, scope) >= 0
  {
    assert |Flying(t, scope)[Stale := 0]| == Past(t, scope);
  }

  /** A query lets an attempt on, or finds a window of before `from` over. */
  lemma RoomAfterSelect(row: Option<Limit>, p: nat, s: nat, max: nat, k: nat, from: int, read: nat, now: nat)
    requires p + s + 1 <= k && read <= now < from + LOGIN_WINDOW
    requires row.Some? ==> RowOk(row.value, max, from) && row.value.blockedUntil <= read
    ensures var over := row.Some? && WindowOver(row.value, read);
            Room(row, if over then p else p + 1, if over then s + 1 else s, Budget(max), k, from)
            <= Room(row, p, s, Budget(max), k, from)
  {
    hide Ahead;
  }

  lemma RoomAfterDelete(row: Option<Limit>, p: nat, s: nat, max: nat, k: nat, from: int)
    requires 1 <= s && p + s <= k && (row.Some? ==> RowOk(row.value, max, from))
    ensures Room(None, p + 1, s - 1, Budget(max), k, from) <= Room(row, p, s, Budget(max), k, from)
  {
    var (b, d) := (Budget(max), k - s);
    AheadFromFirst(d + 1, k, b);
    AheadFalls(d + 1, k, b);
    if d >= 1 {
      AheadFalls(d, k, b);
    }
  }

  lemma RoomAfterRecord(row: Option<Limit>, p: nat, s: nat, max: nat, k: nat, from: int, read: nat, next: Limit)
    requires 1 <= p && p + s <= k && from <= read < from + LOGIN_WINDOW
    requires row.Some? ==> RowOk(row.value, max, from)
    requires next == FailedRow(if row.Some? then map["" := row.value] else map[], "", max, read)
    ensures Room(Some(next), p - 1, s, Budget(max), k, from) + 1 <= Room(row, p, s, Budget(max), k, from)
  {
    var (b, d) := (Budget(max), k - s);
    AheadFalls(d, k, b);
    AheadFromFirst(d, k, b);
    AheadFromFirst(d + 1, k, b);
  }

  lemma RoomAfterGiveUp(row: Option<Limit>, p: nat, s: nat, q: nat, r: nat, max: nat, k: nat, from: int)
    requires p + s <= k && (row.Some? ==> RowOk(row.value, max, from))
    requires (q == p && r + 1 == s) || (q + 1 == p && r == s)
    ensures Room(row, q, r, Budget(max), k, from) <= Room(row, p, s, Budget(max), k, from)
  {
    var (b, d) := (Budget(max), k - s);
    if d >= 1 {
      AheadFalls(d, k, b);
      AheadFromFirst(d, k, b);
    }
    AheadFalls(d + 1, k, b);
    AheadFromFirst(d + 1, k, b);
  }

  /** The failures let through from `from` on and those there is still room for. */
  function Total(t: Race, scope: string, max: nat, k: nat, from: int): int {
    FailuresWithin(t.log, from, from + LOGIN_WINDOW)
    + Room(RowOf(t.limits, scope), Past(t, scope), Late(t, scope), Budget(max), k, from)
  }

  lemma SelectMoves(t: Race, e: Event, scope: string, max: nat)
    requires e.Select? && e.scope == scope && RetryAfter(t.limits, scope, e.read).None?
    ensures var over := scope in t.limits && WindowOver(t.limits[scope], e.read);
            var n := Happens(t, e, scope, max);
            && n.limits == t.limits && n.log == t.log
            && Late(n, scope) == (if over then Late(t, scope) + 1 else Late(t, scope))
            && Past(n, scope) == (if over then Past(t, scope) else Past(t, scope) + 1)
            && |Flying(n, scope)| == |Flying(t, scope)| + 1
  {
  }

  lemma SelectKeepsTotal(t: Race, e: Event, scope: string, max: nat, k: nat, from: int, now: nat)
    requires Tied(t, scope, max, k, from, now) && |Flying(Happens(t, e, scope, max), scope)| <= k
    requires e.Select? && e.scope == scope && e.read <= e.now < from + LOGIN_WINDOW
    ensures Total(Happens(t, e, scope, max), scope, max, k, from) <= Total(t, scope, max, k, from)
  {
    hide Room, RowOk;
    PastIsNatural(t, scope);
    if RetryAfter(t.limits, scope, e.read).None? {
      SelectMoves(t, e, scope, max);
      hide Happens;
      RoomAfterSelect(RowOf(t.limits, scope), Past(t, scope), Late(t, scope), max, k, from, e.read, e.now);
    }
  }

  lemma DeleteKeepsTotal(t: Race, e: Event, scope: string, max: nat, k: nat, from: int, now: nat)
    requires Tied(t, scope, max, k, from, now) && e == Delete(scope, e.now)
    ensures Total(Happens(t, e, scope, max), scope, max, k, from) <= Total(t, scope, max, k, from)
  {
    hide Room;
    PastIsNatural(t, scope);
    if Stale in Flying(t, scope) {
      RoomAfterDelete(RowOf(t.limits, scope), Past(t, scope), Late(t, scope), max, k, from);
    }
  }

  lemma GiveUpKeepsTotal(t: Race, e: Event, scope: string, max: nat, k: nat, from: int, now: nat)
    requires Tied(t, scope, max, k, from, now) && e.GiveUp? && e.scope == scope
    ensures Total(Happens(t, e, scope, max), scope, max, k, from) <= Total(t, scope, max, k, from)
  {
    hide Room;
    var n := Happens(t, e, scope, max);
    PastIsNatural(t, scope);
    PastIsNatural(n, scope);
    if e.stage in Flying(t, scope) {
      RoomAfterGiveUp(RowOf(t.limits, scope), Past(t, scope), Late(t, scope), Past(n, scope), Late(n, scope), max, k, from);
    }
  }

  /** A record uses up the room for the failure it lets through. */
  lemma RecordKeepsTotal(t: Race, e: Event, scope: string, max: nat, k: nat, from: int, now: nat)
    requires Tied(t, scope, max, k, from, now) && now <= e.now && e.Record? && e.scope == scope
    requires from <= e.read && e.now < from + LOGIN_WINDOW
    ensures Total(Happens(t, e, scope, max), scope, max, k, from) <= Total(t, scope, max, k, from)
  {
    hide Room;
    if Timed(e.read) in Flying(t, scope) {
      var n := Happens(t, e, scope, max);
      assert n.log[..|t.log|] == t.log;
      PastIsNatural(n, scope);
      RoomAfterRecord(RowOf(t.limits, scope), Past(t, scope), Late(t, scope), max, k, from, e.read, n.limits[scope]);
    }
  }

  lemma ReadKeepsTotal(t: Race, e: Event, scope: string, max: nat, k: nat, from: int)
    requires e == Read(scope, e.now)
    ensures Total(Happens(t, e, scope, max), scope, max, k, from) == Total(t, scope, max, k, from)
  {
    hide Room;
  }

  lemma EventKeepsTotal(t: Race, e: Event, scope: string, max: nat, k: nat, from: int, now: nat)
    requires Tied(t, scope, max, k, from, now) && |Flying(Happens(t, e, scope, max), scope)| <= k
    requires MayHappen(e, scope, now) && IsFresh(e, scope, from) && from <= e.now < from + LOGIN_WINDOW
    ensures Total(Happens(t, e, scope, max), scope, max, k, from) <= Total(t, scope, max, k, from)
  {
    if e.scope != scope {
      OthersAreUntouched(t, e, scope, max);
    } else {
      match e {
        case Select(_, _, _) => SelectKeepsTotal(t, e, scope, max, k, from, now);
        case Delete(_, _) => DeleteKeepsTotal(t, e, scope, max, k, from, now);
        case Succeed(_, _) =>
        case Read(_, _) => ReadKeepsTotal(t, e, scope, max, k, from);
        case Record(_, _, _) => RecordKeepsTotal(t, e, scope, max, k, from, now);
        case GiveUp(_, _, _) => GiveUpKeepsTotal(t, e, scope, max, k, from, now);
      }
    }
    hide Happens, Room, Tied;
  }

  lemma EventOutside(t: Race, e: Event, scope: string, max: nat, from: int)
    requires !(from <= e.now < from + LOGIN_WINDOW)
    ensures FailuresWithin(Happens(t, e, scope, max).log, from, from + LOGIN_WINDOW)
         == FailuresWithin(t.log, from, from + LOGIN_WINDOW)
  {
    hide FlightAfter, CanHappen, LimitsAfter;
    var n := Happens(t, e, scope, max);
    if n.log != t.log {
      assert n.log[..|t.log|] == t.log;
    }
  }

  // ----- The bound -----

  /** From `from` on, the total bounds the failures of the interval. */
  lemma {:induction false} TotalBounds(t: Race, events: seq<Event>, scope: string, max: nat, k: nat, from: int, now: nat)
    requires Tied(t, scope, max, k, from, now) && Plays(events, scope, now) && AtMost(t, events, scope, max, k)
    requires Fresh(events, scope, from)
    requires events != [] ==> from <= events[0].now
    ensures FailuresWithin(Outcome(t, events, scope, max).log, from, from + LOGIN_WINDOW) <= Total(t, scope, max, k, from)
    decreases |events|
  {
    hide Happens, Tied, MayHappen, IsFresh, Total, Room;
    if events == [] || events[0].now >= from + LOGIN_WINDOW {
      LaterAddsNothing(t, events, scope, max, from, now);
      RoomIsNatural(t, scope, max, k, from, now);
    } else {
      var e := events[0];
      var n := Happens(t, e, scope, max);
      assert AtMost(n, events[1..], scope, max, k);
      EventKeepsTied(t, e, scope, max, k, from, now);
      EventKeepsTotal(t, e, scope, max, k, from, now);
      FirstIsNotBefore(events[1..], scope, e.now);
      TotalBounds(n, events[1..], scope, max, k, from, e.now);
    }
  }

  lemma FirstIsNotBefore(events: seq<Event>, scope: string, now: nat)
    requires Plays(events, scope, now)
    ensures events != [] ==> now <= events[0].now
  {
  }

  lemma RoomIsNatural(t: Race, scope: string, max: nat, k: nat, from: int, now: nat)
    requires Tied(t, scope, max, k, from, now)
    ensures FailuresWithin(t.log, from, from + LOGIN_WINDOW) <= Total(t, scope, max, k, from)
  {
    var (b, d) := (Budget(max), k - Late(t, scope));
    PastIsNatural(t, scope);
    AheadFalls(d + 1, k, b);
    AheadFalls(1, k, b);
    if d >= 1 {
      AheadFalls(d, k, b);
    }
  }

  lemma {:induction false} LaterAddsNothing(t: Race, events: seq<Event>, scope: string, max: nat, from: int, now: nat)
    requires Plays(events, scope, now) && (events != [] ==> from + LOGIN_WINDOW <= events[0].now)
    ensures FailuresWithin(Outcome(t, events, scope, max).log, from, from + LOGIN_WINDOW)
         == FailuresWithin(t.log, from, from + LOGIN_WINDOW)
    decreases |events|
  {
    hide Happens;
    if events != [] {
      EventOutside(t, events[0], scope, max, from);
      LaterAddsNothing(Happens(t, events[0], scope, max), events[1..], scope, max, from, events[0].now);
    }
  }

  /** What is left of the row of before `from`, and then every window ahead. */
  lemma RoomAtStart(t: Race, scope: string, max: nat, k: nat, from: int, now: nat)
    requires k >= 1 && Tied(t, scope, max, k, from, now) && (scope in t.limits ==> t.limits[scope].windowStartedAt < from)
    ensures Total(t, scope, max, k, from)
         <= FailuresWithin(t.log, from, from + LOGIN_WINDOW) + Budget(max) - 2 + Ahead(1, k, Budget(max))
  {
    var (b, d) := (Budget(max), k - Late(t, scope));
    PastIsNatural(t, scope);
    AheadFromFirst(d + 1, k, b);
    if d >= 1 {
      AheadFromFirst(d, k, b);
      AheadFalls(d, k, b);
    }
  }

  lemma {:induction false} BoundFrom(t: Race, events: seq<Event>, scope: string, max: nat, k: nat, from: int, now: nat)
    requires k >= 1 && Tied(t, scope, max, k, from, now) && Plays(events, scope, now) && AtMost(t, events, scope, max, k)
    requires Fresh(events, scope, from) && (scope in t.limits ==> t.limits[scope].windowStartedAt < from)
    ensures FailuresWithin(Outcome(t, events, scope, max).log, from, from + LOGIN_WINDOW)
         <= FailuresWithin(t.log, from, from + LOGIN_WINDOW) + Budget(max) - 2 + Ahead(1, k, Budget(max))
    decreases |events|
  {
    hide Happens, Total, MayHappen, IsFresh, Ahead;
    if events != [] && events[0].now < from {
      var e := events[0];
      var n := Happens(t, e, scope, max);
      assert AtMost(n, events[1..], scope, max, k);
      EventKeepsTied(t, e, scope, max, k, from, now);
      EventOutside(t, e, scope, max, from);
      BoundFrom(n, events[1..], scope, max, k, from, e.now);
    } else {
      RoomAtStart(t, scope, max, k, from, now);
      hide Tied;
      TotalBounds(t, events, scope, max, k, from, now);
    }
  }

  lemma {:induction false} AheadInAll(d: nat, k: nat, b: nat)
    requires 1 <= d <= k + 1
    ensures 2 * Ahead(d, k, b) == 2 * ((k + 1 - d) * b) + k * (k - 1) - (d - 1) * (d - 2)
    decreases k - d
  {
    if d <= k {
      AheadInAll(d + 1, k, b);
      assert (k + 1 - d) * b == (k - d) * b + b;
    }
  }

  /** With at most `k` attempts under way, any LOGIN_WINDOW seconds of any run in
      which no failure is recorded by a clock from before them let at most
      (k + 1) * budget - 2 + k * (k - 1) / 2 failures of one scope through:
      the bound of atomic attempts is the case of one. */
  lemma RaceBound(events: seq<Event>, scope: string, max: nat, k: nat, from: int)
    requires k >= 1 && Plays(events, scope, 0) && AtMost(START, events, scope, max, k) && Fresh(events, scope, from)
    ensures FailuresWithin(Outcome(START, events, scope, max).log, from, from + LOGIN_WINDOW)
         <= (k + 1) * Budget(max) - 2 + k * (k - 1) / 2
  {
    hide Plays, AtMost, Fresh, Outcome;
    BoundFrom(START, events, scope, max, k, from, 0);
    AheadInAll(1, k, Budget(max));
    assert (k + 1) * Budget(max) == k * Budget(max) + Budget(max);
  }
}
