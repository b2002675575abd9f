/** The readiness gate among its requests: each looks at the cache, reads the
    database and writes the cache in separate steps (server/src/schema_gate.rs),
    while migration runners work. */
module GateRuns {
  import opened Text
  import opened Schema
  import opened MigrationRunner
  import opened SchemaGate
  import Runners = MigrationRuns

  /** Where a request is: it missed the cache, it holds an answer it has still
      to write, or it has its answer. */
  datatype Request = Missed | Holding(code: Code) | Answered(code: Code)

  datatype Answer = Answer(checked: int, code: Code)

  datatype State = State(world: Runners.World, cached: Option<Answer>, requests: map<string, Request>)

  datatype Event =
    | Migrate(action: Runners.Action)
    | ReadCache(request: string)
    | ReadDatabase(request: string, readable: bool)
    | WriteCache(request: string)

  predicate CacheReady(s: State) {
    s.cached.Some? && s.cached.value.code == Ready
  }

  predicate Fresh(s: State) {
    s.cached.Some? && (CacheReady(s) || s.world.clock - s.cached.value.checked < RECHECK_BEHIND)
  }

  /** An event that does not fit the request's place is no step. */
  function Act(s: State, e: Event, ms: seq<Migration>): State {
    match e
    case Migrate(a) => s.(world := Runners.Act(s.world, a, ms))
    case ReadCache(r) =>
      if r in s.requests then s
      else s.(requests := s.requests[r := if Fresh(s) then Answered(s.cached.value.code) else Missed])
    case ReadDatabase(r, readable) =>
      if r !in s.requests || !s.requests[r].Missed? then s
      else s.(requests := s.requests[r := Holding(CodeOf(if readable then Some(s.world.db) else None, ms))])
    case WriteCache(r) =>
      if r !in s.requests || !s.requests[r].Holding? then s
      else s.(cached := Some(Answer(s.world.clock, s.requests[r].code)),
              requests := s.requests[r := Answered(s.requests[r].code)])
  }

  function Run(s: State, events: seq<Event>, ms: seq<Migration>): State
    decreases |events|
  {
    if events == [] then s else Run(Act(s, events[0], ms), events[1..], ms)
  }

  function Start(schema: Schema, clock: int): State {
    State(Runners.Start(schema, clock), None, map[])
  }

  // ----- Who is admitted -----

  predicate SaysReady(r: Request) {
    !r.Missed? && r.code == Ready
  }

  /** Wherever an answer says ready, the whole build is recorded. */
  ghost predicate Inv(s: State, ms: seq<Migration>, start: Schema) {
    && Runners.Inv(s.world, ms, start)
    && (CacheReady(s) ==> |s.world.log| == |ms|)
    && (forall r :: r in s.requests && SaysReady(s.requests[r]) ==> |s.world.log| == |ms|)
  }

  lemma LogGrows(w: Runners.World, a: Runners.Action, ms: seq<Migration>)
    ensures |w.log| <= |Runners.Act(w, a, ms).log|
  {
    hide NoDrift, Pending, ClearStale, Committed, Released;
  }

  lemma WholeStaysWhole(w: Runners.World, a: Runners.Action, ms: seq<Migration>, start: Schema)
    requires WellOrdered(ms) && Runners.Inv(w, ms, start) && |w.log| == |ms|
    ensures |Runners.Act(w, a, ms).log| == |ms|
  {
    LogGrows(w, a, ms);
    Runners.ActKeepsInv(w, a, ms, start);
    hide Runners.Act;
  }

  lemma CurrentIsWhole(w: Runners.World, ms: seq<Migration>, start: Schema)
    requires WellOrdered(ms) && Runners.Inv(w, ms, start)
    ensures CodeOf(Some(w.db), ms) == Ready <==> |w.log| == |ms|
  {
    Runners.RecordedMeansEarlier(w, ms);
  }

  lemma ActKeepsInv(s: State, e: Event, ms: seq<Migration>, start: Schema)
    requires WellOrdered(ms) && Inv(s, ms, start)
    ensures Inv(Act(s, e, ms), ms, start)
  {
    CurrentIsWhole(s.world, ms, start);
    if e.Migrate? {
      Runners.ActKeepsInv(s.world, e.action, ms, start);
      if |s.world.log| == |ms| {
        WholeStaysWhole(s.world, e.action, ms, start);
      }
    }
    hide Runners.Inv, Runners.Act, CodeOf;
  }

  lemma {:induction false} RunKeepsInv(s: State, events: seq<Event>, ms: seq<Migration>, start: Schema)
    requires WellOrdered(ms) && Inv(s, ms, start)
    ensures Inv(Run(s, events, ms), ms, start)
    decreases |events|
  {
    hide Inv, Act;
    if events != [] {
      ActKeepsInv(s, events[0], ms, start);
      RunKeepsInv(Act(s, events[0], ms), events[1..], ms, start);
    }
  }

  /** A request that is admitted, from the cache or from its own look, whatever
      the other requests and the runners do, finds every migration of the build
      recorded and in place, then and ever after. */
  lemma AdmittedIsMigrated(schema: Schema, clock: int, events: seq<Event>, ms: seq<Migration>, request: string)
    requires WellOrdered(ms)
    requires var s := Run(Start(schema, clock), events, ms);
             request in s.requests && s.requests[request] == Answered(Ready)
    ensures var db := Run(Start(schema, clock), events, ms).world.db;
            forall i :: 0 <= i < |ms| ==> ms[i].version in db.recorded && AllSettled(db.schema, ms[i].statements)
  {
    assert Runners.Inv(Runners.Start(schema, clock), ms, schema) by {
      Runners.RunKeepsInv(schema, clock, [], ms);
    }
    RunKeepsInv(Start(schema, clock), events, ms, schema);
    var s := Run(Start(schema, clock), events, ms);
    assert SaysReady(s.requests[request]);
    hide Runners.Inv, Run, Act;
    Runners.WholeIsSettled(s.world, ms, schema);
  }

  // ----- Whether ready sticks -----

  /** A request that can still write another answer than ready: it missed the
      cache and has not read yet, or it holds such an answer. */
  predicate Unsettled(r: Request) {
    r.Missed? || (r.Holding? && r.code != Ready)
  }

  predicate AllSettledDown(s: State) {
    forall r :: r in s.requests ==> !Unsettled(s.requests[r])
  }

  lemma ReadyStep(s: State, e: Event, ms: seq<Migration>)
    requires CacheReady(s) && AllSettledDown(s)
    ensures CacheReady(Act(s, e, ms)) && AllSettledDown(Act(s, e, ms))
  {
    hide CodeOf, Runners.Act;
  }

  lemma {:induction false} ReadyStays(s: State, events: seq<Event>, ms: seq<Migration>)
    requires CacheReady(s) && AllSettledDown(s)
    ensures CacheReady(Run(s, events, ms))
    decreases |events|
  {
    hide CacheReady, AllSettledDown, Act;
    if events != [] {
      ReadyStep(s, events[0], ms);
      ReadyStays(Act(s, events[0], ms), events[1..], ms);
    }
  }

  /** The events by which such a request overwrites the cache. */
  lemma Overwrites(s: State, ms: seq<Migration>, r: string) returns (events: seq<Event>)
    requires r in s.requests && Unsettled(s.requests[r])
    ensures !CacheReady(Run(s, events, ms))
  {
    hide Runners.Act;
    if s.requests[r].Missed? {
      events := [ReadDatabase(r, false), WriteCache(r)];
      RunsFirst(s, events, 0, ms);
      RunsFirst(Act(s, ReadDatabase(r, false), ms), events, 1, ms);
      assert events[2..] == [];
    } else {
      events := [WriteCache(r)];
      RunsFirst(s, events, 0, ms);
      assert events[1..] == [];
    }
  }

  /** A cached ready answer can be lost in some run exactly when some request in
      flight missed the cache before and has not read the database, or has read
      something else. */
  lemma ReadyCanBeLostExactlyWhen(s: State, ms: seq<Migration>)
    requires CacheReady(s)
    ensures (exists events :: !CacheReady(Run(s, events, ms))) <==> exists r :: r in s.requests && Unsettled(s.requests[r])
  {
    hide Run, CacheReady, Unsettled;
    if r :| r in s.requests && Unsettled(s.requests[r]) {
      var events := Overwrites(s, ms, r);
    } else {
      forall events
        ensures CacheReady(Run(s, events, ms))
      {
        ReadyStays(s, events, ms);
      }
    }
  }

  /** A slow request that cannot read the database, and a quick one that can. */
  const SLOW_AND_QUICK := [ReadCache("slow"), ReadDatabase("slow", false), ReadCache("quick"), ReadDatabase("quick", true),
                           WriteCache("quick")]

  /** On a migrated database the quick request caches ready, and the slow one
      then overwrites it: until that answer is RECHECK_BEHIND seconds old, every
      request is refused. */
  lemma SlowRefusalOverwrites(w: Runners.World, ms: seq<Migration>)
    requires CodeOf(Some(w.db), ms) == Ready
    ensures CacheReady(Run(State(w, None, map[]), SLOW_AND_QUICK, ms))
    ensures var lost := Act(Run(State(w, None, map[]), SLOW_AND_QUICK, ms), WriteCache("slow"), ms);
            && !CacheReady(lost)
            && forall r :: r !in lost.requests ==> Act(lost, ReadCache(r), ms).requests[r] == Answered(Unreadable)
  {
    var s0 := State(w, None, map[]);
    var s1 := Act(s0, SLOW_AND_QUICK[0], ms);
    var s2 := Act(s1, SLOW_AND_QUICK[1], ms);
    var s3 := Act(s2, SLOW_AND_QUICK[2], ms);
    var s4 := Act(s3, SLOW_AND_QUICK[3], ms);
    var s5 := Act(s4, SLOW_AND_QUICK[4], ms);
    assert s5.requests == map["slow" := Holding(Unreadable), "quick" := Answered(Ready)];
    assert CacheReady(s5);
    hide Act;
    assert Run(s5, SLOW_AND_QUICK[5..], ms) == s5;
    RunsFirst(s4, SLOW_AND_QUICK, 4, ms);
    RunsFirst(s3, SLOW_AND_QUICK, 3, ms);
    RunsFirst(s2, SLOW_AND_QUICK, 2, ms);
    RunsFirst(s1, SLOW_AND_QUICK, 1, ms);
    RunsFirst(s0, SLOW_AND_QUICK, 0, ms);
  }

  lemma RunsFirst(s: State, events: seq<Event>, i: nat, ms: seq<Migration>)
    requires i < |events|
    ensures Run(s, events[i..], ms) == Run(Act(s, events[i], ms), events[i + 1..], ms)
    ensures events[0..] == events
  {
    assert events[i..][1..] == events[i + 1..];
  }
}
