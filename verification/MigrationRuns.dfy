/** Every interleaving of migration runners of one build: several at a time,
    crashing anywhere, finishing between each other's reads, and taking over
    stale locks. GateRuns adds the readiness gate. */
module MigrationRuns {
  import opened Text
  import opened Schema
  import opened MigrationRunner

  /** Where a runner is between its statements. `now` is the time it took before
      it touched the lock, `since` the one it wrote into the lock row. */
  datatype Phase =
    | Idle
    | Decided
    | Timed(now: int)
    | Cleared(now: int)
    | Locked(since: int)
    | Working(since: int, pending: seq<Migration>)
    | Releasing(since: int, succeeded: bool)

  /** `log` is the order in which versions were recorded. */
  datatype World = World(db: Database, clock: int, runners: map<string, Phase>, log: seq<int>)

  datatype Action =
    | Tick(seconds: nat)
    | ReadFirst(runner: string)
    | ReadClock(runner: string)
    | ClearStaleLock(runner: string)
    | InsertLock(runner: string)
    | ReadStatus(runner: string)
    | ApplyNext(runner: string)
    | ReleaseLock(runner: string)
    | Crash(runner: string)

  function PhaseOf(w: World, runner: string): Phase {
    if runner in w.runners then w.runners[runner] else Idle
  }

  function Moved(w: World, runner: string, phase: Phase): World {
    w.(runners := w.runners[runner := phase])
  }

  /** The second status read, under the lock. */
  function AfterRead(recorded: map<int, Record>, since: int, ms: seq<Migration>): Phase {
    if NoDrift(recorded, ms) then Working(since, Pending(recorded, ms)) else Releasing(since, false)
  }

  /** One atomic step; an action that does not fit the runner's phase is no step. */
  function Act(w: World, a: Action, ms: seq<Migration>): World {
    match a
    case Tick(seconds) => w.(clock := w.clock + seconds)
    case Crash(r) => Moved(w, r, Idle)
    case ReadFirst(r) =>
      // The status read before the lock: something pending and no drift.
      if PhaseOf(w, r).Idle? && NoDrift(w.db.recorded, ms) && Pending(w.db.recorded, ms) != [] then Moved(w, r, Decided)
      else w
    case ReadClock(r) => if PhaseOf(w, r).Decided? then Moved(w, r, Timed(w.clock)) else w
    case ClearStaleLock(r) =>
      if PhaseOf(w, r).Timed? then
        Moved(w.(db := w.db.(lock := ClearStale(w.db.lock, PhaseOf(w, r).now))), r, Cleared(PhaseOf(w, r).now))
      else w
    case InsertLock(r) =>
      if PhaseOf(w, r).Cleared? then
        if w.db.lock.None? then
          Moved(w.(db := w.db.(lock := Some(Lock(r, PhaseOf(w, r).now)))), r, Locked(PhaseOf(w, r).now))
        else Moved(w, r, Idle)
      else w
    case ReadStatus(r) =>
      if PhaseOf(w, r).Locked? then Moved(w, r, AfterRead(w.db.recorded, PhaseOf(w, r).since, ms)) else w
    case ApplyNext(r) =>
      if PhaseOf(w, r).Working? then
        var (since, pending) := (PhaseOf(w, r).since, PhaseOf(w, r).pending);
        if pending == [] then Moved(w, r, Releasing(since, true))
        else match Committed(w.db, pending[0])
          case Some(db) => Moved(w.(db := db, log := w.log + [pending[0].version]), r, Working(since, pending[1..]))
          case None => Moved(w, r, Releasing(since, false))
      else w
    case ReleaseLock(r) =>
      if PhaseOf(w, r).Releasing? then
        Moved(w.(db := w.db.(lock := Released(w.db.lock, r))), r, Idle)
      else w
  }

  function Run(w: World, actions: seq<Action>, ms: seq<Migration>): World
    decreases |actions|
  {
    if actions == [] then w
    else Act(Run(w, actions[..|actions| - 1], ms), actions[|actions| - 1], ms)
  }

  /** A database of any shape that no runner has touched yet. */
  function Start(schema: Schema, clock: int): World {
    World(Database(schema, map[], None), clock, map[], [])
  }

  // ----- The invariant -----

  /** Recorded so far: exactly the first `|log|` migrations, in order, and every
      one of their statements is in the schema. */
  ghost predicate Recorded(w: World, ms: seq<Migration>) {
    && |w.log| <= |ms|
    && (forall i :: 0 <= i < |w.log| ==> w.log[i] == ms[i].version)
    && (forall v :: v in w.db.recorded <==> v in w.log)
    && (forall i :: 0 <= i < |w.log| ==>
         && w.log[i] in w.db.recorded
         && w.db.recorded[w.log[i]] == Record(ms[i].name, ms[i].checksum)
         && AllSettled(w.db.schema, ms[i].statements))
  }

  function Since(p: Phase): Option<int> {
    match p
    case Locked(since) => Some(since)
    case Working(since, _) => Some(since)
    case Releasing(since, _) => Some(since)
    case _ => None
  }

  /** A runner past the lock still owns the row, or has held it too long. */
  predicate LockOk(lock: Option<Lock>, clock: int, p: Phase, r: string) {
    && (p.Timed? || p.Cleared? ==> p.now <= clock)
    && (Since(p).Some? ==>
         && Since(p).value <= clock
         && (lock == Some(Lock(r, Since(p).value)) || Since(p).value + LOCK_STALE_SECONDS < clock))
  }

  /** A worker's list is a tail of the build's list, starting no later than the
      first unrecorded migration; a successful worker leaves nothing out. */
  predicate WorkOk(done: nat, p: Phase, ms: seq<Migration>) {
    && (p.Working? ==> |p.pending| <= |ms| && p.pending == ms[|ms| - |p.pending|..] && |ms| - |p.pending| <= done)
    && (p.Releasing? && p.succeeded ==> done == |ms|)
  }

  predicate RunnerOk(lock: Option<Lock>, clock: int, done: nat, p: Phase, r: string, ms: seq<Migration>) {
    LockOk(lock, clock, p, r) && WorkOk(done, p, ms)
  }

  predicate RunnersOk(w: World, ms: seq<Migration>) {
    forall r :: r in w.runners ==> RunnerOk(w.db.lock, w.clock, |w.log|, w.runners[r], r, ms)
  }

  ghost predicate Inv(w: World, ms: seq<Migration>, start: Schema) {
    && Recorded(w, ms)
    && Grown(start, w.db.schema)
    && RunnersOk(w, ms)
  }

  // ----- Every step keeps it -----

  lemma {:induction false} PendingIsTail(recorded: map<int, Record>, ms: seq<Migration>, done: nat)
    requires WellOrdered(ms) && done <= |ms|
    requires forall i :: 0 <= i < |ms| ==> (ms[i].version in recorded <==> i < done)
    ensures Pending(recorded, ms) == ms[done..]
    decreases |ms|
  {
    if ms != [] {
      var rest := ms[1..];
      assert forall i :: 0 <= i < |rest| ==> rest[i] == ms[i + 1];
      PendingIsTail(recorded, rest, if done == 0 then 0 else done - 1);
    }
  }

  lemma RecordedMeansEarlier(w: World, ms: seq<Migration>)
    requires Recorded(w, ms) && WellOrdered(ms)
    ensures forall i :: 0 <= i < |ms| ==> (ms[i].version in w.db.recorded <==> i < |w.log|)
    ensures Pending(w.db.recorded, ms) == ms[|w.log|..]
    ensures NoDrift(w.db.recorded, ms)
  {
    forall i | 0 <= i < |ms| ensures ms[i].version in w.db.recorded <==> i < |w.log| {
      if ms[i].version in w.log {
        var j :| 0 <= j < |w.log| && w.log[j] == ms[i].version;
        assert ms[j].version == ms[i].version;
      }
      if i < |w.log| {
        assert w.log[i] == ms[i].version;
      }
    }
    PendingIsTail(w.db.recorded, ms, |w.log|);
    forall v | v in w.db.recorded ensures Known(v, w.db.recorded[v], ms) {
      var j :| 0 <= j < |w.log| && w.log[j] == v;
      assert ms[j].version == v;
    }
  }

  /** What a step may do to everything but its own runner's phase. */
  predicate Quiet(w: World, w': World) {
    w'.db.schema == w.db.schema && w'.db.recorded == w.db.recorded && w'.log == w.log
  }

  lemma QuietKeepsRecorded(w: World, w': World, ms: seq<Migration>, start: Schema)
    requires Inv(w, ms, start) && Quiet(w, w')
    ensures Recorded(w', ms) && Grown(start, w'.db.schema)
  {
  }

  /** The other runners stay as they were if the lock is only taken from the
      stale or the moving runner, and time and the log only grow. */
  lemma RunnersStay(w: World, w': World, runner: string, ms: seq<Migration>)
    requires RunnersOk(w, ms) && w.clock <= w'.clock && |w.log| <= |w'.log| <= |ms|
    requires w'.runners == w.runners || w'.runners == w.runners[runner := PhaseOf(w', runner)]
    requires w'.runners != w.runners ==> RunnerOk(w'.db.lock, w'.clock, |w'.log|, PhaseOf(w', runner), runner, ms)
    requires w.db.lock.Some? && w'.db.lock != w.db.lock ==>
               w.db.lock.value.acquiredAt < w'.clock - LOCK_STALE_SECONDS
               || (w'.runners != w.runners && w.db.lock.value.holder == runner)
    ensures RunnersOk(w', ms)
  {
    forall r | r in w'.runners ensures RunnerOk(w'.db.lock, w'.clock, |w'.log|, w'.runners[r], r, ms) {
      if r in w.runners && w'.runners[r] == w.runners[r] {
        assert RunnerOk(w.db.lock, w.clock, |w.log|, w.runners[r], r, ms);
      }
    }
  }

  lemma RunnerIsOk(w: World, r: string, ms: seq<Migration>)
    requires RunnersOk(w, ms)
    ensures RunnerOk(w.db.lock, w.clock, |w.log|, PhaseOf(w, r), r, ms)
  {
  }

  predicate LockStep(a: Action, r: string) {
    a == ReadFirst(r) || a == ReadClock(r) || a == ClearStaleLock(r) || a == InsertLock(r) || a == ReleaseLock(r)
    || a == Crash(r) || a.Tick?
  }

  lemma LockStepRunners(w: World, a: Action, r: string, ms: seq<Migration>)
    requires RunnersOk(w, ms) && |w.log| <= |ms|
    requires LockStep(a, r)
    ensures RunnersOk(Act(w, a, ms), ms) && Quiet(w, Act(w, a, ms))
  {
    RunnerIsOk(w, r, ms);
    var w' := Act(w, a, ms);
    if w' != w {
      RunnersStay(w, w', r, ms);
    }
  }

  lemma AfterReadOk(lock: Option<Lock>, clock: int, done: nat, r: string, recorded: map<int, Record>, since: int,
                    ms: seq<Migration>)
    requires done <= |ms| && Pending(recorded, ms) == ms[done..]
    requires LockOk(lock, clock, Locked(since), r)
    ensures RunnerOk(lock, clock, done, AfterRead(recorded, since, ms), r, ms)
  {
  }

  lemma MoveKeepsRunners(w: World, r: string, phase: Phase, ms: seq<Migration>)
    requires RunnersOk(w, ms) && RunnerOk(w.db.lock, w.clock, |w.log|, phase, r, ms)
    ensures RunnersOk(Moved(w, r, phase), ms)
  {
  }

  lemma ReadStepRunners(w: World, r: string, ms: seq<Migration>)
    requires RunnersOk(w, ms) && |w.log| <= |ms| && Pending(w.db.recorded, ms) == ms[|w.log|..]
    ensures RunnersOk(Act(w, ReadStatus(r), ms), ms) && Quiet(w, Act(w, ReadStatus(r), ms))
  {
    hide RunnersOk, WorkOk, NoDrift, Pending, ClearStale, Committed, AfterRead;
    if PhaseOf(w, r).Locked? {
      var since := PhaseOf(w, r).since;
      RunnerIsOk(w, r, ms);
      AfterReadOk(w.db.lock, w.clock, |w.log|, r, w.db.recorded, since, ms);
      MoveKeepsRunners(w, r, AfterRead(w.db.recorded, since, ms), ms);
    }
  }

  lemma QuietStepKeepsInv(w: World, a: Action, r: string, ms: seq<Migration>, start: Schema)
    requires WellOrdered(ms) && Inv(w, ms, start)
    requires LockStep(a, r) || a == ReadStatus(r)
    ensures Inv(Act(w, a, ms), ms, start)
  {
    if a.ReadStatus? {
      RecordedMeansEarlier(w, ms);
      ReadStepRunners(w, r, ms);
    } else {
      LockStepRunners(w, a, r, ms);
    }
    QuietKeepsRecorded(w, Act(w, a, ms), ms, start);
  }

  /** A commit can only be of the first unrecorded migration. */
  lemma CommitIsNext(w: World, ms: seq<Migration>, pending: seq<Migration>)
    requires WellOrdered(ms) && Recorded(w, ms)
    requires 0 < |pending| <= |ms| && pending == ms[|ms| - |pending|..] && |ms| - |pending| <= |w.log|
    requires Committed(w.db, pending[0]).Some?
    ensures |w.log| < |ms| && pending == ms[|w.log|..]
    ensures var db := Committed(w.db, pending[0]).value;
            Recorded(w.(db := db, log := w.log + [pending[0].version]), ms) && Grown(w.db.schema, db.schema)
  {
    RecordedMeansEarlier(w, ms);
    var k := |ms| - |pending|;
    assert pending[0] == ms[k];
    var db := Committed(w.db, pending[0]).value;
    var w' := w.(db := db, log := w.log + [pending[0].version]);
    RunOnlyGrows(w.db.schema, ms[k].statements);
    RunSettles(w.db.schema, ms[k].statements);
    forall i | 0 <= i < |w'.log|
      ensures w'.log[i] == ms[i].version && w'.log[i] in db.recorded
      ensures db.recorded[w'.log[i]] == Record(ms[i].name, ms[i].checksum)
      ensures AllSettled(db.schema, ms[i].statements)
    {
      if i < |w.log| {
        assert w'.log[i] == w.log[i] && w.log[i] in w.db.recorded;
        forall j | 0 <= j < |ms[i].statements| ensures Settled(db.schema, ms[i].statements[j]) {
          GrowthKeepsSettled(w.db.schema, db.schema, ms[i].statements[j]);
        }
      }
    }
  }

  lemma ApplyStepKeepsInv(w: World, runner: string, ms: seq<Migration>, start: Schema)
    requires WellOrdered(ms) && Inv(w, ms, start)
    ensures Inv(Act(w, ApplyNext(runner), ms), ms, start)
  {
    var w' := Act(w, ApplyNext(runner), ms);
    RunnerIsOk(w, runner, ms);
    if PhaseOf(w, runner).Working? {
      var pending := PhaseOf(w, runner).pending;
      if pending != [] && Committed(w.db, pending[0]).Some? {
        CommitKeepsInv(w, runner, ms, start);
      } else {
        RecordedIgnoresRunners(w, w', ms);
        RunnersStay(w, w', runner, ms);
      }
    }
  }

  lemma CommitKeepsInv(w: World, runner: string, ms: seq<Migration>, start: Schema)
    requires WellOrdered(ms) && Inv(w, ms, start)
    requires PhaseOf(w, runner).Working? && PhaseOf(w, runner).pending != []
    requires Committed(w.db, PhaseOf(w, runner).pending[0]).Some?
    ensures Inv(Act(w, ApplyNext(runner), ms), ms, start)
  {
    RunnerIsOk(w, runner, ms);
    var (since, pending) := (PhaseOf(w, runner).since, PhaseOf(w, runner).pending);
    CommitIsNext(w, ms, pending);
    var db := Committed(w.db, pending[0]).value;
    var logged := w.(db := db, log := w.log + [pending[0].version]);
    GrownTransitive(start, w.db.schema, db.schema);
    RunnersStay(w, logged, runner, ms);
    assert pending[1..] == ms[|logged.log|..];
    AfterCommitOk(db.lock, w.clock, |logged.log|, runner, since, pending[1..], ms);
    MoveKeepsRunners(logged, runner, Working(since, pending[1..]), ms);
    RecordedIgnoresRunners(logged, Moved(logged, runner, Working(since, pending[1..])), ms);
  }

  lemma AfterCommitOk(lock: Option<Lock>, clock: int, done: nat, r: string, since: int, rest: seq<Migration>, ms: seq<Migration>)
    requires done <= |ms| && rest == ms[done..] && LockOk(lock, clock, Locked(since), r)
    ensures RunnerOk(lock, clock, done, Working(since, rest), r, ms)
  {
  }

  lemma RecordedIgnoresRunners(w: World, w': World, ms: seq<Migration>)
    requires Recorded(w, ms) && w'.db == w.db && w'.log == w.log
    ensures Recorded(w', ms)
  {
  }

  lemma ActKeepsInv(w: World, a: Action, ms: seq<Migration>, start: Schema)
    requires WellOrdered(ms) && Inv(w, ms, start)
    ensures Inv(Act(w, a, ms), ms, start)
  {
    hide Inv, Act;
    match a
    case ApplyNext(r) => ApplyStepKeepsInv(w, r, ms, start);
    case Tick(_) => QuietStepKeepsInv(w, a, "", ms, start);
    case _ => QuietStepKeepsInv(w, a, a.runner, ms, start);
  }

  lemma {:induction false} RunKeepsInv(schema: Schema, clock: int, actions: seq<Action>, ms: seq<Migration>)
    requires WellOrdered(ms)
    ensures Inv(Run(Start(schema, clock), actions, ms), ms, schema)
    decreases |actions|
  {
    if actions != [] {
      var (earlier, a) := (actions[..|actions| - 1], actions[|actions| - 1]);
      RunKeepsInv(schema, clock, earlier, ms);
      ActKeepsInv(Run(Start(schema, clock), earlier, ms), a, ms, schema);
    }
  }

  // ----- What it means -----

  /** In every run: a recorded version is one of the build's, with the build's
      checksum, all of its statements are in the schema, every earlier migration
      is recorded too, and nothing the database had is lost. */
  lemma RecordedIsCommitted(schema: Schema, clock: int, actions: seq<Action>, ms: seq<Migration>, v: int)
    requires WellOrdered(ms)
    requires v in Run(Start(schema, clock), actions, ms).db.recorded
    ensures var db := Run(Start(schema, clock), actions, ms).db;
            && Grown(schema, db.schema)
            && exists i :: 0 <= i < |ms| && ms[i].version == v
                 && db.recorded[v] == Record(ms[i].name, ms[i].checksum)
                 && (forall j :: 0 <= j <= i ==> ms[j].version in db.recorded && AllSettled(db.schema, ms[j].statements))
  {
    RunKeepsInv(schema, clock, actions, ms);
    var w := Run(Start(schema, clock), actions, ms);
    var i :| 0 <= i < |w.log| && w.log[i] == v;
    assert ms[i].version == v;
    forall j | 0 <= j <= i ensures ms[j].version in w.db.recorded && AllSettled(w.db.schema, ms[j].statements) {
      assert w.log[j] == ms[j].version;
    }
  }

  /** No version is recorded twice, whoever tries. */
  lemma RecordedOnce(schema: Schema, clock: int, actions: seq<Action>, ms: seq<Migration>)
    requires WellOrdered(ms)
    ensures var log := Run(Start(schema, clock), actions, ms).log;
            forall i, j :: 0 <= i < j < |log| ==> log[i] != log[j]
  {
    RunKeepsInv(schema, clock, actions, ms);
  }

  /** A runner that reports success leaves the whole build recorded. */
  lemma SuccessIsCurrent(schema: Schema, clock: int, actions: seq<Action>, ms: seq<Migration>, runner: string)
    requires WellOrdered(ms)
    requires var w := Run(Start(schema, clock), actions, ms);
             PhaseOf(w, runner).Releasing? && PhaseOf(w, runner).succeeded
    ensures IsCurrent(Run(Start(schema, clock), actions, ms).db.recorded, ms)
  {
    RunKeepsInv(schema, clock, actions, ms);
    var w := Run(Start(schema, clock), actions, ms);
    RunnerIsOk(w, runner, ms);
    RecordedMeansEarlier(w, ms);
  }

  /** Two runners are past the lock at once only if one of them wrote its lock
      row more than LOCK_STALE_SECONDS ago. */
  lemma OverlapNeedsStaleLock(schema: Schema, clock: int, actions: seq<Action>, ms: seq<Migration>, a: string, b: string)
    requires WellOrdered(ms) && a != b
    requires var w := Run(Start(schema, clock), actions, ms);
             Since(PhaseOf(w, a)).Some? && Since(PhaseOf(w, b)).Some?
    ensures var w := Run(Start(schema, clock), actions, ms);
            Since(PhaseOf(w, a)).value + LOCK_STALE_SECONDS < w.clock
            || Since(PhaseOf(w, b)).value + LOCK_STALE_SECONDS < w.clock
  {
    RunKeepsInv(schema, clock, actions, ms);
    var w := Run(Start(schema, clock), actions, ms);
    RunnerIsOk(w, a, ms);
    RunnerIsOk(w, b, ms);
  }

  /** Once the whole build is recorded, it is recorded and in place. */
  lemma WholeIsSettled(w: World, ms: seq<Migration>, start: Schema)
    requires WellOrdered(ms) && Inv(w, ms, start) && |w.log| == |ms|
    ensures forall i :: 0 <= i < |ms| ==> ms[i].version in w.db.recorded && AllSettled(w.db.schema, ms[i].statements)
  {
    forall i | 0 <= i < |ms|
      ensures ms[i].version in w.db.recorded && AllSettled(w.db.schema, ms[i].statements)
    {
      assert w.log[i] == ms[i].version;
    }
  }

  // ----- A runner that nobody disturbs -----

  function Applied(w: World, r: string, k: nat, ms: seq<Migration>): World
    decreases k
  {
    if k == 0 then w else Applied(Act(w, ApplyNext(r), ms), r, k - 1, ms)
  }

  /** The runner's loop commits what can be committed and then goes on to release. */
  lemma {:induction false} LoopCommits(w: World, r: string, k: nat, ms: seq<Migration>)
    requires PhaseOf(w, r).Working? && k > |PhaseOf(w, r).pending|
    ensures var (n, pending) := (Applied(w, r, k, ms), PhaseOf(w, r).pending);
            && n.db == CommittedAll(w.db, pending).0 && n.clock == w.clock
            && PhaseOf(n, r) == Releasing(PhaseOf(w, r).since, CommittedAll(w.db, pending).1 == |pending|)
    decreases k
  {
    hide Committed;
    var (since, pending) := (PhaseOf(w, r).since, PhaseOf(w, r).pending);
    var next := Act(w, ApplyNext(r), ms);
    if pending != [] && Committed(w.db, pending[0]).Some? {
      assert PhaseOf(next, r) == Working(since, pending[1..]);
      LoopCommits(next, r, k - 1, ms);
    } else {
      ReleasingStays(next, r, k - 1, ms);
    }
  }

  lemma {:induction false} ReleasingStays(w: World, r: string, k: nat, ms: seq<Migration>)
    requires PhaseOf(w, r).Releasing?
    ensures Applied(w, r, k, ms) == w
    decreases k
  {
    if k > 0 {
      ReleasingStays(w, r, k - 1, ms);
    }
  }

  lemma RunOneMore(w: World, actions: seq<Action>, a: Action, ms: seq<Migration>)
    ensures Run(w, actions + [a], ms) == Act(Run(w, actions, ms), a, ms)
  {
    hide Act;
    assert (actions + [a])[..|actions|] == actions;
  }

  lemma AppliedLast(w: World, r: string, k: nat, ms: seq<Migration>)
    ensures Applied(w, r, k + 1, ms) == Act(Applied(w, r, k, ms), ApplyNext(r), ms)
    decreases k
  {
    hide Act;
    if k > 0 {
      AppliedLast(Act(w, ApplyNext(r), ms), r, k - 1, ms);
    }
  }

  lemma {:induction false} RunApplies(w: World, actions: seq<Action>, r: string, k: nat, ms: seq<Migration>)
    ensures Run(w, actions + seq(k, i => ApplyNext(r)), ms) == Applied(Run(w, actions, ms), r, k, ms)
    decreases k
  {
    hide Act;
    if k == 0 {
      assert actions + seq(0, i => ApplyNext(r)) == actions;
    } else {
      RunApplies(w, actions, r, k - 1, ms);
      assert actions + seq(k, i => ApplyNext(r)) == actions + seq(k - 1, i => ApplyNext(r)) + [ApplyNext(r)];
      RunOneMore(w, actions + seq(k - 1, i => ApplyNext(r)), ApplyNext(r), ms);
      AppliedLast(Run(w, actions, ms), r, k - 1, ms);
    }
  }

  /** From the first status read to the lock. */
  function Entering(r: string): seq<Action> {
    [ReadFirst(r), ReadClock(r), ClearStaleLock(r), InsertLock(r)]
  }

  lemma EnteringRun(w: World, r: string, ms: seq<Migration>)
    ensures Run(w, Entering(r), ms)
         == Act(Act(Act(Act(w, ReadFirst(r), ms), ReadClock(r), ms), ClearStaleLock(r), ms), InsertLock(r), ms)
  {
    hide Act;
    assert Entering(r)[..3] == [ReadFirst(r), ReadClock(r), ClearStaleLock(r)];
    assert Entering(r)[..3][..2] == [ReadFirst(r), ReadClock(r)];
    assert Entering(r)[..3][..2][..1] == [ReadFirst(r)];
    assert Entering(r)[..3][..2][..1][..0] == [];
    RunOneMore(w, [], ReadFirst(r), ms);
    RunOneMore(w, [ReadFirst(r)], ReadClock(r), ms);
    RunOneMore(w, [ReadFirst(r), ReadClock(r)], ClearStaleLock(r), ms);
    RunOneMore(w, [ReadFirst(r), ReadClock(r), ClearStaleLock(r)], InsertLock(r), ms);
    assert [] + [ReadFirst(r)] == [ReadFirst(r)];
    assert [ReadFirst(r)] + [ReadClock(r)] == [ReadFirst(r), ReadClock(r)];
    assert [ReadFirst(r), ReadClock(r)] + [ClearStaleLock(r)] == [ReadFirst(r), ReadClock(r), ClearStaleLock(r)];
    assert [ReadFirst(r), ReadClock(r), ClearStaleLock(r)] + [InsertLock(r)] == Entering(r);
  }

  lemma Entered(w: World, r: string, ms: seq<Migration>)
    requires PhaseOf(w, r).Idle?
    ensures var (n, lock) := (Run(w, Entering(r), ms), ClearStale(w.db.lock, w.clock));
            && (!GoesOn(w.db, ms, false) ==> n == w)
            && (GoesOn(w.db, ms, false) ==>
                  && n.clock == w.clock && GoesOn(n.db, ms, false)
                  && n.db == w.db.(lock := if lock.None? then Some(Lock(r, w.clock)) else lock)
                  && PhaseOf(n, r) == if lock.None? then Locked(w.clock) else Idle)
  {
    EnteringRun(w, r, ms);
    hide NoDrift, Pending;
    if GoesOn(w.db, ms, false) {
      var w1 := Act(w, ReadFirst(r), ms);
      assert PhaseOf(w1, r) == Decided && w1.db == w.db && w1.clock == w.clock;
      var w2 := Act(w1, ReadClock(r), ms);
      assert PhaseOf(w2, r) == Timed(w.clock) && w2.db == w.db && w2.clock == w.clock;
      var w3 := Act(w2, ClearStaleLock(r), ms);
      assert PhaseOf(w3, r) == Cleared(w.clock) && w3.clock == w.clock;
      hide ClearStale;
    }
  }

  /** The whole of one runner's actions, with a turn of the loop for each pending
      migration and one to see that none is left. */
  function Whole(r: string, pending: nat): seq<Action> {
    Entering(r) + [ReadStatus(r)] + seq(pending + 1, i => ApplyNext(r)) + [ReleaseLock(r)]
  }

  lemma WholeRun(w: World, r: string, p: nat, ms: seq<Migration>)
    ensures Run(w, Whole(r, p), ms)
         == Act(Applied(Act(Run(w, Entering(r), ms), ReadStatus(r), ms), r, p + 1, ms), ReleaseLock(r), ms)
  {
    hide Act, Applied, Run, Entering;
    RunOneMore(w, Entering(r), ReadStatus(r), ms);
    RunApplies(w, Entering(r) + [ReadStatus(r)], r, p + 1, ms);
    RunOneMore(w, Entering(r) + [ReadStatus(r)] + seq(p + 1, i => ApplyNext(r)), ReleaseLock(r), ms);
  }

  /** The loop from the second status read to the release. */
  lemma LoopReleases(w: World, r: string, k: nat, ms: seq<Migration>)
    requires PhaseOf(w, r).Working? && w.db.lock == Some(Lock(r, PhaseOf(w, r).since)) && k > |PhaseOf(w, r).pending|
    ensures var n := Act(Applied(w, r, k, ms), ReleaseLock(r), ms);
            PhaseOf(n, r).Idle? && n.db == CommittedAll(w.db, PhaseOf(w, r).pending).0.(lock := None)
  {
    hide CommittedAll, Applied;
    LoopCommits(w, r, k, ms);
    CommitsKeepLock(w.db, PhaseOf(w, r).pending);
  }

  lemma NothingToRelease(w: World, r: string, k: nat, ms: seq<Migration>)
    requires PhaseOf(w, r).Idle?
    ensures Act(Applied(Act(w, ReadStatus(r), ms), r, k, ms), ReleaseLock(r), ms) == w
  {
    IdleStays(w, r, k, ms);
  }

  lemma ReadsPending(w: World, r: string, ms: seq<Migration>)
    requires PhaseOf(w, r).Locked? && GoesOn(w.db, ms, false)
    ensures var n := Act(w, ReadStatus(r), ms);
            n.db == w.db && PhaseOf(n, r) == Working(PhaseOf(w, r).since, Pending(w.db.recorded, ms))
  {
    hide NoDrift, Pending;
  }

  /** What the loop makes does not depend on the lock row it runs under. */
  lemma CommitsUnderAnyLock(a: Database, b: Database, ms: seq<Migration>)
    requires a.schema == b.schema && a.recorded == b.recorded
    ensures CommittedAll(a, ms).0.(lock := None) == CommittedAll(b, ms).0.(lock := None)
  {
    hide *;
    LockDoesNotMatter(a, b, ms);
  }

  /** Undisturbed, a runner ends as one call of `Apply` does: it changes nothing
      where there is nothing to do, stops at a lock that is held, and else
      commits the pending migrations up to the first that fails and gives the
      lock back. */
  lemma UndisturbedRunApplies(w: World, r: string, ms: seq<Migration>)
    requires PhaseOf(w, r).Idle?
    ensures var pending := Pending(w.db.recorded, ms);
            var n := Run(w, Whole(r, |pending|), ms);
            && PhaseOf(n, r).Idle?
            && n.db == if !GoesOn(w.db, ms, false) || ClearStale(w.db.lock, w.clock).Some? then w.db
                       else CommittedAll(w.db, pending).0.(lock := None)
  {
    hide *;
    var pending := Pending(w.db.recorded, ms);
    var entered := Run(w, Entering(r), ms);
    Entered(w, r, ms);
    WholeRun(w, r, |pending|, ms);
    if GoesOn(w.db, ms, false) && ClearStale(w.db.lock, w.clock).None? {
      ReadsPending(entered, r, ms);
      LoopReleases(Act(entered, ReadStatus(r), ms), r, |pending| + 1, ms);
      CommitsUnderAnyLock(w.db, entered.db, pending);
    } else {
      StaleOrSame(w.db.lock, w.clock);
      NothingToRelease(entered, r, |pending| + 1, ms);
    }
  }

  lemma {:induction false} IdleStays(w: World, r: string, k: nat, ms: seq<Migration>)
    requires PhaseOf(w, r).Idle?
    ensures Applied(w, r, k, ms) == w
    decreases k
  {
    if k > 0 {
      IdleStays(w, r, k - 1, ms);
    }
  }

  lemma StaleOrSame(lock: Option<Lock>, now: int)
    ensures ClearStale(lock, now).Some? ==> ClearStale(lock, now) == lock
  {
  }

  lemma {:induction false} CommitsKeepLock(db: Database, ms: seq<Migration>)
    ensures CommittedAll(db, ms).0.lock == db.lock
    decreases |ms|
  {
    hide Committed;
    if ms != [] && Committed(db, ms[0]).Some? {
      CommitKeepsLock(db, ms[0]);
      CommitsKeepLock(Committed(db, ms[0]).value, ms[1..]);
    }
  }
}
