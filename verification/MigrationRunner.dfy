/** The migration runner of server/src/migrations.rs and its advisory lock. */
module MigrationRunner {
  import opened Text
  import opened Schema

  datatype Migration = Migration(version: int, name: string, checksum: string, statements: seq<Statement>)

  datatype Record = Record(name: string, checksum: string)

  datatype Lock = Lock(holder: string, acquiredAt: int)

  datatype Database = Database(schema: Schema, recorded: map<int, Record>, lock: Option<Lock>)

  const LOCK_STALE_SECONDS := 300

  /** Ordered and unique, as the embedded list is. */
  predicate WellOrdered(ms: seq<Migration>) {
    forall i, j :: 0 <= i < j < |ms| ==> ms[i].version < ms[j].version
  }

  // ----- Status -----

  function Pending(recorded: map<int, Record>, ms: seq<Migration>): seq<Migration> {
    if ms == [] then []
    else (if ms[0].version in recorded then [] else [ms[0]]) + Pending(recorded, ms[1..])
  }

  predicate Known(version: int, r: Record, ms: seq<Migration>) {
    exists i :: 0 <= i < |ms| && ms[i].version == version && ms[i].checksum == r.checksum
  }

  /** No recorded migration disagrees with this build. */
  predicate NoDrift(recorded: map<int, Record>, ms: seq<Migration>) {
    forall v :: v in recorded ==> Known(v, recorded[v], ms)
  }

  predicate IsCurrent(recorded: map<int, Record>, ms: seq<Migration>) {
    NoDrift(recorded, ms) && Pending(recorded, ms) == []
  }

  /** The build does not know the recorded version, or has edited it since. */
  predicate Disagrees(version: int, checksum: string, ms: seq<Migration>) {
    || (forall i :: 0 <= i < |ms| ==> ms[i].version != version)
    || (exists i :: 0 <= i < |ms| && ms[i].version == version && ms[i].checksum != checksum)
  }

  predicate SomeDisagree(recorded: map<int, Record>, ms: seq<Migration>) {
    exists v :: v in recorded && Disagrees(v, recorded[v].checksum, ms)
  }

  /** There is drift exactly when some recorded version is unknown to the build
      or recorded with another checksum than the build's. */
  lemma DriftIsDisagreement(recorded: map<int, Record>, ms: seq<Migration>)
    requires WellOrdered(ms)
    ensures !NoDrift(recorded, ms) <==> SomeDisagree(recorded, ms)
  {
    forall v | v in recorded
      ensures Known(v, recorded[v], ms) <==> !Disagrees(v, recorded[v].checksum, ms)
    {
      KnownOrDisagrees(v, recorded[v], ms);
    }
    hide Known, Disagrees;
  }

  lemma KnownOrDisagrees(v: int, r: Record, ms: seq<Migration>)
    requires WellOrdered(ms)
    ensures Known(v, r, ms) <==> !Disagrees(v, r.checksum, ms)
  {
    if Known(v, r, ms) {
      var i :| 0 <= i < |ms| && ms[i].version == v && ms[i].checksum == r.checksum;
      assert forall j :: 0 <= j < |ms| && ms[j].version == v ==> j == i;
    }
  }

  /** What is pending is exactly what is not recorded, in the build's order. */
  lemma {:induction false} PendingInOrder(recorded: map<int, Record>, ms: seq<Migration>)
    requires WellOrdered(ms)
    ensures WellOrdered(Pending(recorded, ms))
    ensures forall m :: m in Pending(recorded, ms) <==> m in ms && m.version !in recorded
  {
    PendingIsUnrecorded(recorded, ms);
    if ms != [] {
      var rest := Pending(recorded, ms[1..]);
      PendingInOrder(recorded, ms[1..]);
      forall i | 0 <= i < |rest|
        ensures ms[0].version < rest[i].version
      {
        assert rest[i] in ms[1..];
      }
    }
  }

  // ----- The atomic steps -----

  function ClearStale(lock: Option<Lock>, now: int): Option<Lock> {
    match lock
    case Some(l) => if l.acquiredAt < now - LOCK_STALE_SECONDS then None else lock
    case None => None
  }

  /** One transaction: every statement, then the record, or nothing at all. */
  function Committed(db: Database, m: Migration): Option<Database> {
    match RunAll(db.schema, m.statements)
    case None => None
    case Some(s) =>
      if m.version in db.recorded then None
      else Some(db.(schema := s, recorded := db.recorded[m.version := Record(m.name, m.checksum)]))
  }

  /** The database after as many of `ms` as commit, and how many that is. */
  function CommittedAll(db: Database, ms: seq<Migration>): (Database, nat)
    decreases |ms|
  {
    if ms == [] then (db, 0)
    else match Committed(db, ms[0])
      case None => (db, 0)
      case Some(db') => var (last, n) := CommittedAll(db', ms[1..]); (last, n + 1)
  }

  // ----- One runner -----

  datatype ApplyResult = Ran(count: nat) | Planned(count: nat) | Drifted | LockHeld | Broken(ran: nat)

  class Connection {
    var db: Database

    constructor (initial: Database)
      ensures db == initial
    {
      db := initial;
    }

    method Acquire(holder: string, now: int) returns (ok: bool)
      modifies this
      ensures ok <==> ClearStale(old(db).lock, now) == None
      ensures db == old(db).(lock := if ok then Some(Lock(holder, now)) else ClearStale(old(db).lock, now))
    {
      db := db.(lock := ClearStale(db.lock, now));
      ok := db.lock.None?;
      if ok {
        db := db.(lock := Some(Lock(holder, now)));
      }
    }

    method Release(holder: string)
      modifies this
      ensures db == old(db).(lock := Released(old(db).lock, holder))
    {
      if db.lock.Some? && db.lock.value.holder == holder {
        db := db.(lock := None);
      }
    }

    method ApplyOne(m: Migration) returns (ok: bool)
      modifies this
      ensures ok <==> Committed(old(db), m).Some?
      ensures db == if ok then Committed(old(db), m).value else old(db)
    {
      var schema := db.schema;
      var i := 0;
      while i < |m.statements|
        invariant 0 <= i <= |m.statements|
        invariant RunAll(schema, m.statements[i..]) == RunAll(db.schema, m.statements)
        invariant db == old(db)
      {
        assert m.statements[i..][1..] == m.statements[i + 1..];
        var next := ExecuteTolerantly(schema, m.statements[i]);
        if next.None? {
          return false;
        }
        schema := next.value;
        i := i + 1;
      }
      if m.version in db.recorded {
        return false;
      }
      db := db.(schema := schema, recorded := db.recorded[m.version := Record(m.name, m.checksum)]);
      return true;
    }

    /** Apply every pending migration in order. `meanwhile` is what other
        runners have made of the database between the first status read and the
        lock; undisturbed, it is the database itself. */
    method Apply(ms: seq<Migration>, dryRun: bool, holder: string, now: int, meanwhile: Database)
      returns (result: ApplyResult)
      requires WellOrdered(ms)
      modifies this
      ensures !GoesOn(old(db), ms, dryRun) ==>
                && db == old(db)
                && result == if NoDrift(old(db).recorded, ms) then Planned(|Pending(old(db).recorded, ms)|) else Drifted
      ensures GoesOn(old(db), ms, dryRun) && ClearStale(meanwhile.lock, now).Some? ==> result.LockHeld? && db == meanwhile
      ensures GoesOn(old(db), ms, dryRun) && ClearStale(meanwhile.lock, now).None? && !NoDrift(meanwhile.recorded, ms) ==>
                result.Drifted? && db == meanwhile.(lock := None)
      ensures GoesOn(old(db), ms, dryRun) && ClearStale(meanwhile.lock, now).None? && NoDrift(meanwhile.recorded, ms) ==>
                var (done, n) := CommittedAll(meanwhile, Pending(meanwhile.recorded, ms));
                && db == done.(lock := None)
                && result == if n == |Pending(meanwhile.recorded, ms)| then Ran(n) else Broken(n)
      ensures result.Ran? ==> IsCurrent(db.recorded, ms)
      ensures SomeDisagree(old(db).recorded, ms) ==> result.Drifted? && db == old(db)
      ensures result.Drifted? ==> SomeDisagree(old(db).recorded, ms) || SomeDisagree(meanwhile.recorded, ms)
    {
      DriftIsDisagreement(db.recorded, ms);
      DriftIsDisagreement(meanwhile.recorded, ms);
      hide Committed, Pending, NoDrift, IsCurrent, WellOrdered, RecordedFrom, SomeDisagree;
      var before := Pending(db.recorded, ms);
      if !NoDrift(db.recorded, ms) {
        return Drifted;
      }
      if before == [] || dryRun {
        return Planned(|before|);
      }
      db := meanwhile;
      var locked := Acquire(holder, now);
      if !locked {
        return LockHeld;
      }
      if !NoDrift(db.recorded, ms) {
        Release(holder);
        return Drifted;
      }
      var pending := Pending(db.recorded, ms);
      LockDoesNotMatter(meanwhile, db, pending);
      PendingCommit(db, pending);
      RanIfAll(db, ms);
      var ran := CommitEach(pending);
      Release(holder);
      return if ran == |pending| then Ran(ran) else Broken(ran);
    }

    /** The loop over the pending migrations, under the lock. */
    method CommitEach(pending: seq<Migration>) returns (ran: nat)
      modifies this
      ensures db == CommittedAll(old(db), pending).0 && ran == CommittedAll(old(db), pending).1
      ensures db.lock == old(db).lock
    {
      hide Committed;
      ran := 0;
      while ran < |pending|
        invariant ran <= |pending| && db.lock == old(db).lock
        invariant CommittedAll(old(db), pending).0 == CommittedAll(db, pending[ran..]).0
        invariant CommittedAll(old(db), pending).1 == CommittedAll(db, pending[ran..]).1 + ran
      {
        assert pending[ran..][1..] == pending[ran + 1..];
        CommitKeepsLock(db, pending[ran]);
        var ok := ApplyOne(pending[ran]);
        if !ok {
          return;
        }
        ran := ran + 1;
      }
    }
  }

  /** The first status read finds something to do. */
  predicate GoesOn(db: Database, ms: seq<Migration>, dryRun: bool) {
    NoDrift(db.recorded, ms) && Pending(db.recorded, ms) != [] && !dryRun
  }

  /** A call goes on to take the lock exactly when nothing disagrees, something
      is not recorded, and it is not a dry run; short of that it reports drift
      or what is pending and changes nothing. */
  lemma GoesOnMeans(db: Database, ms: seq<Migration>, dryRun: bool)
    requires WellOrdered(ms)
    ensures GoesOn(db, ms, dryRun) <==> !SomeDisagree(db.recorded, ms) && !AllRecorded(db.recorded, ms) && !dryRun
  {
    DriftIsDisagreement(db.recorded, ms);
    NothingPending(db.recorded, ms);
  }

  function Released(lock: Option<Lock>, holder: string): Option<Lock> {
    if lock.Some? && lock.value.holder == holder then None else lock
  }

  lemma RanIfAll(db: Database, ms: seq<Migration>)
    requires NoDrift(db.recorded, ms)
    ensures var (last, n) := CommittedAll(db, Pending(db.recorded, ms));
            n == |Pending(db.recorded, ms)| ==> IsCurrent(last.recorded, ms)
  {
    hide Committed, NoDrift, IsCurrent, Pending;
    if CommittedAll(db, Pending(db.recorded, ms)).1 == |Pending(db.recorded, ms)| {
      RanIsCurrent(db, ms);
    }
  }

  lemma CommitKeepsLock(db: Database, m: Migration)
    ensures Committed(db, m).Some? ==> Committed(db, m).value.lock == db.lock
  {
  }

  lemma {:induction false} LockDoesNotMatter(a: Database, b: Database, ms: seq<Migration>)
    requires a.schema == b.schema && a.recorded == b.recorded
    ensures CommittedAll(a, ms).0.schema == CommittedAll(b, ms).0.schema
    ensures CommittedAll(a, ms).0.recorded == CommittedAll(b, ms).0.recorded
    ensures CommittedAll(a, ms).1 == CommittedAll(b, ms).1
    decreases |ms|
  {
    if ms != [] && Committed(a, ms[0]).Some? {
      LockDoesNotMatter(Committed(a, ms[0]).value, Committed(b, ms[0]).value, ms[1..]);
    }
  }

  /** A migration commits exactly when it is not recorded and none of its
      statements fails; the database then has what they made and its record. */
  lemma CommittedMeans(db: Database, m: Migration)
    ensures Committed(db, m).Some? <==> m.version !in db.recorded && RunAll(db.schema, m.statements).Some?
    ensures Committed(db, m).Some? ==>
              var after := Committed(db, m).value;
              && after.schema == RunAll(db.schema, m.statements).value && after.lock == db.lock
              && after.recorded.Keys == db.recorded.Keys + {m.version}
              && after.recorded[m.version].name == m.name && after.recorded[m.version].checksum == m.checksum
              && forall v :: v in db.recorded ==> after.recorded[v] == db.recorded[v]
  {
  }

  /** The migrations commit one after another from the first, up to the first
      that does not: `states` are the databases in between. */
  lemma {:induction false} CommitsInOrder(db: Database, ms: seq<Migration>) returns (states: seq<Database>)
    ensures var (last, n) := CommittedAll(db, ms);
            && n <= |ms| && |states| == n + 1 && states[0] == db && states[n] == last
            && (forall i :: 0 <= i < n ==> Committed(states[i], ms[i]) == Some(states[i + 1]))
            && (n < |ms| ==> Committed(last, ms[n]).None?)
    decreases |ms|
  {
    hide Committed;
    states := [db];
    if ms != [] && Committed(db, ms[0]).Some? {
      var rest := CommitsInOrder(Committed(db, ms[0]).value, ms[1..]);
      states := [db] + rest;
    }
  }

  predicate RecordedFrom(v: int, r: Record, ms: seq<Migration>) {
    exists i :: 0 <= i < |ms| && ms[i].version == v && r == Record(ms[i].name, ms[i].checksum)
  }

  /** Commits only add records, each for one of `ms`. */
  lemma {:induction false} PendingCommit(db: Database, ms: seq<Migration>)
    ensures var (last, n) := CommittedAll(db, ms);
            && n <= |ms|
            && (forall v :: v in db.recorded ==> (v in last.recorded && last.recorded[v] == db.recorded[v]))
            && (forall v :: v in last.recorded ==> (v in db.recorded || RecordedFrom(v, last.recorded[v], ms)))
            && (n == |ms| ==> forall i :: 0 <= i < |ms| ==> ms[i].version in last.recorded)
    decreases |ms|
  {
    if ms != [] && Committed(db, ms[0]).Some? {
      var db' := Committed(db, ms[0]).value;
      PendingCommit(db', ms[1..]);
      var last := CommittedAll(db, ms).0;
      assert ms[0].version in db'.recorded;
      forall v | v in last.recorded && v !in db.recorded ensures RecordedFrom(v, last.recorded[v], ms) {
        if v in db'.recorded {
          assert v == ms[0].version && last.recorded[v] == db'.recorded[v];
        } else {
          var i :| 0 <= i < |ms[1..]| && ms[1..][i].version == v
                   && last.recorded[v] == Record(ms[1..][i].name, ms[1..][i].checksum);
          assert ms[i + 1] == ms[1..][i];
        }
      }
    }
  }

  lemma {:induction false} PendingIsUnrecorded(recorded: map<int, Record>, ms: seq<Migration>)
    ensures forall m :: m in Pending(recorded, ms) <==> m in ms && m.version !in recorded
  {
    if ms != [] {
      PendingIsUnrecorded(recorded, ms[1..]);
    }
  }

  predicate AllRecorded(recorded: map<int, Record>, ms: seq<Migration>) {
    forall i :: 0 <= i < |ms| ==> ms[i].version in recorded
  }

  lemma {:induction false} NothingPending(recorded: map<int, Record>, ms: seq<Migration>)
    ensures Pending(recorded, ms) == [] <==> AllRecorded(recorded, ms)
  {
    if ms != [] {
      NothingPending(recorded, ms[1..]);
    }
  }

  lemma RanIsCurrent(db: Database, ms: seq<Migration>)
    requires NoDrift(db.recorded, ms)
    requires CommittedAll(db, Pending(db.recorded, ms)).1 == |Pending(db.recorded, ms)|
    ensures IsCurrent(CommittedAll(db, Pending(db.recorded, ms)).0.recorded, ms)
  {
    var pending := Pending(db.recorded, ms);
    var after := CommittedAll(db, pending).0.recorded;
    PendingCommit(db, pending);
    PendingIsUnrecorded(db.recorded, ms);
    NothingPending(after, ms);
    forall v | v in after ensures Known(v, after[v], ms) {
      if v !in db.recorded {
        var i :| 0 <= i < |pending| && pending[i].version == v && after[v] == Record(pending[i].name, pending[i].checksum);
        assert pending[i] in ms;
      }
    }
    forall i | 0 <= i < |ms| ensures ms[i].version in after {
      if ms[i].version !in db.recorded {
        assert ms[i] in pending;
      }
    }
  }
}
