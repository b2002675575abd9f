/** The readiness gate of server/src/schema_gate.rs. */
module SchemaGate {
  import opened Text
  import opened MigrationRunner

  const RECHECK_BEHIND := 5

  datatype Code = Ready | MigrationPending | MigrationDrift | Unreadable

  datatype Report = Report(currentVersion: int, expectedVersion: int, pending: nat, code: Code)

  function ExpectedVersion(ms: seq<Migration>): int {
    if ms == [] then 0 else ms[|ms| - 1].version
  }

  /** The highest recorded version, or 0 for a database never migrated. */
  ghost predicate IsCurrentVersion(recorded: map<int, Record>, v: int) {
    && (recorded == map[] ==> v == 0)
    && (recorded != map[] ==> v in recorded && forall u :: u in recorded ==> u <= v)
  }

  /** What reading the database says; `None` when it cannot be read at all. */
  function CodeOf(db: Option<Database>, ms: seq<Migration>): Code {
    match db
    case None => Unreadable
    case Some(d) =>
      if !NoDrift(d.recorded, ms) then MigrationDrift
      else if Pending(d.recorded, ms) != [] then MigrationPending
      else Ready
  }

  /** The answer in the table's own terms: drift where a recorded version is
      unknown or was edited, else pending where one of the build's is not
      recorded, else ready: every recorded one is the build's and none is missing. */
  lemma CodeMeans(d: Database, ms: seq<Migration>)
    requires WellOrdered(ms)
    ensures var code := CodeOf(Some(d), ms);
            && code != Unreadable
            && (code == MigrationDrift <==>
                  exists v :: v in d.recorded
                    && ((forall i :: 0 <= i < |ms| ==> ms[i].version != v)
                        || (exists i :: 0 <= i < |ms| && ms[i].version == v && ms[i].checksum != d.recorded[v].checksum)))
            && (code == MigrationPending ==> exists i :: 0 <= i < |ms| && ms[i].version !in d.recorded)
            && (code == Ready ==> forall i :: 0 <= i < |ms| ==>
                  ms[i].version in d.recorded && d.recorded[ms[i].version].checksum == ms[i].checksum)
  {
    DriftIsDisagreement(d.recorded, ms);
    NothingPending(d.recorded, ms);
    assert forall v :: v in d.recorded ==>
        (Disagrees(v, d.recorded[v].checksum, ms)
         <==> (|| (forall i :: 0 <= i < |ms| ==> ms[i].version != v)
               || (exists i :: 0 <= i < |ms| && ms[i].version == v && ms[i].checksum != d.recorded[v].checksum)));
    if CodeOf(Some(d), ms) == Ready {
      forall i | 0 <= i < |ms|
        ensures ms[i].version in d.recorded && d.recorded[ms[i].version].checksum == ms[i].checksum
      {
        assert !Disagrees(ms[i].version, d.recorded[ms[i].version].checksum, ms);
      }
    }
  }

  datatype Cached = Cached(checked: int, report: Report)

  class SchemaGate {
    var cached: Option<Cached>

    constructor ()
      ensures cached == None
    {
      cached := None;
    }

    method CurrentVersion(recorded: map<int, Record>) returns (v: int)
      ensures IsCurrentVersion(recorded, v)
    {
      if recorded == map[] {
        return 0;
      }
      var versions: set<int> := recorded.Keys;
      v := AnyOf(versions);
      while versions != {}
        invariant versions <= recorded.Keys && v in recorded
        invariant forall u :: u in recorded ==> (u in versions || u <= v)
        decreases versions
      {
        var u := AnyOf(versions);
        if u > v {
          v := u;
        }
        versions := versions - {u};
      }
    }

    method Read(db: Option<Database>, ms: seq<Migration>) returns (report: Report)
      ensures report.code == CodeOf(db, ms)
      ensures db.Some? ==> IsCurrentVersion(db.value.recorded, report.currentVersion)
      ensures db.Some? ==> report.pending == |Pending(db.value.recorded, ms)|
      ensures db.None? ==> report.currentVersion == -1 && report.pending == 0
      ensures report.expectedVersion == ExpectedVersion(ms)
    {
      var expected := if ms == [] then 0 else ms[|ms| - 1].version;
      if db.None? {
        return Report(-1, expected, 0, Unreadable);
      }
      var recorded := db.value.recorded;
      var pending := Pending(recorded, ms);
      var current := CurrentVersion(recorded);
      var code := if !NoDrift(recorded, ms) then MigrationDrift else if pending != [] then MigrationPending else Ready;
      return Report(current, expected, |pending|, code);
    }

    /** The first lock section: an answer that is ready, or younger than
        RECHECK_BEHIND seconds. */
    method ReadCache(now: int) returns (hit: Option<Report>)
      ensures hit == if UsesCache(now) then Some(cached.value.report) else None
    {
      if cached.Some? && (cached.value.report.code == Ready || now - cached.value.checked < RECHECK_BEHIND) {
        return Some(cached.value.report);
      }
      return None;
    }

    /** The second lock section: it does not look at what it overwrites. */
    method WriteCache(report: Report, now: int)
      modifies this
      ensures cached == Some(Cached(now, report))
    {
      cached := Some(Cached(now, report));
    }

    /** One call that no other disturbs; GateRuns interleaves them. */
    method GetReport(db: Option<Database>, ms: seq<Migration>, now: int, later: int) returns (report: Report)
      modifies this
      ensures old(UsesCache(now)) ==> cached == old(cached) && report == cached.value.report
      ensures !old(UsesCache(now)) ==> report.code == CodeOf(db, ms) && cached == Some(Cached(later, report))
      ensures report.code == Ready ==> CodeOf(db, ms) == Ready || old(IsReady())
    {
      var hit := ReadCache(now);
      if hit.Some? {
        return hit.value;
      }
      report := Read(db, ms);
      WriteCache(report, later);
    }

    /** Whether a request passes: only `/api/` is gated. */
    method Protect(path: string, db: Option<Database>, ms: seq<Migration>, now: int, later: int) returns (admitted: bool)
      modifies this
      ensures !("/api/" <= path) ==> admitted && cached == old(cached)
      ensures "/api/" <= path && admitted ==> CodeOf(db, ms) == Ready || old(IsReady())
      ensures "/api/" <= path && admitted ==> IsReady()
      ensures "/api/" <= path && !admitted ==> !IsReady()
    {
      if !("/api/" <= path) {
        return true;
      }
      var report := GetReport(db, ms, now, later);
      return report.code == Ready;
    }

    predicate IsReady()
      reads this
    {
      cached.Some? && cached.value.report.code == Ready
    }

    predicate UsesCache(now: int)
      reads this
    {
      cached.Some? && (IsReady() || now - cached.value.checked < RECHECK_BEHIND)
    }
  }

  /** A ready database is at exactly the build's version, no more and no less. */
  lemma ReadyIsExpectedVersion(recorded: map<int, Record>, ms: seq<Migration>, v: int)
    requires WellOrdered(ms) && IsCurrentVersion(recorded, v)
    requires IsCurrent(recorded, ms)
    ensures v == ExpectedVersion(ms)
    ensures forall u :: u in recorded <==> exists i :: 0 <= i < |ms| && ms[i].version == u
  {
    NothingPending(recorded, ms);
    forall u | u in recorded ensures exists i :: 0 <= i < |ms| && ms[i].version == u {
      assert Known(u, recorded[u], ms);
    }
    if ms != [] {
      assert ms[|ms| - 1].version in recorded;
    }
    if recorded != map[] {
      var i :| 0 <= i < |ms| && ms[i].version == v;
    }
  }
}
