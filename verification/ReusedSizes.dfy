/** When the size in a completed photo's row is not its object's, with reused
    capture IDs: over every run of ReusedIds, and in the runs that show it. */
module ReusedSizes {
  import opened Text
  import Catalog
  import Timestamps
  import opened UploadFlow
  import opened ReusedIds
  import opened ReusedObjects

  predicate SizeAgrees(s: State, id: string) {
    id in s.rows && id in s.objects && s.rows[id].byteSize == Some(|s.objects[id]|)
  }

  // ----- From a row that agrees -----

  /** A reservation past the guard that declares another length. */
  predicate OtherReservation(s: State, r: Reservation, id: string) {
    r in s.guarded && r.upload.id == id && id in s.objects && RowSize(r.upload) != |s.objects[id]|
  }

  /** The guard lets uploads of this device through, now or after an upsert in
      flight. */
  predicate LetsDevice(c: Claim, flight: set<Upload>, device: Option<string>) {
    device.None? || device == c.device || exists g :: g in flight && g.device == device
  }

  /** An upload of another length than the object's, on its way, or one that
      declares the object's length and gets a URL for it. */
  predicate OtherUpload(setup: Setup, s: State, u: Upload, id: string)
    requires Completed(s, id)
  {
    && u.id == id && u in setup.clients && |u.bytes| != |s.objects[id]|
    && (OnTheWay(setup, s, u)
        || (setup.remote && Fits(u) && RowSize(u) == |s.objects[id]| && LetsDevice(ClaimOf(s, id), Flight(s, id), u.device)))
  }

  /** Row and reservations of one length. */
  predicate OneSize(s: State, id: string, length: nat) {
    && Completed(s, id) && s.rows[id].byteSize == Some(length)
    && (forall r :: r in s.guarded && r.upload.id == id ==> RowSize(r.upload) == length)
  }

  /** Row, object, reservations and uploads of one length. */
  predicate OneLength(setup: Setup, s: State, id: string, length: nat) {
    && OneSize(s, id, length) && |s.objects[id]| == length
    && (forall u :: u in setup.clients ==> !OtherUpload(setup, s, u, id))
  }

  lemma SizeStep(setup: Setup, s: State, step: Step, id: string, length: nat)
    requires OneSize(s, id, length) && Enabled(setup, s, step)
    ensures OneSize(Next(setup, s, step), id, length)
  {
    var n := Next(setup, s, step);
    RowStep(setup, s, step, id);
    UpsertInFlight(setup, s, step);
    hide Enabled, Next, Completed;
    forall r | r in n.guarded && r.upload.id == id
      ensures RowSize(r.upload) == length
    {
      GuardLength(setup, s, step, r);
    }
  }

  lemma UpsertInFlight(setup: Setup, s: State, step: Step)
    requires Enabled(setup, s, step)
    ensures step.Upsert? ==> step.reservation in s.guarded
  {
  }

  lemma GuardLength(setup: Setup, s: State, step: Step, r: Reservation)
    requires Completed(s, r.upload.id) && r in Next(setup, s, step).guarded
    ensures r in s.guarded || s.rows[r.upload.id].byteSize == Some(RowSize(r.upload))
  {
    GuardStep(setup, s, step);
    PassesIsAdmits(s, r.upload);
    hide Next, Passes;
  }

  lemma {:induction false} SizeRun(setup: Setup, s: State, steps: seq<Step>, id: string, length: nat)
    requires OneSize(s, id, length) && Runs(setup, s, steps)
    ensures OneSize(After(setup, s, steps), id, length)
    decreases |steps|
  {
    hide Enabled, Next, OneSize;
    if steps != [] {
      SizeStep(setup, s, steps[0], id, length);
      SizeRun(setup, Next(setup, s, steps[0]), steps[1..], id, length);
    }
  }

  lemma ObjectLength(setup: Setup, s: State, step: Step, id: string, length: nat)
    requires Inv(setup, s) && OneLength(setup, s, id, length) && Enabled(setup, s, step)
    ensures id in Next(setup, s, step).objects && |Next(setup, s, step).objects[id]| == length
  {
    ObjectStep(setup, s, step, id);
    hide Inv, Enabled, Next, OnTheWay, Fits, OneSize, LetsDevice;
    if Next(setup, s, step).objects[id] != s.objects[id] {
      assert !OtherUpload(setup, s, step.transfer.upload, id);
    }
  }

  /** No step lets a device through that was not let through before. */
  lemma DeviceStep(setup: Setup, s: State, step: Step, id: string, device: Option<string>)
    requires Completed(s, id) && Enabled(setup, s, step) && Completed(Next(setup, s, step), id)
    requires var n := Next(setup, s, step); LetsDevice(ClaimOf(n, id), Flight(n, id), device)
    ensures LetsDevice(ClaimOf(s, id), Flight(s, id), device)
  {
    RowStep(setup, s, step, id);
    FlightStep(setup, s, step, id);
    UpsertInFlight(setup, s, step);
    if step.Upsert? && step.reservation.upload.id == id {
      assert step.reservation.upload in Flight(s, id);
    }
    hide Next, Enabled, Completed, Flight;
  }

  lemma OtherUploadStep(setup: Setup, s: State, step: Step, id: string, length: nat, u: Upload)
    requires Inv(setup, s) && OneLength(setup, s, id, length) && Enabled(setup, s, step)
    requires OneLength(setup, s, id, length) && OneSize(Next(setup, s, step), id, length)
    requires |Next(setup, s, step).objects[id]| == length
    ensures !OtherUpload(setup, Next(setup, s, step), u, id)
  {
    var n := Next(setup, s, step);
    if OtherUpload(setup, n, u, id) {
      assert !OtherUpload(setup, s, u, id);
      UpsertInFlight(setup, s, step);
      hide Inv, Next, Enabled, OnTheWay, Fits, OneSize, LetsDevice, Completed, Flight;
      if OnTheWay(setup, n, u) {
        TransferStep(setup, s, step, id, u);
        assert step.reservation in s.guarded;
        InFlightIsLet(setup, s, step.reservation, id, length);
      } else {
        DeviceStep(setup, s, step, id, u.device);
      }
    }
  }

  lemma InFlightIsLet(setup: Setup, s: State, r: Reservation, id: string, length: nat)
    requires OneSize(s, id, length) && r in s.guarded && r.upload.id == id
    ensures RowSize(r.upload) == length && LetsDevice(ClaimOf(s, id), Flight(s, id), r.upload.device)
  {
    assert r.upload in Flight(s, id);
  }

  lemma LengthStep(setup: Setup, s: State, step: Step, id: string, length: nat)
    requires Inv(setup, s) && OneLength(setup, s, id, length) && Enabled(setup, s, step)
    ensures OneLength(setup, Next(setup, s, step), id, length)
  {
    SizeStep(setup, s, step, id, length);
    ObjectLength(setup, s, step, id, length);
    hide Inv, Enabled, Next, OneSize, OtherUpload;
    forall u | u in setup.clients
      ensures !OtherUpload(setup, Next(setup, s, step), u, id)
    {
      OtherUploadStep(setup, s, step, id, length, u);
    }
  }

  lemma {:induction false} LengthRun(setup: Setup, s: State, steps: seq<Step>, id: string, length: nat)
    requires Inv(setup, s) && OneLength(setup, s, id, length) && Runs(setup, s, steps)
    ensures OneLength(setup, After(setup, s, steps), id, length)
    decreases |steps|
  {
    hide Inv, Enabled, Next, OneLength;
    if steps != [] {
      StepKeepsInv(setup, s, steps[0]);
      LengthStep(setup, s, steps[0], id, length);
      LengthRun(setup, Next(setup, s, steps[0]), steps[1..], id, length);
    }
  }

  /** Row and object of a completed photo whose sizes agree can come apart in
      some run exactly when a reservation that declares another length is past
      the guard, or an upload of another length is on its way or can get a URL
      by declaring the object's: a signed URL does not bind the length. */
  lemma SizeCanComeApartExactlyWhen(setup: Setup, s: State, id: string)
    requires Inv(setup, s) && Completed(s, id) && SizeAgrees(s, id)
    ensures (exists steps :: Runs(setup, s, steps) && !SizeAgrees(After(setup, s, steps), id))
       <==> (exists r :: OtherReservation(s, r, id)) || (exists u :: OtherUpload(setup, s, u, id))
  {
    hide Inv, Runs, After, Next, OnTheWay, OtherUpload;
    if r :| OtherReservation(s, r, id) {
      RowStep(setup, s, Upsert(r, None), id);
      UpsertKeepsObjects(setup, s, r);
      OneStep(setup, s, Upsert(r, None));
      assert !SizeAgrees(After(setup, s, [Upsert(r, None)]), id);
    } else {
      assert OneSize(s, id, |s.objects[id]|) by {
        assert forall r :: r in s.guarded && r.upload.id == id ==> !OtherReservation(s, r, id);
      }
      if u :| OtherUpload(setup, s, u, id) {
        UploadComesApart(setup, s, u, id);
      } else {
        forall steps | Runs(setup, s, steps)
          ensures SizeAgrees(After(setup, s, steps), id)
        {
          LengthRun(setup, s, steps, id, |s.objects[id]|);
        }
      }
    }
  }

  lemma UpsertKeepsObjects(setup: Setup, s: State, r: Reservation)
    ensures Next(setup, s, Upsert(r, None)).objects == s.objects
  {
    hide RowsAfter, Worked;
  }

  lemma UploadComesApart(setup: Setup, s: State, u: Upload, id: string)
    requires Inv(setup, s) && Completed(s, id) && OneSize(s, id, |s.objects[id]|) && OtherUpload(setup, s, u, id)
    ensures exists steps :: Runs(setup, s, steps) && !SizeAgrees(After(setup, s, steps), id)
  {
    UploadGets(setup, s, u, id);
    hide Inv, Runs, After, OtherUpload, OneSize;
    var steps :| Runs(setup, s, steps) && ObjectOf(After(setup, s, steps), id) == Some(u.bytes);
    SizeRun(setup, s, steps, id, |s.objects[id]|);
    SizesDiffer(setup, s, u, id, After(setup, s, steps));
  }

  lemma SizesDiffer(setup: Setup, s: State, u: Upload, id: string, n: State)
    requires Completed(s, id) && OtherUpload(setup, s, u, id) && OneSize(n, id, |s.objects[id]|)
    requires ObjectOf(n, id) == Some(u.bytes)
    ensures !SizeAgrees(n, id)
  {
  }

  lemma UploadGets(setup: Setup, s: State, u: Upload, id: string)
    requires Inv(setup, s) && Completed(s, id) && OneSize(s, id, |s.objects[id]|) && OtherUpload(setup, s, u, id)
    ensures Gets(setup, s, id, u.bytes)
  {
    var c := ClaimOf(s, id);
    hide Inv, Gets, Fits, OnTheWay;
    if OnTheWay(setup, s, u) {
      OnTheWayGets(setup, s, u);
    } else if u.device.None? || u.device == c.device {
      AdmittedGets(setup, s, u);
    } else {
      var g :| g in Flight(s, id) && g.device == u.device;
      var r := InFlight(s, id, g);
      OneUpsertGets(setup, s, u, r);
    }
  }

  lemma PutArrives(setup: Setup, s: State, u: Upload)
    requires setup.remote && u in setup.clients && HasUrl(s, u)
    ensures var t := Transfer(u, 0);
            && Runs(setup, s, [BeginPut(t), EndPut(t)])
            && After(setup, s, [BeginPut(t), EndPut(t)])
               == s.(putting := s.putting - {t}, objects := s.objects[u.id := u.bytes])
  {
    hide Runs, After;
    TwoSteps(setup, s, BeginPut(Transfer(u, 0)), EndPut(Transfer(u, 0)));
    assert s.putting + {Transfer(u, 0)} - {Transfer(u, 0)} == s.putting - {Transfer(u, 0)};
  }

  lemma SaveArrives(setup: Setup, s: State, t: Transfer)
    requires t in s.looking && t.upload.id !in s.holding && (t.upload.id, s.pid) !in s.leftover
    ensures Runs(setup, s, [CreateTemp(t), Rename(t)])
    ensures After(setup, s, [CreateTemp(t), Rename(t)])
            == s.(looking := s.looking - {t}, objects := s.objects[t.upload.id := t.upload.bytes],
                  work := s.work.(saved := s.work.saved + {t.upload}))
  {
    hide Runs, After;
    TwoSteps(setup, s, CreateTemp(t), Rename(t));
    assert s.holding[t.upload.id := t] - {t.upload.id} == s.holding;
  }

  // ----- From an empty site -----

  /** A ready row that gives its object another size. */
  predicate Misreports(s: State, id: string) {
    Completed(s, id) && s.rows[id].byteSize.Some? && s.rows[id].byteSize != Some(|s.objects[id]|)
  }

  /** An upload of the ID that can be stored, and one, perhaps the same, that
      declares another length than the first one's. */
  predicate Mismatch(setup: Setup, id: string, a: Upload, b: Upload) {
    a.id == id && b.id == id && Storable(setup, a) && b in setup.clients && |a.bytes| != RowSize(b)
  }

  /** A row in a reachable state misreports its object's size only where clients
      have uploads of its ID of which one declares another length than one has. */
  lemma MisreportNeedsTwo(setup: Setup, steps: seq<Step>, id: string)
    requires Runs(setup, EMPTY, steps) && Misreports(After(setup, EMPTY, steps), id)
    ensures exists a, b :: Mismatch(setup, id, a, b)
  {
    var s := After(setup, EMPTY, steps);
    ReadyIsCompleted(setup, steps, id);
    hide Runs, After, TransfersOk, GuardedOk, RequestsOk, PassesOk, Storable;
    assert SizeFromClient(setup, id, s.rows[id]) && FromClient(setup, id, s.objects[id]);
    var a: Upload :| a.id == id && a.bytes == s.objects[id] && Storable(setup, a);
    var b: Upload :| b in setup.clients && b.id == id && s.rows[id].byteSize == Some(RowSize(b));
    assert Mismatch(setup, id, a, b);
  }

  /** A pass reads the table before either upload and the store after. */
  function EarlyPass(): seq<Step> {
    [PassReadReady(0), PassReadPending(0)]
  }

  lemma EarlyPassRuns(setup: Setup)
    ensures Runs(setup, EMPTY, EarlyPass())
    ensures After(setup, EMPTY, EarlyPass()) == EMPTY.(work := NO_WORK.(passes := map[0 := Knows({})]))
  {
    hide Runs, After;
    var n := Next(setup, EMPTY, PassReadReady(0));
    assert ReadyIds(EMPTY.rows) == {};
    assert n.work.passes == map[0 := Started({})];
    assert PendingIds(n.rows) == {} && {} + PendingIds(n.rows) == {};
    TwoSteps(setup, EMPTY, PassReadReady(0), PassReadPending(0));
    assert map[0 := Started({})][0 := Knows({})] == map[0 := Knows({})];
  }

  /** The two statements of a grant. */
  function Granting(u: Upload): seq<Step> {
    [Guard(Reservation(u, false, 0)), Upsert(Reservation(u, false, 0), None)]
  }

  /** A grant of a photo that is not ready. */
  lemma GrantingRuns(setup: Setup, s: State, u: Upload) returns (n: State)
    requires u in setup.clients && (u.id in s.rows ==> s.rows[u.id].status.Pending?)
    requires Reservation(u, false, 0) !in s.guarded
    ensures Runs(setup, s, Granting(u)) && n == After(setup, s, Granting(u))
    ensures n == s.(rows := n.rows, urls := n.urls) && u.id in n.rows
    ensures n.rows[u.id].status.Pending? && n.rows[u.id].byteSize == Some(RowSize(u))
    ensures setup.remote && Fits(u) ==> n.urls == s.urls[u := s.now + setup.lifetime] && HasUrl(n, u)
  {
    hide Runs, After, StorageKey, Timestamps.IdToTimestamp;
    var r := Reservation(u, false, 0);
    TwoSteps(setup, s, Guard(r), Upsert(r, None));
    n := Next(setup, Next(setup, s, Guard(r)), Upsert(r, None));
    assert s.guarded + {r} - {r} == s.guarded;
  }

  /** Getting bytes into the store: a grant and a PUT, or a local save. */
  function Storing(setup: Setup, u: Upload): seq<Step> {
    if setup.remote then Granting(u) + [BeginPut(Transfer(u, 0)), EndPut(Transfer(u, 0))]
    else [SeeNoFile(Transfer(u, 0))] + [CreateTemp(Transfer(u, 0)), Rename(Transfer(u, 0))]
  }

  lemma StoringRuns(setup: Setup, s: State, u: Upload) returns (n: State)
    requires Storable(setup, u) && u.id !in s.rows && u.id !in s.objects && u.id !in s.holding
    requires s.guarded == {} && s.putting == {} && s.looking == {} && (u.id, s.pid) !in s.leftover
    ensures Runs(setup, s, Storing(setup, u)) && n == After(setup, s, Storing(setup, u))
    ensures n.objects == s.objects[u.id := u.bytes] && n.guarded == {} && n.work.passes == s.work.passes
    ensures u.id in n.rows ==> n.rows[u.id].status.Pending?
  {
    hide Runs, After;
    var t := Transfer(u, 0);
    if setup.remote {
      var m := GrantingRuns(setup, s, u);
      PutArrives(setup, m, u);
      RunsJoin(setup, s, Granting(u), [BeginPut(t), EndPut(t)]);
      n := After(setup, m, [BeginPut(t), EndPut(t)]);
    } else {
      OneStep(setup, s, SeeNoFile(t));
      var m := Next(setup, s, SeeNoFile(t));
      SaveArrives(setup, m, t);
      RunsJoin(setup, s, [SeeNoFile(t)], [CreateTemp(t), Rename(t)]);
      n := After(setup, m, [CreateTemp(t), Rename(t)]);
    }
  }

  lemma ImportRuns(setup: Setup, s: State, id: string)
    requires s.work.passes == map[0 := Knows({})] && id in s.objects && id in s.rows
    ensures Runs(setup, s, [PassReadStored(0), Import(0, id)])
    ensures var n := After(setup, s, [PassReadStored(0), Import(0, id)]);
            n.objects == s.objects && id in n.rows && n.rows[id].status.Ready? && n.rows[id].byteSize == s.rows[id].byteSize
  {
    hide Runs, After, StorageKey;
    TwoSteps(setup, s, PassReadStored(0), Import(0, id));
  }

  /** One is stored, the other granted, and a stale import makes the row ready. */
  lemma MismatchMisreports(setup: Setup, id: string, a: Upload, b: Upload) returns (steps: seq<Step>)
    requires Mismatch(setup, id, a, b)
    ensures Runs(setup, EMPTY, steps) && Misreports(After(setup, EMPTY, steps), id)
  {
    hide Runs, After, Next, Enabled, Storing, Granting, EarlyPass;
    EarlyPassRuns(setup);
    var s := After(setup, EMPTY, EarlyPass());
    var t := StoringRuns(setup, s, a);
    var v := GrantingRuns(setup, t, b);
    var last := [PassReadStored(0), Import(0, id)];
    ImportRuns(setup, v, id);
    RunsJoin(setup, t, Granting(b), last);
    RunsJoin(setup, s, Storing(setup, a), Granting(b) + last);
    RunsJoin(setup, EMPTY, EarlyPass(), Storing(setup, a) + (Granting(b) + last));
    steps := EarlyPass() + (Storing(setup, a) + (Granting(b) + last));
  }

  /** A ready row can misreport its object's size in some reachable state exactly
      when clients have an upload of its ID that can be stored, and one, perhaps
      the same, that declares another length than the first one has. */
  lemma SizesCanDifferExactlyWhen(setup: Setup, id: string)
    ensures (exists steps :: Runs(setup, EMPTY, steps) && Misreports(After(setup, EMPTY, steps), id))
       <==> exists a, b :: Mismatch(setup, id, a, b)
  {
    hide Runs, After, Misreports, Mismatch;
    if a, b :| Mismatch(setup, id, a, b) {
      var steps := MismatchMisreports(setup, id, a, b);
    }
    forall steps | Runs(setup, EMPTY, steps) && Misreports(After(setup, EMPTY, steps), id)
      ensures exists a, b :: Mismatch(setup, id, a, b)
    {
      MisreportNeedsTwo(setup, steps, id);
    }
  }
}
