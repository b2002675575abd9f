/** What can still happen to a completed photo whose capture ID is reused: when
    its row, its object and their agreement can change, over every run of
    ReusedIds. */
module ReusedObjects {
  import opened Text
  import opened Catalog
  import Timestamps
  import opened UploadFlow
  import opened ReusedIds

  // ----- The row -----

  /** What the guard looks at in a ready row. */
  datatype Claim = Claim(size: Option<int>, device: Option<string>)

  function ClaimOf(s: State, id: string): Claim
    requires id in s.rows
  {
    Claim(s.rows[id].byteSize, s.rows[id].device)
  }

  predicate Admits(c: Claim, u: Upload) {
    c.size == Some(RowSize(u)) && (u.device.None? || u.device == c.device)
  }

  /** The claim after the upload's upsert. */
  function Claimed(c: Claim, u: Upload): Claim {
    Claim(Some(RowSize(u)), if u.device.Some? then u.device else c.device)
  }

  lemma PassesIsAdmits(s: State, u: Upload)
    requires Completed(s, u.id)
    ensures Passes(s.rows, u) <==> Admits(ClaimOf(s, u.id), u)
  {
  }

  predicate Upserts(step: Step, id: string) {
    step.Upsert? && step.reservation.upload.id == id
  }

  /** A completed photo stays completed, and only an upsert changes its claim. */
  lemma RowStep(setup: Setup, s: State, step: Step, id: string)
    requires Completed(s, id)
    ensures var n := Next(setup, s, step);
            && Completed(n, id)
            && ClaimOf(n, id) == if Upserts(step, id) then Claimed(ClaimOf(s, id), step.reservation.upload) else ClaimOf(s, id)
  {
    var n := Next(setup, s, step);
    hide Next, Worked;
    NextRows(setup, s, step);
    ObjectsStay(setup, s, step);
    ClaimStep(setup, s.rows, step, id);
    hide RowsAfter;
  }

  lemma ClaimStep(setup: Setup, rows: Rows, step: Step, id: string)
    requires id in rows && rows[id].status.Ready?
    ensures id in RowsAfter(setup, rows, step)
    ensures var (row, c) := (RowsAfter(setup, rows, step)[id], Claim(rows[id].byteSize, rows[id].device));
            && row.status.Ready?
            && Claim(row.byteSize, row.device) == if Upserts(step, id) then Claimed(c, step.reservation.upload) else c
  {
    hide StorageKey, Timestamps.IdToTimestamp;
  }

  /** What a step does to the reservations in flight. */
  lemma GuardStep(setup: Setup, s: State, step: Step)
    ensures var n := Next(setup, s, step);
            forall r :: r in n.guarded ==> r in s.guarded || (step == Guard(r) && Passes(s.rows, r.upload))
  {
    hide RowsAfter, Worked, Fits, Passes;
  }

  /** Every reservation of this ID that is past the guard would pass it now. */
  predicate Settled(s: State, id: string) {
    forall r :: r in s.guarded && r.upload.id == id ==> Passes(s.rows, r.upload)
  }

  lemma SettledStep(setup: Setup, s: State, step: Step, id: string)
    requires Completed(s, id) && Settled(s, id) && Enabled(setup, s, step)
    ensures var n := Next(setup, s, step);
            Completed(n, id) && ClaimOf(n, id) == ClaimOf(s, id) && Settled(n, id)
  {
    var n := Next(setup, s, step);
    RowStep(setup, s, step, id);
    GuardStep(setup, s, step);
    if Upserts(step, id) {
      PassesIsAdmits(s, step.reservation.upload);
    }
    hide Next, Passes;
    forall r | r in n.guarded && r.upload.id == id
      ensures Passes(n.rows, r.upload)
    {
      PassesIsAdmits(s, r.upload);
      PassesIsAdmits(n, r.upload);
    }
  }

  lemma {:induction false} SettledRun(setup: Setup, s: State, steps: seq<Step>, id: string)
    requires Completed(s, id) && Settled(s, id) && Runs(setup, s, steps)
    ensures var n := After(setup, s, steps); Completed(n, id) && ClaimOf(n, id) == ClaimOf(s, id)
    decreases |steps|
  {
    hide Enabled, Next, Settled;
    if steps != [] {
      SettledStep(setup, s, steps[0], id);
      SettledRun(setup, Next(setup, s, steps[0]), steps[1..], id);
    }
  }

  predicate RowChanged(s: State, n: State, id: string)
    requires id in s.rows
  {
    id !in n.rows || ClaimOf(n, id) != ClaimOf(s, id)
  }

  predicate OutdatedGuard(s: State, r: Reservation, id: string) {
    r in s.guarded && r.upload.id == id && !Passes(s.rows, r.upload)
  }

  /** A completed row's size or device can change in some run exactly when some
      reservation of its ID passed the guard before and would not pass it now. */
  lemma RowCanChangeExactlyWhen(setup: Setup, s: State, id: string)
    requires Completed(s, id)
    ensures (exists steps :: Runs(setup, s, steps) && RowChanged(s, After(setup, s, steps), id))
       <==> exists r :: OutdatedGuard(s, r, id)
  {
    hide Runs, After, Next;
    if r :| OutdatedGuard(s, r, id) {
      PassesIsAdmits(s, r.upload);
      RowStep(setup, s, Upsert(r, None), id);
      OneStep(setup, s, Upsert(r, None));
      assert RowChanged(s, After(setup, s, [Upsert(r, None)]), id);
    } else {
      assert Settled(s, id) by {
        forall r | r in s.guarded && r.upload.id == id
          ensures Passes(s.rows, r.upload)
        {
          assert !OutdatedGuard(s, r, id);
        }
      }
      forall steps | Runs(setup, s, steps)
        ensures !RowChanged(s, After(setup, s, steps), id)
      {
        SettledRun(setup, s, steps, id);
      }
    }
  }

  // ----- The object -----

  function ObjectOf(s: State, id: string): Option<Bytes> {
    if id in s.objects then Some(s.objects[id]) else None
  }

  /** A transfer that can still end, whatever the table says: a PUT begun or
      with a good URL, or a local save past its look whose temporary file is
      open or can be created. */
  predicate OnTheWay(setup: Setup, s: State, u: Upload) {
    if setup.remote then (exists t :: t in s.putting && t.upload == u) || HasUrl(s, u)
    else (exists t :: t in s.looking && t.upload == u && (u.id, s.pid) !in s.leftover)
         || (u.id in s.holding && s.holding[u.id].upload == u)
  }

  /** The uploads past the guard. */
  function Flight(s: State, id: string): set<Upload> {
    set r | r in s.guarded && r.upload.id == id :: r.upload
  }

  /** A nameless repeat of the stored photo that declares this size. */
  predicate IsRepeat(r: Upload, id: string, stored: Bytes, size: int) {
    r.id == id && r.bytes == stored && r.device.None? && RowSize(r) == size
  }

  /** Some row to come has the upload's size: now, or after an upsert in flight. */
  predicate SizeToCome(c: Claim, flight: set<Upload>, size: int) {
    c.size == Some(size) || exists g :: g in flight && RowSize(g) == size
  }

  /** The claims that upserts in flight, in some order, can bring a row to, as
      far as an upload by a device is concerned: an upsert names the device, and
      one that names none then sets the size. */
  predicate ClaimToCome(clients: set<Upload>, id: string, stored: Bytes, c: Claim, flight: set<Upload>, u: Upload) {
    && u.device.Some?
    && (|| (exists h, t :: h in flight && t in flight && h.device == u.device && t.device.None? && RowSize(t) == RowSize(u))
        || (&& (exists r :: r in clients && IsRepeat(r, id, stored, RowSize(u)))
            && (|| (SizeToCome(c, flight, RowSize(u)) && exists h :: h in flight && h.device == u.device)
                || (u.device == c.device && (exists g :: g in flight && RowSize(g) == RowSize(u))
                    && exists h :: h in clients && h.id == id && h.device == c.device && SizeKept(c, flight, RowSize(h))))))
  }

  /** A row of that size and the present device is here, or comes by an upsert
      that names no device. */
  predicate SizeKept(c: Claim, flight: set<Upload>, size: int) {
    c.size == Some(size) || exists r :: r in flight && r.device.None? && RowSize(r) == size
  }

  /** The guard lets the upload through now, after one upsert in flight, or
      after several. */
  predicate MayPass(clients: set<Upload>, id: string, stored: Bytes, c: Claim, flight: set<Upload>, u: Upload) {
    || Admits(c, u)
    || (exists g :: g in flight && Admits(Claimed(c, g), u))
    || ClaimToCome(clients, id, stored, c, flight, u)
  }

  /** An upload of this ID with other bytes that can still get into the store. */
  predicate Threat(setup: Setup, s: State, id: string, u: Upload)
    requires Completed(s, id)
  {
    && u.id == id && u in setup.clients && u.bytes != s.objects[id]
    && (OnTheWay(setup, s, u)
        || (setup.remote && Fits(u)
            && (u in Flight(s, id) || MayPass(setup.clients, id, s.objects[id], ClaimOf(s, id), Flight(s, id), u))))
  }

  // ----- No step makes a threat out of nothing -----

  /** Fewer reservations in flight let no more through. */
  lemma FewerInFlight(clients: set<Upload>, id: string, stored: Bytes, c: Claim, fewer: set<Upload>, flight: set<Upload>,
                      u: Upload)
    requires fewer <= flight && MayPass(clients, id, stored, c, fewer, u)
    ensures MayPass(clients, id, stored, c, flight, u)
  {
  }

  /** One more past the guard, of the stored bytes or of a size that gets no
      URL, lets no further upload through. */
  lemma OneMoreInFlight(clients: set<Upload>, id: string, stored: Bytes, c: Claim, flight: set<Upload>, r: Upload, u: Upload)
    requires r in clients && r.id == id && Admits(c, r) && (Fits(r) ==> r.bytes == stored)
    requires Fits(u) && MayPass(clients, id, stored, c, flight + {r}, u)
    ensures MayPass(clients, id, stored, c, flight, u)
  {
    var more := flight + {r};
    if Admits(c, u) {
    } else if g :| g in more && Admits(Claimed(c, g), u) {
      assert g in flight;
    } else {
      assert ClaimToCome(clients, id, stored, c, more, u);
      if RowSize(r) == RowSize(u) && r.device.None? {
        assert IsRepeat(r, id, stored, RowSize(u));
      }
      hide Fits;
      OneMoreClaim(clients, id, stored, c, flight, r, u);
    }
  }

  lemma OneMoreClaim(clients: set<Upload>, id: string, stored: Bytes, c: Claim, flight: set<Upload>, r: Upload, u: Upload)
    requires r in clients && r.id == id && Admits(c, r) && !Admits(c, u)
    requires RowSize(r) == RowSize(u) && r.device.None? ==> IsRepeat(r, id, stored, RowSize(u))
    requires ClaimToCome(clients, id, stored, c, flight + {r}, u)
    ensures MayPass(clients, id, stored, c, flight, u)
  {
    var more := flight + {r};
    if h, t :| h in more && t in more && h.device == u.device && t.device.None? && RowSize(t) == RowSize(u) {
      if h in flight && t in flight {
      } else if h !in flight {
        assert h == r && u.device == c.device && t in flight;
        assert Admits(Claimed(c, t), u);
      } else {
        assert t == r && SizeToCome(c, flight, RowSize(u));
      }
    } else if h :| SizeToCome(c, more, RowSize(u)) && h in more && h.device == u.device {
      if h !in flight {
        assert h == r && u.device == c.device && c.size == Some(RowSize(r));
        assert SizeKept(c, flight, RowSize(r));
        var g :| g in more && RowSize(g) == RowSize(u);
        assert g in flight;
      } else if c.size != Some(RowSize(u)) {
        var g :| g in more && RowSize(g) == RowSize(u);
        assert g in flight;
      }
    } else {
      var g :| g in more && RowSize(g) == RowSize(u);
      assert g in flight;
      var h :| h in clients && h.id == id && h.device == c.device && SizeKept(c, more, RowSize(h));
      assert SizeKept(c, flight, RowSize(h));
    }
  }

  /** An upsert lets no upload through that was not in sight before. */
  lemma UpsertInSight(clients: set<Upload>, id: string, stored: Bytes, c: Claim, flight: set<Upload>, r: Upload, u: Upload)
    requires r in flight && MayPass(clients, id, stored, Claimed(c, r), flight, u)
    ensures MayPass(clients, id, stored, c, flight, u)
  {
    var d := Claimed(c, r);
    if Admits(d, u) {
    } else if g :| g in flight && Admits(Claimed(d, g), u) {
      if g.device.None? && u.device.Some? && r.device.Some? {
        assert r.device == u.device && RowSize(g) == RowSize(u);
      } else {
        assert Admits(Claimed(c, g), u);
      }
    } else {
      UpsertClaim(clients, id, stored, c, flight, r, u);
    }
  }

  lemma UpsertClaim(clients: set<Upload>, id: string, stored: Bytes, c: Claim, flight: set<Upload>, r: Upload, u: Upload)
    requires r in flight && ClaimToCome(clients, id, stored, Claimed(c, r), flight, u)
    ensures ClaimToCome(clients, id, stored, c, flight, u)
  {
    var d := Claimed(c, r);
    if h, t :| h in flight && t in flight && h.device == u.device && t.device.None? && RowSize(t) == RowSize(u) {
    } else if SizeToCome(d, flight, RowSize(u)) && exists h :: h in flight && h.device == u.device {
      assert SizeToCome(c, flight, RowSize(u));
    } else {
      var g :| g in flight && RowSize(g) == RowSize(u);
      assert SizeToCome(c, flight, RowSize(u));
      var h :| h in clients && h.id == id && h.device == d.device && SizeKept(d, flight, RowSize(h));
      assert r.device.None?;
      assert SizeKept(c, flight, RowSize(h));
    }
  }

  /** What a step does to the transfers of a photo whose object is there. */
  lemma TransferStep(setup: Setup, s: State, step: Step, id: string, u: Upload)
    requires Enabled(setup, s, step) && id in s.objects && u.id == id && OnTheWay(setup, Next(setup, s, step), u)
    ensures OnTheWay(setup, s, u)
            || (setup.remote && step.Upsert? && !step.reservation.direct && step.reservation.upload == u && Fits(u))
  {
    hide RowsAfter, Worked, Passes, Fits, CanPrepare, SizesUsable, LooksLikeJpeg;
  }

  /** The object changes only to a transfer that was on its way. */
  lemma ObjectStep(setup: Setup, s: State, step: Step, id: string)
    requires Inv(setup, s) && Enabled(setup, s, step) && id in s.objects
    ensures id in Next(setup, s, step).objects
    ensures Next(setup, s, step).objects[id] != s.objects[id] ==>
              (step.EndPut? || step.Rename?) && step.transfer.upload.id == id && step.transfer.upload in setup.clients
              && Next(setup, s, step).objects[id] == step.transfer.upload.bytes && OnTheWay(setup, s, step.transfer.upload)
  {
    hide RowsAfter, Worked, Passes, Fits, CanPrepare, SizesUsable, LooksLikeJpeg, RowsOk, ObjectsOk, GuardedOk, RequestsOk,
         PassesOk;
  }

  lemma FlightStep(setup: Setup, s: State, step: Step, id: string)
    requires Completed(s, id)
    ensures var (n, c) := (Next(setup, s, step), ClaimOf(s, id));
            Flight(n, id) <= Flight(s, id) + (if step.Guard? && step.reservation.upload.id == id
                                                 && Admits(c, step.reservation.upload)
                                              then {step.reservation.upload} else {})
  {
    GuardStep(setup, s, step);
    if step.Guard? && step.reservation.upload.id == id {
      PassesIsAdmits(s, step.reservation.upload);
    }
    hide Next, Passes, Admits;
  }

  /** While the object stays, a threat after a step means a threat before it. */
  lemma ThreatStep(setup: Setup, s: State, step: Step, id: string, u: Upload) returns (v: Upload)
    requires Inv(setup, s) && Completed(s, id) && Enabled(setup, s, step)
    requires Completed(Next(setup, s, step), id) && Next(setup, s, step).objects[id] == s.objects[id]
    requires Threat(setup, Next(setup, s, step), id, u)
    ensures Threat(setup, s, id, v)
  {
    var n := Next(setup, s, step);
    v := u;
    RowStep(setup, s, step, id);
    FlightStep(setup, s, step, id);
    if OnTheWay(setup, n, u) {
      TransferStep(setup, s, step, id, u);
      if !OnTheWay(setup, s, u) {
        assert step.reservation in s.guarded;
      }
    } else {
      assert step.Guard? ==> step.reservation.upload in setup.clients;
      assert step.Upsert? ==> step.reservation in s.guarded;
      hide Next, Enabled, Inv, OnTheWay, MayPass, Admits, Claimed;
      v := PassStep(setup, s, step, id, u, Flight(n, id), ClaimOf(n, id));
    }
  }

  lemma PassStep(setup: Setup, s: State, step: Step, id: string, u: Upload, flight: set<Upload>, c: Claim) returns (v: Upload)
    requires Completed(s, id) && setup.remote && u.id == id && u in setup.clients && u.bytes != s.objects[id] && Fits(u)
    requires u in flight || MayPass(setup.clients, id, s.objects[id], c, flight, u)
    requires c == if Upserts(step, id) then Claimed(ClaimOf(s, id), step.reservation.upload) else ClaimOf(s, id)
    requires flight <= Flight(s, id) + (if step.Guard? && step.reservation.upload.id == id
                                           && Admits(ClaimOf(s, id), step.reservation.upload)
                                        then {step.reservation.upload} else {})
    requires step.Guard? ==> step.reservation.upload in setup.clients
    requires step.Upsert? ==> step.reservation in s.guarded
    ensures Threat(setup, s, id, v)
  {
    var (clients, stored, before) := (setup.clients, s.objects[id], Flight(s, id));
    hide OnTheWay, Claimed, Fits;
    v := u;
    if step.Guard? && step.reservation.upload.id == id && Admits(ClaimOf(s, id), step.reservation.upload) {
      var r := step.reservation.upload;
      if Fits(r) && r.bytes != stored {
        v := r;
      } else if u in flight {
        assert u in before || u == r;
      } else {
        FewerInFlight(clients, id, stored, c, flight, before + {r}, u);
        OneMoreInFlight(clients, id, stored, c, before, r, u);
      }
    } else if u in flight {
      assert u in before;
    } else {
      FewerInFlight(clients, id, stored, c, flight, before, u);
      if Upserts(step, id) {
        assert step.reservation.upload in before;
        UpsertInSight(clients, id, stored, ClaimOf(s, id), before, step.reservation.upload, u);
      }
    }
  }

  /** Where nothing threatens a completed photo, no run changes its object. */
  lemma {:induction false} UnthreatenedStays(setup: Setup, s: State, steps: seq<Step>, id: string)
    requires Inv(setup, s) && Completed(s, id) && Runs(setup, s, steps)
    requires forall u :: !Threat(setup, s, id, u)
    ensures ObjectOf(After(setup, s, steps), id) == ObjectOf(s, id)
    decreases |steps|
  {
    hide Inv, Enabled, Next, Threat;
    if steps != [] {
      var n := Next(setup, s, steps[0]);
      StepKeepsInv(setup, s, steps[0]);
      RowStep(setup, s, steps[0], id);
      UnthreatenedStep(setup, s, steps[0], id);
      UnthreatenedStays(setup, n, steps[1..], id);
    }
  }

  lemma ChangeIsThreat(setup: Setup, s: State, step: Step, id: string)
    requires Inv(setup, s) && Completed(s, id) && Enabled(setup, s, step)
    ensures id in Next(setup, s, step).objects
    ensures Next(setup, s, step).objects[id] != s.objects[id] ==> exists u :: Threat(setup, s, id, u)
  {
    ObjectStep(setup, s, step, id);
    hide Inv, Enabled, Next, OnTheWay, Fits, MayPass;
    if Next(setup, s, step).objects[id] != s.objects[id] {
      var u := step.transfer.upload;
      assert Threat(setup, s, id, u);
    }
  }

  lemma UnthreatenedStep(setup: Setup, s: State, step: Step, id: string)
    requires Inv(setup, s) && Completed(s, id) && Enabled(setup, s, step)
    requires forall u :: !Threat(setup, s, id, u)
    requires Completed(Next(setup, s, step), id)
    ensures Next(setup, s, step).objects[id] == s.objects[id]
    ensures forall u :: !Threat(setup, Next(setup, s, step), id, u)
  {
    ChangeIsThreat(setup, s, step, id);
    hide Inv, Enabled, Next, Threat;
    forall u
      ensures !Threat(setup, Next(setup, s, step), id, u)
    {
      if Threat(setup, Next(setup, s, step), id, u) {
        var v := ThreatStep(setup, s, step, id, u);
      }
    }
  }

  // ----- Every threat can come true -----

  /** Some run puts these bytes into the store. */
  ghost predicate Gets(setup: Setup, s: State, id: string, bytes: Bytes) {
    exists steps :: Runs(setup, s, steps) && ObjectOf(After(setup, s, steps), id) == Some(bytes)
  }

  lemma GetsAfter(setup: Setup, s: State, step: Step, id: string, bytes: Bytes)
    requires Enabled(setup, s, step) && Gets(setup, Next(setup, s, step), id, bytes)
    ensures Gets(setup, s, id, bytes)
  {
    hide Enabled, Next, Runs, After;
    var n := Next(setup, s, step);
    var steps :| Runs(setup, n, steps) && ObjectOf(After(setup, n, steps), id) == Some(bytes);
    OneStep(setup, s, step);
    RunsJoin(setup, s, [step], steps);
    assert ObjectOf(After(setup, s, [step] + steps), id) == Some(bytes);
  }

  lemma GetsNow(setup: Setup, s: State, id: string, bytes: Bytes)
    requires ObjectOf(s, id) == Some(bytes)
    ensures Gets(setup, s, id, bytes)
  {
    assert Runs(setup, s, []) && ObjectOf(After(setup, s, []), id) == Some(bytes);
  }

  lemma PutGets(setup: Setup, s: State, t: Transfer)
    requires t in s.putting
    ensures Gets(setup, s, t.upload.id, t.upload.bytes)
  {
    hide RowsAfter, Worked, Runs, After;
    GetsNow(setup, Next(setup, s, EndPut(t)), t.upload.id, t.upload.bytes);
    GetsAfter(setup, s, EndPut(t), t.upload.id, t.upload.bytes);
  }

  lemma UrlGets(setup: Setup, s: State, u: Upload)
    requires setup.remote && u in setup.clients && HasUrl(s, u)
    ensures Gets(setup, s, u.id, u.bytes)
  {
    hide RowsAfter, Worked, Runs, After;
    var t := Transfer(u, 0);
    PutGets(setup, Next(setup, s, BeginPut(t)), t);
    GetsAfter(setup, s, BeginPut(t), u.id, u.bytes);
  }

  lemma SaveGets(setup: Setup, s: State, id: string)
    requires id in s.holding && s.holding[id].upload.id == id
    ensures Gets(setup, s, id, s.holding[id].upload.bytes)
  {
    hide RowsAfter, Worked, Runs, After;
    var t := s.holding[id];
    GetsNow(setup, Next(setup, s, Rename(t)), id, t.upload.bytes);
    GetsAfter(setup, s, Rename(t), id, t.upload.bytes);
  }

  /** A save past its look waits for the temporary file, and then has its turn. */
  lemma LookGets(setup: Setup, s: State, t: Transfer)
    requires t in s.looking && (t.upload.id, s.pid) !in s.leftover
    requires t.upload.id in s.holding ==> s.holding[t.upload.id].upload.id == t.upload.id
    ensures Gets(setup, s, t.upload.id, t.upload.bytes)
  {
    hide RowsAfter, Worked, Runs, After;
    var id := t.upload.id;
    if id in s.holding {
      var held := s.holding[id];
      var n := Next(setup, s, Rename(held));
      SaveGets(setup, Next(setup, n, CreateTemp(t)), id);
      GetsAfter(setup, n, CreateTemp(t), id, t.upload.bytes);
      GetsAfter(setup, s, Rename(held), id, t.upload.bytes);
    } else {
      SaveGets(setup, Next(setup, s, CreateTemp(t)), id);
      GetsAfter(setup, s, CreateTemp(t), id, t.upload.bytes);
    }
  }

  /** The state after an upsert in flight. */
  lemma Upserted(setup: Setup, s: State, r: Reservation, id: string) returns (n: State)
    requires Inv(setup, s) && Completed(s, id) && r in s.guarded && r.upload.id == id && setup.remote
    ensures Enabled(setup, s, Upsert(r, None)) && n == Next(setup, s, Upsert(r, None))
    ensures Inv(setup, n) && Completed(n, id) && ClaimOf(n, id) == Claimed(ClaimOf(s, id), r.upload)
    ensures n.guarded == s.guarded - {r} && n.objects == s.objects && n.now == s.now
    ensures Fits(r.upload) ==> HasUrl(n, r.upload)
  {
    n := Next(setup, s, Upsert(r, None));
    StepKeepsInv(setup, s, Upsert(r, None));
    RowStep(setup, s, Upsert(r, None), id);
    hide RowsAfter, Worked, RowsOk, ObjectsOk, TransfersOk, RequestsOk, PassesOk;
  }

  lemma {:induction false} FreshRequest(guarded: set<Reservation>) returns (k: nat)
    ensures forall r :: r in guarded ==> r.request < k
    decreases guarded
  {
    if guarded == {} {
      k := 0;
    } else {
      var r :| r in guarded;
      var rest := FreshRequest(guarded - {r});
      k := if rest <= r.request then r.request + 1 else rest;
    }
  }

  /** The state once an upload that the guard lets through is past it. */
  lemma GuardPassed(setup: Setup, s: State, u: Upload) returns (r: Reservation, n: State)
    requires Inv(setup, s) && Completed(s, u.id) && Admits(ClaimOf(s, u.id), u) && u in setup.clients
    ensures r !in s.guarded && r.upload == u && Enabled(setup, s, Guard(r)) && n == Next(setup, s, Guard(r))
    ensures Inv(setup, n) && Completed(n, u.id) && ClaimOf(n, u.id) == ClaimOf(s, u.id)
    ensures n.guarded == s.guarded + {r} && n.objects == s.objects && n.now == s.now
  {
    var k := FreshRequest(s.guarded);
    r := Reservation(u, false, k);
    n := Next(setup, s, Guard(r));
    PassesIsAdmits(s, u);
    StepKeepsInv(setup, s, Guard(r));
    RowStep(setup, s, Guard(r), u.id);
    hide RowsAfter, Worked, Inv, Passes, Admits;
  }

  lemma FlightGets(setup: Setup, s: State, r: Reservation)
    requires Inv(setup, s) && Completed(s, r.upload.id) && setup.remote && r in s.guarded && Fits(r.upload)
    ensures Gets(setup, s, r.upload.id, r.upload.bytes)
  {
    var u := r.upload;
    assert u in setup.clients;
    hide Inv, Enabled, Next, Gets, Fits;
    var n := Upserted(setup, s, r, u.id);
    UrlGets(setup, n, u);
    GetsAfter(setup, s, Upsert(r, None), u.id, u.bytes);
  }

  lemma AdmittedGets(setup: Setup, s: State, u: Upload)
    requires Inv(setup, s) && Completed(s, u.id) && setup.remote && u in setup.clients && Fits(u)
    requires Admits(ClaimOf(s, u.id), u)
    ensures Gets(setup, s, u.id, u.bytes)
  {
    hide Inv, Enabled, Next, Gets, Fits, Admits;
    var r, n := GuardPassed(setup, s, u);
    FlightGets(setup, n, r);
    GetsAfter(setup, s, Guard(r), u.id, u.bytes);
  }

  /** After one upsert in flight. */
  lemma OneUpsertGets(setup: Setup, s: State, u: Upload, g: Reservation)
    requires Inv(setup, s) && Completed(s, u.id) && setup.remote && u in setup.clients && Fits(u)
    requires g in s.guarded && g.upload.id == u.id && Admits(Claimed(ClaimOf(s, u.id), g.upload), u)
    ensures Gets(setup, s, u.id, u.bytes)
  {
    hide Inv, Enabled, Next, Gets, Fits, Admits, Claimed;
    var n := Upserted(setup, s, g, u.id);
    AdmittedGets(setup, n, u);
    GetsAfter(setup, s, Upsert(g, None), u.id, u.bytes);
  }

  /** After an upsert that names the device and one that sets the size. */
  lemma TwoUpsertsGet(setup: Setup, s: State, u: Upload, h: Reservation, t: Reservation)
    requires Inv(setup, s) && Completed(s, u.id) && setup.remote && u in setup.clients && Fits(u)
    requires h in s.guarded && h.upload.id == u.id && t in s.guarded && t.upload.id == u.id
    requires u.device.Some? && h.upload.device == u.device && t.upload.device.None? && RowSize(t.upload) == RowSize(u)
    ensures Gets(setup, s, u.id, u.bytes)
  {
    hide Inv, Enabled, Next, Gets, Fits;
    var n := Upserted(setup, s, h, u.id);
    OneUpsertGets(setup, n, u, t);
    GetsAfter(setup, s, Upsert(h, None), u.id, u.bytes);
  }

  /** After a nameless repeat of the stored photo has passed the guard at the
      right size, an upsert that names the device, and the repeat's. */
  lemma RepeatGets(setup: Setup, s: State, u: Upload, q: Upload, h: Reservation)
    requires Inv(setup, s) && Completed(s, u.id) && setup.remote && u in setup.clients && Fits(u)
    requires q in setup.clients && IsRepeat(q, u.id, s.objects[u.id], RowSize(u))
    requires ClaimOf(s, u.id).size == Some(RowSize(u)) && u.device.Some?
    requires h in s.guarded && h.upload.id == u.id && h.upload.device == u.device
    ensures Gets(setup, s, u.id, u.bytes)
  {
    hide Inv, Enabled, Next, Gets, Fits;
    var t, n := GuardPassed(setup, s, q);
    TwoUpsertsGet(setup, n, u, h, t);
    GetsAfter(setup, s, Guard(t), u.id, u.bytes);
  }

  /** The same, where an upsert in flight brings the size. */
  lemma SizedRepeatGets(setup: Setup, s: State, u: Upload, q: Upload, h: Reservation, g: Reservation)
    requires Inv(setup, s) && Completed(s, u.id) && setup.remote && u in setup.clients && Fits(u)
    requires q in setup.clients && IsRepeat(q, u.id, s.objects[u.id], RowSize(u)) && u.device.Some?
    requires h in s.guarded && h.upload.id == u.id && h.upload.device == u.device
    requires g in s.guarded && g.upload.id == u.id && RowSize(g.upload) == RowSize(u)
    ensures Gets(setup, s, u.id, u.bytes)
  {
    hide Inv, Enabled, Next, Gets, Fits;
    if Admits(Claimed(ClaimOf(s, u.id), g.upload), u) {
      OneUpsertGets(setup, s, u, g);
    } else {
      var n := Upserted(setup, s, g, u.id);
      RepeatGets(setup, n, u, q, h);
      GetsAfter(setup, s, Upsert(g, None), u.id, u.bytes);
    }
  }

  /** The same, where the device is the row's and an upload of it passes the
      guard before the size is changed. */
  lemma KeptDeviceGets(setup: Setup, s: State, u: Upload, q: Upload, h: Upload, g: Reservation)
    requires Inv(setup, s) && Completed(s, u.id) && setup.remote && u in setup.clients && Fits(u)
    requires q in setup.clients && IsRepeat(q, u.id, s.objects[u.id], RowSize(u)) && u.device.Some?
    requires u.device == ClaimOf(s, u.id).device && g in s.guarded && g.upload.id == u.id && RowSize(g.upload) == RowSize(u)
    requires h in setup.clients && h.id == u.id && h.device == u.device && ClaimOf(s, u.id).size == Some(RowSize(h))
    ensures Gets(setup, s, u.id, u.bytes)
  {
    hide Inv, Enabled, Next, Gets, Fits;
    var r, n := GuardPassed(setup, s, h);
    SizedRepeatGets(setup, n, u, q, r, g);
    GetsAfter(setup, s, Guard(r), u.id, u.bytes);
  }

  lemma SizedKeptDeviceGets(setup: Setup, s: State, u: Upload, q: Upload, h: Upload, g: Reservation, r: Reservation)
    requires Inv(setup, s) && Completed(s, u.id) && setup.remote && u in setup.clients && Fits(u)
    requires q in setup.clients && IsRepeat(q, u.id, s.objects[u.id], RowSize(u)) && u.device.Some?
    requires u.device == ClaimOf(s, u.id).device && g in s.guarded && g.upload.id == u.id && RowSize(g.upload) == RowSize(u)
    requires h in setup.clients && h.id == u.id && h.device == u.device
    requires r in s.guarded && r.upload.id == u.id && r.upload.device.None? && RowSize(r.upload) == RowSize(h)
    ensures Gets(setup, s, u.id, u.bytes)
  {
    hide Inv, Enabled, Next, Gets, Fits;
    if g == r {
      OneUpsertGets(setup, s, u, g);
    } else {
      var n := Upserted(setup, s, r, u.id);
      KeptDeviceGets(setup, n, u, q, h, g);
      GetsAfter(setup, s, Upsert(r, None), u.id, u.bytes);
    }
  }

  lemma InFlight(s: State, id: string, g: Upload) returns (r: Reservation)
    requires g in Flight(s, id)
    ensures r in s.guarded && r.upload == g && g.id == id
  {
    r :| r in s.guarded && r.upload.id == id && r.upload == g;
  }

  lemma PassGets(setup: Setup, s: State, u: Upload)
    requires Inv(setup, s) && Completed(s, u.id) && setup.remote && u in setup.clients && Fits(u)
    requires MayPass(setup.clients, u.id, s.objects[u.id], ClaimOf(s, u.id), Flight(s, u.id), u)
    ensures Gets(setup, s, u.id, u.bytes)
  {
    var (c, flight) := (ClaimOf(s, u.id), Flight(s, u.id));
    hide Inv, Gets, Fits, Flight;
    if Admits(c, u) {
      AdmittedGets(setup, s, u);
    } else if g :| g in flight && Admits(Claimed(c, g), u) {
      var r := InFlight(s, u.id, g);
      OneUpsertGets(setup, s, u, r);
    } else {
      ClaimGets(setup, s, u);
    }
  }

  lemma ClaimGets(setup: Setup, s: State, u: Upload)
    requires Inv(setup, s) && Completed(s, u.id) && setup.remote && u in setup.clients && Fits(u)
    requires ClaimToCome(setup.clients, u.id, s.objects[u.id], ClaimOf(s, u.id), Flight(s, u.id), u)
    ensures Gets(setup, s, u.id, u.bytes)
  {
    var (c, flight) := (ClaimOf(s, u.id), Flight(s, u.id));
    hide Inv, Gets, Fits, Flight;
    if h, t :| h in flight && t in flight && h.device == u.device && t.device.None? && RowSize(t) == RowSize(u) {
      var rh := InFlight(s, u.id, h);
      var rt := InFlight(s, u.id, t);
      TwoUpsertsGet(setup, s, u, rh, rt);
    } else {
      var q :| q in setup.clients && IsRepeat(q, u.id, s.objects[u.id], RowSize(u));
      RepeatClaimGets(setup, s, u, q);
    }
  }

  lemma RepeatClaimGets(setup: Setup, s: State, u: Upload, q: Upload)
    requires Inv(setup, s) && Completed(s, u.id) && setup.remote && u in setup.clients && Fits(u) && u.device.Some?
    requires q in setup.clients && IsRepeat(q, u.id, s.objects[u.id], RowSize(u))
    requires var (c, flight) := (ClaimOf(s, u.id), Flight(s, u.id));
             || (SizeToCome(c, flight, RowSize(u)) && exists h :: h in flight && h.device == u.device)
             || (u.device == c.device && (exists g :: g in flight && RowSize(g) == RowSize(u))
                 && exists h :: h in setup.clients && h.id == u.id && h.device == c.device && SizeKept(c, flight, RowSize(h)))
    ensures Gets(setup, s, u.id, u.bytes)
  {
    var (c, flight) := (ClaimOf(s, u.id), Flight(s, u.id));
    hide Inv, Gets, Fits, Flight;
    if h :| SizeToCome(c, flight, RowSize(u)) && h in flight && h.device == u.device {
      var rh := InFlight(s, u.id, h);
      if c.size == Some(RowSize(u)) {
        RepeatGets(setup, s, u, q, rh);
      } else {
        var g :| g in flight && RowSize(g) == RowSize(u);
        var rg := InFlight(s, u.id, g);
        SizedRepeatGets(setup, s, u, q, rh, rg);
      }
    } else {
      var g :| g in flight && RowSize(g) == RowSize(u);
      var rg := InFlight(s, u.id, g);
      var h :| h in setup.clients && h.id == u.id && h.device == c.device && SizeKept(c, flight, RowSize(h));
      if c.size == Some(RowSize(h)) {
        KeptDeviceGets(setup, s, u, q, h, rg);
      } else {
        var r :| r in flight && r.device.None? && RowSize(r) == RowSize(h);
        var rr := InFlight(s, u.id, r);
        SizedKeptDeviceGets(setup, s, u, q, h, rg, rr);
      }
    }
  }

  lemma OnTheWayGets(setup: Setup, s: State, u: Upload)
    requires Inv(setup, s) && u in setup.clients && OnTheWay(setup, s, u)
    ensures Gets(setup, s, u.id, u.bytes)
  {
    hide RowsOk, ObjectsOk, GuardedOk, RequestsOk, PassesOk, Gets, Storable;
    if setup.remote {
      if t :| t in s.putting && t.upload == u {
        PutGets(setup, s, t);
      } else {
        UrlGets(setup, s, u);
      }
    } else if t :| t in s.looking && t.upload == u && (u.id, s.pid) !in s.leftover {
      LookGets(setup, s, t);
    } else {
      SaveGets(setup, s, u.id);
    }
  }

  /** In every reachable state, whatever is in flight, the object of a completed
      photo can change in some run exactly when some upload of its ID has other
      bytes and is on its way to the store, or is past the guard, or may still
      get past it. */
  lemma ObjectCanChangeExactlyWhen(setup: Setup, s: State, id: string)
    requires Inv(setup, s) && Completed(s, id)
    ensures (exists steps :: Runs(setup, s, steps) && ObjectOf(After(setup, s, steps), id) != ObjectOf(s, id))
       <==> exists u :: Threat(setup, s, id, u)
  {
    hide Runs, After, Inv;
    if u :| Threat(setup, s, id, u) {
      ThreatGets(setup, s, id, u);
      var steps :| Runs(setup, s, steps) && ObjectOf(After(setup, s, steps), id) == Some(u.bytes);
      assert ObjectOf(After(setup, s, steps), id) != ObjectOf(s, id);
    } else {
      forall steps | Runs(setup, s, steps)
        ensures ObjectOf(After(setup, s, steps), id) == ObjectOf(s, id)
      {
        UnthreatenedStays(setup, s, steps, id);
      }
    }
  }

  lemma ThreatGets(setup: Setup, s: State, id: string, u: Upload)
    requires Inv(setup, s) && Completed(s, id) && Threat(setup, s, id, u)
    ensures Gets(setup, s, id, u.bytes)
  {
    hide Inv, Gets, Fits, MayPass, Flight;
    if OnTheWay(setup, s, u) {
      OnTheWayGets(setup, s, u);
    } else if u in Flight(s, id) {
      var r := InFlight(s, id, u);
      FlightGets(setup, s, r);
    } else {
      PassGets(setup, s, u);
    }
  }

  /** With no outdated reservation in flight, getting past the guard means
      passing it now. */
  lemma SettledMayPass(setup: Setup, s: State, id: string, u: Upload)
    requires Completed(s, id) && Settled(s, id) && u.id == id
    ensures u in Flight(s, id) || MayPass(setup.clients, id, s.objects[id], ClaimOf(s, id), Flight(s, id), u)
       <==> Passes(s.rows, u)
  {
    PassesIsAdmits(s, u);
    forall g | g in Flight(s, id)
      ensures Admits(ClaimOf(s, id), g)
    {
      var r := InFlight(s, id, g);
      PassesIsAdmits(s, g);
    }
    hide Settled, Passes, Flight;
  }
}
