/** The table and the store when capture IDs are reused: any number of uploads
    may share an ID, with any bytes, declared sizes and devices; their statements
    interleave: a reservation's guard and its upsert, a signed PUT's start and
    its end, a local save's look, temporary file and rename, and the reads of
    reconciliation passes (server/src/catalog.rs, server/src/upload_flow.rs,
    server/src/photos.rs, server/app/api/uploads/route.rs). Nothing is deleted
    or rotated. ReusedObjects says what can then change. */
module ReusedIds {
  import opened Text
  import opened Catalog
  import Timestamps
  import opened UploadFlow
  import Protocol = UploadRuns

  /** One thing a client may upload: the length its request declares and the
      bytes it sends, which a signed URL does not bind to that length. */
  datatype Upload = Upload(id: string, size: uint64, bytes: Bytes, device: Option<string>)

  /** The size its reservation stores. */
  function RowSize(u: Upload): int {
    AsI64(u.size)
  }

  /** `clients` are the uploads that requests may make: let in, with IDs and
      metadata that validate. `lifetime` is how long a signed URL stays good. */
  datatype Setup = Setup(remote: bool, prefix: string, decodes: Bytes -> bool, lifetime: nat, clients: set<Upload>)

  /** One request's reservation: a grant's, or a direct upload's. */
  datatype Reservation = Reservation(upload: Upload, direct: bool, request: nat)

  /** One request that carries a photo. */
  datatype Transfer = Transfer(upload: Upload, request: nat)

  /** A reconciliation pass that has read the ready rows, then the pending rows,
      then the stored objects. */
  datatype Pass = Started(ready: set<string>) | Knows(ids: set<string>) | Lists(orphans: set<string>)

  /** `guarded` are the reservations between their guard and their upsert.
      `urls` says until when each signed URL is good, `putting` which PUTs have
      begun, `looking` which local saves have seen no file, `holding` whose
      temporary file is open, `leftover` which temporary files broken saves have
      left, by process; the rest is what requests have got through. */
  datatype State = State(rows: Rows, objects: Objects, now: int, guarded: set<Reservation>, urls: map<Upload, int>,
                         putting: set<Transfer>, looking: set<Transfer>, holding: map<string, Transfer>,
                         pid: nat, leftover: set<(string, nat)>, thumbnails: set<string>, work: Work)

  datatype Work = Work(saved: set<Upload>, prepared: set<Upload>, registered: set<Upload>, expected: set<(string, int)>,
                       measured: set<string>, checked: set<string>, passes: map<nat, Pass>)

  const NO_WORK := Work({}, {}, {}, {}, {}, {}, map[])

  datatype Step =
    | Tick(seconds: nat)
    | Guard(reservation: Reservation)
    | Upsert(reservation: Reservation, capturedAt: Option<string>)
    | BeginPut(transfer: Transfer)
    | EndPut(transfer: Transfer)
    | SeeFile(upload: Upload)
    | SeeNoFile(transfer: Transfer)
    | CreateTemp(transfer: Transfer)
    | Rename(transfer: Transfer)
    | BreakSave(transfer: Transfer, left: bool)
    | Prepare(upload: Upload)
    | MarkRegistered(upload: Upload)
    | ReadExpected(id: string)
    | ReadStored(id: string, size: int)
    | EnsureThumbnail(id: string)
    | MarkComplete(id: string)
    | PassReadReady(pass: nat)
    | PassReadPending(pass: nat)
    | PassReadStored(pass: nat)
    | Import(pass: nat, id: string)
    | Restart(newPid: nat)

  predicate Fits(u: Upload) {
    0 < u.size <= Protocol.MAX_PHOTO_BYTES
  }

  predicate HasUrl(s: State, u: Upload) {
    u in s.urls && s.now <= s.urls[u]
  }

  /** The guard lets the upload reserve its row. */
  predicate Passes(rows: Rows, u: Upload) {
    !Blocked(rows, u.id, u.size, u.device)
  }

  /** An image is decoded only to make a thumbnail. */
  predicate CanPrepare(setup: Setup, s: State, id: string) {
    id in s.objects && (id in s.thumbnails || setup.decodes(s.objects[id]))
  }

  predicate InPass(s: State, pass: nat) {
    pass in s.work.passes
  }

  /** The local save wants bytes that look like an image; the size of a direct
      upload is their length. */
  predicate CanSave(setup: Setup, u: Upload) {
    !setup.remote && u in setup.clients && LooksLikeJpeg(u.bytes) && u.size == |u.bytes|
  }

  /** Completions and reconciliation passes take the same statements for a
      pending photo. */
  predicate Enabled(setup: Setup, s: State, step: Step) {
    match step
    case Tick(_) => true
    case Guard(r) => r.upload in setup.clients && (r.direct ==> r.upload in s.work.prepared)
    case Upsert(r, _) => r in s.guarded
    case BeginPut(t) => setup.remote && t.upload in setup.clients && HasUrl(s, t.upload)
    case EndPut(t) => t in s.putting
    case SeeFile(u) => CanSave(setup, u) && u.id in s.objects
    case SeeNoFile(t) => CanSave(setup, t.upload) && t.upload.id !in s.objects
    case CreateTemp(t) =>
      t in s.looking && t.upload.id !in s.holding && (t.upload.id, s.pid) !in s.leftover
    case Rename(t) => t.upload.id in s.holding && s.holding[t.upload.id] == t
    case BreakSave(t, _) => t.upload.id in s.holding && s.holding[t.upload.id] == t
    case Prepare(u) => u in s.work.saved && CanPrepare(setup, s, u.id)
    case MarkRegistered(u) => u in s.work.registered
    case ReadExpected(id) => id in s.rows && SizeOf(s.rows[id]).Size?
    case ReadStored(id, size) => (id, size) in s.work.expected && id in s.objects && |s.objects[id]| == size
    case EnsureThumbnail(id) => id in s.work.measured && CanPrepare(setup, s, id)
    case MarkComplete(id) => id in s.work.checked
    case PassReadReady(n) => !InPass(s, n)
    case PassReadPending(n) => InPass(s, n) && s.work.passes[n].Started? && SizesUsable(s.rows)
    case PassReadStored(n) => InPass(s, n) && s.work.passes[n].Knows?
    case Import(n, id) => InPass(s, n) && s.work.passes[n].Lists? && id in s.work.passes[n].orphans
    case Restart(_) => true
  }

  function ReadyIds(rows: Rows): set<string> {
    set id | id in rows && rows[id].status.Ready?
  }

  /** Where a request or a pass has got to. */
  function Worked(s: State, step: Step): Work {
    var w := s.work;
    match step
    case Upsert(r, _) => if r.direct then w.(registered := w.registered + {r.upload}) else w
    case SeeFile(u) => w.(saved := w.saved + {u})
    case Rename(t) => w.(saved := w.saved + {t.upload})
    case Prepare(u) => w.(prepared := w.prepared + {u})
    case ReadExpected(id) =>
      if id in s.rows && SizeOf(s.rows[id]).Size? then w.(expected := w.expected + {(id, SizeOf(s.rows[id]).bytes)}) else w
    case ReadStored(id, _) => w.(measured := w.measured + {id})
    case EnsureThumbnail(id) => w.(checked := w.checked + {id})
    case PassReadReady(n) =>
      w.(passes := w.passes[n := Started(ReadyIds(s.rows))])
    case PassReadPending(n) =>
      if InPass(s, n) && w.passes[n].Started? then w.(passes := w.passes[n := Knows(w.passes[n].ready + PendingIds(s.rows))])
      else w
    case PassReadStored(n) =>
      if InPass(s, n) && w.passes[n].Knows? then w.(passes := w.passes[n := Lists(s.objects.Keys - w.passes[n].ids)]) else w
    case Restart(_) => NO_WORK
    case _ => w
  }

  /** What a step does to the rows. */
  function RowsAfter(setup: Setup, rows: Rows, step: Step): Rows {
    match step
    case Upsert(r, at) =>
      Reserved(rows, r.upload.id, StorageKey(setup.prefix, r.upload.id), r.upload.size, r.upload.device, at)
    case MarkRegistered(u) => Marked(rows, u.id)
    case MarkComplete(id) => Marked(rows, id)
    case Import(_, id) => Adopted(rows, id, StorageKey(setup.prefix, id))
    case _ => rows
  }

  /** A grant reserves even where the size is then refused; a rename replaces
      what is there. A restart drops the server's requests, and leaves their
      open temporary files. */
  function Next(setup: Setup, s: State, step: Step): State {
    var n := s.(rows := RowsAfter(setup, s.rows, step), work := Worked(s, step));
    match step
    case Tick(seconds) => n.(now := s.now + seconds)
    case Guard(r) => if Passes(s.rows, r.upload) then n.(guarded := s.guarded + {r}) else n
    case Upsert(r, _) =>
      n.(guarded := s.guarded - {r},
         urls := if setup.remote && !r.direct && Fits(r.upload) then s.urls[r.upload := s.now + setup.lifetime] else s.urls)
    case BeginPut(t) => n.(putting := s.putting + {t})
    case EndPut(t) => n.(putting := s.putting - {t}, objects := s.objects[t.upload.id := t.upload.bytes])
    case SeeNoFile(t) => n.(looking := s.looking + {t})
    case CreateTemp(t) => n.(looking := s.looking - {t}, holding := s.holding[t.upload.id := t])
    case Rename(t) =>
      n.(holding := s.holding - {t.upload.id}, objects := s.objects[t.upload.id := t.upload.bytes])
    case BreakSave(t, left) =>
      n.(holding := s.holding - {t.upload.id},
         leftover := if left then s.leftover + {(t.upload.id, s.pid)} else s.leftover)
    case Prepare(u) => n.(thumbnails := s.thumbnails + {u.id})
    case EnsureThumbnail(id) => n.(thumbnails := s.thumbnails + {id})
    case Restart(pid) =>
      n.(guarded := {}, looking := {}, holding := map[], pid := pid,
         leftover := s.leftover + set id | id in s.holding :: (id, s.pid))
    case _ => n
  }

  predicate Runs(setup: Setup, s: State, steps: seq<Step>)
    decreases |steps|
  {
    steps == [] || (Enabled(setup, s, steps[0]) && Runs(setup, Next(setup, s, steps[0]), steps[1..]))
  }

  function After(setup: Setup, s: State, steps: seq<Step>): State
    decreases |steps|
  {
    if steps == [] then s else After(setup, Next(setup, s, steps[0]), steps[1..])
  }

  const EMPTY := State(map[], map[], 0, {}, map[], {}, {}, map[], 0, {}, {}, NO_WORK)

  lemma {:induction false} RunsJoin(setup: Setup, s: State, a: seq<Step>, b: seq<Step>)
    requires Runs(setup, s, a) && Runs(setup, After(setup, s, a), b)
    ensures Runs(setup, s, a + b) && After(setup, s, a + b) == After(setup, After(setup, s, a), b)
    decreases |a|
  {
    hide Enabled, Next;
    if a == [] {
      assert a + b == b;
    } else {
      assert (a + b)[1..] == a[1..] + b;
      RunsJoin(setup, Next(setup, s, a[0]), a[1..], b);
    }
  }

  lemma OneStep(setup: Setup, s: State, step: Step)
    requires Enabled(setup, s, step)
    ensures Runs(setup, s, [step]) && After(setup, s, [step]) == Next(setup, s, step)
  {
    hide Enabled, Next;
    assert [step][1..] == [];
  }

  lemma TwoSteps(setup: Setup, s: State, a: Step, b: Step)
    requires Enabled(setup, s, a) && Enabled(setup, Next(setup, s, a), b)
    ensures Runs(setup, s, [a, b]) && After(setup, s, [a, b]) == Next(setup, Next(setup, s, a), b)
  {
    hide Enabled, Next, Runs, After;
    OneStep(setup, s, a);
    OneStep(setup, Next(setup, s, a), b);
    RunsJoin(setup, s, [a], [b]);
    assert [a] + [b] == [a, b];
  }

  // ----- What every run keeps -----

  /** Bytes that can get into the store at all. */
  predicate Storable(setup: Setup, u: Upload) {
    u in setup.clients && if setup.remote then Fits(u) else LooksLikeJpeg(u.bytes) && u.size == |u.bytes|
  }

  /** These bytes are some client's upload under this ID. */
  ghost predicate FromClient(setup: Setup, id: string, bytes: Bytes) {
    exists u: Upload :: u.id == id && u.bytes == bytes && Storable(setup, u)
  }

  /** The row's size is that of some client's upload under its ID. */
  ghost predicate SizeFromClient(setup: Setup, id: string, row: Row) {
    row.byteSize.Some? ==> exists u: Upload :: u in setup.clients && u.id == id && row.byteSize == Some(RowSize(u))
  }

  ghost predicate RowsOk(setup: Setup, s: State) {
    forall id :: id in s.rows ==>
      SizeFromClient(setup, id, s.rows[id]) && (s.rows[id].status.Ready? ==> id in s.objects)
  }

  ghost predicate ObjectsOk(setup: Setup, s: State) {
    forall id :: id in s.objects ==> FromClient(setup, id, s.objects[id])
  }

  /** Who is on the way to the store. */
  ghost predicate TransfersOk(setup: Setup, s: State) {
    && (forall u :: u in s.urls ==> setup.remote && Storable(setup, u))
    && (forall t :: t in s.putting ==> setup.remote && Storable(setup, t.upload))
    && (forall t :: t in s.looking ==> !setup.remote && Storable(setup, t.upload))
    && (forall id :: id in s.holding ==>
          s.holding[id].upload.id == id && !setup.remote && Storable(setup, s.holding[id].upload))
  }

  ghost predicate RequestsOk(setup: Setup, w: Work, objects: Objects) {
    && (forall u :: u in w.saved ==> !setup.remote && Storable(setup, u) && u.id in objects)
    && (forall u :: u in w.prepared ==> !setup.remote && Storable(setup, u) && u.id in objects)
    && (forall u :: u in w.registered ==> !setup.remote && Storable(setup, u) && u.id in objects)
  }

  ghost predicate GuardedOk(setup: Setup, s: State) {
    forall r :: r in s.guarded ==>
      r.upload in setup.clients && (r.direct ==> !setup.remote && Storable(setup, r.upload) && r.upload.id in s.objects)
  }

  ghost predicate PassesOk(w: Work, objects: Objects) {
    && w.measured <= objects.Keys && w.checked <= objects.Keys
    && (forall n :: n in w.passes && w.passes[n].Lists? ==> w.passes[n].orphans <= objects.Keys)
  }

  ghost predicate Inv(setup: Setup, s: State) {
    RowsOk(setup, s) && ObjectsOk(setup, s) && TransfersOk(setup, s) && GuardedOk(setup, s)
    && RequestsOk(setup, s.work, s.objects) && PassesOk(s.work, s.objects)
  }

  lemma SomeClient(setup: Setup, u: Upload)
    requires Storable(setup, u)
    ensures FromClient(setup, u.id, u.bytes)
  {
  }

  lemma NextRows(setup: Setup, s: State, step: Step)
    ensures Next(setup, s, step).rows == RowsAfter(setup, s.rows, step) && Next(setup, s, step).work == Worked(s, step)
  {
    hide RowsAfter, Worked, Fits, Passes;
  }

  lemma ObjectsStay(setup: Setup, s: State, step: Step)
    ensures s.objects.Keys <= Next(setup, s, step).objects.Keys
  {
    hide RowsAfter, Worked, Fits, Passes;
  }

  lemma StepKeepsObjects(setup: Setup, s: State, step: Step)
    requires ObjectsOk(setup, s) && TransfersOk(setup, s) && Enabled(setup, s, step)
    ensures ObjectsOk(setup, Next(setup, s, step))
  {
    hide RowsAfter, Worked, Fits, Passes, FromClient, Storable;
    if step.EndPut? || step.Rename? {
      SomeClient(setup, step.transfer.upload);
    }
  }

  lemma StepKeepsTransfers(setup: Setup, s: State, step: Step)
    requires TransfersOk(setup, s) && GuardedOk(setup, s) && Enabled(setup, s, step)
    ensures TransfersOk(setup, Next(setup, s, step))
  {
    hide RowsAfter, Worked, Passes, LooksLikeJpeg, CanPrepare, SizesUsable, SizeOf, PendingIds;
  }

  lemma StepKeepsGuarded(setup: Setup, s: State, step: Step)
    requires GuardedOk(setup, s) && RequestsOk(setup, s.work, s.objects) && Enabled(setup, s, step)
    ensures GuardedOk(setup, Next(setup, s, step))
  {
    hide RowsAfter, Worked, Passes, Fits, LooksLikeJpeg, CanPrepare, SizesUsable, SizeOf, PendingIds;
    ObjectsStay(setup, s, step);
  }

  lemma StepKeepsWork(setup: Setup, s: State, step: Step)
    requires TransfersOk(setup, s) && GuardedOk(setup, s) && Enabled(setup, s, step)
    requires RequestsOk(setup, s.work, s.objects) && PassesOk(s.work, s.objects)
    ensures RequestsOk(setup, Next(setup, s, step).work, Next(setup, s, step).objects)
    ensures PassesOk(Next(setup, s, step).work, Next(setup, s, step).objects)
  {
    var n := Next(setup, s, step);
    ObjectsStay(setup, s, step);
    NextRows(setup, s, step);
    assert step.Rename? ==> step.transfer.upload.id in n.objects by {
      hide RowsAfter, Worked;
    }
    hide Next, RowsAfter, Fits, LooksLikeJpeg, SizesUsable, SizeOf, PendingIds;
    RequestsWorked(setup, s, step, n.objects);
    PassesWorked(setup, s, step, n.objects);
  }

  lemma RequestsWorked(setup: Setup, s: State, step: Step, objects: Objects)
    requires TransfersOk(setup, s) && GuardedOk(setup, s) && Enabled(setup, s, step)
    requires RequestsOk(setup, s.work, s.objects) && s.objects.Keys <= objects.Keys
    requires step.Rename? ==> step.transfer.upload.id in objects
    ensures RequestsOk(setup, Worked(s, step), objects)
  {
    hide Fits, LooksLikeJpeg, SizesUsable, SizeOf, PendingIds;
  }

  lemma PassesWorked(setup: Setup, s: State, step: Step, objects: Objects)
    requires PassesOk(s.work, s.objects) && s.objects.Keys <= objects.Keys && Enabled(setup, s, step)
    ensures PassesOk(Worked(s, step), objects)
  {
    hide Fits, LooksLikeJpeg, SizesUsable, SizeOf, PendingIds;
  }

  /** What a step can make of a row. */
  lemma RowMade(setup: Setup, rows: Rows, step: Step, id: string)
    requires id in RowsAfter(setup, rows, step)
    ensures var row := RowsAfter(setup, rows, step)[id];
            || (id in rows && row == rows[id])
            || (step.Upsert? && step.reservation.upload.id == id && row.byteSize == Some(RowSize(step.reservation.upload))
                && row.status == (if id in rows then rows[id].status else Pending))
            || (((step.MarkRegistered? && step.upload.id == id) || (step.MarkComplete? && step.id == id)
                 || (step.Import? && step.id == id))
                && row.status == Ready && row.byteSize == (if id in rows then rows[id].byteSize else None))
  {
    hide StorageKey, Timestamps.IdToTimestamp;
  }

  /** Only a photo whose object is there becomes ready. */
  lemma MarksHaveObjects(setup: Setup, s: State, step: Step)
    requires GuardedOk(setup, s) && RequestsOk(setup, s.work, s.objects) && PassesOk(s.work, s.objects)
    requires Enabled(setup, s, step)
    ensures step.MarkRegistered? ==> step.upload.id in s.objects
    ensures step.MarkComplete? || step.Import? ==> step.id in s.objects
    ensures step.Upsert? ==> step.reservation.upload in setup.clients
  {
  }

  lemma StepKeepsRow(setup: Setup, s: State, step: Step, id: string)
    requires RowsOk(setup, s) && GuardedOk(setup, s) && Enabled(setup, s, step)
    requires RequestsOk(setup, s.work, s.objects) && PassesOk(s.work, s.objects)
    requires id in RowsAfter(setup, s.rows, step)
    ensures var row := RowsAfter(setup, s.rows, step)[id];
            SizeFromClient(setup, id, row) && (row.status.Ready? ==> id in s.objects)
  {
    MarksHaveObjects(setup, s, step);
    RowMade(setup, s.rows, step, id);
    if id in s.rows {
      assert SizeFromClient(setup, id, s.rows[id]);
    }
    hide RowsAfter, GuardedOk, RequestsOk, PassesOk, Enabled;
  }

  lemma StepKeepsRows(setup: Setup, s: State, step: Step)
    requires RowsOk(setup, s) && GuardedOk(setup, s) && Enabled(setup, s, step)
    requires RequestsOk(setup, s.work, s.objects) && PassesOk(s.work, s.objects)
    ensures RowsOk(setup, Next(setup, s, step))
  {
    hide Next, RowsAfter, Worked, SizeFromClient, Enabled, GuardedOk, RequestsOk, PassesOk;
    var n := Next(setup, s, step);
    NextRows(setup, s, step);
    ObjectsStay(setup, s, step);
    forall id | id in n.rows
      ensures SizeFromClient(setup, id, n.rows[id]) && (n.rows[id].status.Ready? ==> id in n.objects)
    {
      StepKeepsRow(setup, s, step, id);
    }
  }

  lemma StepKeepsInv(setup: Setup, s: State, step: Step)
    requires Inv(setup, s) && Enabled(setup, s, step)
    ensures Inv(setup, Next(setup, s, step))
  {
    hide RowsOk, ObjectsOk, TransfersOk, GuardedOk, RequestsOk, PassesOk, Next, Enabled;
    StepKeepsObjects(setup, s, step);
    StepKeepsTransfers(setup, s, step);
    StepKeepsGuarded(setup, s, step);
    StepKeepsWork(setup, s, step);
    StepKeepsRows(setup, s, step);
  }

  lemma {:induction false} RunKeepsInv(setup: Setup, s: State, steps: seq<Step>)
    requires Inv(setup, s) && Runs(setup, s, steps)
    ensures Inv(setup, After(setup, s, steps))
    decreases |steps|
  {
    hide Inv, Enabled, Next;
    if steps != [] {
      StepKeepsInv(setup, s, steps[0]);
      RunKeepsInv(setup, Next(setup, s, steps[0]), steps[1..]);
    }
  }

  predicate Completed(s: State, id: string) {
    id in s.rows && s.rows[id].status.Ready? && id in s.objects
  }

  /** In a reachable state every ready row is completed. */
  lemma ReadyIsCompleted(setup: Setup, steps: seq<Step>, id: string)
    requires Runs(setup, EMPTY, steps)
    ensures var s := After(setup, EMPTY, steps);
            Inv(setup, s) && (id in s.rows && s.rows[id].status.Ready? ==> Completed(s, id))
  {
    assert Inv(setup, EMPTY);
    hide Runs, After, TransfersOk, GuardedOk, RequestsOk, PassesOk, ObjectsOk;
    RunKeepsInv(setup, EMPTY, steps);
  }
}
