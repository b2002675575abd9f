/** The runs in which a reused capture ID changes a completed photo or makes its
    row wrong, and the case in which no run does. */
module ReusedRuns {
  import opened Text
  import Timestamps
  import opened UploadFlow
  import opened ReusedIds
  import opened ReusedObjects
  import opened ReusedSizes

  // ----- Where reuse is harmless -----

  /** Where all uploads of an ID have the same bytes, a completed photo keeps
      its object in every run: retries and duplicates are harmless. */
  lemma SameBytesNeverChange(setup: Setup, s: State, steps: seq<Step>, id: string)
    requires Inv(setup, s) && Completed(s, id) && Runs(setup, s, steps)
    requires forall u: Upload, v: Upload ::
               u in setup.clients && v in setup.clients && u.id == id && v.id == id ==> u.bytes == v.bytes
    ensures ObjectOf(After(setup, s, steps), id) == ObjectOf(s, id)
  {
    assert FromClient(setup, id, s.objects[id]);
    forall u
      ensures !Threat(setup, s, id, u)
    {
    }
    hide Inv, Runs, After, Threat;
    UnthreatenedStays(setup, s, steps, id);
  }

  // ----- Stages -----

  /** A completion, up to its last statement. */
  function Checking(u: Upload): seq<Step> {
    [ReadExpected(u.id)] + [ReadStored(u.id, |u.bytes|), EnsureThumbnail(u.id)]
  }

  lemma CheckingRuns(setup: Setup, s: State, u: Upload) returns (n: State)
    requires ObjectOf(s, u.id) == Some(u.bytes) && setup.decodes(u.bytes) && |u.bytes| > 0
    requires u.id in s.rows && s.rows[u.id].byteSize == Some(|u.bytes|)
    ensures Runs(setup, s, Checking(u)) && n == After(setup, s, Checking(u))
    ensures n == s.(thumbnails := n.thumbnails, work := n.work) && u.id in n.work.checked
  {
    hide Runs, After;
    var m := Next(setup, s, ReadExpected(u.id));
    OneStep(setup, s, ReadExpected(u.id));
    assert (u.id, |u.bytes|) in m.work.expected && m == s.(work := m.work);
    TwoSteps(setup, m, ReadStored(u.id, |u.bytes|), EnsureThumbnail(u.id));
    n := Next(setup, Next(setup, m, ReadStored(u.id, |u.bytes|)), EnsureThumbnail(u.id));
    hide Next, Enabled;
    RunsJoin(setup, s, [ReadExpected(u.id)], [ReadStored(u.id, |u.bytes|), EnsureThumbnail(u.id)]);
  }

  lemma MarkingRuns(setup: Setup, s: State, id: string) returns (n: State)
    requires id in s.work.checked && id in s.rows
    ensures Runs(setup, s, [MarkComplete(id)]) && n == After(setup, s, [MarkComplete(id)])
    ensures id in n.rows && n.rows[id].status.Ready?
    ensures n == s.(rows := s.rows[id := s.rows[id].(status := n.rows[id].status)])
  {
    hide Runs, After;
    OneStep(setup, s, MarkComplete(id));
    n := Next(setup, s, MarkComplete(id));
  }

  /** What a direct upload does once its bytes are saved. */
  function Registering(u: Upload): seq<Step> {
    [Prepare(u), Guard(Reservation(u, true, 0))] + [Upsert(Reservation(u, true, 0), None), MarkRegistered(u)]
  }

  lemma RegisteringRuns(setup: Setup, s: State, u: Upload) returns (n: State)
    requires !setup.remote && u in s.work.saved && u in setup.clients && CanPrepare(setup, s, u.id)
    requires u.id !in s.rows && s.guarded == {} && u.size == |u.bytes|
    ensures Runs(setup, s, Registering(u)) && n == After(setup, s, Registering(u))
    ensures n == s.(rows := n.rows, thumbnails := n.thumbnails, work := n.work)
    ensures u.id in n.rows && n.rows[u.id].status.Ready? && n.rows[u.id].byteSize == Some(|u.bytes|)
  {
    hide Runs, After, StorageKey, Timestamps.IdToTimestamp;
    var r := Reservation(u, true, 0);
    TwoSteps(setup, s, Prepare(u), Guard(r));
    var m := Next(setup, Next(setup, s, Prepare(u)), Guard(r));
    assert m == s.(thumbnails := m.thumbnails, work := m.work, guarded := {r});
    TwoSteps(setup, m, Upsert(r, None), MarkRegistered(u));
    n := Next(setup, Next(setup, m, Upsert(r, None)), MarkRegistered(u));
    assert {r} - {r} == {};
    hide Next, Enabled;
    RunsJoin(setup, s, [Prepare(u), Guard(r)], [Upsert(r, None), MarkRegistered(u)]);
  }

  /** One save past its look, and another that runs to its end. */
  function TwoLooks(first: Upload, second: Upload): seq<Step> {
    [SeeNoFile(Transfer(second, 0)), SeeNoFile(Transfer(first, 0))]
    + [CreateTemp(Transfer(first, 0)), Rename(Transfer(first, 0))]
  }

  lemma TwoLooksRun(setup: Setup, first: Upload, second: Upload) returns (n: State)
    requires !setup.remote && Storable(setup, first) && Storable(setup, second) && first.id == second.id
    requires first.bytes != second.bytes
    ensures Runs(setup, EMPTY, TwoLooks(first, second)) && n == After(setup, EMPTY, TwoLooks(first, second))
    ensures n == EMPTY.(objects := map[first.id := first.bytes], looking := {Transfer(second, 0)}, work := n.work)
    ensures n.work.saved == {first}
  {
    hide Runs, After, LooksLikeJpeg;
    var (t, u) := (Transfer(first, 0), Transfer(second, 0));
    TwoSteps(setup, EMPTY, SeeNoFile(u), SeeNoFile(t));
    var m := Next(setup, Next(setup, EMPTY, SeeNoFile(u)), SeeNoFile(t));
    assert m == EMPTY.(looking := {u, t});
    hide Next, Enabled;
    SaveArrives(setup, m, t);
    RunsJoin(setup, EMPTY, [SeeNoFile(u), SeeNoFile(t)], [CreateTemp(t), Rename(t)]);
    n := After(setup, m, [CreateTemp(t), Rename(t)]);
    assert {u, t} - {t} == {u};
  }

  // ----- The runs -----

  /** The local store, no URL and no outdated reservation: a save that looked
      before another upload was stored, registered and ready renames its own
      bytes over them. With another length the row is then wrong, and the guard
      blocks the upload whose bytes they are. */
  lemma SlowSaveReplaces(setup: Setup, first: Upload, second: Upload)
    requires !setup.remote && Storable(setup, first) && Storable(setup, second) && first.id == second.id
    requires first.bytes != second.bytes && setup.decodes(first.bytes)
    ensures var steps := TwoLooks(first, second) + Registering(first);
            var (s, id) := (After(setup, EMPTY, steps), first.id);
            && Runs(setup, EMPTY, steps) && Completed(s, id) && Settled(s, id) && SizeAgrees(s, id) && s.urls == map[]
            && ObjectOf(s, id) == Some(first.bytes)
            && (var late := [CreateTemp(Transfer(second, 0)), Rename(Transfer(second, 0))];
                var n := After(setup, s, late);
                && Runs(setup, s, late) && Completed(n, id) && ObjectOf(n, id) == Some(second.bytes)
                && (|first.bytes| != |second.bytes| ==> !SizeAgrees(n, id) && !Passes(n.rows, second)))
  {
    hide Runs, After, TwoLooks, Registering, Storable, LooksLikeJpeg;
    var s := TwoLooksRun(setup, first, second);
    StorableIsClient(setup, first);
    StorableIsClient(setup, second);
    var m := RegisteringRuns(setup, s, first);
    RunsJoin(setup, EMPTY, TwoLooks(first, second), Registering(first));
    SaveArrives(setup, m, Transfer(second, 0));
  }

  lemma StorableIsClient(setup: Setup, u: Upload)
    requires Storable(setup, u)
    ensures u in setup.clients && (!setup.remote ==> u.size == |u.bytes|)
  {
  }

  /** The local store, one request after another: the second upload keeps the
      first one's file, and registers its own length for it. */
  lemma RegisterTrustsLength(setup: Setup, first: Upload, second: Upload)
    requires !setup.remote && Storable(setup, first) && Storable(setup, second) && first.id == second.id
    requires |first.bytes| != |second.bytes| && setup.decodes(first.bytes)
    ensures var steps := Storing(setup, first) + ([SeeFile(second)] + Registering(second));
            var (n, id) := (After(setup, EMPTY, steps), first.id);
            && Runs(setup, EMPTY, steps) && Completed(n, id) && Settled(n, id) && n.urls == map[]
            && n.rows[id].byteSize == Some(|second.bytes|) && n.objects[id] == first.bytes && Misreports(n, id)
  {
    hide Runs, After, Storing, Registering, LooksLikeJpeg;
    var s := StoredFirst(setup, first);
    OneStep(setup, s, SeeFile(second));
    var m := Next(setup, s, SeeFile(second));
    assert m == s.(work := m.work) && second in m.work.saved;
    hide Next, Enabled;
    var n := RegisteringRuns(setup, m, second);
    RunsJoin(setup, s, [SeeFile(second)], Registering(second));
    RunsJoin(setup, EMPTY, Storing(setup, first), [SeeFile(second)] + Registering(second));
  }

  /** A local save on an empty site. */
  lemma StoredFirst(setup: Setup, u: Upload) returns (n: State)
    requires !setup.remote && Storable(setup, u)
    ensures Runs(setup, EMPTY, Storing(setup, u)) && n == After(setup, EMPTY, Storing(setup, u))
    ensures n == EMPTY.(objects := map[u.id := u.bytes], work := n.work)
  {
    hide Runs, After, LooksLikeJpeg;
    var t := Transfer(u, 0);
    OneStep(setup, EMPTY, SeeNoFile(t));
    var m := Next(setup, EMPTY, SeeNoFile(t));
    assert m == EMPTY.(looking := {t});
    SaveArrives(setup, m, t);
    RunsJoin(setup, EMPTY, [SeeNoFile(t)], [CreateTemp(t), Rename(t)]);
    n := After(setup, m, [CreateTemp(t), Rename(t)]);
    assert {t} - {t} == {};
  }

  /** PUT of an upload that has a URL. */
  function Putting(u: Upload): seq<Step> {
    [BeginPut(Transfer(u, 0)), EndPut(Transfer(u, 0))]
  }

  lemma FitsIsStored(u: Upload)
    requires Fits(u)
    ensures RowSize(u) == u.size > 0
  {
  }

  /** Two grants of one fresh ID: the row is the second's, both URLs are good. */
  lemma BothGranted(setup: Setup, first: Upload, second: Upload) returns (s: State, t: State)
    requires setup.remote && first in setup.clients && second in setup.clients && first.id == second.id
    requires Fits(first) && Fits(second)
    ensures Runs(setup, EMPTY, Granting(first)) && s == After(setup, EMPTY, Granting(first))
    ensures Runs(setup, s, Granting(second)) && t == After(setup, s, Granting(second))
    ensures t == EMPTY.(rows := t.rows, urls := t.urls) && HasUrl(t, first) && HasUrl(t, second)
    ensures first.id in t.rows && t.rows[first.id].byteSize == Some(second.size)
  {
    hide Runs, After, Granting, Fits;
    FitsIsStored(second);
    s := GrantingRuns(setup, EMPTY, first);
    t := GrantingRuns(setup, s, second);
  }

  /** The remote store: the other upload's PUT falls between the check of a
      completion and its last statement, and the row becomes ready with a size
      its object does not have. */
  lemma LatePutBeforeMark(setup: Setup, first: Upload, second: Upload)
    requires setup.remote && first in setup.clients && second in setup.clients && first.id == second.id
    requires Fits(first) && Fits(second) && |first.bytes| != |second.bytes| == second.size && setup.decodes(second.bytes)
    ensures var steps := Granting(first) + (Granting(second) + (Putting(second) + (Checking(second)
                         + (Putting(first) + [MarkComplete(first.id)]))));
            var (n, id) := (After(setup, EMPTY, steps), first.id);
            && Runs(setup, EMPTY, steps) && Completed(n, id) && Settled(n, id) && Misreports(n, id)
            && n.rows[id].byteSize == Some(|second.bytes|) && n.objects[id] == first.bytes
  {
    hide Runs, After, Granting, Checking;
    var s, t := BothGranted(setup, first, second);
    PutArrives(setup, t, second);
    var v := After(setup, t, Putting(second));
    var w := CheckingRuns(setup, v, second);
    PutArrives(setup, w, first);
    var x := After(setup, w, Putting(first));
    var n := MarkingRuns(setup, x, first.id);
    hide Fits, HasUrl, Putting;
    var (a, b) := (Putting(first) + [MarkComplete(first.id)], Checking(second));
    RunsJoin(setup, w, Putting(first), [MarkComplete(first.id)]);
    RunsJoin(setup, v, b, a);
    RunsJoin(setup, t, Putting(second), b + a);
    RunsJoin(setup, s, Granting(second), Putting(second) + (b + a));
    RunsJoin(setup, EMPTY, Granting(first), Granting(second) + (Putting(second) + (b + a)));
  }

  /** The second upload's grant, PUT and whole completion. */
  function Completing(u: Upload): seq<Step> {
    Putting(u) + (Checking(u) + [MarkComplete(u.id)])
  }

  lemma CompletingRuns(setup: Setup, s: State, u: Upload) returns (n: State)
    requires setup.remote && u in setup.clients && Fits(u) && HasUrl(s, u) && setup.decodes(u.bytes)
    requires u.id in s.rows && s.rows[u.id].byteSize == Some(|u.bytes|) && |u.bytes| > 0
    ensures Runs(setup, s, Completing(u)) && n == After(setup, s, Completing(u))
    ensures Completed(n, u.id) && n.rows[u.id] == s.rows[u.id].(status := n.rows[u.id].status) && n.objects[u.id] == u.bytes
    ensures n.urls == s.urls && n.now == s.now && n.guarded == s.guarded
  {
    hide Runs, After, Checking;
    PutArrives(setup, s, u);
    var v := After(setup, s, Putting(u));
    var w := CheckingRuns(setup, v, u);
    n := MarkingRuns(setup, w, u.id);
    hide Fits, HasUrl, Putting;
    RunsJoin(setup, v, Checking(u), [MarkComplete(u.id)]);
    RunsJoin(setup, s, Putting(u), Checking(u) + [MarkComplete(u.id)]);
  }

  /** The remote store: one upload is granted first and sent last, another of
      its ID completes in between. The row keeps the one's size, its object is
      the other, and the guard by then blocks that other. */
  lemma GuardIsOutrun(setup: Setup, first: Upload, second: Upload)
    requires setup.remote && first in setup.clients && second in setup.clients && first.id == second.id
    requires Fits(first) && Fits(second) && first.size != second.size == |second.bytes| && setup.decodes(second.bytes)
    ensures var steps := Granting(first) + (Granting(second) + (Completing(second) + Putting(first)));
            var (n, id) := (After(setup, EMPTY, steps), first.id);
            && Runs(setup, EMPTY, steps) && Completed(n, id) && !Passes(n.rows, first)
            && n.rows[id].byteSize == Some(|second.bytes|) && n.objects[id] == first.bytes
  {
    hide Runs, After, Granting, Completing;
    var s, t := BothGranted(setup, first, second);
    var v := CompletingRuns(setup, t, second);
    PutArrives(setup, v, first);
    RunsJoin(setup, t, Completing(second), Putting(first));
    RunsJoin(setup, s, Granting(second), Completing(second) + Putting(first));
    RunsJoin(setup, EMPTY, Granting(first), Granting(second) + (Completing(second) + Putting(first)));
  }

  /** The remote store: one upload passes the guard first and upserts last. The
      completed row ends with the size of the one that was never stored. */
  lemma LateUpsertRewritesRow(setup: Setup, first: Upload, second: Upload)
    requires setup.remote && first in setup.clients && second in setup.clients && first.id == second.id
    requires Fits(second) && second.size == |second.bytes| && setup.decodes(second.bytes)
    ensures var r := Reservation(first, false, 1);
            var steps := [Guard(r)] + (Granting(second) + (Completing(second) + [Upsert(r, None)]));
            var (n, id) := (After(setup, EMPTY, steps), first.id);
            && Runs(setup, EMPTY, steps) && Completed(n, id)
            && n.rows[id].byteSize == Some(RowSize(first)) && n.objects[id] == second.bytes
  {
    var r := Reservation(first, false, 1);
    OneStep(setup, EMPTY, Guard(r));
    var s := Next(setup, EMPTY, Guard(r));
    assert s == EMPTY.(guarded := {r});
    hide Runs, After, Granting, Completing, Next, Enabled;
    var t := GrantingRuns(setup, s, second);
    var v := CompletingRuns(setup, t, second);
    RowStep(setup, v, Upsert(r, None), first.id);
    UpsertKeepsObjects(setup, v, r);
    UpsertRuns(setup, v, r);
    var last := Completing(second) + [Upsert(r, None)];
    RunsJoin(setup, t, Completing(second), [Upsert(r, None)]);
    RunsJoin(setup, s, Granting(second), last);
    RunsJoin(setup, EMPTY, [Guard(r)], Granting(second) + last);
  }

  lemma UpsertRuns(setup: Setup, s: State, r: Reservation)
    requires r in s.guarded
    ensures Runs(setup, s, [Upsert(r, None)]) && After(setup, s, [Upsert(r, None)]) == Next(setup, s, Upsert(r, None))
  {
    OneStep(setup, s, Upsert(r, None));
  }

  /** The remote store: a completed photo takes any bytes, of any length, from an
      upload that declares its row's size, except from another device. */
  lemma SameSizeReuseReplaces(setup: Setup, s: State, u: Upload)
    requires Inv(setup, s) && Completed(s, u.id) && setup.remote && u in setup.clients && Fits(u)
    requires s.rows[u.id].byteSize == Some(u.size) && (u.device.None? || u.device == s.rows[u.id].device)
    ensures exists steps :: Runs(setup, s, steps) && ObjectOf(After(setup, s, steps), u.id) == Some(u.bytes)
  {
    AdmittedGets(setup, s, u);
  }
}
