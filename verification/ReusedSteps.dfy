/** Left undisturbed, the statements that ReusedIds interleaves are the whole
    operations: a grant, a completion, a local save, a direct upload, and the
    reads of a reconciliation pass (server/src/upload_flow.rs,
    server/src/photos.rs, server/app/api/photos/route.rs). */
module ReusedSteps {
  import opened Text
  import opened Catalog
  import Timestamps
  import opened UploadFlow
  import opened ReconcileRuns
  import opened ReusedIds

  function SiteOf(s: State): Site {
    Site(s.rows, s.objects)
  }

  lemma FirstStep(setup: Setup, s: State, steps: seq<Step>)
    requires steps != []
    ensures Runs(setup, s, steps) <==> Enabled(setup, s, steps[0]) && Runs(setup, Next(setup, s, steps[0]), steps[1..])
    ensures After(setup, s, steps) == After(setup, Next(setup, s, steps[0]), steps[1..])
  {
  }

  lemma ThreeSteps(setup: Setup, s: State, a: Step, b: Step, c: Step)
    ensures var s1 := Next(setup, s, a);
            var s2 := Next(setup, s1, b);
            && (Runs(setup, s, [a, b, c]) <==> Enabled(setup, s, a) && Enabled(setup, s1, b) && Enabled(setup, s2, c))
            && After(setup, s, [a, b, c]) == Next(setup, s2, c)
  {
    hide Enabled, Next;
    var s1 := Next(setup, s, a);
    FirstStep(setup, s, [a, b, c]);
    FirstStep(setup, s1, [b, c]);
    FirstStep(setup, Next(setup, s1, b), [c]);
    assert [a, b, c][1..] == [b, c] && [b, c][1..] == [c] && [c][1..] == [];
  }

  lemma FourSteps(setup: Setup, s: State, a: Step, b: Step, c: Step, d: Step)
    ensures var s1 := Next(setup, s, a);
            var s2 := Next(setup, s1, b);
            var s3 := Next(setup, s2, c);
            && (Runs(setup, s, [a, b, c, d])
                <==> Enabled(setup, s, a) && Enabled(setup, s1, b) && Enabled(setup, s2, c) && Enabled(setup, s3, d))
            && After(setup, s, [a, b, c, d]) == Next(setup, s3, d)
  {
    hide Enabled, Next;
    var s1 := Next(setup, s, a);
    var s2 := Next(setup, s1, b);
    var s3 := Next(setup, s2, c);
    FirstStep(setup, s, [a, b, c, d]);
    FirstStep(setup, s1, [b, c, d]);
    FirstStep(setup, s2, [c, d]);
    FirstStep(setup, s3, [d]);
    assert [a, b, c, d][1..] == [b, c, d] && [b, c, d][1..] == [c, d] && [c, d][1..] == [d] && [d][1..] == [];
  }

  // ----- A grant -----

  /** The upsert follows exactly where the guard lets the request past, and the
      two statements then leave the site as the reservation does. The remote
      store signs a URL for 1 to 33554432 bytes, and for nothing else. */
  lemma GrantIsItsSteps(setup: Setup, s: State, r: Reservation, at: Option<string>)
    requires !r.direct && r.upload in setup.clients && r !in s.guarded
    ensures var (u, guarded) := (r.upload, Next(setup, s, Guard(r)));
            var n := Next(setup, guarded, Upsert(r, at));
            && Enabled(setup, s, Guard(r)) && SiteOf(guarded) == SiteOf(s) && guarded.urls == s.urls
            && (Enabled(setup, guarded, Upsert(r, at)) <==> !Blocked(s.rows, u.id, u.size, u.device))
            && Operated(SiteOf(s), Grant(u.id, u.size, u.device, at), setup.prefix)
            == (if Enabled(setup, guarded, Upsert(r, at)) then SiteOf(n) else SiteOf(s))
            && (Enabled(setup, guarded, Upsert(r, at)) ==> n.guarded == s.guarded)
            && n.urls == if setup.remote && 1 <= u.size <= 33554432 then s.urls[u := s.now + setup.lifetime] else s.urls
  {
    hide Blocked, Reserved, StorageKey;
    assert s.guarded + {r} - {r} == s.guarded;
  }

  // ----- A completion -----

  /** Nothing is known about the photo from earlier requests. */
  ghost predicate Unread(w: Work, id: string) {
    id !in w.measured && id !in w.checked && forall size: int :: (id, size) !in w.expected
  }

  lemma ReadNext(setup: Setup, s: State, id: string)
    requires Enabled(setup, s, ReadExpected(id))
    ensures Next(setup, s, ReadExpected(id))
         == s.(work := s.work.(expected := s.work.expected + {(id, SizeOf(s.rows[id]).bytes)}))
  {
  }

  lemma StoredNext(setup: Setup, s: State, id: string, size: int)
    ensures Next(setup, s, ReadStored(id, size)) == s.(work := s.work.(measured := s.work.measured + {id}))
  {
  }

  lemma ThumbnailNext(setup: Setup, s: State, id: string)
    ensures Next(setup, s, EnsureThumbnail(id))
         == s.(thumbnails := s.thumbnails + {id}, work := s.work.(checked := s.work.checked + {id}))
  {
  }

  lemma CompletionEnabled(setup: Setup, s: State, id: string, size: int)
    ensures Enabled(setup, s, ReadExpected(id)) <==> id in s.rows && SizeOf(s.rows[id]).Size?
    ensures Enabled(setup, s, ReadStored(id, size))
       <==> (id, size) in s.work.expected && id in s.objects && |s.objects[id]| == size
    ensures Enabled(setup, s, EnsureThumbnail(id))
       <==> id in s.work.measured && id in s.objects && (id in s.thumbnails || setup.decodes(s.objects[id]))
    ensures Enabled(setup, s, MarkComplete(id)) <==> id in s.work.checked
  {
  }

  lemma MarkNext(setup: Setup, s: State, id: string)
    ensures Next(setup, s, MarkComplete(id)) == s.(rows := Marked(s.rows, id))
  {
  }

  /** A completion's statements go through to the last exactly where completing
      finalizes, and then leave the site as it does. */
  lemma CompletionIsItsSteps(setup: Setup, s: State, id: string, size: int)
    requires Unread(s.work, id)
    ensures var steps := [ReadExpected(id), ReadStored(id, size), EnsureThumbnail(id), MarkComplete(id)];
            var readable := id in s.objects && (id in s.thumbnails || setup.decodes(s.objects[id]));
            && (Runs(setup, s, steps)
                <==> FinalizeResult(s.rows, s.objects, id, readable).Finalized? && size == |s.objects[id]|)
            && (Runs(setup, s, steps) ==>
                  SiteOf(After(setup, s, steps)) == Operated(SiteOf(s), Complete(id, readable), setup.prefix))
  {
    hide Next, Enabled, Runs, After, Marked;
    var s1 := Next(setup, s, ReadExpected(id));
    var s2 := Next(setup, s1, ReadStored(id, size));
    var s3 := Next(setup, s2, EnsureThumbnail(id));
    FourSteps(setup, s, ReadExpected(id), ReadStored(id, size), EnsureThumbnail(id), MarkComplete(id));
    CompletionEnabled(setup, s, id, size);
    CompletionEnabled(setup, s1, id, size);
    CompletionEnabled(setup, s2, id, size);
    CompletionEnabled(setup, s3, id, size);
    if Enabled(setup, s, ReadExpected(id)) {
      ReadNext(setup, s, id);
      StoredNext(setup, s1, id, size);
      ThumbnailNext(setup, s2, id);
      MarkNext(setup, s3, id);
    }
  }

  // ----- A local save -----

  /** A save that sees the file makes no other step; one that sees none goes
      through exactly where no temporary file of this process is in its way, and
      then leaves the objects as the save does. */
  lemma SaveIsItsSteps(setup: Setup, s: State, t: Transfer)
    requires CanSave(setup, t.upload)
    ensures var (u, steps) := (t.upload, [SeeNoFile(t), CreateTemp(t), Rename(t)]);
            && (Enabled(setup, s, SeeFile(u)) <==> u.id in s.objects)
            && SiteOf(Next(setup, s, SeeFile(u))) == SiteOf(s) && u in Next(setup, s, SeeFile(u)).work.saved
            && (Runs(setup, s, steps)
                <==> u.id !in s.objects && u.id !in s.holding && (u.id, s.pid) !in s.leftover)
            && (Runs(setup, s, steps) ==>
                  && SiteOf(After(setup, s, steps)) == Site(s.rows, s.objects[u.id := u.bytes])
                  && u in After(setup, s, steps).work.saved)
  {
    hide Runs, After, LooksLikeJpeg;
    var s1 := Next(setup, s, SeeNoFile(t));
    var s2 := Next(setup, s1, CreateTemp(t));
    var s3 := Next(setup, s2, Rename(t));
    ThreeSteps(setup, s, SeeNoFile(t), CreateTemp(t), Rename(t));
    assert s1 == s.(looking := s.looking + {t});
    assert s2 == s1.(looking := s1.looking - {t}, holding := s1.holding[t.upload.id := t]);
  }

  /** A save that breaks stores nothing and lets its file go, which stays as a
      leftover of this process if it was left. */
  lemma BrokenSaveIsItsSteps(setup: Setup, s: State, t: Transfer, left: bool)
    requires CanSave(setup, t.upload) && t.upload.id !in s.objects && t.upload.id !in s.holding
    requires (t.upload.id, s.pid) !in s.leftover && t !in s.looking
    ensures var (id, steps) := (t.upload.id, [SeeNoFile(t), CreateTemp(t), BreakSave(t, left)]);
            && Runs(setup, s, steps)
            && After(setup, s, steps) == s.(leftover := s.leftover + if left then {(id, s.pid)} else {})
  {
    hide Runs, After, LooksLikeJpeg;
    var s1 := Next(setup, s, SeeNoFile(t));
    var s2 := Next(setup, s1, CreateTemp(t));
    ThreeSteps(setup, s, SeeNoFile(t), CreateTemp(t), BreakSave(t, left));
    assert s1 == s.(looking := s.looking + {t});
    assert s.looking + {t} - {t} == s.looking;
    assert s2 == s.(holding := s.holding[t.upload.id := t]);
    assert s.holding[t.upload.id := t] - {t.upload.id} == s.holding;
  }

  /** A restart forgets every request and leaves their open temporary files. */
  lemma RestartLeavesFiles(setup: Setup, s: State, pid: nat, id: string, of: nat)
    ensures var n := Next(setup, s, Restart(pid));
            && SiteOf(n) == SiteOf(s) && n.pid == pid && n.holding == map[] && n.work == NO_WORK
            && ((id, of) in n.leftover <==> (id, of) in s.leftover || (of == s.pid && id in s.holding))
  {
  }

  // ----- A PUT -----

  /** A URL signed now lets a PUT begin for exactly as long as it is good, and
      the PUT puts its bytes there when it ends. */
  lemma PutIsItsSteps(setup: Setup, s: State, t: Transfer, waited: nat)
    requires setup.remote && t.upload in setup.clients && t.upload in s.urls && t !in s.putting
    requires s.urls[t.upload] == s.now + setup.lifetime
    ensures var (u, steps) := (t.upload, [Tick(waited), BeginPut(t), EndPut(t)]);
            && (Runs(setup, s, steps) <==> waited <= setup.lifetime)
            && After(setup, s, steps) == s.(now := s.now + waited, objects := s.objects[u.id := u.bytes])
  {
    hide Runs, After;
    var s1 := Next(setup, s, Tick(waited));
    var s2 := Next(setup, s1, BeginPut(t));
    ThreeSteps(setup, s, Tick(waited), BeginPut(t), EndPut(t));
    assert s1 == s.(now := s.now + waited);
    assert s2 == s1.(putting := s.putting + {t});
    assert s.putting + {t} - {t} == s.putting;
  }

  // ----- A direct upload -----

  /** After its save, a direct upload's statements go through exactly where the
      object can be prepared and the guard lets the upload past, and then leave
      the site as the direct upload does. */
  lemma DirectIsItsSteps(setup: Setup, s: State, r: Reservation)
    requires r.direct && CanSave(setup, r.upload) && r.upload in s.work.saved && r.upload.id in s.objects
    requires r !in s.guarded && r.upload !in s.work.prepared && r.upload !in s.work.registered
    ensures var (u, steps) := (r.upload, [Prepare(r.upload), Guard(r), Upsert(r, None), MarkRegistered(r.upload)]);
            var readable := u.id in s.thumbnails || setup.decodes(s.objects[u.id]);
            && (Runs(setup, s, steps) <==> readable && !Blocked(s.rows, u.id, u.size, u.device))
            && Operated(SiteOf(s), Direct(u.id, u.bytes, u.device, true, readable), setup.prefix)
            == if Runs(setup, s, steps) then SiteOf(After(setup, s, steps)) else SiteOf(s)
  {
    hide Runs, After, LooksLikeJpeg, Blocked, StorageKey, Reserved, Marked;
    var u := r.upload;
    FourSteps(setup, s, Prepare(u), Guard(r), Upsert(r, None), MarkRegistered(u));
    var s1 := Next(setup, s, Prepare(u));
    assert s1 == s.(thumbnails := s.thumbnails + {u.id}, work := s.work.(prepared := s.work.prepared + {u}));
    var s2 := Next(setup, s1, Guard(r));
    assert s2 == if Passes(s.rows, u) then s1.(guarded := s1.guarded + {r}) else s1;
    var s3 := Next(setup, s2, Upsert(r, None));
    assert s3.rows == Reserved(s2.rows, u.id, StorageKey(setup.prefix, u.id), u.size, u.device, None);
    assert s3.work == s2.work.(registered := s2.work.registered + {u}) && s3.objects == s2.objects;
  }

  // ----- A reconciliation pass -----

  function WithPass(s: State, n: nat, pass: Pass): State {
    s.(work := s.work.(passes := s.work.passes[n := pass]))
  }

  lemma PassNext(setup: Setup, s: State, n: nat)
    ensures Next(setup, s, PassReadReady(n)) == WithPass(s, n, Started(ReadyIds(s.rows)))
    ensures InPass(s, n) && s.work.passes[n].Started? ==>
              Next(setup, s, PassReadPending(n)) == WithPass(s, n, Knows(s.work.passes[n].ready + PendingIds(s.rows)))
    ensures InPass(s, n) && s.work.passes[n].Knows? ==>
              Next(setup, s, PassReadStored(n)) == WithPass(s, n, Lists(s.objects.Keys - s.work.passes[n].ids))
  {
    hide ReadyIds, PendingIds;
  }

  lemma PassEnabled(setup: Setup, s: State, n: nat)
    ensures Enabled(setup, s, PassReadReady(n)) <==> !InPass(s, n)
    ensures Enabled(setup, s, PassReadPending(n)) <==> InPass(s, n) && s.work.passes[n].Started? && SizesUsable(s.rows)
    ensures Enabled(setup, s, PassReadStored(n)) <==> InPass(s, n) && s.work.passes[n].Knows?
    ensures forall id :: Enabled(setup, s, Step.Import(n, id))
                         <==> InPass(s, n) && s.work.passes[n].Lists? && id in s.work.passes[n].orphans
  {
    hide SizesUsable;
  }

  /** A pass that has not begun gets through its reads exactly where every
      pending size can be read, and then imports exactly the orphans. */
  lemma PassReadsOrphans(setup: Setup, s: State, n: nat)
    requires !InPass(s, n)
    ensures var steps := [PassReadReady(n), PassReadPending(n), PassReadStored(n)];
            var read := After(setup, s, steps);
            && (Runs(setup, s, steps) <==> SizesUsable(s.rows))
            && (Runs(setup, s, steps) ==>
                  && SiteOf(read) == SiteOf(s)
                  && forall id :: Enabled(setup, read, Step.Import(n, id)) <==> id in Orphans(s.rows, s.objects))
  {
    hide Runs, After, Next, Enabled, SizesUsable;
    var s1 := Next(setup, s, PassReadReady(n));
    var s2 := Next(setup, s1, PassReadPending(n));
    PassEnabled(setup, s, n);
    PassEnabled(setup, s1, n);
    PassEnabled(setup, s2, n);
    PassEnabled(setup, Next(setup, s2, PassReadStored(n)), n);
    ThreeSteps(setup, s, PassReadReady(n), PassReadPending(n), PassReadStored(n));
    PassNext(setup, s, n);
    PassNext(setup, s1, n);
    PassNext(setup, s2, n);
    assert s.objects.Keys - (ReadyIds(s.rows) + PendingIds(s.rows)) == Orphans(s.rows, s.objects);
  }
}
