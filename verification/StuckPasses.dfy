/** When a pending row whose size cannot be read can become readable or ready,
    with the statements of every upload, completion and reconciliation pass
    interleaved (server/src/catalog.rs, server/src/upload_flow.rs). */
module StuckPasses {
  import opened Text
  import opened Catalog
  import Timestamps
  import opened UploadFlow
  import opened ReusedIds
  import opened ReconcileRuns

  // ----- With the uploads of other requests only -----

  /** Not a readable reservation of this ID, nor the end of its transfer or of its
      direct upload. */
  predicate Quiet(step: Step, id: string) {
    match step
    case Upsert(r, _) => r.upload.id == id ==> !Usable(r.upload.size)
    case EndPut(t) => t.upload.id != id
    case Rename(t) => t.upload.id != id
    case MarkRegistered(u) => u.id != id
    case _ => true
  }

  predicate AllQuiet(steps: seq<Step>, id: string) {
    forall step :: step in steps ==> Quiet(step, id)
  }

  /** A completion of this ID has read a size that its object has, or is past
      that, and the image is in order. */
  predicate Completing(setup: Setup, s: State, id: string) {
    || id in s.work.checked
    || (CanPrepare(setup, s, id)
        && (id in s.work.measured || (id in s.objects && (id, |s.objects[id]|) in s.work.expected)))
  }

  /** A pass took its table before this row was there, and can find its object. */
  predicate Importing(s: State, id: string) {
    || (exists n :: n in s.work.passes && s.work.passes[n].Lists? && id in s.work.passes[n].orphans)
    || (id in s.objects && exists n :: n in s.work.passes && s.work.passes[n].Knows? && id !in s.work.passes[n].ids)
  }

  lemma StuckRowStays(setup: Setup, s: State, step: Step, id: string)
    requires Enabled(setup, s, step) && Quiet(step, id) && Stuck(s.rows, id)
    requires !Completing(setup, s, id) && !Importing(s, id)
    ensures Stuck(RowsAfter(setup, s.rows, step), id)
  {
    hide StorageKey, Timestamps.IdToTimestamp, CanPrepare;
  }

  lemma ObjectIsLeft(setup: Setup, s: State, step: Step, id: string)
    requires Quiet(step, id)
    ensures id in Next(setup, s, step).objects <==> id in s.objects
    ensures id in s.objects ==> Next(setup, s, step).objects[id] == s.objects[id]
  {
    hide RowsAfter, Worked, Passes, Fits;
  }

  lemma ThumbnailsMade(setup: Setup, s: State, step: Step, id: string)
    requires id in Next(setup, s, step).thumbnails
    ensures id in s.thumbnails || (step.Prepare? && step.upload.id == id) || step == EnsureThumbnail(id)
  {
    hide RowsAfter, Worked, Passes, Fits;
  }

  lemma CanPrepareBefore(setup: Setup, s: State, step: Step, id: string)
    requires Enabled(setup, s, step) && Quiet(step, id) && CanPrepare(setup, Next(setup, s, step), id)
    ensures CanPrepare(setup, s, id)
  {
    ObjectIsLeft(setup, s, step, id);
    if id in Next(setup, s, step).thumbnails {
      ThumbnailsMade(setup, s, step, id);
    }
    hide Next, LooksLikeJpeg, SizesUsable;
  }

  /** How far a completion gets by one step. */
  lemma CompletionMoves(s: State, step: Step, id: string, size: int)
    ensures var (w, n) := (s.work, Worked(s, step));
            && (id in n.checked ==> id in w.checked || step == EnsureThumbnail(id))
            && (id in n.measured ==> id in w.measured || (step.ReadStored? && step.id == id))
            && ((id, size) in n.expected ==> (id, size) in w.expected || step == ReadExpected(id))
  {
    hide PendingIds, ReadyIds;
  }

  lemma CompletingStays(setup: Setup, s: State, step: Step, id: string)
    requires Enabled(setup, s, step) && Quiet(step, id) && Stuck(s.rows, id) && !Completing(setup, s, id)
    ensures !Completing(setup, Next(setup, s, step), id)
  {
    var n := Next(setup, s, step);
    ObjectIsLeft(setup, s, step, id);
    NextRows(setup, s, step);
    CompletionMoves(s, step, id, if id in n.objects then |n.objects[id]| else 0);
    if CanPrepare(setup, n, id) {
      CanPrepareBefore(setup, s, step, id);
    }
    hide Next, RowsAfter, Worked, LooksLikeJpeg, SizesUsable, CanPrepare;
  }

  lemma ImportingStays(setup: Setup, s: State, step: Step, id: string)
    requires Enabled(setup, s, step) && Quiet(step, id) && Stuck(s.rows, id) && !Importing(s, id)
    ensures !Importing(Next(setup, s, step), id)
  {
    ObjectIsLeft(setup, s, step, id);
    StuckFailsPasses(s.rows, id);
    NextRows(setup, s, step);
    hide RowsAfter, Next, SizesUsable, CanPrepare, Stuck, LooksLikeJpeg;
  }

  lemma {:induction false} QuietRun(setup: Setup, s: State, steps: seq<Step>, id: string)
    requires Stuck(s.rows, id) && !Completing(setup, s, id) && !Importing(s, id)
    requires Runs(setup, s, steps) && AllQuiet(steps, id)
    ensures Stuck(After(setup, s, steps).rows, id)
    decreases |steps|
  {
    hide Enabled, Next, Stuck, Completing, Importing, Quiet;
    if steps != [] {
      assert Quiet(steps[0], id);
      StuckRowStays(setup, s, steps[0], id);
      NextRows(setup, s, steps[0]);
      CompletingStays(setup, s, steps[0], id);
      ImportingStays(setup, s, steps[0], id);
      assert AllQuiet(steps[1..], id) by {
        forall step | step in steps[1..]
          ensures Quiet(step, id)
        {
          assert step in steps;
        }
      }
      QuietRun(setup, Next(setup, s, steps[0]), steps[1..], id);
    }
  }

  /** Some such run makes the row readable or ready. */
  ghost predicate Repaired(setup: Setup, s: State, id: string) {
    exists steps :: Runs(setup, s, steps) && AllQuiet(steps, id) && !Stuck(After(setup, s, steps).rows, id)
  }

  lemma RepairedAfter(setup: Setup, s: State, step: Step, id: string)
    requires Enabled(setup, s, step) && Quiet(step, id) && Repaired(setup, Next(setup, s, step), id)
    ensures Repaired(setup, s, id)
  {
    hide Enabled, Next, Runs, After, Stuck, Quiet;
    var n := Next(setup, s, step);
    var steps :| Runs(setup, n, steps) && AllQuiet(steps, id) && !Stuck(After(setup, n, steps).rows, id);
    OneStep(setup, s, step);
    RunsJoin(setup, s, [step], steps);
    assert AllQuiet([step] + steps, id) && !Stuck(After(setup, s, [step] + steps).rows, id);
  }

  lemma RepairedNow(setup: Setup, s: State, id: string)
    requires !Stuck(s.rows, id)
    ensures Repaired(setup, s, id)
  {
    assert Runs(setup, s, []) && AllQuiet([], id) && !Stuck(After(setup, s, []).rows, id);
  }

  lemma MarkRepairs(setup: Setup, s: State, step: Step, id: string)
    requires (step.MarkComplete? && step.id == id) || (step.Import? && step.id == id)
    requires Enabled(setup, s, step)
    ensures Repaired(setup, s, id)
  {
    NextRows(setup, s, step);
    assert !Stuck(RowsAfter(setup, s.rows, step), id) by {
      hide StorageKey;
    }
    hide Next, RowsAfter, Enabled, Stuck;
    RepairedNow(setup, Next(setup, s, step), id);
    RepairedAfter(setup, s, step, id);
  }

  lemma CompletionRepairs(setup: Setup, s: State, id: string)
    requires Completing(setup, s, id)
    ensures Repaired(setup, s, id)
  {
    if id in s.work.checked {
      MarkRepairs(setup, s, MarkComplete(id), id);
    } else if id in s.work.measured {
      MarkRepairs(setup, Next(setup, s, EnsureThumbnail(id)), MarkComplete(id), id);
      RepairedAfter(setup, s, EnsureThumbnail(id), id);
    } else {
      var read := ReadStored(id, |s.objects[id]|);
      var m := Next(setup, s, read);
      assert Enabled(setup, s, read) && m == s.(work := m.work) && id in m.work.measured;
      assert Enabled(setup, m, EnsureThumbnail(id)) && Enabled(setup, Next(setup, m, EnsureThumbnail(id)), MarkComplete(id));
      hide Next, Enabled;
      MarkRepairs(setup, Next(setup, m, EnsureThumbnail(id)), MarkComplete(id), id);
      RepairedAfter(setup, m, EnsureThumbnail(id), id);
      RepairedAfter(setup, s, read, id);
    }
  }

  lemma ImportRepairs(setup: Setup, s: State, id: string)
    requires Importing(s, id)
    ensures Repaired(setup, s, id)
  {
    if n :| n in s.work.passes && s.work.passes[n].Lists? && id in s.work.passes[n].orphans {
      MarkRepairs(setup, s, Step.Import(n, id), id);
    } else {
      var n :| n in s.work.passes && s.work.passes[n].Knows? && id !in s.work.passes[n].ids;
      var m := Next(setup, s, PassReadStored(n));
      assert Enabled(setup, s, PassReadStored(n)) && Enabled(setup, m, Step.Import(n, id));
      hide Next, Enabled;
      MarkRepairs(setup, m, Step.Import(n, id), id);
      RepairedAfter(setup, s, PassReadStored(n), id);
    }
  }

  /** With no further reservation of its ID by a readable size, and no further
      bytes or registration of it, a pending row of unreadable size becomes
      readable or ready in some run exactly when a completion under way has read
      a size that the object has and the image is in order, or a pass under way
      took its table before the row was there and can find its object. */
  lemma RepairedQuietlyExactlyWhen(setup: Setup, s: State, id: string)
    requires Stuck(s.rows, id)
    ensures (exists steps :: Runs(setup, s, steps) && AllQuiet(steps, id) && !Stuck(After(setup, s, steps).rows, id))
       <==> Completing(setup, s, id) || Importing(s, id)
  {
    hide Runs, After, Completing, Importing, AllQuiet;
    if Completing(setup, s, id) || Importing(s, id) {
      if Completing(setup, s, id) {
        CompletionRepairs(setup, s, id);
      } else {
        ImportRepairs(setup, s, id);
      }
      var steps :| Runs(setup, s, steps) && AllQuiet(steps, id) && !Stuck(After(setup, s, steps).rows, id);
      assert Runs(setup, s, steps) && AllQuiet(steps, id) && !Stuck(After(setup, s, steps).rows, id);
    } else {
      forall steps | Runs(setup, s, steps) && AllQuiet(steps, id)
        ensures Stuck(After(setup, s, steps).rows, id)
      {
        QuietRun(setup, s, steps, id);
      }
    }
  }

  /** Otherwise no pass of such a run gets past its reading of the pending rows. */
  lemma NoPassReadsPending(setup: Setup, s: State, steps: seq<Step>, id: string, pass: nat)
    requires Stuck(s.rows, id) && !Completing(setup, s, id) && !Importing(s, id)
    requires Runs(setup, s, steps) && AllQuiet(steps, id)
    ensures !Enabled(setup, After(setup, s, steps), PassReadPending(pass))
  {
    QuietRun(setup, s, steps, id);
    hide Runs, AllQuiet, Completing, Importing, Stuck;
    StuckFailsPasses(After(setup, s, steps).rows, id);
    hide After, SizesUsable;
  }

  // ----- With any uploads -----

  /** A client may upload this ID with a size that can be read. */
  predicate Repairable(setup: Setup, id: string) {
    exists u :: u in setup.clients && u.id == id && Usable(u.size)
  }

  lemma StorableIsUsable(setup: Setup, u: Upload)
    requires Storable(setup, u)
    ensures u in setup.clients && Usable(u.size)
  {
  }

  /** What is stored came from such a client. */
  lemma StoredIsRepairable(setup: Setup, s: State, id: string)
    requires Inv(setup, s) && id in s.objects
    ensures Repairable(setup, id)
  {
    assert FromClient(setup, id, s.objects[id]);
    var u: Upload :| u.id == id && u.bytes == s.objects[id] && Storable(setup, u);
    StorableIsUsable(setup, u);
  }

  lemma UnrepairableStep(setup: Setup, s: State, step: Step, id: string)
    requires Inv(setup, s) && Enabled(setup, s, step) && Stuck(s.rows, id) && !Repairable(setup, id)
    ensures Stuck(Next(setup, s, step).rows, id)
  {
    NextRows(setup, s, step);
    RowMade(setup, s.rows, step, id);
    MarksHaveObjects(setup, s, step);
    if id in s.objects {
      StoredIsRepairable(setup, s, id);
    }
    hide Next, RowsAfter, Inv, Enabled;
  }

  lemma {:induction false} UnrepairableRun(setup: Setup, s: State, steps: seq<Step>, id: string)
    requires Inv(setup, s) && Stuck(s.rows, id) && !Repairable(setup, id) && Runs(setup, s, steps)
    ensures Stuck(After(setup, s, steps).rows, id)
    decreases |steps|
  {
    hide Inv, Enabled, Next, Stuck, Repairable;
    if steps != [] {
      StepKeepsInv(setup, s, steps[0]);
      UnrepairableStep(setup, s, steps[0], id);
      UnrepairableRun(setup, Next(setup, s, steps[0]), steps[1..], id);
    }
  }

  /** In every reachable state a pending row of unreadable size can become
      readable or ready exactly when some client may upload its ID with a size
      from 1 to 2^63 - 1: whatever imports and completions work on came from
      such a client. */
  lemma CanBeRepairedExactlyWhen(setup: Setup, s: State, id: string)
    requires Inv(setup, s) && Stuck(s.rows, id)
    ensures (exists steps :: Runs(setup, s, steps) && !Stuck(After(setup, s, steps).rows, id)) <==> Repairable(setup, id)
  {
    hide Inv, Runs, After, Stuck;
    if u :| u in setup.clients && u.id == id && Usable(u.size) {
      ReservationRepairs(setup, s, u);
      var steps := [Guard(Reservation(u, false, 0)), Upsert(Reservation(u, false, 0), None)];
      assert Runs(setup, s, steps) && !Stuck(After(setup, s, steps).rows, id);
    } else {
      forall steps | Runs(setup, s, steps)
        ensures Stuck(After(setup, s, steps).rows, id)
      {
        UnrepairableRun(setup, s, steps, id);
      }
    }
  }

  lemma ReservationRepairs(setup: Setup, s: State, u: Upload)
    requires u in setup.clients && Usable(u.size) && Stuck(s.rows, u.id)
    ensures var steps := [Guard(Reservation(u, false, 0)), Upsert(Reservation(u, false, 0), None)];
            Runs(setup, s, steps) && !Stuck(After(setup, s, steps).rows, u.id)
  {
    hide Runs, After;
    var r := Reservation(u, false, 0);
    var m := Next(setup, s, Guard(r));
    assert m.rows == s.rows && r in m.guarded;
    NextRows(setup, m, Upsert(r, None));
    assert !Stuck(RowsAfter(setup, m.rows, Upsert(r, None)), u.id) by {
      hide StorageKey, Timestamps.IdToTimestamp;
    }
    TwoSteps(setup, s, Guard(r), Upsert(r, None));
  }
}
