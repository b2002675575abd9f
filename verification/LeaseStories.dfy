/** What the answers of a script make of each claimed lease
    (`ProcessorRunner::drain` of processor/src/lib.rs). */
module LeaseStories {
  import opened Text
  import opened LeaseDrain

  /** The answers after which the drain returns: a shutdown seen before the
      photo's turn, or after it was processed. */
  predicate Stops(a: Answers) {
    a.stopBefore || (a.renewed && a.downloaded && a.processed && a.stopAfter)
  }

  predicate SomeStops(photos: seq<(Lease, Answers)>) {
    exists i :: 0 <= i < |photos| && Stops(photos[i].1)
  }

  /** No earlier photo stopped the drain, and no shutdown is seen before this. */
  predicate Reached(photos: seq<(Lease, Answers)>, i: nat)
    requires i < |photos|
  {
    !photos[i].1.stopBefore && forall j :: 0 <= j < i ==> !Stops(photos[j].1)
  }

  /** Every photo claimed, with the answers it would meet, round by round: the
      rounds end with a shutdown, a failing or an empty claim, or a batch that
      stops. */
  function ClaimedPhotos(script: seq<Round>): seq<(Lease, Answers)> {
    if script == [] || script[0].stopped || script[0].claim.None? then []
    else
      var photos := script[0].claim.value;
      if photos == [] || SomeStops(photos) then photos else photos + ClaimedPhotos(script[1..])
  }

  /** A story told by the answers alone. */
  function Tale(l: Lease, a: Answers, reached: bool): seq<Event> {
    if !reached then [Failed(l, WorkerInterrupted)]
    else [Renewed(l, a.renewed)] + if !a.renewed then [] else
         [Downloaded(l, a.downloaded)] + if !a.downloaded then [Failed(l, EngineError)] else
         [Processed(l, a.processed)] + if !a.processed then [Failed(l, EngineError)] else
         if a.stopAfter then [Failed(l, WorkerInterrupted)] else [Completed(l, a.completed)]
  }

  /** The tales of photos from `i` on, in their order. */
  function Tales(photos: seq<(Lease, Answers)>, i: nat): seq<Event>
    requires i <= |photos|
    decreases |photos| - i
  {
    if i == |photos| then [] else Tale(photos[i].0, photos[i].1, Reached(photos, i)) + Tales(photos, i + 1)
  }

  /** The events that are about some lease, in order. */
  function LeaseEvents(log: seq<Event>): seq<Event> {
    if log == [] then []
    else (if log[0].SawShutdown? || log[0].Claimed? then [] else [log[0]]) + LeaseEvents(log[1..])
  }

  lemma {:induction false} LeaseEventsAppend(a: seq<Event>, b: seq<Event>)
    ensures LeaseEvents(a + b) == LeaseEvents(a) + LeaseEvents(b)
    decreases |a|
  {
    if a == [] {
      assert a + b == b;
    } else {
      assert (a + b)[1..] == a[1..] + b;
      LeaseEventsAppend(a[1..], b);
    }
  }

  lemma {:induction false} AllLeaseEvents(log: seq<Event>)
    requires forall e :: e in log ==> !e.SawShutdown? && !e.Claimed?
    ensures LeaseEvents(log) == log
  {
    if log != [] {
      AllLeaseEvents(log[1..]);
    }
  }

  lemma HandledTale(l: Lease, a: Answers)
    ensures LeaseEvents(Handled(l, a).log) == Tale(l, a, true)
    ensures Handled(l, a).stop <==> a.renewed && a.downloaded && a.processed && a.stopAfter
  {
    var log := Handled(l, a).log;
    if a.renewed && a.downloaded && a.processed && a.stopAfter {
      AllLeaseEvents(log[..3]);
      AllLeaseEvents(log[4..]);
      assert LeaseEvents([SawShutdown]) == [];
      LeaseEventsAppend(log[..3], [log[3]]);
      LeaseEventsAppend(log[..3] + [log[3]], log[4..]);
      assert log == log[..3] + [log[3]] + log[4..];
    } else {
      AllLeaseEvents(log);
    }
  }

  /** Past a photo that stops the drain, every lease is handed back. */
  lemma {:induction false} StoppedTales(photos: seq<(Lease, Answers)>, i: nat)
    requires i <= |photos| && exists j :: 0 <= j < |photos| && j <= i && StopsBy(photos, j, i)
    ensures Tales(photos, i) == Released(photos[i..])
    decreases |photos| - i
  {
    if i < |photos| {
      var j :| 0 <= j < |photos| && j <= i && StopsBy(photos, j, i);
      assert StopsBy(photos, j, i + 1);
      StoppedTales(photos, i + 1);
      assert Released(photos[i..]) == [Interrupt(photos[i].0)] + Released(photos[i + 1..]);
    }
  }

  /** Photo `j` keeps the turn of photo `i` from being reached. */
  predicate StopsBy(photos: seq<(Lease, Answers)>, j: nat, i: nat)
    requires j < |photos|
  {
    if j < i then Stops(photos[j].1) else photos[j].1.stopBefore
  }

  lemma ReachedShift(head: seq<(Lease, Answers)>, photos: seq<(Lease, Answers)>, i: nat)
    requires i < |photos| && !SomeStops(head)
    ensures Reached(head + photos, |head| + i) <==> Reached(photos, i)
  {
    var all := head + photos;
    assert all[|head| + i] == photos[i];
    if Reached(photos, i) {
      forall j | 0 <= j < |head| + i
        ensures !Stops(all[j].1)
      {
        if j >= |head| {
          assert all[j] == photos[j - |head|];
        } else {
          assert all[j] == head[j];
        }
      }
    } else if !photos[i].1.stopBefore {
      var j :| 0 <= j < i && Stops(photos[j].1);
      assert all[|head| + j] == photos[j];
    }
  }

  /** The same photos in a longer list whose earlier part does not stop. */
  lemma {:induction false} TalesShift(head: seq<(Lease, Answers)>, photos: seq<(Lease, Answers)>, i: nat)
    requires i <= |photos| && !SomeStops(head)
    ensures Tales(head + photos, |head| + i) == Tales(photos, i)
    decreases |photos| - i
  {
    hide Reached, Tale, SomeStops;
    if i < |photos| {
      assert (head + photos)[|head| + i] == photos[i];
      ReachedShift(head, photos, i);
      TalesShift(head, photos, i + 1);
    }
  }

  lemma ReachedPrefix(head: seq<(Lease, Answers)>, photos: seq<(Lease, Answers)>, i: nat)
    requires i < |head|
    ensures (head + photos)[i] == head[i] && (Reached(head + photos, i) <==> Reached(head, i))
  {
    var all := head + photos;
    assert forall j :: 0 <= j <= i ==> all[j] == head[j];
  }

  /** Tales of a list's first part, and then of the rest. */
  lemma {:induction false} TalesJoin(head: seq<(Lease, Answers)>, photos: seq<(Lease, Answers)>, i: nat)
    requires i <= |head| && !SomeStops(head)
    ensures Tales(head + photos, i) == Tales(head, i) + Tales(photos, 0)
    decreases |head| - i
  {
    if i == |head| {
      TalesShift(head, photos, 0);
    } else {
      ReachedPrefix(head, photos, i);
      hide Reached, Tale, SomeStops;
      TalesJoin(head, photos, i + 1);
    }
  }

  lemma {:induction false} BatchTales(photos: seq<(Lease, Answers)>)
    ensures LeaseEvents(BatchFrom(photos).log) == Tales(photos, 0)
    ensures BatchFrom(photos).stop <==> SomeStops(photos)
  {
    if photos == [] {
    } else if photos[0].1.stopBefore {
      AllLeaseEvents(Released(photos));
      LeaseEventsAppend([SawShutdown], Released(photos));
      assert StopsBy(photos, 0, 0);
      StoppedTales(photos, 0);
      assert photos[0..] == photos;
    } else {
      var (l, a) := photos[0];
      var rest := photos[1..];
      HandledTale(l, a);
      assert Reached(photos, 0);
      assert photos == [photos[0]] + rest;
      hide Handled, Tale;
      if Stops(a) {
        AllLeaseEvents(Released(rest));
        LeaseEventsAppend(Handled(l, a).log, Released(rest));
        assert StopsBy(photos, 0, 1);
        StoppedTales(photos, 1);
      } else {
        BatchTales(rest);
        LeaseEventsAppend(Handled(l, a).log, BatchFrom(rest).log);
        TalesShift([photos[0]], rest, 0);
        SomeStopsLater(photos);
      }
    }
  }

  lemma SomeStopsLater(photos: seq<(Lease, Answers)>)
    requires photos != [] && !Stops(photos[0].1)
    ensures SomeStops(photos) <==> SomeStops(photos[1..])
  {
    if SomeStops(photos) {
      var i :| 0 <= i < |photos| && Stops(photos[i].1);
      assert photos[1..][i - 1] == photos[i];
    }
  }

  /** For every script the drain's log says, lease by lease in the order of the
      claims, exactly what the answers of the claimed photos say. */
  lemma {:induction false} LogIsTales(script: seq<Round>)
    ensures LeaseEvents(DrainFrom(script).log) == Tales(ClaimedPhotos(script), 0)
  {
    hide BatchFrom, Tales, SomeStops;
    NoTales();
    if script != [] && !script[0].stopped && script[0].claim.Some? {
      var photos := script[0].claim.value;
      var head := [Claimed(Leases(photos))];
      BatchTales(photos);
      assert LeaseEvents(head) == [];
      LeaseEventsAppend(head, BatchFrom(photos).log);
      if photos != [] && !SomeStops(photos) {
        LogIsTales(script[1..]);
        LeaseEventsAppend(head + BatchFrom(photos).log, DrainFrom(script[1..]).log);
        TalesJoin(photos, ClaimedPhotos(script[1..]), 0);
      }
    }
  }

  lemma NoTales()
    ensures Tales([], 0) == [] && LeaseEvents([]) == [] && LeaseEvents([SawShutdown]) == []
    ensures LeaseEvents([Claimed([])]) == []
  {
  }

  // ----- One lease -----

  lemma {:induction false} StoryOfLeaseEvents(log: seq<Event>, l: Lease)
    ensures Story(LeaseEvents(log), l) == Story(log, l)
  {
    if log != [] {
      StoryOfLeaseEvents(log[1..], l);
      StoryAppends(LeaseEvents([log[0]]), LeaseEvents(log[1..]), l);
      assert [log[0]] + log[1..] == log;
      LeaseEventsAppend([log[0]], log[1..]);
      assert [log[0]][1..] == [];
    }
  }

  lemma TaleStory(l: Lease, a: Answers, reached: bool, other: Lease)
    ensures Story(Tale(l, a, reached), other) == if other == l then Tale(l, a, reached) else []
  {
    if other == l {
      StoryOfOwn(Tale(l, a, reached), l);
    } else {
      StoryOfOthers(Tale(l, a, reached), other);
    }
  }

  lemma {:induction false} TalesStory(photos: seq<(Lease, Answers)>, i: nat, k: nat)
    requires i <= |photos| && k < |photos| && NoRepeat(Leases(photos))
    ensures Story(Tales(photos, i), photos[k].0)
         == if i <= k then Tale(photos[k].0, photos[k].1, Reached(photos, k)) else []
    decreases |photos| - i
  {
    hide Tale, Story;
    if i == |photos| {
      StoryOfOthers([], photos[k].0);
    } else {
      var tale := Tale(photos[i].0, photos[i].1, Reached(photos, i));
      TalesStory(photos, i + 1, k);
      StoryAppends(tale, Tales(photos, i + 1), photos[k].0);
      TaleStory(photos[i].0, photos[i].1, Reached(photos, i), photos[k].0);
      assert i != k ==> photos[i].0 != photos[k].0 by {
        assert Leases(photos)[i] == photos[i].0 && Leases(photos)[k] == photos[k].0;
      }
    }
  }

  /** Which of the seven stories a claimed lease has is decided by its answers:
      nothing was done unless its turn came, and each later step was taken only
      where the one before succeeded. */
  lemma StoryFollowsAnswers(script: seq<Round>, k: nat)
    requires k < |ClaimedPhotos(script)| && NoRepeat(Leases(ClaimedPhotos(script)))
    ensures var photos := ClaimedPhotos(script);
            var (l, a) := photos[k];
            var s := Story(DrainFrom(script).log, l);
            && (!Reached(photos, k) ==> s == [Failed(l, WorkerInterrupted)])
            && (Reached(photos, k) && !a.renewed ==> s == [Renewed(l, false)])
            && (Reached(photos, k) && a.renewed && !a.downloaded ==>
                  s == [Renewed(l, true), Downloaded(l, false), Failed(l, EngineError)])
            && (Reached(photos, k) && a.renewed && a.downloaded && !a.processed ==>
                  s == [Renewed(l, true), Downloaded(l, true), Processed(l, false), Failed(l, EngineError)])
            && (Reached(photos, k) && a.renewed && a.downloaded && a.processed && a.stopAfter ==>
                  s == [Renewed(l, true), Downloaded(l, true), Processed(l, true), Failed(l, WorkerInterrupted)])
            && (Reached(photos, k) && a.renewed && a.downloaded && a.processed && !a.stopAfter ==>
                  s == [Renewed(l, true), Downloaded(l, true), Processed(l, true), Completed(l, a.completed)])
  {
    var photos := ClaimedPhotos(script);
    var (l, a) := photos[k];
    LogIsTales(script);
    StoryOfLeaseEvents(DrainFrom(script).log, l);
    hide Story, DrainFrom, Tales, ClaimedPhotos, LeaseEvents, Tale, Reached, NoRepeat, Leases;
    TalesStory(photos, 0, k);
    TaleMeans(l, a, Reached(photos, k));
  }

  lemma TaleMeans(l: Lease, a: Answers, reached: bool)
    ensures var s := Tale(l, a, reached);
            && (!reached ==> s == [Failed(l, WorkerInterrupted)])
            && (reached && !a.renewed ==> s == [Renewed(l, false)])
            && (reached && a.renewed && !a.downloaded ==>
                  s == [Renewed(l, true), Downloaded(l, false), Failed(l, EngineError)])
            && (reached && a.renewed && a.downloaded && !a.processed ==>
                  s == [Renewed(l, true), Downloaded(l, true), Processed(l, false), Failed(l, EngineError)])
            && (reached && a.renewed && a.downloaded && a.processed && a.stopAfter ==>
                  s == [Renewed(l, true), Downloaded(l, true), Processed(l, true), Failed(l, WorkerInterrupted)])
            && (reached && a.renewed && a.downloaded && a.processed && !a.stopAfter ==>
                  s == [Renewed(l, true), Downloaded(l, true), Processed(l, true), Completed(l, a.completed)])
  {
  }

  lemma {:induction false} InStory(log: seq<Event>, e: Event)
    requires e in log && !e.SawShutdown? && !e.Claimed?
    ensures e in Story(log, e.lease)
  {
    if log[0] != e {
      InStory(log[1..], e);
    }
  }

  lemma {:induction false} InTales(photos: seq<(Lease, Answers)>, i: nat, e: Event) returns (k: nat)
    requires i <= |photos| && e in Tales(photos, i)
    ensures i <= k < |photos| && e in Tale(photos[k].0, photos[k].1, Reached(photos, k))
    decreases |photos| - i
  {
    hide Tale;
    if e in Tale(photos[i].0, photos[i].1, Reached(photos, i)) {
      k := i;
    } else {
      k := InTales(photos, i + 1, e);
    }
  }

  lemma {:induction false} InLeaseEvents(log: seq<Event>, e: Event)
    requires e in log && !e.SawShutdown? && !e.Claimed?
    ensures e in LeaseEvents(log)
  {
    if log[0] != e {
      InLeaseEvents(log[1..], e);
    }
  }

  /** Every answer in the log is the script's answer for a lease whose turn came;
      and a photo is sent as complete only where it was renewed, downloaded and
      processed and no shutdown was seen since. */
  lemma EventsCarryAnswers(script: seq<Round>, e: Event) returns (k: nat)
    requires e in DrainFrom(script).log && (e.Renewed? || e.Downloaded? || e.Processed? || e.Completed?)
    ensures k < |ClaimedPhotos(script)| && ClaimedPhotos(script)[k].0 == e.lease && Reached(ClaimedPhotos(script), k)
    ensures var a := ClaimedPhotos(script)[k].1;
            && (e.Renewed? ==> e.ok == a.renewed)
            && (e.Downloaded? ==> e.ok == a.downloaded && a.renewed)
            && (e.Processed? ==> e.ok == a.processed && a.renewed && a.downloaded)
            && (e.Completed? ==> e.ok == a.completed && a.renewed && a.downloaded && a.processed && !a.stopAfter)
  {
    LogIsTales(script);
    InLeaseEvents(DrainFrom(script).log, e);
    hide DrainFrom, Tales, ClaimedPhotos, LeaseEvents;
    k := InTales(ClaimedPhotos(script), 0, e);
  }

  // ----- The counters -----

  datatype Counter = InCompleted | InFailed | InSkipped

  /** What is counted for a photo whose turn came. */
  predicate Counts(a: Answers, c: Counter) {
    match c
    case InCompleted => a.renewed && a.downloaded && a.processed && !a.stopAfter && a.completed
    case InFailed => a.renewed && (!a.downloaded || !a.processed || (!a.stopAfter && !a.completed))
    case InSkipped => !a.renewed
  }

  function CountFrom(photos: seq<(Lease, Answers)>, i: nat, c: Counter): nat
    requires i <= |photos|
    decreases |photos| - i
  {
    if i == |photos| then 0
    else (if Reached(photos, i) && Counts(photos[i].1, c) then 1 else 0) + CountFrom(photos, i + 1, c)
  }

  lemma {:induction false} TallyOfLeaseEvents(log: seq<Event>)
    ensures TallyOf(LeaseEvents(log)) == TallyOf(log)
  {
    hide Add;
    if log != [] {
      TallyOfLeaseEvents(log[1..]);
      TallyAppends(LeaseEvents([log[0]]), LeaseEvents(log[1..]));
      TallyAppends([log[0]], log[1..]);
      assert [log[0]] + log[1..] == log && [log[0]][1..] == [] && [log[0]][..0] == [];
      LeaseEventsAppend([log[0]], log[1..]);
      AddAssociates(ZERO, Unit(log[0]), ZERO);
      AddAssociates(TallyOf(log[1..]), ZERO, ZERO);
    }
  }

  /** Only the last event of a tale counts. */
  lemma TaleEnds(l: Lease, a: Answers, reached: bool) returns (quiet: seq<Event>, e: Event)
    ensures Tale(l, a, reached) == quiet + [e] && Quiet(quiet)
    ensures Unit(e).completed == (if reached && Counts(a, InCompleted) then 1 else 0)
    ensures Unit(e).failed == (if reached && Counts(a, InFailed) then 1 else 0)
    ensures Unit(e).skipped == (if reached && Counts(a, InSkipped) then 1 else 0)
  {
    var tale := Tale(l, a, reached);
    quiet, e := tale[..|tale| - 1], tale[|tale| - 1];
  }

  lemma TallyOfTale(l: Lease, a: Answers, reached: bool)
    ensures var t := TallyOf(Tale(l, a, reached));
            && t.completed == (if reached && Counts(a, InCompleted) then 1 else 0)
            && t.failed == (if reached && Counts(a, InFailed) then 1 else 0)
            && t.skipped == (if reached && Counts(a, InSkipped) then 1 else 0)
  {
    hide TallyOf, Tale, Counts, Unit;
    var quiet, e := TaleEnds(l, a, reached);
    QuietTally(quiet);
    TallyLast(quiet, e);
  }

  lemma {:induction false} TallyOfTales(photos: seq<(Lease, Answers)>, i: nat)
    requires i <= |photos|
    ensures var t := TallyOf(Tales(photos, i));
            && t.completed == CountFrom(photos, i, InCompleted)
            && t.failed == CountFrom(photos, i, InFailed)
            && t.skipped == CountFrom(photos, i, InSkipped)
    decreases |photos| - i
  {
    hide Tale, Reached, Counts;
    if i < |photos| {
      var tale := Tale(photos[i].0, photos[i].1, Reached(photos, i));
      TallyOfTale(photos[i].0, photos[i].1, Reached(photos, i));
      TallyOfTales(photos, i + 1);
      TallyAppends(tale, Tales(photos, i + 1));
      hide TallyOf;
    }
  }

  /** The summary counts the claimed photos by their answers. */
  lemma SummaryFollowsAnswers(script: seq<Round>)
    ensures var (photos, s) := (ClaimedPhotos(script), DrainFrom(script).summary);
            && s.claimed == |photos|
            && s.completed == CountFrom(photos, 0, InCompleted)
            && s.failed == CountFrom(photos, 0, InFailed)
            && s.skipped == CountFrom(photos, 0, InSkipped)
  {
    EveryClaimIsAccounted(script);
    ClaimsAreCounted(script);
    LeasesOfClaimed(script);
    LogIsTales(script);
    TallyOfLeaseEvents(DrainFrom(script).log);
    TallyOfTales(ClaimedPhotos(script), 0);
    hide DrainFrom, ClaimedPhotos, Tales, TallyOf, CountFrom, ClaimedLeases;
  }

  lemma {:induction false} LeasesOfClaimed(script: seq<Round>)
    ensures ClaimedLeases(script) == Leases(ClaimedPhotos(script))
  {
    hide BatchFrom, SomeStops;
    if script != [] && !script[0].stopped && script[0].claim.Some? {
      BatchTales(script[0].claim.value);
      LeasesOfClaimed(script[1..]);
    }
  }

  // ----- When the drain fails -----

  /** The round claims photos and none of them stops the drain. */
  predicate GoesOn(r: Round) {
    !r.stopped && r.claim.Some? && r.claim.value != [] && !SomeStops(r.claim.value)
  }

  predicate ClaimFails(script: seq<Round>, n: nat) {
    && n < |script| && !script[n].stopped && script[n].claim.None?
    && forall m :: 0 <= m < n ==> GoesOn(script[m])
  }

  /** The drain returns an error exactly when a claim fails that it comes to. */
  lemma {:induction false} ErrorExactlyWhen(script: seq<Round>)
    ensures !DrainFrom(script).ok <==> exists n: nat :: ClaimFails(script, n)
  {
    hide BatchFrom, SomeStops;
    if script != [] && !script[0].stopped {
      if script[0].claim.None? {
        assert ClaimFails(script, 0);
      } else {
        var photos := script[0].claim.value;
        BatchTales(photos);
        if GoesOn(script[0]) {
          ErrorExactlyWhen(script[1..]);
          FailsLater(script);
        } else {
          assert forall n: nat :: ClaimFails(script, n) ==> n > 0;
        }
      }
    }
  }

  lemma FailsLater(script: seq<Round>)
    requires script != [] && GoesOn(script[0])
    ensures (exists n: nat :: ClaimFails(script, n)) <==> exists n: nat :: ClaimFails(script[1..], n)
  {
    hide SomeStops;
    if n: nat :| ClaimFails(script, n) {
      assert forall m :: 0 <= m < n - 1 ==> script[1..][m] == script[m + 1];
      assert ClaimFails(script[1..], n - 1);
    }
    if n: nat :| ClaimFails(script[1..], n) {
      forall m | 0 <= m < n + 1
        ensures GoesOn(script[m])
      {
        if m > 0 {
          assert script[m] == script[1..][m - 1];
        }
      }
      assert ClaimFails(script, n + 1);
    }
  }
}
