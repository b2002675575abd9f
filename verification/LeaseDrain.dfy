/** The processor's queue drain (`ProcessorRunner::drain` of processor/src/lib.rs).
    What the client, the engine and the shutdown flag answer is a script; every
    drain that returns follows some finite script. */
module LeaseDrain {
  import opened Text

  datatype Lease = Lease(photo: string, token: string)

  /** The answers met while handling one leased photo, in order. */
  datatype Answers = Answers(stopBefore: bool, renewed: bool, downloaded: bool, processed: bool, stopAfter: bool,
                             completed: bool)

  /** One pass of the outer loop; `None` is a failing claim. */
  datatype Round = Round(stopped: bool, claim: Option<seq<(Lease, Answers)>>)

  datatype Reason = WorkerInterrupted | EngineError

  /** What the drain does or sees. A `Failed` request's own outcome is ignored. */
  datatype Event =
    | SawShutdown
    | Claimed(leases: seq<Lease>)
    | Renewed(lease: Lease, ok: bool)
    | Downloaded(lease: Lease, ok: bool)
    | Processed(lease: Lease, ok: bool)
    | Completed(lease: Lease, ok: bool)
    | Failed(lease: Lease, reason: Reason)

  datatype Summary = Summary(claimed: nat, completed: nat, failed: nat, skipped: nat)

  const NOTHING := Summary(0, 0, 0, 0)

  function Plus(a: Summary, b: Summary): Summary {
    Summary(a.claimed + b.claimed, a.completed + b.completed, a.failed + b.failed, a.skipped + b.skipped)
  }

  /** `stop` is an early return, `ok` a return that is not an error. */
  datatype Run = Run(log: seq<Event>, summary: Summary, stop: bool, ok: bool)

  function Leases(photos: seq<(Lease, Answers)>): seq<Lease> {
    seq(|photos|, i requires 0 <= i < |photos| => photos[i].0)
  }

  function Interrupt(l: Lease): Event {
    Failed(l, WorkerInterrupted)
  }

  function Released(photos: seq<(Lease, Answers)>): seq<Event> {
    seq(|photos|, i requires 0 <= i < |photos| => Interrupt(photos[i].0))
  }

  /** One photo whose turn has come, with no shutdown seen before it. */
  function Handled(l: Lease, a: Answers): Run {
    if !a.renewed then Run([Renewed(l, false)], NOTHING.(skipped := 1), false, true)
    else if !a.downloaded then
      Run([Renewed(l, true), Downloaded(l, false), Failed(l, EngineError)], NOTHING.(failed := 1), false, true)
    else if !a.processed then
      Run([Renewed(l, true), Downloaded(l, true), Processed(l, false), Failed(l, EngineError)],
          NOTHING.(failed := 1), false, true)
    else if a.stopAfter then
      Run([Renewed(l, true), Downloaded(l, true), Processed(l, true), SawShutdown, Interrupt(l)], NOTHING, true, true)
    else
      Run([Renewed(l, true), Downloaded(l, true), Processed(l, true), Completed(l, a.completed)],
          if a.completed then NOTHING.(completed := 1) else NOTHING.(failed := 1), false, true)
  }

  function BatchFrom(photos: seq<(Lease, Answers)>): Run {
    if photos == [] then Run([], NOTHING, false, true)
    else if photos[0].1.stopBefore then Run([SawShutdown] + Released(photos), NOTHING, true, true)
    else
      var first := Handled(photos[0].0, photos[0].1);
      if first.stop then first.(log := first.log + Released(photos[1..]))
      else Then(first, BatchFrom(photos[1..]))
  }

  lemma PlusNothing(r: Run)
    ensures Then(SoFar([], NOTHING), r) == r && Plus(r.summary, NOTHING) == r.summary
  {
    assert [] + r.log == r.log;
  }

  function Then(first: Run, rest: Run): Run {
    Run(first.log + rest.log, Plus(first.summary, rest.summary), rest.stop, rest.ok)
  }

  function DrainFrom(script: seq<Round>): Run {
    if script == [] then Run([Claimed([])], NOTHING, true, true)
    else if script[0].stopped then Run([SawShutdown], NOTHING, true, true)
    else
      match script[0].claim
      case None => Run([], NOTHING, true, false)
      case Some(photos) =>
        var batch := BatchFrom(photos);
        var start := Run([Claimed(Leases(photos))] + batch.log, batch.summary.(claimed := |photos|), batch.stop, true);
        if photos == [] || batch.stop then start.(stop := true) else Then(start, DrainFrom(script[1..]))
  }

  lemma ThenAssociates(a: Run, b: Run, c: Run)
    ensures Then(Then(a, b), c) == Then(a, Then(b, c))
  {
    Associates(a.log, b.log, c.log);
  }

  /** What is done so far, with more to come. */
  function SoFar(log: seq<Event>, summary: Summary): Run {
    Run(log, summary, false, true)
  }

  lemma EmptyBatch()
    ensures BatchFrom([]) == SoFar([], NOTHING)
  {
  }

  class ProcessorRunner {
    var log: seq<Event>

    constructor ()
      ensures log == []
    {
      log := [];
    }

    /** `None` is the error of a failed claim. A script that is used up
        answers the next claim with no photos. */
    method Drain(script: seq<Round>) returns (summary: Option<Summary>)
      modifies this
      ensures log == old(log) + DrainFrom(script).log
      ensures summary == if DrainFrom(script).ok then Some(DrainFrom(script).summary) else None
    {
      hide BatchFrom, Plus;
      var total := NOTHING;
      PlusNothing(DrainFrom(script));
      ghost var done := [];
      for round := 0 to |script|
        invariant log == old(log) + done
        invariant DrainFrom(script) == Then(SoFar(done, total), DrainFrom(script[round..]))
      {
        ghost var rest := script[round..];
        assert rest[1..] == script[round + 1..];
        PlusNothing(SoFar(done, total));
        if script[round].stopped {
          log := log + [SawShutdown];
          return Some(total);
        }
        if script[round].claim.None? {
          return None;
        }
        var photos := script[round].claim.value;
        log := log + [Claimed(Leases(photos))];
        if photos == [] {
          EmptyBatch();
          return Some(total);
        }
        var counted, stop := Batch(photos);
        ghost var before := SoFar(done, total);
        total := Plus(total, counted.(claimed := |photos|));
        ghost var start := SoFar([Claimed(Leases(photos))] + BatchFrom(photos).log, counted.(claimed := |photos|));
        Associates(old(log), done, start.log);
        Associates(old(log) + done, [Claimed(Leases(photos))], BatchFrom(photos).log);
        if stop {
          return Some(total);
        }
        ThenAssociates(before, start, DrainFrom(rest[1..]));
        done := done + start.log;
      }
      assert script[|script|..] == [];
      PlusNothing(SoFar(done, total));
      log := log + [Claimed([])];
      return Some(total);
    }

    /** The inner loop over one claimed batch. */
    method Batch(photos: seq<(Lease, Answers)>) returns (counted: Summary, stop: bool)
      modifies this
      ensures log == old(log) + BatchFrom(photos).log
      ensures counted == BatchFrom(photos).summary && stop == BatchFrom(photos).stop
    {
      hide Handled, Plus;
      counted := NOTHING;
      PlusNothing(BatchFrom(photos));
      ghost var done := [];
      for index := 0 to |photos|
        invariant log == old(log) + done
        invariant BatchFrom(photos) == Then(SoFar(done, counted), BatchFrom(photos[index..]))
      {
        ghost var rest := photos[index..];
        assert rest[1..] == photos[index + 1..];
        var (l, a) := photos[index];
        PlusNothing(SoFar(done, counted));
        if a.stopBefore {
          log := log + [SawShutdown];
          ReleaseRemaining(photos[index..]);
          Associates(old(log) + done, [SawShutdown], Released(rest));
          Associates(old(log), done, [SawShutdown] + Released(rest));
          return counted, true;
        }
        ghost var first := Handled(l, a);
        var more;
        more, stop := Handle(l, a);
        ghost var before := SoFar(done, counted);
        counted := Plus(counted, more);
        Associates(old(log), done, first.log);
        if stop {
          ReleaseRemaining(photos[index + 1..]);
          Associates(done, first.log, Released(rest[1..]));
          Associates(old(log), done + first.log, Released(rest[1..]));
          return counted, true;
        }
        ThenAssociates(before, first, BatchFrom(rest[1..]));
        done := done + first.log;
      }
      assert photos[|photos|..] == [];
      PlusNothing(SoFar(done, counted));
      return counted, false;
    }

    /** The body of the inner loop for a photo whose turn has come. */
    method Handle(l: Lease, a: Answers) returns (counted: Summary, stop: bool)
      modifies this
      ensures log == old(log) + Handled(l, a).log
      ensures counted == Handled(l, a).summary && stop == Handled(l, a).stop
    {
      log := log + [Renewed(l, a.renewed)];
      if !a.renewed {
        return NOTHING.(skipped := 1), false;
      }
      log := log + [Downloaded(l, a.downloaded)];
      if !a.downloaded {
        log := log + [Failed(l, EngineError)];
        return NOTHING.(failed := 1), false;
      }
      log := log + [Processed(l, a.processed)];
      if !a.processed {
        log := log + [Failed(l, EngineError)];
        return NOTHING.(failed := 1), false;
      }
      if a.stopAfter {
        log := log + [SawShutdown, Interrupt(l)];
        return NOTHING, true;
      }
      log := log + [Completed(l, a.completed)];
      if a.completed {
        return NOTHING.(completed := 1), false;
      }
      return NOTHING.(failed := 1), false;
    }

    method ReleaseRemaining(photos: seq<(Lease, Answers)>)
      modifies this
      ensures log == old(log) + Released(photos)
    {
      for i := 0 to |photos|
        invariant log == old(log) + Released(photos)[..i]
      {
        log := log + [Interrupt(photos[i].0)];
      }
    }
  }

  // ----- After a shutdown is seen -----

  /** Once shutdown has been seen, leases are only handed back. */
  predicate OnlyReleasesAfterShutdown(log: seq<Event>) {
    forall i, j :: 0 <= i < j < |log| && log[i].SawShutdown? ==> log[j].Failed? && log[j].reason.WorkerInterrupted?
  }

  lemma {:induction false} BatchShutdown(photos: seq<(Lease, Answers)>)
    ensures OnlyReleasesAfterShutdown(BatchFrom(photos).log)
    ensures !BatchFrom(photos).stop ==> SawShutdown !in BatchFrom(photos).log
  {
    if photos != [] && !photos[0].1.stopBefore {
      BatchShutdown(photos[1..]);
      var first := Handled(photos[0].0, photos[0].1);
      ShutdownAppends(first.log, if first.stop then Released(photos[1..]) else BatchFrom(photos[1..]).log);
    }
  }

  lemma ShutdownAppends(a: seq<Event>, b: seq<Event>)
    requires OnlyReleasesAfterShutdown(a) && OnlyReleasesAfterShutdown(b)
    requires SawShutdown in a ==> forall e :: e in b ==> e.Failed? && e.reason.WorkerInterrupted?
    ensures OnlyReleasesAfterShutdown(a + b)
  {
    var log := a + b;
    forall i, j | 0 <= i < j < |log| && log[i].SawShutdown?
      ensures log[j].Failed? && log[j].reason.WorkerInterrupted?
    {
      if i < |a| && j >= |a| {
        assert a[i] in a && b[j - |a|] in b;
      }
    }
  }

  lemma {:induction false} NothingCompletedAfterShutdown(script: seq<Round>)
    ensures OnlyReleasesAfterShutdown(DrainFrom(script).log)
  {
    if script != [] && !script[0].stopped && script[0].claim.Some? {
      var photos := script[0].claim.value;
      var (head, batch) := ([Claimed(Leases(photos))], BatchFrom(photos));
      BatchShutdown(photos);
      ShutdownAppends(head, batch.log);
      if photos != [] && !batch.stop {
        NothingCompletedAfterShutdown(script[1..]);
        ShutdownAppends(head + batch.log, DrainFrom(script[1..]).log);
      }
    }
  }

  // ----- The summary and the log -----

  /** The log's own count of the four ways to settle a lease. */
  datatype Tally = Tally(completed: nat, failed: nat, skipped: nat, released: nat)

  const ZERO := Tally(0, 0, 0, 0)

  function Add(a: Tally, b: Tally): Tally {
    Tally(a.completed + b.completed, a.failed + b.failed, a.skipped + b.skipped, a.released + b.released)
  }

  function Unit(e: Event): Tally {
    match e
    case Completed(_, ok) => if ok then ZERO.(completed := 1) else ZERO.(failed := 1)
    case Failed(_, reason) => if reason.EngineError? then ZERO.(failed := 1) else ZERO.(released := 1)
    case Renewed(_, ok) => if ok then ZERO else ZERO.(skipped := 1)
    case _ => ZERO
  }

  function TallyOf(log: seq<Event>): Tally {
    if log == [] then ZERO else Add(TallyOf(log[..|log| - 1]), Unit(log[|log| - 1]))
  }

  lemma AddAssociates(a: Tally, b: Tally, c: Tally)
    ensures Add(Add(a, b), c) == Add(a, Add(b, c)) && Add(a, ZERO) == a && Add(ZERO, a) == a
  {
  }

  lemma TallyLast(log: seq<Event>, e: Event)
    ensures TallyOf(log + [e]) == Add(TallyOf(log), Unit(e))
  {
    assert (log + [e])[..|log|] == log;
  }

  lemma {:induction false} TallyAppends(a: seq<Event>, b: seq<Event>)
    ensures TallyOf(a + b) == Add(TallyOf(a), TallyOf(b))
    decreases |b|
  {
    hide Unit, Add;
    if b == [] {
      assert a + b == a;
      AddAssociates(TallyOf(a), ZERO, ZERO);
    } else {
      var (init, last) := (b[..|b| - 1], b[|b| - 1]);
      assert a + b == (a + init) + [last];
      TallyLast(a + init, last);
      TallyAppends(a, init);
      AddAssociates(TallyOf(a), TallyOf(init), Unit(last));
    }
  }

  /** The counters are those of the log, and with the released leases they
      account for every claimed one. */
  predicate Accounts(log: seq<Event>, s: Summary, claimed: nat) {
    var t := TallyOf(log);
    && s.completed == t.completed && s.failed == t.failed && s.skipped == t.skipped
    && claimed == s.completed + s.failed + s.skipped + t.released
  }

  lemma AccountsAdd(a: seq<Event>, b: seq<Event>, s: Summary, t: Summary, n: nat, m: nat)
    requires Accounts(a, s, n) && Accounts(b, t, m)
    ensures Accounts(a + b, Plus(s, t), n + m)
  {
    hide TallyOf;
    TallyAppends(a, b);
  }

  lemma {:induction false} ReleasedAccounts(photos: seq<(Lease, Answers)>)
    ensures Accounts(Released(photos), NOTHING, |photos|)
  {
    if photos != [] {
      var n := |photos| - 1;
      assert Released(photos)[..n] == Released(photos[..n]);
      ReleasedAccounts(photos[..n]);
    }
  }

  predicate Quiet(log: seq<Event>) {
    forall i :: 0 <= i < |log| ==> Unit(log[i]) == ZERO
  }

  lemma {:induction false} QuietTally(log: seq<Event>)
    requires Quiet(log)
    ensures TallyOf(log) == ZERO
  {
    hide Unit, Add;
    if log != [] {
      var (init, last) := (log[..|log| - 1], log[|log| - 1]);
      assert log == init + [last];
      QuietTally(init);
      TallyLast(init, last);
      AddAssociates(ZERO, ZERO, ZERO);
    }
  }

  lemma QuietAccounts(log: seq<Event>)
    requires Quiet(log)
    ensures Accounts(log, NOTHING, 0)
  {
    QuietTally(log);
  }

  /** Quiet events before the one that counts. */
  lemma EndsIn(quiet: seq<Event>, e: Event, s: Summary)
    requires Quiet(quiet) && Accounts([e], s, 1)
    ensures Accounts(quiet + [e], s, 1)
  {
    hide Accounts;
    QuietAccounts(quiet);
    AccountsAdd(quiet, [e], NOTHING, s, 0, 1);
  }

  lemma LastAccounts(e: Event, s: Summary)
    requires Unit(e) == Tally(s.completed, s.failed, s.skipped, Unit(e).released)
    requires s.completed + s.failed + s.skipped + Unit(e).released == 1
    ensures Accounts([e], s, 1)
  {
    hide TallyOf, Unit;
    TallyLast([], e);
    assert [] + [e] == [e];
    QuietTally([]);
  }

  lemma HandledAccounts(l: Lease, a: Answers)
    ensures Accounts(Handled(l, a).log, Handled(l, a).summary, 1)
    ensures Handled(l, a).summary.claimed == 0 && (Handled(l, a).stop ==> Handled(l, a).summary == NOTHING)
  {
    hide Accounts, TallyOf;
    var log := Handled(l, a).log;
    var n := |log| - 1;
    assert log == log[..n] + [log[n]];
    LastAccounts(log[n], Handled(l, a).summary);
    EndsIn(log[..n], log[n], Handled(l, a).summary);
  }

  lemma {:induction false} BatchAccounts(photos: seq<(Lease, Answers)>)
    ensures Accounts(BatchFrom(photos).log, BatchFrom(photos).summary, |photos|)
  {
    hide Accounts, Handled, Released, Plus;
    if photos == [] {
      QuietAccounts([]);
    } else if photos[0].1.stopBefore {
      QuietAccounts([SawShutdown]);
      ReleasedAccounts(photos);
      PlusNothing(BatchFrom(photos));
      AccountsAdd([SawShutdown], Released(photos), NOTHING, NOTHING, 0, |photos|);
    } else {
      var (l, a) := photos[0];
      var (first, rest) := (Handled(l, a), BatchFrom(photos[1..]));
      HandledAccounts(l, a);
      if first.stop {
        ReleasedAccounts(photos[1..]);
        PlusNothing(first);
        AccountsAdd(first.log, Released(photos[1..]), NOTHING, NOTHING, 1, |photos| - 1);
      } else {
        BatchAccounts(photos[1..]);
        AccountsAdd(first.log, rest.log, first.summary, rest.summary, 1, |photos| - 1);
      }
    }
  }

  lemma {:induction false} BatchClaimsNothing(photos: seq<(Lease, Answers)>)
    ensures BatchFrom(photos).summary.claimed == 0
  {
    if photos != [] {
      HandledAccounts(photos[0].0, photos[0].1);
      BatchClaimsNothing(photos[1..]);
    }
  }

  lemma ClaimAccounts(leases: seq<Lease>, log: seq<Event>, s: Summary, n: nat)
    requires Accounts(log, s, n)
    ensures Accounts([Claimed(leases)] + log, s.(claimed := n), n)
  {
    hide TallyOf;
    QuietAccounts([Claimed(leases)]);
    AccountsAdd([Claimed(leases)], log, NOTHING, s, 0, n);
  }

  /** On every return, each claimed photo is completed, failed, skipped or
      released, and the summary counts them. */
  lemma {:induction false} EveryClaimIsAccounted(script: seq<Round>)
    ensures var r := DrainFrom(script); Accounts(r.log, r.summary, r.summary.claimed)
  {
    hide Accounts, BatchFrom;
    if script == [] {
      QuietAccounts([Claimed([])]);
    } else if script[0].stopped {
      QuietAccounts([SawShutdown]);
    } else if script[0].claim.None? {
      QuietAccounts([]);
    } else {
      var photos := script[0].claim.value;
      var batch := BatchFrom(photos);
      BatchAccounts(photos);
      ClaimAccounts(Leases(photos), batch.log, batch.summary, |photos|);
      if photos != [] && !batch.stop {
        var rest := DrainFrom(script[1..]);
        EveryClaimIsAccounted(script[1..]);
        AccountsAdd([Claimed(Leases(photos))] + batch.log, rest.log, batch.summary.(claimed := |photos|), rest.summary,
                    |photos|, rest.summary.claimed);
      }
    }
  }

  // ----- What happens to one lease -----

  predicate About(e: Event, l: Lease) {
    !e.SawShutdown? && !e.Claimed? && e.lease == l
  }

  /** The lease's own events, in order. */
  function Story(log: seq<Event>, l: Lease): seq<Event> {
    if log == [] then [] else (if About(log[0], l) then [log[0]] else []) + Story(log[1..], l)
  }

  /** Handed back untouched, skipped, failed, interrupted, or sent as complete;
      each but the skipped one ends in its only complete-or-fail request. */
  predicate Settled(s: seq<Event>, l: Lease) {
    || s == [Interrupt(l)]
    || s == [Renewed(l, false)]
    || s == [Renewed(l, true), Downloaded(l, false), Failed(l, EngineError)]
    || s == [Renewed(l, true), Downloaded(l, true), Processed(l, false), Failed(l, EngineError)]
    || s == [Renewed(l, true), Downloaded(l, true), Processed(l, true), Interrupt(l)]
    || s == [Renewed(l, true), Downloaded(l, true), Processed(l, true), Completed(l, true)]
    || s == [Renewed(l, true), Downloaded(l, true), Processed(l, true), Completed(l, false)]
  }

  lemma {:induction false} StoryAppends(a: seq<Event>, b: seq<Event>, l: Lease)
    ensures Story(a + b, l) == Story(a, l) + Story(b, l)
    decreases |a|
  {
    if a == [] {
      assert a + b == b;
    } else {
      assert (a + b)[1..] == a[1..] + b;
      StoryAppends(a[1..], b, l);
    }
  }

  lemma {:induction false} StoryOfOthers(log: seq<Event>, l: Lease)
    requires forall i :: 0 <= i < |log| ==> !About(log[i], l)
    ensures Story(log, l) == []
  {
    if log != [] {
      StoryOfOthers(log[1..], l);
    }
  }

  lemma {:induction false} StoryOfOwn(log: seq<Event>, l: Lease)
    requires forall i :: 0 <= i < |log| ==> About(log[i], l)
    ensures Story(log, l) == log
  {
    if log != [] {
      StoryOfOwn(log[1..], l);
    }
  }

  lemma HandledStory(l: Lease, a: Answers)
    ensures Settled(Story(Handled(l, a).log, l), l)
  {
    var log := Handled(l, a).log;
    if a.renewed && a.downloaded && a.processed && a.stopAfter {
      StoryOfOwn(log[..3], l);
      StoryOfOwn(log[4..], l);
      StoryOfOthers([log[3]], l);
      StoryAppends(log[..3], [log[3]], l);
      StoryAppends(log[..3] + [log[3]], log[4..], l);
      assert log == log[..3] + [log[3]] + log[4..];
    } else {
      StoryOfOwn(log, l);
    }
  }

  predicate NoRepeat(leases: seq<Lease>) {
    forall i, j :: 0 <= i < j < |leases| ==> leases[i] != leases[j]
  }

  lemma HandledOther(l: Lease, a: Answers, other: Lease)
    requires l != other
    ensures Story(Handled(l, a).log, other) == []
  {
    StoryOfOthers(Handled(l, a).log, other);
  }

  lemma {:induction false} ReleasedStory(photos: seq<(Lease, Answers)>, l: Lease)
    requires NoRepeat(Leases(photos))
    ensures Story(Released(photos), l) == if l in Leases(photos) then [Interrupt(l)] else []
  {
    if photos != [] {
      assert Released(photos)[1..] == Released(photos[1..]);
      TailLeases(photos);
      ReleasedStory(photos[1..], l);
    }
  }

  lemma TailLeases(photos: seq<(Lease, Answers)>)
    requires photos != []
    ensures Leases(photos) == [photos[0].0] + Leases(photos[1..])
    ensures NoRepeat(Leases(photos)) ==> NoRepeat(Leases(photos[1..])) && photos[0].0 !in Leases(photos[1..])
  {
    var tail := Leases(photos[1..]);
    assert Leases(photos) == [photos[0].0] + tail;
    if NoRepeat(Leases(photos)) {
      PrefixNoRepeat([photos[0].0], tail);
      assert photos[0].0 in [photos[0].0];
    }
  }

  lemma {:induction false} BatchStory(photos: seq<(Lease, Answers)>, l: Lease)
    requires NoRepeat(Leases(photos))
    ensures var s := Story(BatchFrom(photos).log, l);
            if l in Leases(photos) then Settled(s, l) else s == []
  {
    if photos == [] {
    } else if photos[0].1.stopBefore {
      StoryOfOthers([SawShutdown], l);
      StoryAppends([SawShutdown], Released(photos), l);
      ReleasedStory(photos, l);
    } else {
      var (head, a) := photos[0];
      var first := Handled(head, a);
      TailLeases(photos);
      HandledStory(head, a);
      if head != l {
        HandledOther(head, a, l);
      }
      ReleasedStory(photos[1..], l);
      BatchStory(photos[1..], l);
      StoryAppends(first.log, if first.stop then Released(photos[1..]) else BatchFrom(photos[1..]).log, l);
    }
  }

  /** Every lease the drain claims, round by round. */
  function ClaimedLeases(script: seq<Round>): seq<Lease> {
    if script == [] || script[0].stopped || script[0].claim.None? then []
    else
      var photos := script[0].claim.value;
      if photos == [] || BatchFrom(photos).stop then Leases(photos)
      else Leases(photos) + ClaimedLeases(script[1..])
  }

  /** With fresh lease tokens, each claimed lease is settled in exactly one of
      the seven ways, and no other lease is touched; also when a later claim
      fails. */
  lemma {:induction false} EachLeaseIsSettledOnce(script: seq<Round>, l: Lease)
    requires NoRepeat(ClaimedLeases(script))
    ensures var s := Story(DrainFrom(script).log, l);
            if l in ClaimedLeases(script) then Settled(s, l) else s == []
  {
    hide Story, Settled, BatchFrom;
    if script == [] {
      StoryOfOthers([Claimed([])], l);
    } else if script[0].stopped {
      StoryOfOthers([SawShutdown], l);
    } else if script[0].claim.None? {
      StoryOfOthers([], l);
    } else {
      var photos := script[0].claim.value;
      var rest := if photos == [] || BatchFrom(photos).stop then [] else ClaimedLeases(script[1..]);
      assert ClaimedLeases(script) == Leases(photos) + rest;
      PrefixNoRepeat(Leases(photos), rest);
      ClaimStory(photos, l);
      if photos != [] && !BatchFrom(photos).stop {
        EachLeaseIsSettledOnce(script[1..], l);
        var (now, later) := ([Claimed(Leases(photos))] + BatchFrom(photos).log, DrainFrom(script[1..]).log);
        StoryAppends(now, later, l);
        assert [] + Story(later, l) == Story(later, l) && Story(now, l) + [] == Story(now, l);
      }
    }
  }

  lemma ClaimStory(photos: seq<(Lease, Answers)>, l: Lease)
    requires NoRepeat(Leases(photos))
    ensures var s := Story([Claimed(Leases(photos))] + BatchFrom(photos).log, l);
            if l in Leases(photos) then Settled(s, l) else s == []
  {
    var head := [Claimed(Leases(photos))];
    StoryOfOthers(head, l);
    BatchStory(photos, l);
    StoryAppends(head, BatchFrom(photos).log, l);
    assert [] + Story(BatchFrom(photos).log, l) == Story(BatchFrom(photos).log, l);
  }

  lemma PrefixNoRepeat(a: seq<Lease>, b: seq<Lease>)
    requires NoRepeat(a + b)
    ensures NoRepeat(a) && NoRepeat(b) && forall l :: l in a ==> l !in b
  {
    assert forall i :: 0 <= i < |a| ==> (a + b)[i] == a[i];
    assert forall i :: 0 <= i < |b| ==> (a + b)[|a| + i] == b[i];
  }

  /** The summary's first counter is the number of claimed leases. */
  lemma {:induction false} ClaimsAreCounted(script: seq<Round>)
    ensures DrainFrom(script).summary.claimed == |ClaimedLeases(script)|
  {
    if script != [] && !script[0].stopped && script[0].claim.Some? {
      BatchClaimsNothing(script[0].claim.value);
      ClaimsAreCounted(script[1..]);
    }
  }
}
