/** The locks of the camera service: any number of threads run the button
    loop's, the admin page's and the preview's operations
    (device/src/main.rs, device/src/lab.rs). The locks are not reentrant. Locks
    held only around a field access are left out. */
module ServiceLocks {

  datatype Lock = OperationLock | CameraLock | LedLock

  datatype Instruction =
    | Acquire(lock: Lock)
    | Release(lock: Lock)
    | StartUpload
    | FinishUpload
    | SetTestMode(on: bool)

  type Script = seq<Instruction>

  // ----- The operations, lock by lock -----

  datatype Capture = CameraFailed | PhotoFailed | UploadFailed | Uploaded

  datatype Operation =
    | RetryLoop(uploads: nat, ledTest: bool)
    | ButtonCapture(outcome: Capture)
    | AdminCapture(outcome: Capture)
    | LabCapture(settingsValid: bool)
    | RetryUploads(uploads: nat, localOnly: bool)
    | TestLed(known: bool)
    | SaveSettings(valid: bool, testMode: bool)
    | Preview

  function With(lock: Lock, body: Script): Script {
    [Acquire(lock)] + body + [Release(lock)]
  }

  const BLINK: Script := With(LedLock, [])

  /** Whether a started upload sends anything is decided when it starts. */
  function Uploads(n: nat): Script {
    if n == 0 then [] else [StartUpload, FinishUpload] + Uploads(n - 1)
  }

  /** The camera stays locked through the countdown. */
  function Shoot(outcome: Capture): Script {
    With(CameraLock, if outcome.CameraFailed? then [] else BLINK)
  }

  function ButtonBody(outcome: Capture): Script {
    match outcome
    case CameraFailed => Shoot(outcome) + BLINK
    case PhotoFailed => Shoot(outcome) + BLINK
    case _ => Shoot(outcome) + BLINK + With(LedLock, Uploads(1)) + BLINK
  }

  function AdminBody(outcome: Capture): Script {
    match outcome
    case CameraFailed => Shoot(outcome)
    case PhotoFailed => Shoot(outcome) + BLINK + BLINK
    case UploadFailed => Shoot(outcome) + BLINK + With(LedLock, Uploads(1)) + BLINK + BLINK
    case Uploaded => Shoot(outcome) + BLINK + With(LedLock, Uploads(1)) + BLINK
  }

  /** Here the LEDs stay locked while the camera is. */
  function LabBody(settingsValid: bool): Script {
    BLINK + With(LedLock, if settingsValid then With(CameraLock, []) else []) + BLINK
  }

  function Body(op: Operation): Script {
    match op
    case RetryLoop(n, ledTest) => Uploads(n) + (if ledTest then [] else BLINK)
    case ButtonCapture(outcome) => ButtonBody(outcome)
    case AdminCapture(outcome) => AdminBody(outcome)
    case LabCapture(settingsValid) => LabBody(settingsValid)
    case RetryUploads(n, _) => BLINK + With(LedLock, Uploads(n)) + BLINK
    case TestLed(known) => if known then BLINK else []
    case SaveSettings(valid, testMode) => if valid then [SetTestMode(testMode)] else []
    case Preview => With(CameraLock, [])
  }

  function ScriptOf(op: Operation): Script {
    if op.Preview? then Body(op)
    else if op.RetryUploads? && op.localOnly then []
    else With(OperationLock, Body(op))
  }

  // ----- What each operation does -----

  function Times(script: Script, i: Instruction): nat {
    multiset(script)[i]
  }

  lemma TimesJoined(a: Script, b: Script, i: Instruction)
    ensures Times(a + b, i) == Times(a, i) + Times(b, i)
  {
  }

  lemma TimesOnce(a: Instruction, i: Instruction)
    ensures Times([a], i) == if a == i then 1 else 0
  {
  }

  lemma TimesWith(lock: Lock, body: Script, i: Instruction)
    ensures Times(With(lock, body), i) == Times(body, i) + (if i in {Acquire(lock), Release(lock)} then 1 else 0)
  {
  }

  lemma {:induction false} TimesUploads(n: nat, i: Instruction)
    ensures Times(Uploads(n), i) == if i in {StartUpload, FinishUpload} then n else 0
  {
    if n > 0 {
      TimesUploads(n - 1, i);
      TimesJoined([StartUpload, FinishUpload], Uploads(n - 1), i);
    }
  }

  /** The blocks operations are made of. */
  lemma TimesBlocks(outcome: Capture, n: nat, i: Instruction)
    ensures var (camera, leds) := (i in {Acquire(CameraLock), Release(CameraLock)}, i in {Acquire(LedLock), Release(LedLock)});
            && Times([], i) == 0
            && Times(BLINK, i) == (if leds then 1 else 0)
            && Times(Shoot(outcome), i) == (if camera || (leds && !outcome.CameraFailed?) then 1 else 0)
            && Times(With(LedLock, Uploads(n)), i) == (if leds then 1 else if i in {StartUpload, FinishUpload} then n else 0)
  {
    hide With, Uploads;
    assert Times([], i) == 0;
    TimesWith(LedLock, [], i);
    TimesWith(CameraLock, if outcome.CameraFailed? then [] else BLINK, i);
    TimesUploads(n, i);
    TimesWith(LedLock, Uploads(n), i);
  }

  lemma TimesCaptured(outcome: Capture, i: Instruction)
    ensures var (camera, leds) := (i in {Acquire(CameraLock), Release(CameraLock)}, i in {Acquire(LedLock), Release(LedLock)});
            var sends := i in {StartUpload, FinishUpload} && outcome in {UploadFailed, Uploaded};
            && Times(ButtonBody(outcome), i) ==
               (if camera || sends then 1
                else if !leds then 0
                else match outcome case CameraFailed => 1 case PhotoFailed => 2 case UploadFailed => 4 case Uploaded => 4)
            && Times(AdminBody(outcome), i) ==
               (if camera || sends then 1
                else if !leds then 0
                else match outcome case CameraFailed => 0 case PhotoFailed => 3 case UploadFailed => 5 case Uploaded => 4)
  {
    hide With, Uploads, Shoot, Times;
    TimesBlocks(outcome, 1, i);
    var (shoot, send) := (Shoot(outcome), With(LedLock, Uploads(1)));
    TimesJoined(shoot, BLINK, i);
    TimesJoined(shoot + BLINK, BLINK, i);
    TimesJoined(shoot + BLINK, send, i);
    TimesJoined(shoot + BLINK + send, BLINK, i);
    TimesJoined(shoot + BLINK + send + BLINK, BLINK, i);
  }

  /** What each operation does, however it ends. A photo is sent by a capture
      that gets as far as its upload, and by a retry for every queued photo, the
      admin page's in local mode excepted. The camera is taken by a capture, by a
      lab capture whose settings pass, and by a preview. The lights are taken for
      the countdown, before and during an upload or a lab capture, and for what
      came of it. Settings that pass set the mode, and nothing else does. */
  lemma ScriptDoes(op: Operation, i: Instruction)
    ensures i in {StartUpload, FinishUpload} ==>
              Times(ScriptOf(op), i) ==
                match op
                case RetryLoop(n, _) => n
                case ButtonCapture(outcome) => (if outcome in {UploadFailed, Uploaded} then 1 else 0)
                case AdminCapture(outcome) => (if outcome in {UploadFailed, Uploaded} then 1 else 0)
                case RetryUploads(n, localOnly) => (if localOnly then 0 else n)
                case _ => 0
    ensures i in {Acquire(CameraLock), Release(CameraLock)} ==>
              Times(ScriptOf(op), i) ==
                if op.ButtonCapture? || op.AdminCapture? || op == LabCapture(true) || op.Preview? then 1 else 0
    ensures i in {Acquire(LedLock), Release(LedLock)} ==>
              Times(ScriptOf(op), i) ==
                match op
                case RetryLoop(_, ledTest) => (if ledTest then 0 else 1)
                case ButtonCapture(outcome) => (if outcome.CameraFailed? then 1 else if outcome.PhotoFailed? then 2 else 4)
                case AdminCapture(outcome) =>
                  (match outcome case CameraFailed => 0 case PhotoFailed => 3 case UploadFailed => 5 case Uploaded => 4)
                case LabCapture(_) => 3
                case RetryUploads(_, localOnly) => (if localOnly then 0 else 3)
                case TestLed(known) => (if known then 1 else 0)
                case _ => 0
    ensures i in {Acquire(OperationLock), Release(OperationLock)} ==>
              Times(ScriptOf(op), i) == if op.Preview? || (op.RetryUploads? && op.localOnly) then 0 else 1
    ensures i.SetTestMode? ==> Times(ScriptOf(op), i) == if op == SaveSettings(true, i.on) then 1 else 0
  {
    hide Times, With, Uploads, ButtonBody, AdminBody, Shoot;
    TimesWith(OperationLock, Body(op), i);
    var n := if op.RetryLoop? || op.RetryUploads? then op.uploads else 0;
    TimesBlocks(Uploaded, n, i);
    TimesUploads(n, i);
    match op {
      case RetryLoop(_, ledTest) => TimesJoined(Uploads(n), if ledTest then [] else BLINK, i);
      case ButtonCapture(outcome) => TimesCaptured(outcome, i);
      case AdminCapture(outcome) => TimesCaptured(outcome, i);
      case LabCapture(valid) =>
        var middle := if valid then With(CameraLock, []) else [];
        TimesWith(CameraLock, [], i);
        TimesWith(LedLock, middle, i);
        TimesJoined(BLINK, With(LedLock, middle), i);
        TimesJoined(BLINK + With(LedLock, middle), BLINK, i);
      case RetryUploads(_, _) =>
        TimesJoined(BLINK, With(LedLock, Uploads(n)), i);
        TimesJoined(BLINK + With(LedLock, Uploads(n)), BLINK, i);
      case TestLed(_) =>
      case SaveSettings(valid, on) => TimesOnce(SetTestMode(on), i);
      case Preview => TimesWith(CameraLock, [], i);
    }
  }

  // ----- The machine -----

  /** `sending` is an upload in flight; in test mode one starts and ends
      without sending. */
  datatype Thread = Thread(rest: Script, held: set<Lock>, uploading: bool, sending: bool)

  datatype State = State(threads: seq<Thread>, testMode: bool)

  datatype Step = Begin(thread: nat, op: Operation) | Advance(thread: nat)

  predicate Free(s: State, lock: Lock) {
    forall t :: 0 <= t < |s.threads| ==> lock !in s.threads[t].held
  }

  predicate Enabled(s: State, step: Step) {
    && step.thread < |s.threads|
    && var rest := s.threads[step.thread].rest;
       if step.Begin? then rest == [] else rest != [] && (rest[0].Acquire? ==> Free(s, rest[0].lock))
  }

  /** A thread after its next instruction. */
  function Advanced(t: Thread, testMode: bool): Thread
    requires t.rest != []
  {
    var after := t.(rest := t.rest[1..]);
    match t.rest[0]
    case Acquire(l) => after.(held := t.held + {l})
    case Release(l) => after.(held := t.held - {l})
    case StartUpload => after.(uploading := true, sending := !testMode)
    case FinishUpload => after.(uploading := false, sending := false)
    case SetTestMode(_) => after
  }

  function Next(s: State, step: Step): State
    requires Enabled(s, step)
  {
    var t := s.threads[step.thread];
    if step.Begin? then s.(threads := s.threads[step.thread := t.(rest := ScriptOf(step.op))])
    else
      State(s.threads[step.thread := Advanced(t, s.testMode)],
            if t.rest[0].SetTestMode? then t.rest[0].on else s.testMode)
  }

  predicate Runs(s: State, steps: seq<Step>)
    decreases |steps|
  {
    steps == [] || (Enabled(s, steps[0]) && Runs(Next(s, steps[0]), steps[1..]))
  }

  function After(s: State, steps: seq<Step>): State
    requires Runs(s, steps)
    decreases |steps|
  {
    if steps == [] then s else After(Next(s, steps[0]), steps[1..])
  }

  /** Any number of idle threads. */
  function Idle(n: nat, testMode: bool): State {
    State(seq(n, i => Thread([], {}, false, false)), testMode)
  }

  /** Settings that pass, saved while no operation is under way, are in force
      when the thread is done, and nothing else has changed. */
  lemma SavedSettingsApply(s: State, t: nat, on: bool)
    requires t < |s.threads| && s.threads[t].rest == [] && s.threads[t].held == {} && Free(s, OperationLock)
    ensures var steps := [Begin(t, SaveSettings(true, on)), Advance(t), Advance(t), Advance(t)];
            Runs(s, steps) && After(s, steps) == s.(testMode := on)
  {
    var op := SaveSettings(true, on);
    var steps := [Begin(t, op), Advance(t), Advance(t), Advance(t)];
    var script := [Acquire(OperationLock), SetTestMode(on), Release(OperationLock)];
    assert ScriptOf(op) == script;
    var idle := s.threads[t];
    var s1 := Next(s, steps[0]);
    assert s1.threads[t] == idle.(rest := script);
    var s2 := Next(s1, Advance(t));
    assert s2.threads[t] == idle.(rest := script[1..], held := {OperationLock});
    var s3 := Next(s2, Advance(t));
    assert s3.threads[t] == idle.(rest := script[2..], held := {OperationLock}) && s3.testMode == on;
    var s4 := Next(s3, Advance(t));
    assert {OperationLock} - {OperationLock} == {} && script[3..] == [];
    assert s4.threads[t] == idle && s4.testMode == on;
    assert s4.threads == s.threads;
    var (three, two, one) := (steps[1..], steps[2..], steps[3..]);
    assert one == [Advance(t)] && one[1..] == [] && Runs(s4, []) && After(s4, []) == s4;
    assert Runs(s3, one) && After(s3, one) == s4;
    assert two[1..] == one && Runs(s2, two) && After(s2, two) == s4;
    assert three[1..] == two && Runs(s1, three) && After(s1, three) == s4;
  }

  // ----- The discipline the scripts follow -----

  /** From `held`, the script ends holding `end`. The LEDs are taken only under
      the operation lock; the camera under it or alone. Uploads and mode changes
      happen under it too, and never at once. */
  predicate Gated(rest: Script, held: set<Lock>, uploading: bool, end: set<Lock>) {
    if rest == [] then held == end && !uploading
    else
      match rest[0]
      case Acquire(l) =>
        && l !in held
        && (l.OperationLock? ==> held == {}) && (l.LedLock? ==> OperationLock in held)
        && (l.CameraLock? ==> OperationLock in held || held == {})
        && Gated(rest[1..], held + {l}, uploading, end)
      case Release(l) =>
        && l in held && (l.OperationLock? ==> held == {l} && !uploading)
        && Gated(rest[1..], held - {l}, uploading, end)
      case StartUpload => OperationLock in held && !uploading && Gated(rest[1..], held, true, end)
      case FinishUpload => uploading && Gated(rest[1..], held, false, end)
      case SetTestMode(_) => OperationLock in held && !uploading && Gated(rest[1..], held, uploading, end)
  }

  lemma {:induction false} GatedAppend(a: Script, b: Script, held: set<Lock>, up: bool, mid: set<Lock>, end: set<Lock>)
    requires Gated(a, held, up, mid) && Gated(b, mid, false, end)
    ensures Gated(a + b, held, up, end)
    decreases |a|
  {
    if a == [] {
      assert a + b == b;
    } else {
      var next := match a[0] case Acquire(l) => held + {l} case Release(l) => held - {l} case _ => held;
      var nextUp := if a[0].StartUpload? then true else if a[0].FinishUpload? then false else up;
      GatedAppend(a[1..], b, next, nextUp, mid, end);
      assert (a + b)[1..] == a[1..] + b;
    }
  }

  /** Taking a lock around a gated body. */
  lemma GatedWith(lock: Lock, body: Script, held: set<Lock>)
    requires lock !in held && Gated(body, held + {lock}, false, held + {lock})
    requires lock.OperationLock? ==> held == {}
    requires lock.LedLock? ==> OperationLock in held
    requires lock.CameraLock? ==> OperationLock in held || held == {}
    ensures Gated(With(lock, body), held, false, held)
  {
    var inside := held + {lock};
    assert inside - {lock} == held;
    assert [Release(lock)][1..] == [];
    assert Gated([Release(lock)], inside, false, held);
    GatedAppend(body, [Release(lock)], inside, false, inside, held);
    assert With(lock, body)[1..] == body + [Release(lock)];
  }

  lemma {:induction false} UploadsGated(n: nat, held: set<Lock>)
    requires OperationLock in held
    ensures Gated(Uploads(n), held, false, held)
  {
    if n > 0 {
      UploadsGated(n - 1, held);
      assert Uploads(n)[1..][1..] == Uploads(n - 1);
    }
  }

  const GATE := {OperationLock}

  lemma BlocksGated(n: nat)
    ensures Gated(BLINK, GATE, false, GATE)
    ensures Gated(BLINK, GATE + {CameraLock}, false, GATE + {CameraLock})
    ensures Gated(Uploads(n), GATE, false, GATE)
    ensures Gated(With(LedLock, Uploads(n)), GATE, false, GATE)
    ensures Gated(With(LedLock, []), GATE, false, GATE)
    ensures Gated(With(LedLock, With(CameraLock, [])), GATE, false, GATE)
  {
    GatedWith(LedLock, [], GATE);
    GatedWith(LedLock, [], GATE + {CameraLock});
    UploadsGated(n, GATE);
    UploadsGated(n, GATE + {LedLock});
    GatedWith(LedLock, Uploads(n), GATE);
    GatedWith(CameraLock, [], GATE + {LedLock});
    GatedWith(LedLock, With(CameraLock, []), GATE);
  }

  lemma ShootGated(outcome: Capture)
    ensures Gated(Shoot(outcome), GATE, false, GATE)
  {
    BlocksGated(0);
    GatedWith(CameraLock, if outcome.CameraFailed? then [] else BLINK, GATE);
  }

  lemma Join(a: Script, b: Script)
    requires Gated(a, GATE, false, GATE) && Gated(b, GATE, false, GATE)
    ensures Gated(a + b, GATE, false, GATE)
  {
    GatedAppend(a, b, GATE, false, GATE, GATE);
  }

  lemma CapturesGated(outcome: Capture)
    ensures Gated(ButtonBody(outcome), GATE, false, GATE) && Gated(AdminBody(outcome), GATE, false, GATE)
  {
    hide Gated, Shoot, With, Uploads;
    var (shoot, send) := (Shoot(outcome), With(LedLock, Uploads(1)));
    ShootGated(outcome);
    BlocksGated(1);
    Join(shoot, BLINK);
    Join(shoot + BLINK, BLINK);
    Join(shoot + BLINK, send);
    Join(shoot + BLINK + send, BLINK);
    Join(shoot + BLINK + send + BLINK, BLINK);
  }

  /** Every operation keeps the discipline, whatever fails in it. */
  lemma ScriptsAreGated(op: Operation)
    ensures Gated(ScriptOf(op), {}, false, {})
  {
    if op.Preview? {
      GatedWith(CameraLock, [], {});
    } else {
      BodyGated(op);
      assert {} + GATE == GATE;
      GatedWith(OperationLock, Body(op), {});
    }
  }

  lemma BodyGated(op: Operation)
    requires !op.Preview?
    ensures Gated(Body(op), GATE, false, GATE)
  {
    match op {
      case ButtonCapture(outcome) => CapturesGated(outcome);
      case AdminCapture(outcome) => CapturesGated(outcome);
      case RetryLoop(n, ledTest) =>
        BlocksGated(n);
        Join(Uploads(n), if ledTest then [] else BLINK);
      case LabCapture(valid) =>
        BlocksGated(0);
        var middle := With(LedLock, if valid then With(CameraLock, []) else []);
        Join(BLINK, middle);
        Join(BLINK + middle, BLINK);
      case RetryUploads(n, _) =>
        BlocksGated(n);
        Join(BLINK, With(LedLock, Uploads(n)));
        Join(BLINK + With(LedLock, Uploads(n)), BLINK);
      case TestLed(_) => BlocksGated(0);
      case SaveSettings(_, _) =>
    }
  }

  // ----- What every interleaving keeps -----

  predicate ThreadInv(t: Thread, testMode: bool) {
    && Gated(t.rest, t.held, t.uploading, {})
    && (LedLock in t.held ==> OperationLock in t.held)
    && (t.uploading ==> OperationLock in t.held)
    && (t.sending ==> t.uploading && !testMode)
  }

  ghost predicate Inv(s: State) {
    && (forall t :: 0 <= t < |s.threads| ==> ThreadInv(s.threads[t], s.testMode))
    && (forall t, u :: 0 <= t < u < |s.threads| ==> s.threads[t].held !! s.threads[u].held)
  }

  lemma AdvanceKeepsThread(t: Thread, testMode: bool)
    requires ThreadInv(t, testMode) && t.rest != []
    ensures var mode := if t.rest[0].SetTestMode? then t.rest[0].on else testMode;
            ThreadInv(Advanced(t, testMode), mode)
    ensures t.rest[0].SetTestMode? ==> OperationLock in t.held
    ensures Advanced(t, testMode).held <= t.held + (if t.rest[0].Acquire? then {t.rest[0].lock} else {})
  {
  }

  lemma StepKeepsInv(s: State, step: Step)
    requires Inv(s) && Enabled(s, step)
    ensures Inv(Next(s, step))
  {
    var (i, n) := (step.thread, Next(s, step));
    var t := s.threads[i];
    assert ThreadInv(t, s.testMode);
    if step.Begin? {
      ScriptsAreGated(step.op);
    } else {
      AdvanceKeepsThread(t, s.testMode);
    }
    hide Gated, ScriptOf;
    forall u | 0 <= u < |n.threads|
      ensures ThreadInv(n.threads[u], n.testMode)
    {
      assert ThreadInv(s.threads[u], s.testMode);
      if u != i && s.threads[u].sending {
        assert OperationLock !in t.held;
      }
    }
  }

  lemma {:induction false} RunKeepsInv(s: State, steps: seq<Step>)
    requires Inv(s) && Runs(s, steps)
    ensures Inv(After(s, steps))
    decreases |steps|
  {
    hide Inv, Enabled, Next;
    if steps != [] {
      StepKeepsInv(s, steps[0]);
      RunKeepsInv(Next(s, steps[0]), steps[1..]);
    }
  }

  lemma IdleKeepsInv(n: nat, testMode: bool)
    ensures Inv(Idle(n, testMode))
  {
  }

  // ----- Waiting -----

  /** Thread `t` wants a lock that `u` holds. */
  predicate WaitsFor(s: State, t: nat, u: nat) {
    && t < |s.threads| && u < |s.threads|
    && s.threads[t].rest != [] && s.threads[t].rest[0].Acquire? && s.threads[t].rest[0].lock in s.threads[u].held
  }

  /** Holders of the camera are waited for last, then holders of the operation
      lock, then everybody else. */
  function Rank(s: State, t: nat): nat
    requires t < |s.threads|
  {
    if CameraLock in s.threads[t].held then 0 else if OperationLock in s.threads[t].held then 1 else 2
  }

  lemma Apart(s: State, t: nat, u: nat)
    requires Inv(s) && t < |s.threads| && u < |s.threads| && t != u
    ensures s.threads[t].held !! s.threads[u].held
  {
    if t < u {
      assert s.threads[t].held !! s.threads[u].held;
    } else {
      assert s.threads[u].held !! s.threads[t].held;
    }
  }

  /** Every wait points to a lower rank, and nobody ever waits for the LEDs. */
  lemma WaitsPointDown(s: State, t: nat, u: nat)
    requires Inv(s) && WaitsFor(s, t, u)
    ensures Rank(s, u) < Rank(s, t) && !s.threads[t].rest[0].lock.LedLock?
  {
    assert ThreadInv(s.threads[t], s.testMode) && ThreadInv(s.threads[u], s.testMode);
    if t != u {
      Apart(s, t, u);
    }
  }

  /** The wait-for graph has no cycle in any reachable state. */
  lemma {:induction false} WaitChainsDescend(s: State, chain: seq<nat>)
    requires Inv(s) && |chain| >= 2
    requires forall i :: 0 <= i < |chain| - 1 ==> WaitsFor(s, chain[i], chain[i + 1])
    ensures chain[0] < |s.threads| && chain[|chain| - 1] < |s.threads|
    ensures Rank(s, chain[|chain| - 1]) < Rank(s, chain[0])
    decreases |chain|
  {
    assert WaitsFor(s, chain[0], chain[1]);
    WaitsPointDown(s, chain[0], chain[1]);
    if |chain| > 2 {
      var rest := chain[1..];
      forall i | 0 <= i < |rest| - 1
        ensures WaitsFor(s, rest[i], rest[i + 1])
      {
        assert WaitsFor(s, chain[i + 1], chain[i + 1 + 1]);
      }
      WaitChainsDescend(s, rest);
    }
  }

  lemma NoDeadlock(n: nat, testMode: bool, steps: seq<Step>, cycle: seq<nat>)
    requires Runs(Idle(n, testMode), steps)
    requires |cycle| >= 2 && cycle[0] == cycle[|cycle| - 1]
    ensures exists i :: 0 <= i < |cycle| - 1 && !WaitsFor(After(Idle(n, testMode), steps), cycle[i], cycle[i + 1])
  {
    var s := After(Idle(n, testMode), steps);
    IdleKeepsInv(n, testMode);
    RunKeepsInv(Idle(n, testMode), steps);
    if forall i :: 0 <= i < |cycle| - 1 ==> WaitsFor(s, cycle[i], cycle[i + 1]) {
      WaitChainsDescend(s, cycle);
      assert false;
    }
  }

  /** As long as some thread has work left, some thread can move. */
  lemma {:induction false} SomeThreadMoves(s: State, t: nat) returns (u: nat)
    requires Inv(s) && t < |s.threads| && s.threads[t].rest != []
    ensures Enabled(s, Advance(u))
    decreases Rank(s, t)
  {
    u := t;
    if !Enabled(s, Advance(t)) {
      var h: int :| 0 <= h < |s.threads| && s.threads[t].rest[0].lock in s.threads[h].held;
      WaitsPointDown(s, t, h);
      assert ThreadInv(s.threads[h], s.testMode);
      u := SomeThreadMoves(s, h);
    }
  }

  // ----- Test mode -----

  /** While test mode is on, nothing is being sent: not by an upload that
      started before the switch, nor by one that starts after it. */
  lemma NothingIsSentInTestMode(n: nat, testMode: bool, steps: seq<Step>, t: nat)
    requires Runs(Idle(n, testMode), steps) && t < |After(Idle(n, testMode), steps).threads|
    ensures var s := After(Idle(n, testMode), steps);
            && (s.testMode ==> !s.threads[t].sending)
            && (s.threads[t].sending ==>
                  forall u :: 0 <= u < |s.threads| && u != t ==> !s.threads[u].sending && OperationLock !in s.threads[u].held)
  {
    var s := After(Idle(n, testMode), steps);
    IdleKeepsInv(n, testMode);
    RunKeepsInv(Idle(n, testMode), steps);
    assert ThreadInv(s.threads[t], s.testMode);
    forall u | 0 <= u < |s.threads| && u != t && s.threads[t].sending
      ensures !s.threads[u].sending && OperationLock !in s.threads[u].held
    {
      Apart(s, t, u);
      assert ThreadInv(s.threads[u], s.testMode);
    }
  }

  /** Nobody else changes the mode during an operation, so a capture and its
      upload see the same one. */
  lemma ModeIsStableDuringOperation(s: State, step: Step, t: nat)
    requires Inv(s) && Enabled(s, step) && t < |s.threads| && OperationLock in s.threads[t].held && step.thread != t
    ensures Next(s, step).testMode == s.testMode && Next(s, step).threads[t] == s.threads[t]
  {
    assert ThreadInv(s.threads[step.thread], s.testMode);
    Apart(s, t, step.thread);
  }

  // ----- Why the operation lock is needed -----

  /** A script that leaves the operation lock out. */
  function Ungated(script: Script): Script {
    if script == [] then []
    else
      (if script[0] in {Acquire(OperationLock), Release(OperationLock)} then [] else [script[0]]) + Ungated(script[1..])
  }

  const CAMERA_FIRST: Script := [Acquire(CameraLock), Acquire(LedLock)]

  const LEDS_FIRST: Script := BLINK + [Acquire(LedLock), Acquire(CameraLock)]

  /** Without it, a button capture and a lab capture can wait for each other:
      one holds the camera and wants the LEDs, the other the reverse. */
  lemma UngatedCapturesDeadlock()
    ensures var a := Thread(Ungated(ScriptOf(ButtonCapture(Uploaded))), {}, false, false);
            var b := Thread(Ungated(ScriptOf(LabCapture(true))), {}, false, false);
            var (s, steps) := (State([a, b], false), [Advance(0), Advance(1), Advance(1), Advance(1)]);
            Runs(s, steps) && WaitsFor(After(s, steps), 0, 1) && WaitsFor(After(s, steps), 1, 0)
  {
    var x := ButtonCaptureOrder();
    var y := LabCaptureOrder();
    CrossedOrdersDeadlock(x, y);
  }

  lemma {:induction false} UngatedStart(script: Script, n: nat)
    requires n <= |script| && forall i :: 0 <= i < n ==> script[i] !in {Acquire(OperationLock), Release(OperationLock)}
    ensures Ungated(script) == script[..n] + Ungated(script[n..])
  {
    if n > 0 {
      UngatedStart(script[1..], n - 1);
      assert script[1..][..n - 1] == script[1..n] && script[1..][n - 1..] == script[n..];
      assert script[..n] == [script[0]] + script[1..n];
    }
  }

  lemma ButtonCaptureOrder() returns (rest: Script)
    ensures Ungated(ScriptOf(ButtonCapture(Uploaded))) == CAMERA_FIRST + rest
  {
    var script := ScriptOf(ButtonCapture(Uploaded));
    var body := script[1..];
    assert script[0] == Acquire(OperationLock) && body[0] == CAMERA_FIRST[0] && body[1] == CAMERA_FIRST[1];
    UngatedStart(body, 2);
    assert body[..2] == CAMERA_FIRST;
    rest := Ungated(body[2..]);
  }

  lemma LabCaptureOrder() returns (rest: Script)
    ensures Ungated(ScriptOf(LabCapture(true))) == LEDS_FIRST + rest
  {
    var script := ScriptOf(LabCapture(true));
    var body := script[1..];
    assert script[0] == Acquire(OperationLock) && body[0] == LEDS_FIRST[0] && body[1] == LEDS_FIRST[1];
    assert body[2] == LEDS_FIRST[2] && body[3] == LEDS_FIRST[3];
    UngatedStart(body, 4);
    assert body[..4] == LEDS_FIRST;
    rest := Ungated(body[4..]);
  }

  lemma CrossedOrdersDeadlock(x: Script, y: Script)
    ensures var (a, b) := (Thread(CAMERA_FIRST + x, {}, false, false), Thread(LEDS_FIRST + y, {}, false, false));
            var (s, steps) := (State([a, b], false), [Advance(0), Advance(1), Advance(1), Advance(1)]);
            Runs(s, steps) && WaitsFor(After(s, steps), 0, 1) && WaitsFor(After(s, steps), 1, 0)
  {
    var (a, b) := (Thread(CAMERA_FIRST + x, {}, false, false), Thread(LEDS_FIRST + y, {}, false, false));
    var (s, steps) := (State([a, b], false), [Advance(0), Advance(1), Advance(1), Advance(1)]);
    var s1 := Next(s, Advance(0));
    var s2 := Next(s1, Advance(1));
    var s3 := Next(s2, Advance(1));
    var s4 := Next(s3, Advance(1));
    assert steps[1..] == [Advance(1), Advance(1), Advance(1)] && steps[1..][1..] == [Advance(1), Advance(1)];
    assert steps[1..][1..][1..] == [Advance(1)] && steps[1..][1..][1..][1..] == [];
    assert After(s, steps) == s4;
    assert s4.threads[0].rest[0] == Acquire(LedLock) && CameraLock in s4.threads[0].held;
    assert s4.threads[1].rest[0] == Acquire(CameraLock) && LedLock in s4.threads[1].held;
  }
}
