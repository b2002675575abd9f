/** When an upload can still finish: one undisturbed retry from any reachable
    state of the protocol, and any continuation of a run. */
module UploadRetries {
  import opened Text
  import opened Calendar
  import opened Catalog
  import Timestamps
  import opened UploadFlow
  import opened UploadRuns

  // ----- One attempt and nothing else -----

  predicate OwnWork(k: Work, id: string, attempt: nat, now: int) {
    match k
    case ServeGrant(r, _, at) => r.id == id && r.attempt == attempt && at == now
    case StoreBody(r) => r.id == id && r.attempt == attempt
    case RegisterBody(r, _) => r.id == id && r.attempt == attempt
    case MarkBody(r) => r.id == id && r.attempt == attempt
    case ReadExpected(r) => r.id == id && r.attempt == attempt
    case ReadStored(r, _) => r.id == id && r.attempt == attempt
    case CheckReadable(r) => r.id == id && r.attempt == attempt
    case MarkComplete(r) => r.id == id && r.attempt == attempt
    case _ => false
  }

  /** A later step of the attempt: the camera's, or the server's for its requests. */
  predicate Own(s: Step, id: string, attempt: nat, bearer: Option<string>, now: int) {
    match s
    case SendBody(i, b) => i == id && b == bearer
    case SendComplete(i, b) => i == id && b == bearer
    case RemoveUploaded(i) => i == id
    case Serve(k) => OwnWork(k, id, attempt, now)
    case _ => false
  }

  /** A call of `upload` with one bearer token, served while the server's clock says
      `now`, and nothing else. */
  ghost predicate Retry(setup: Setup, w: World, id: string, bearer: Option<string>, now: int, rest: seq<Step>) {
    && Runs(setup, w, [BeginUpload(id, InQueue, bearer)] + rest)
    && forall s :: s in rest ==> Own(s, id, AttemptOf(w.cameras, id) + 1, bearer, now)
  }

  /** The token is let in, and the guard lets its holder reserve. */
  predicate GuardLets(v: Server, id: string, size: uint64, bearer: Option<string>) {
    PrincipalOf(v.access, bearer).Some? && !Blocked(v.rows, id, size, PrincipalOf(v.access, bearer).value)
  }

  /** The grant's tests: token, ID, metadata, guard, size. */
  predicate GrantPasses(setup: Setup, w: World, id: string, bearer: Option<string>, now: int)
    requires id in w.cameras.queue
  {
    var p := w.cameras.queue[id];
    && (p.sidecar.None? || setup.validSidecar(p.sidecar.value)) && Timestamps.ValidateCaptureId(id, now).Accepted?
    && GuardLets(w.server, id, |p.bytes|, bearer)
    && 0 < |p.bytes| <= MAX_PHOTO_BYTES
  }

  /** The store's: a local save whose temporary file is in the way fails. */
  predicate StorePasses(setup: Setup, v: Server, id: string) {
    setup.remote || id in v.objects || (id, v.pid) !in v.leftover
  }

  predicate Completable(setup: Setup, w: World, id: string, bearer: Option<string>, now: int)
    requires id in w.cameras.queue
  {
    GrantPasses(setup, w, id, bearer, now) && StorePasses(setup, w.server, id) && setup.decodes(w.cameras.queue[id].bytes)
  }

  // ----- If it can, it does -----

  ghost predicate Finishes(setup: Setup, w: World, steps: seq<Step>, id: string, bearer: Option<string>, now: int) {
    && Runs(setup, w, steps) && (forall s :: s in steps ==> Own(s, id, AttemptOf(w.cameras, id), bearer, now))
    && id !in After(setup, w, steps).cameras.queue
  }

  lemma FirstStep(setup: Setup, w: World, s: Step, rest: seq<Step>, id: string, bearer: Option<string>, now: int)
    requires Enabled(setup, w, s) && Own(s, id, AttemptOf(w.cameras, id), bearer, now)
    requires Finishes(setup, Next(setup, w, s), rest, id, bearer, now)
    ensures Finishes(setup, w, [s] + rest, id, bearer, now)
  {
    assert ([s] + rest)[1..] == rest;
    assert AttemptOf(Next(setup, w, s).cameras, id) == AttemptOf(w.cameras, id);
  }

  lemma GrantServed(setup: Setup, w: World, id: string, bearer: Option<string>, now: int, grant: Request)
    requires id in w.cameras.queue && GrantPasses(setup, w, id, bearer, now) && grant in w.sent
    requires var p := w.cameras.queue[id];
             grant == Grant(id, AttemptOf(w.cameras, id), |p.bytes|, p.sidecar, bearer)
    ensures var serve := Serve(ServeGrant(grant, None, now));
            var n := Next(setup, w, serve);
            && Enabled(setup, w, serve) && n.cameras == w.cameras && grant in n.accepted
            && n.server == w.server.(rows := n.server.rows) && GrantPasses(setup, n, id, bearer, now)
  {
    hide Timestamps.ValidateCaptureId, Timestamps.IdToTimestamp, StorageKey;
  }

  lemma GrantStage(setup: Setup, w: World, id: string, bearer: Option<string>, now: int) returns (steps: seq<Step>)
    requires Inv(setup, w) && id in w.cameras.queue && Completable(setup, w, id, bearer, now)
    requires var p := w.cameras.queue[id];
             Grant(id, AttemptOf(w.cameras, id), |p.bytes|, p.sidecar, bearer) in w.sent
    ensures Finishes(setup, w, steps, id, bearer, now)
  {
    var p := w.cameras.queue[id];
    var grant := Grant(id, AttemptOf(w.cameras, id), |p.bytes|, p.sidecar, bearer);
    var serve := Serve(ServeGrant(grant, None, now));
    hide Inv, Runs, After, Next, Enabled, Served, Blocked, Own, Timestamps.ValidateCaptureId;
    GrantServed(setup, w, id, bearer, now, grant);
    StepKeepsInv(setup, w, serve);
    steps := BodyStage(setup, Next(setup, w, serve), id, bearer, now, grant);
    OwnServe(serve.work, id, AttemptOf(w.cameras, id), bearer, now);
    FirstStep(setup, w, serve, steps, id, bearer, now);
    steps := [serve] + steps;
  }

  lemma OwnServe(k: Work, id: string, attempt: nat, bearer: Option<string>, now: int)
    requires OwnWork(k, id, attempt, now)
    ensures Own(Serve(k), id, attempt, bearer, now)
  {
  }

  lemma BodyStage(setup: Setup, w: World, id: string, bearer: Option<string>, now: int, grant: Request)
    returns (steps: seq<Step>)
    requires Inv(setup, w) && id in w.cameras.queue && setup.decodes(w.cameras.queue[id].bytes)
    requires grant in w.accepted && grant.Grant? && grant.id == id && grant.attempt == AttemptOf(w.cameras, id)
    requires GuardLets(w.server, id, |w.cameras.queue[id].bytes|, bearer) && StorePasses(setup, w.server, id)
    ensures Finishes(setup, w, steps, id, bearer, now)
  {
    hide Inv, Runs, After;
    var send := SendBody(id, bearer);
    assert Enabled(setup, w, send);
    StepKeepsInv(setup, w, send);
    var w1 := Next(setup, w, send);
    steps := StoreStage(setup, w1, id, bearer, now, Body(id, AttemptOf(w.cameras, id), w.cameras.queue[id].bytes, bearer));
    FirstStep(setup, w, send, steps, id, bearer, now);
    steps := [send] + steps;
  }

  lemma StoreStage(setup: Setup, w: World, id: string, bearer: Option<string>, now: int, body: Request)
    returns (steps: seq<Step>)
    requires Inv(setup, w) && id in w.cameras.queue && setup.decodes(w.cameras.queue[id].bytes)
    requires body == Body(id, AttemptOf(w.cameras, id), w.cameras.queue[id].bytes, bearer) && body in w.sent
    requires GuardLets(w.server, id, |w.cameras.queue[id].bytes|, bearer) && StorePasses(setup, w.server, id)
    ensures Finishes(setup, w, steps, id, bearer, now)
  {
    var store := Serve(StoreBody(body));
    var device := PrincipalOf(w.server.access, bearer).value;
    QueuedLooksLikeJpeg(setup, w, id);
    assert Enabled(setup, w, store);
    StepKeepsInv(setup, w, store);
    var w1 := Next(setup, w, store);
    hide LooksLikeJpeg, StorageKey;
    if setup.remote {
      assert body in w1.accepted;
      hide Inv;
      steps := CompleteStage(setup, w1, id, bearer, now, body);
    } else {
      ObjectIsQueued(setup, w1, id);
      assert Admitted(body, device) in w1.server.saved;
      hide Inv;
      steps := RegisterStage(setup, w1, id, bearer, now, body, device);
    }
    FirstStep(setup, w, store, steps, id, bearer, now);
    steps := [store] + steps;
  }

  lemma QueuedLooksLikeJpeg(setup: Setup, w: World, id: string)
    requires Inv(setup, w) && id in w.cameras.queue
    ensures LooksLikeJpeg(w.cameras.queue[id].bytes)
  {
  }

  lemma ObjectIsQueued(setup: Setup, w: World, id: string)
    requires Inv(setup, w) && id in w.cameras.queue && id in w.server.objects
    ensures w.server.objects[id] == w.cameras.queue[id].bytes
    ensures id in w.server.rows && w.server.rows[id].byteSize == Some(|w.cameras.queue[id].bytes|)
  {
    assert ObjectInv(w.cameras.committed, w.server, id);
    assert RowInv(setup, w.cameras.committed, w.server, id);
  }

  lemma RegisterStage(setup: Setup, w: World, id: string, bearer: Option<string>, now: int, body: Request,
                      device: Option<string>)
    returns (steps: seq<Step>)
    requires Inv(setup, w) && id in w.cameras.queue && !setup.remote && Admitted(body, device) in w.server.saved
    requires id in w.server.objects && setup.decodes(w.server.objects[id]) && setup.decodes(w.cameras.queue[id].bytes)
    requires body == Body(id, AttemptOf(w.cameras, id), w.cameras.queue[id].bytes, bearer)
    requires !Blocked(w.server.rows, id, |w.cameras.queue[id].bytes|, device) && PrincipalOf(w.server.access, bearer).Some?
    ensures Finishes(setup, w, steps, id, bearer, now)
  {
    hide LooksLikeJpeg, StorageKey, PrincipalOf;
    var register, mark := Serve(RegisterBody(body, device)), Serve(MarkBody(body));
    assert Enabled(setup, w, register);
    var w1 := Next(setup, w, register);
    assert body in w1.server.registered;
    var w2 := Next(setup, w1, mark);
    assert body in w2.accepted;
    hide Inv;
    StepKeepsInv(setup, w, register);
    StepKeepsInv(setup, w1, mark);
    steps := CompleteStage(setup, w2, id, bearer, now, body);
    FirstStep(setup, w1, mark, steps, id, bearer, now);
    FirstStep(setup, w, register, [mark] + steps, id, bearer, now);
    steps := [register] + ([mark] + steps);
  }

  lemma CompleteStage(setup: Setup, w: World, id: string, bearer: Option<string>, now: int, body: Request)
    returns (steps: seq<Step>)
    requires Inv(setup, w) && id in w.cameras.queue && setup.decodes(w.cameras.queue[id].bytes)
    requires body in w.accepted && body.Body? && body.id == id && body.attempt == AttemptOf(w.cameras, id)
    requires PrincipalOf(w.server.access, bearer).Some?
    ensures Finishes(setup, w, steps, id, bearer, now)
  {
    hide Inv, Runs, After, PrincipalOf;
    var send := SendComplete(id, bearer);
    assert Enabled(setup, w, send);
    StepKeepsInv(setup, w, send);
    var w1 := Next(setup, w, send);
    steps := CheckStage(setup, w1, id, bearer, now, Complete(id, AttemptOf(w.cameras, id), bearer));
    FirstStep(setup, w, send, steps, id, bearer, now);
    steps := [send] + steps;
  }

  lemma CheckStage(setup: Setup, w: World, id: string, bearer: Option<string>, now: int, r: Request)
    returns (steps: seq<Step>)
    requires Inv(setup, w) && id in w.cameras.queue && setup.decodes(w.cameras.queue[id].bytes)
    requires r == Complete(id, AttemptOf(w.cameras, id), bearer) && r in w.sent
    requires PrincipalOf(w.server.access, bearer).Some?
    ensures Finishes(setup, w, steps, id, bearer, now)
  {
    assert SentInv(setup, w.cameras, w.server, r);
    QueuedLooksLikeJpeg(setup, w, id);
    ObjectIsQueued(setup, w, id);
    var size := |w.cameras.queue[id].bytes|;
    var look, measure := Serve(ReadExpected(r)), Serve(ReadStored(r, size));
    assert Enabled(setup, w, look);
    var w1 := Next(setup, w, look);
    assert (r, size) in w1.server.expected;
    var w2 := Next(setup, w1, measure);
    assert r in w2.server.measured;
    hide Inv, LooksLikeJpeg;
    StepKeepsInv(setup, w, look);
    StepKeepsInv(setup, w1, measure);
    hide Runs, After, Served, Accepts;
    steps := ReadStage(setup, w2, id, bearer, now, r);
    FirstStep(setup, w1, measure, steps, id, bearer, now);
    FirstStep(setup, w, look, [measure] + steps, id, bearer, now);
    steps := [look] + ([measure] + steps);
  }

  lemma ReadStage(setup: Setup, w: World, id: string, bearer: Option<string>, now: int, r: Request)
    returns (steps: seq<Step>)
    requires Inv(setup, w) && id in w.cameras.queue && id in w.server.objects && setup.decodes(w.server.objects[id])
    requires r == Complete(id, AttemptOf(w.cameras, id), bearer) && r in w.server.measured
    ensures Finishes(setup, w, steps, id, bearer, now)
  {
    var check, mark, remove := Serve(CheckReadable(r)), Serve(MarkComplete(r)), RemoveUploaded(id);
    hide Inv, Marked;
    assert Enabled(setup, w, check);
    var w1 := Next(setup, w, check);
    assert Enabled(setup, w1, mark);
    var w2 := Next(setup, w1, mark);
    assert r in w2.accepted && Enabled(setup, w2, remove);
    var w3 := Next(setup, w2, remove);
    hide Served, Accepts, Next, Enabled, CanAct, CanServe;
    FirstStep(setup, w2, remove, [], id, bearer, now);
    FirstStep(setup, w1, mark, [remove] + [], id, bearer, now);
    FirstStep(setup, w, check, [mark] + ([remove] + []), id, bearer, now);
    steps := [check] + ([mark] + ([remove] + []));
  }

  /** The world once the attempt's grant request is on its way. */
  lemma Begun(setup: Setup, w: World, id: string, bearer: Option<string>)
    requires Inv(setup, w) && id in w.cameras.queue && w.cameras.queue[id].camera !in w.cameras.testMode
    ensures var begin := BeginUpload(id, InQueue, bearer);
            var (w1, p) := (Next(setup, w, begin), w.cameras.queue[id]);
            && Enabled(setup, w, begin) && Inv(setup, w1)
            && w1.server == w.server && w1.accepted == w.accepted
            && w1.cameras.queue == w.cameras.queue && w1.cameras.committed == w.cameras.committed
            && AttemptOf(w1.cameras, id) == AttemptOf(w.cameras, id) + 1
            && w1.sent == w.sent + {Grant(id, AttemptOf(w.cameras, id) + 1, |p.bytes|, p.sidecar, bearer)}
  {
    hide Inv;
    StepKeepsInv(setup, w, BeginUpload(id, InQueue, bearer));
  }

  /** From any reachable state, whatever was lost before, a retry that can
      finish does: the photo leaves the queue. */
  lemma RetryCompletes(setup: Setup, w: World, id: string, bearer: Option<string>, now: int) returns (rest: seq<Step>)
    requires Inv(setup, w) && id in w.cameras.queue && w.cameras.queue[id].camera !in w.cameras.testMode
    requires Completable(setup, w, id, bearer, now)
    ensures Retry(setup, w, id, bearer, now, rest)
    ensures id !in After(setup, w, [BeginUpload(id, InQueue, bearer)] + rest).cameras.queue
  {
    hide Inv, Enabled, Next, Own, Runs, After, GrantPasses, StorePasses;
    var begin := BeginUpload(id, InQueue, bearer);
    Begun(setup, w, id, bearer);
    var w1 := Next(setup, w, begin);
    CompletableAlike(setup, w, w1, id, bearer, now);
    hide Completable;
    rest := GrantStage(setup, w1, id, bearer, now);
    RunsFirst(setup, w, begin, rest);
  }

  lemma CompletableAlike(setup: Setup, w: World, v: World, id: string, bearer: Option<string>, now: int)
    requires id in w.cameras.queue && Completable(setup, w, id, bearer, now)
    requires v.server == w.server && v.cameras.queue == w.cameras.queue
    ensures Completable(setup, v, id, bearer, now)
  {
    hide Blocked, Timestamps.ValidateCaptureId;
  }

  // ----- If it cannot, it does not -----

  /** What the attempt's requests say of the state it started in. */
  predicate SentSoFar(setup: Setup, w: World, id: string, bearer: Option<string>, now: int, r: Request)
    requires id in w.cameras.queue
  {
    && r.bearer == bearer
    && (!r.Grant? ==> GrantPasses(setup, w, id, bearer, now))
    && (r.Complete? ==> StorePasses(setup, w.server, id))
  }

  predicate AcceptedSoFar(setup: Setup, w: World, id: string, bearer: Option<string>, now: int, r: Request)
    requires id in w.cameras.queue
  {
    GrantPasses(setup, w, id, bearer, now) && (!r.Grant? ==> StorePasses(setup, w.server, id))
  }

  /** What an attempt that started in `w` has got through by `v`. */
  ghost predicate Reached(setup: Setup, w: World, id: string, bearer: Option<string>, now: int, v: World)
    requires id in w.cameras.queue
  {
    && Inv(setup, v) && ReachedPhoto(setup, w, id, bearer, now, v.cameras)
    && ReachedSent(setup, w, id, bearer, now, v.sent) && ReachedAccepted(setup, w, id, bearer, now, v.accepted)
    && ReachedServer(setup, w, id, bearer, v.server)
  }

  predicate ReachedPhoto(setup: Setup, w: World, id: string, bearer: Option<string>, now: int, c: Cameras)
    requires id in w.cameras.queue
  {
    && AttemptOf(c, id) == AttemptOf(w.cameras, id) + 1
    && (id in c.queue ==> c.queue[id] == w.cameras.queue[id])
    && id in c.committed && c.committed[id] == w.cameras.queue[id]
    && (id in c.queue || Completable(setup, w, id, bearer, now))
  }

  predicate ReachedSent(setup: Setup, w: World, id: string, bearer: Option<string>, now: int, sent: set<Request>)
    requires id in w.cameras.queue
  {
    forall r :: r in sent && r.id == id && r.attempt == AttemptOf(w.cameras, id) + 1 ==>
      SentSoFar(setup, w, id, bearer, now, r)
  }

  predicate ReachedAccepted(setup: Setup, w: World, id: string, bearer: Option<string>, now: int, accepted: set<Request>)
    requires id in w.cameras.queue
  {
    forall r :: r in accepted && r.id == id && r.attempt == AttemptOf(w.cameras, id) + 1 ==>
      AcceptedSoFar(setup, w, id, bearer, now, r)
  }

  predicate ReachedServer(setup: Setup, w: World, id: string, bearer: Option<string>, v: Server)
    requires id in w.cameras.queue
  {
    var (t, size) := (AttemptOf(w.cameras, id) + 1, |w.cameras.queue[id].bytes|);
    && v.access == w.server.access
    && (forall a :: a in v.saved && a.request.id == id && a.request.attempt == t ==> StorePasses(setup, w.server, id))
    && (forall r :: r in v.registered && r.id == id && r.attempt == t ==> StorePasses(setup, w.server, id))
    && (!StorePasses(setup, w.server, id) ==> !StorePasses(setup, v, id))
    && (!GuardLets(w.server, id, size, bearer) ==> !GuardLets(v, id, size, bearer))
  }

  lemma ReachedFirst(setup: Setup, w: World, id: string, bearer: Option<string>, now: int)
    requires Inv(setup, w) && id in w.cameras.queue && w.cameras.queue[id].camera !in w.cameras.testMode
    ensures Reached(setup, w, id, bearer, now, Next(setup, w, BeginUpload(id, InQueue, bearer)))
  {
    Begun(setup, w, id, bearer);
    var v := Next(setup, w, BeginUpload(id, InQueue, bearer));
    OldRequestsAreOld(setup, w, id);
    CommittedAsQueued(setup, w, id);
    hide Inv, GrantPasses, Next;
  }

  lemma CommittedAsQueued(setup: Setup, w: World, id: string)
    requires Inv(setup, w) && id in w.cameras.queue
    ensures id in w.cameras.committed && w.cameras.committed[id] == w.cameras.queue[id]
  {
  }

  lemma OldRequestsAreOld(setup: Setup, w: World, id: string)
    requires Inv(setup, w)
    ensures forall r :: (r in w.sent || r in w.accepted || r in w.server.registered) && r.id == id ==>
              r.attempt <= AttemptOf(w.cameras, id)
    ensures forall a :: a in w.server.saved && a.request.id == id ==> a.request.attempt <= AttemptOf(w.cameras, id)
  {
    forall r | (r in w.sent || r in w.accepted || r in w.server.registered) && r.id == id
      ensures r.attempt <= AttemptOf(w.cameras, id)
    {
      if r in w.accepted {
        assert AcceptedInv(setup, w.cameras, w.sent, w.server, r);
      }
      assert SentInv(setup, w.cameras, w.server, r);
    }
    forall a | a in w.server.saved && a.request.id == id
      ensures a.request.attempt <= AttemptOf(w.cameras, id)
    {
      assert SentInv(setup, w.cameras, w.server, a.request);
    }
  }

  lemma ReachedNext(setup: Setup, w: World, id: string, bearer: Option<string>, now: int, v: World, s: Step)
    requires id in w.cameras.queue && Reached(setup, w, id, bearer, now, v)
    requires Enabled(setup, v, s) && Own(s, id, AttemptOf(w.cameras, id) + 1, bearer, now)
    ensures Reached(setup, w, id, bearer, now, Next(setup, v, s))
  {
    StepKeepsInv(setup, v, s);
    if s.Serve? {
      ReachedServe(setup, w, id, bearer, now, v, s.work);
    } else {
      ReachedAct(setup, w, id, bearer, now, v, s);
    }
  }

  /** The camera's part of an attempt: what it may send, what removal shows,
      and that nothing else about the photo moves. */
  lemma ActSends(setup: Setup, w: World, id: string, bearer: Option<string>, now: int, v: World, s: Step, r: Request)
    requires id in w.cameras.queue && Reached(setup, w, id, bearer, now, v)
    requires s.SendBody? || s.SendComplete?
    requires CanAct(v, s) && s.id == id && s.bearer == bearer && r in Sends(v.cameras, s)
    ensures SentSoFar(setup, w, id, bearer, now, r)
  {
    hide Inv, GrantPasses, StorePasses, Blocked, Completable, LooksLikeJpeg;
    var t := AttemptOf(v.cameras, id);
    if s.SendBody? {
      var g :| g in v.accepted && g.Grant? && g.id == id && g.attempt == t;
      assert AcceptedSoFar(setup, w, id, bearer, now, g);
    } else {
      var b :| b in v.accepted && b.Body? && b.id == id && b.attempt == t;
      assert AcceptedSoFar(setup, w, id, bearer, now, b);
    }
  }

  lemma RemovedIsCompletable(setup: Setup, w: World, id: string, bearer: Option<string>, now: int, v: World)
    requires id in w.cameras.queue && Reached(setup, w, id, bearer, now, v) && CanAct(v, RemoveUploaded(id))
    ensures Completable(setup, w, id, bearer, now)
  {
    RemovedIsHeld(setup, v, id);
    var r :| r in v.accepted && r.Complete? && r.id == id && r.attempt == AttemptOf(v.cameras, id);
    assert AcceptedSoFar(setup, w, id, bearer, now, r);
    hide Inv, GrantPasses, StorePasses, Blocked, SentSoFar, Grantable;
  }

  lemma ActMoves(v: World, s: Step, id: string)
    requires s.SendBody? || s.SendComplete? || s.RemoveUploaded?
    requires s.id == id
    ensures var n := Moved(v.cameras, s);
            && n.committed == v.cameras.committed && AttemptOf(n, id) == AttemptOf(v.cameras, id)
            && (id in n.queue ==> id in v.cameras.queue && n.queue[id] == v.cameras.queue[id])
            && (!s.RemoveUploaded? ==> n.queue == v.cameras.queue)
            && (s.RemoveUploaded? ==> Sends(v.cameras, s) == {})
  {
  }

  lemma ReachedAct(setup: Setup, w: World, id: string, bearer: Option<string>, now: int, v: World, s: Step)
    requires id in w.cameras.queue && Reached(setup, w, id, bearer, now, v)
    requires !s.Serve? && CanAct(v, s) && Own(s, id, AttemptOf(w.cameras, id) + 1, bearer, now)
    requires Inv(setup, Next(setup, v, s))
    ensures Reached(setup, w, id, bearer, now, Next(setup, v, s))
  {
    hide Inv, GrantPasses, StorePasses, Blocked, SentSoFar, AcceptedSoFar, Completable, Moved, Sends, CanAct, CanServe,
         Served, Accepts, OwnWork, LooksLikeJpeg;
    assert (s.SendBody? || s.SendComplete? || s.RemoveUploaded?) && s.id == id;
    ActMoves(v, s, id);
    if s.RemoveUploaded? {
      RemovedIsCompletable(setup, w, id, bearer, now, v);
    } else {
      forall r | r in Sends(v.cameras, s)
        ensures SentSoFar(setup, w, id, bearer, now, r)
      {
        ActSends(setup, w, id, bearer, now, v, s, r);
      }
    }
  }

  lemma ReachedServe(setup: Setup, w: World, id: string, bearer: Option<string>, now: int, v: World, k: Work)
    requires id in w.cameras.queue && Reached(setup, w, id, bearer, now, v)
    requires CanServe(setup, v.sent, v.server, k) && OwnWork(k, id, AttemptOf(w.cameras, id) + 1, now)
    requires Inv(setup, Next(setup, v, Serve(k)))
    ensures Reached(setup, w, id, bearer, now, Next(setup, v, Serve(k)))
  {
    assert !k.SetAccess?;
    ReachedWork(setup, w, id, bearer, now, v, k);
    hide Inv, ReachedSent, ReachedPhoto, ReachedServer, Served, Accepts, Completable, CanServe, OwnWork, AcceptedSoFar;
    forall r | r in Accepts(setup, v.server, k)
      ensures AcceptedSoFar(setup, w, id, bearer, now, r)
    {
      AcceptMeans(setup, w, id, bearer, now, v, k, r);
    }
  }

  lemma ReachedWork(setup: Setup, w: World, id: string, bearer: Option<string>, now: int, v: World, k: Work)
    requires id in w.cameras.queue && Reached(setup, w, id, bearer, now, v)
    requires CanServe(setup, v.sent, v.server, k) && OwnWork(k, id, AttemptOf(w.cameras, id) + 1, now) && !k.SetAccess?
    ensures ReachedServer(setup, w, id, bearer, Served(setup, v.server, k))
  {
    hide Inv, ReachedSent, ReachedAccepted, ReachedPhoto, StorePasses, GuardLets, Served, CanServe, OwnWork;
    BlockStays(setup, w, id, bearer, now, v, k);
    StoreStays(setup, w, id, bearer, now, v, k);
  }

  lemma AcceptMeans(setup: Setup, w: World, id: string, bearer: Option<string>, now: int, v: World, k: Work, r: Request)
    requires id in w.cameras.queue && Reached(setup, w, id, bearer, now, v)
    requires CanServe(setup, v.sent, v.server, k) && OwnWork(k, id, AttemptOf(w.cameras, id) + 1, now)
    requires r in Accepts(setup, v.server, k)
    ensures AcceptedSoFar(setup, w, id, bearer, now, r)
  {
    WorkIsSent(setup, v, k);
    SavedAreSent(setup, v);
    hide Inv, Timestamps.ValidateCaptureId, LooksLikeJpeg;
    assert r in v.sent && SentSoFar(setup, w, id, bearer, now, r);
    if k.ServeGrant? {
      assert SentInv(setup, v.cameras, v.server, r);
    }
  }

  lemma SavedAreSent(setup: Setup, v: World)
    requires Inv(setup, v)
    ensures forall r :: r in v.server.registered ==> r in v.sent
    ensures forall r :: r in v.server.checked ==> r in v.sent
  {
  }

  /** A store that could not take the photo still cannot, and what it saved it could. */
  lemma StoreStays(setup: Setup, w: World, id: string, bearer: Option<string>, now: int, v: World, k: Work)
    requires id in w.cameras.queue && Reached(setup, w, id, bearer, now, v)
    requires CanServe(setup, v.sent, v.server, k) && OwnWork(k, id, AttemptOf(w.cameras, id) + 1, now)
    ensures var n := Served(setup, v.server, k);
            && (!StorePasses(setup, w.server, id) ==> !StorePasses(setup, n, id))
            && (forall a :: a in n.saved && a.request.id == id && a.request.attempt == AttemptOf(w.cameras, id) + 1 ==>
                  StorePasses(setup, w.server, id))
            && (forall r :: r in n.registered && r.id == id && r.attempt == AttemptOf(w.cameras, id) + 1 ==>
                  StorePasses(setup, w.server, id))
  {
    hide Inv, GrantPasses, Completable, SentSoFar, AcceptedSoFar, LooksLikeJpeg, StorageKey, GrantIsValid;
  }

  lemma BlockStays(setup: Setup, w: World, id: string, bearer: Option<string>, now: int, v: World, k: Work)
    requires id in w.cameras.queue && Reached(setup, w, id, bearer, now, v)
    requires CanServe(setup, v.sent, v.server, k) && !k.SetAccess?
    ensures var (n, size) := (Served(setup, v.server, k), |w.cameras.queue[id].bytes|);
            n.access == v.server.access && (!GuardLets(v.server, id, size, bearer) ==> !GuardLets(n, id, size, bearer))
  {
    if id in v.server.rows && v.server.rows[id].status.Ready? {
      assert RowInv(setup, v.cameras.committed, v.server, id);
      hide Inv, Served, CanServe, Reached;
      ServedKeepsReady(setup, v.server, k, id);
    }
    AccessStays(setup, v.server, k);
    hide Inv, Served, CanServe, Reached, PrincipalOf;
  }

  lemma AccessStays(setup: Setup, v: Server, k: Work)
    requires !k.SetAccess?
    ensures Served(setup, v, k).access == v.access
  {
    hide GrantReserves, StorageKey, Blocked, Reserved, Marked, Adopted;
  }

  lemma {:induction false} ReachedAfter(setup: Setup, w: World, id: string, bearer: Option<string>, now: int, v: World,
                                       rest: seq<Step>)
    requires id in w.cameras.queue && Reached(setup, w, id, bearer, now, v) && Runs(setup, v, rest)
    requires forall s :: s in rest ==> Own(s, id, AttemptOf(w.cameras, id) + 1, bearer, now)
    ensures Reached(setup, w, id, bearer, now, After(setup, v, rest))
    decreases |rest|
  {
    hide Reached, Enabled, Next, Own;
    if rest != [] {
      assert rest[0] in rest;
      ReachedNext(setup, w, id, bearer, now, v, rest[0]);
      forall s | s in rest[1..]
        ensures Own(s, id, AttemptOf(w.cameras, id) + 1, bearer, now)
      {
        assert s in rest;
      }
      ReachedAfter(setup, w, id, bearer, now, Next(setup, v, rest[0]), rest[1..]);
    }
  }

  lemma RetryNeedsCompletable(setup: Setup, w: World, id: string, bearer: Option<string>, now: int, rest: seq<Step>)
    requires Inv(setup, w) && id in w.cameras.queue && w.cameras.queue[id].camera !in w.cameras.testMode
    requires Retry(setup, w, id, bearer, now, rest)
    ensures var n := After(setup, w, [BeginUpload(id, InQueue, bearer)] + rest);
            id in n.cameras.queue || Completable(setup, w, id, bearer, now)
  {
    hide Inv, Completable, Own, Next, Enabled, GrantPasses;
    var begin := BeginUpload(id, InQueue, bearer);
    RunsFirst(setup, w, begin, rest);
    ReachedFirst(setup, w, id, bearer, now);
    ReachedAfter(setup, w, id, bearer, now, Next(setup, w, begin), rest);
  }

  lemma RunsFirst(setup: Setup, w: World, s: Step, rest: seq<Step>)
    ensures Runs(setup, w, [s] + rest) <==> Enabled(setup, w, s) && Runs(setup, Next(setup, w, s), rest)
    ensures After(setup, w, [s] + rest) == After(setup, Next(setup, w, s), rest)
  {
    assert ([s] + rest)[1..] == rest && ([s] + rest)[0] == s;
  }

  /** In every reachable state an undisturbed retry can free the queue exactly
      when its token is let in, the ID and the metadata validate, the size is in
      range, the guard does not block, the local temporary file is not in the way, and the bytes
      decode. */
  lemma RetryCompletesExactlyWhen(setup: Setup, w: World, id: string, bearer: Option<string>, now: int)
    requires Inv(setup, w) && id in w.cameras.queue && w.cameras.queue[id].camera !in w.cameras.testMode
    ensures (exists rest :: Retry(setup, w, id, bearer, now, rest)
                            && id !in After(setup, w, [BeginUpload(id, InQueue, bearer)] + rest).cameras.queue)
            <==> Completable(setup, w, id, bearer, now)
  {
    hide Inv, Completable, Retry;
    if Completable(setup, w, id, bearer, now) {
      var rest := RetryCompletes(setup, w, id, bearer, now);
    }
    forall rest | Retry(setup, w, id, bearer, now, rest)
                  && id !in After(setup, w, [BeginUpload(id, InQueue, bearer)] + rest).cameras.queue
      ensures Completable(setup, w, id, bearer, now)
    {
      RetryNeedsCompletable(setup, w, id, bearer, now, rest);
    }
  }

  // ----- Whether a photo can finish at all -----

  lemma {:induction false} CommittedStays(setup: Setup, w: World, steps: seq<Step>, id: string)
    requires Inv(setup, w) && Runs(setup, w, steps) && id in w.cameras.committed
    ensures var c := After(setup, w, steps).cameras;
            id in c.committed && c.committed[id] == w.cameras.committed[id]
    decreases |steps|
  {
    hide Inv, Next, Enabled;
    if steps != [] {
      StepKeepsInv(setup, w, steps[0]);
      CommittedStep(setup, w, steps[0], id);
      CommittedStays(setup, Next(setup, w, steps[0]), steps[1..], id);
    }
  }

  lemma CommittedStep(setup: Setup, w: World, s: Step, id: string)
    requires Inv(setup, w) && Enabled(setup, w, s) && id in w.cameras.committed
    ensures var c := Next(setup, w, s).cameras; id in c.committed && c.committed[id] == w.cameras.committed[id]
  {
    hide CameraInv, SentInv, AcceptedInv, RowInv, ObjectInv, WorkInv, Held, Moved, Sends, Served, Accepts, CanServe,
         LooksLikeJpeg;
    if !s.Serve? {
      MoveKeepsPhotos(w.cameras, s);
    }
  }

  /** What left the queue met every condition that no clock, bearer or process
      can change. */
  lemma FinishedMeansFit(setup: Setup, w: World, steps: seq<Step>, id: string)
    requires Inv(setup, w) && id in w.cameras.queue && Runs(setup, w, steps)
    ensures id in After(setup, w, steps).cameras.queue
            || (Grantable(setup, id, w.cameras.queue[id]) && setup.decodes(w.cameras.queue[id].bytes))
  {
    CommittedAsQueued(setup, w, id);
    CommittedStays(setup, w, steps, id);
    RunKeepsInv(setup, w, steps);
    var n := After(setup, w, steps);
    assert Held(setup, n.cameras, n.server, id);
  }

  /** A clock at the start of the ID's year accepts it. */
  lemma PlausibleIdValidates(id: string) returns (now: int)
    requires PlausibleId(id)
    ensures Timestamps.ValidateCaptureId(id, now).Accepted?
  {
    var c := Civil(Timestamps.IdCivil(id).year, 1, 1, 0, 0, 0);
    now := UnixFromCivil(c);
    Timestamps.YearReached(c, now);
    Timestamps.ShapedIdParses(id);
  }

  lemma {:induction false} FreshPid(leftover: set<(string, nat)>) returns (pid: nat)
    ensures forall p :: p in leftover ==> p.1 < pid
    decreases leftover
  {
    if leftover == {} {
      pid := 0;
    } else {
      var p :| p in leftover;
      var rest := FreshPid(leftover - {p});
      pid := if rest <= p.1 then p.1 + 1 else rest;
    }
  }

  /** For an anonymous retry the guard never blocks. */
  lemma NeverBlockedWithoutDevice(setup: Setup, w: World, id: string)
    requires Inv(setup, w) && id in w.cameras.queue
    ensures !Blocked(w.server.rows, id, |w.cameras.queue[id].bytes|, None)
  {
    if id in w.server.rows {
      assert RowInv(setup, w.cameras.committed, w.server, id);
    }
  }

  const SHARED := Some("shared token")

  /** Live mode, a server process that has left no file in the way, and a shared
      token that the camera has too. */
  lemma Prepared(setup: Setup, w: World, id: string) returns (steps: seq<Step>)
    requires Inv(setup, w) && id in w.cameras.queue
    ensures Runs(setup, w, steps) && Inv(setup, After(setup, w, steps))
    ensures var n := After(setup, w, steps);
            && n.cameras.queue == w.cameras.queue && n.server.rows == w.server.rows
            && w.cameras.queue[id].camera !in n.cameras.testMode && (id, n.server.pid) !in n.server.leftover
            && PrincipalOf(n.server.access, SHARED) == Some(None)
  {
    hide Inv, Runs, After;
    var pid := FreshPid(w.server.leftover);
    var live, restart := SetTestMode(w.cameras.queue[id].camera, false), Serve(Restart(pid));
    var share := Serve(SetAccess(Access(map[], SHARED)));
    var w1 := Next(setup, w, live);
    var w2 := Next(setup, w1, restart);
    var w3 := Next(setup, w2, share);
    hide Next, Enabled;
    steps := [live] + ([restart] + ([share] + []));
    PreparingSteps(setup, w, live, restart, share);
    RunKeepsInv(setup, w, steps);
    PreparedWorld(setup, w, live, pid, w1, w2, w3);
  }

  lemma PreparingSteps(setup: Setup, w: World, live: Step, restart: Step, share: Step)
    requires live.SetTestMode? && restart.Serve? && restart.work.Restart? && share.Serve? && share.work.SetAccess?
    ensures var w3 := Next(setup, Next(setup, Next(setup, w, live), restart), share);
            var steps := [live] + ([restart] + ([share] + []));
            Runs(setup, w, steps) && After(setup, w, steps) == w3
  {
    var w1 := Next(setup, w, live);
    var w2 := Next(setup, w1, restart);
    var w3 := Next(setup, w2, share);
    assert Enabled(setup, w, live) && Enabled(setup, w1, restart) && Enabled(setup, w2, share);
    assert Runs(setup, w3, []) && After(setup, w3, []) == w3;
    hide Runs, After, Enabled, Next;
    RunsFirst(setup, w, live, [restart] + ([share] + []));
    RunsFirst(setup, w1, restart, [share] + []);
    RunsFirst(setup, w2, share, []);
  }

  lemma PreparedWorld(setup: Setup, w: World, live: Step, pid: nat, w1: World, w2: World, w3: World)
    requires live.SetTestMode? && !live.on
    requires w1 == Next(setup, w, live) && w2 == Next(setup, w1, Serve(Restart(pid)))
    requires w3 == Next(setup, w2, Serve(SetAccess(Access(map[], SHARED))))
    ensures w3.cameras == w.cameras.(testMode := w.cameras.testMode - {live.camera})
    ensures w3.server.rows == w.server.rows && w3.server.leftover == w.server.leftover && w3.server.pid == pid
    ensures PrincipalOf(w3.server.access, SHARED) == Some(None)
  {
  }

  /** Some continuation of a run takes the photo out of the queue exactly when
      its ID spells a moment in a plausible year, its metadata validates, its
      size is in range, and its bytes decode. */
  lemma PhotoCanFinishExactlyWhen(setup: Setup, w: World, id: string)
    requires Inv(setup, w) && id in w.cameras.queue
    ensures (exists steps :: Runs(setup, w, steps) && id !in After(setup, w, steps).cameras.queue)
            <==> Grantable(setup, id, w.cameras.queue[id]) && setup.decodes(w.cameras.queue[id].bytes)
  {
    hide Inv, Grantable, Runs, After;
    if Grantable(setup, id, w.cameras.queue[id]) && setup.decodes(w.cameras.queue[id].bytes) {
      var steps := Finishing(setup, w, id);
    }
    forall steps | Runs(setup, w, steps) && id !in After(setup, w, steps).cameras.queue
      ensures Grantable(setup, id, w.cameras.queue[id]) && setup.decodes(w.cameras.queue[id].bytes)
    {
      FinishedMeansFit(setup, w, steps, id);
    }
  }

  lemma Finishing(setup: Setup, w: World, id: string) returns (steps: seq<Step>)
    requires Inv(setup, w) && id in w.cameras.queue
    requires Grantable(setup, id, w.cameras.queue[id]) && setup.decodes(w.cameras.queue[id].bytes)
    ensures Runs(setup, w, steps) && id !in After(setup, w, steps).cameras.queue
  {
    hide Inv, Completable, Runs, After, Blocked;
    var first := Prepared(setup, w, id);
    var n := After(setup, w, first);
    var now := FitIsCompletable(setup, n, id);
    var rest := RetryCompletes(setup, n, id, SHARED, now);
    RunsJoin(setup, w, first, [BeginUpload(id, InQueue, SHARED)] + rest);
    steps := first + ([BeginUpload(id, InQueue, SHARED)] + rest);
  }

  lemma FitIsCompletable(setup: Setup, w: World, id: string) returns (now: int)
    requires Inv(setup, w) && id in w.cameras.queue
    requires Grantable(setup, id, w.cameras.queue[id]) && setup.decodes(w.cameras.queue[id].bytes)
    requires PrincipalOf(w.server.access, SHARED) == Some(None) && (id, w.server.pid) !in w.server.leftover
    ensures Completable(setup, w, id, SHARED, now)
  {
    hide Inv, Blocked, PrincipalOf, Timestamps.ValidateCaptureId;
    now := PlausibleIdValidates(id);
    NeverBlockedWithoutDevice(setup, w, id);
  }

  // ----- The inputs that fail -----

  /** The run in which a camera takes one photo. */
  function Shot(id: string, bytes: Bytes): seq<Step> {
    [StartCapture("camera", id)] + [FinishCapture(id, bytes, None)]
  }

  lemma ShotIsQueued(setup: Setup, id: string, bytes: Bytes)
    requires LooksLikeJpeg(bytes)
    ensures Runs(setup, EMPTY, Shot(id, bytes)) && Inv(setup, After(setup, EMPTY, Shot(id, bytes)))
    ensures After(setup, EMPTY, Shot(id, bytes)).cameras.queue == map[id := Photo("camera", bytes, None)]
  {
    var start, finish := StartCapture("camera", id), FinishCapture(id, bytes, None);
    RunsFirst(setup, EMPTY, start, [finish]);
    RunsFirst(setup, Next(setup, EMPTY, start), finish, []);
    assert [finish] + [] == [finish];
    RunKeepsInv(setup, EMPTY, Shot(id, bytes));
  }

  /** A camera whose clock starts at 1970 takes a photo that no run can ever
      upload: the grant refuses its ID for good. */
  lemma EarlyClockNeverFinishes(setup: Setup, bytes: Bytes, later: seq<Step>)
    requires LooksLikeJpeg(bytes)
    requires var id := Timestamps.CaptureId(Civil(1970, 1, 1, 0, 0, 12), "1a2b3c4d");
             Runs(setup, After(setup, EMPTY, Shot(id, bytes)), later)
    ensures var id := Timestamps.CaptureId(Civil(1970, 1, 1, 0, 0, 12), "1a2b3c4d");
            id in After(setup, After(setup, EMPTY, Shot(id, bytes)), later).cameras.queue
  {
    var c := Civil(1970, 1, 1, 0, 0, 12);
    var id := Timestamps.CaptureId(c, "1a2b3c4d");
    hide Runs, After, Inv, Timestamps.CaptureId;
    Timestamps.CaptureIdParses(c, "1a2b3c4d");
    ShotIsQueued(setup, id, bytes);
    FinishedMeansFit(setup, After(setup, EMPTY, Shot(id, bytes)), later, id);
  }

  const FOUR_BYTES: Bytes := [0xff, 0xd8, 0xff, 0xd9]

  /** Two markers and nothing between pass the camera's test and the store's;
      where the image library cannot decode them, no run completes the photo. */
  lemma UndecodableNeverFinishes(setup: Setup, id: string, later: seq<Step>)
    requires !setup.decodes(FOUR_BYTES) && Runs(setup, After(setup, EMPTY, Shot(id, FOUR_BYTES)), later)
    ensures LooksLikeJpeg(FOUR_BYTES)
    ensures id in After(setup, After(setup, EMPTY, Shot(id, FOUR_BYTES)), later).cameras.queue
  {
    hide Runs, After, Inv;
    ShotIsQueued(setup, id, FOUR_BYTES);
    FinishedMeansFit(setup, After(setup, EMPTY, Shot(id, FOUR_BYTES)), later, id);
  }

  /** The guard blocks a retry exactly when the photo is ready and the retry
      names a device the row does not. */
  lemma RetryIsRefusedWhen(setup: Setup, w: World, id: string, device: Option<string>)
    requires Inv(setup, w) && id in w.cameras.queue
    ensures Blocked(w.server.rows, id, |w.cameras.queue[id].bytes|, device)
       <==> id in w.server.rows && w.server.rows[id].status.Ready? && device.Some? && device != w.server.rows[id].device
  {
    if id in w.server.rows {
      assert RowInv(setup, w.cameras.committed, w.server, id);
    }
  }

  /** And then it is refused for good: with no token that stands for that device
      does a retry complete in any later state. */
  lemma OtherDeviceNeverCompletes(setup: Setup, w: World, id: string, device: Option<string>, bearer: Option<string>,
                                  now: int, later: seq<Step>)
    requires Inv(setup, w) && id in w.cameras.queue && Blocked(w.server.rows, id, |w.cameras.queue[id].bytes|, device)
    requires Runs(setup, w, later) && id in After(setup, w, later).cameras.queue
    requires PrincipalOf(After(setup, w, later).server.access, bearer) == Some(device)
    ensures !Completable(setup, After(setup, w, later), id, bearer, now)
  {
    hide Inv, Runs, After, PrincipalOf, Blocked;
    var n := After(setup, w, later);
    RetryIsRefusedWhen(setup, w, id, device);
    CommittedAsQueued(setup, w, id);
    CommittedStays(setup, w, later, id);
    RunKeepsInv(setup, w, later);
    CommittedAsQueued(setup, n, id);
    ReadyRowStays(setup, w, later, id);
    RetryIsRefusedWhen(setup, n, id, device);
  }

  /** A camera whose device was released keeps its own token and sends it even
      where it has the shared one, which would be let in: no retry completes. */
  lemma ReleasedDeviceNeverCompletes(setup: Setup, w: World, id: string, token: string, now: int, rest: seq<Step>)
    requires Inv(setup, w) && id in w.cameras.queue && w.cameras.queue[id].camera !in w.cameras.testMode
    requires var a := w.server.access;
             token !in a.devices && a.shared.Some? && a.shared.value != "" && a.shared.value != token
    requires Retry(setup, w, id, AuthToken(Some(token), w.server.access.shared), now, rest)
    ensures var bearer := AuthToken(Some(token), w.server.access.shared);
            id in After(setup, w, [BeginUpload(id, InQueue, bearer)] + rest).cameras.queue
    ensures PrincipalOf(w.server.access, AuthToken(None, w.server.access.shared)).Some?
  {
    var bearer := AuthToken(Some(token), w.server.access.shared);
    assert !Completable(setup, w, id, bearer, now);
    hide Inv, Completable, Retry, Runs, After;
    RetryNeedsCompletable(setup, w, id, bearer, now, rest);
  }

  /** A local save that breaks leaves its temporary file: while that server
      process lives, nothing stores the photo. */
  lemma {:induction false} LeftoverHoldsPhoto(setup: Setup, w: World, id: string, steps: seq<Step>)
    requires Inv(setup, w) && id in w.cameras.queue && !setup.remote && id !in w.server.objects
    requires (id, w.server.pid) in w.server.leftover
    requires Runs(setup, w, steps) && forall s :: s in steps ==> !(s.Serve? && s.work.Restart?)
    ensures id in After(setup, w, steps).cameras.queue && id !in After(setup, w, steps).server.objects
    decreases |steps|
  {
    if steps != [] {
      var s := steps[0];
      assert s in steps;
      StepKeepsInv(setup, w, s);
      LeftoverStep(setup, w, id, s);
      hide Inv, Next, Enabled;
      forall t | t in steps[1..]
        ensures !(t.Serve? && t.work.Restart?)
      {
        assert t in steps;
      }
      LeftoverHoldsPhoto(setup, Next(setup, w, s), id, steps[1..]);
    }
  }

  lemma LeftoverStep(setup: Setup, w: World, id: string, s: Step)
    requires Inv(setup, w) && id in w.cameras.queue && !setup.remote && id !in w.server.objects
    requires (id, w.server.pid) in w.server.leftover
    requires Enabled(setup, w, s) && !(s.Serve? && s.work.Restart?)
    ensures var n := Next(setup, w, s);
            && id in n.cameras.queue && id !in n.server.objects
            && n.server.pid == w.server.pid && (id, w.server.pid) in n.server.leftover
  {
    if s.Serve? {
      LeftoverServed(setup, w.sent, w.server, s.work, id);
      hide Inv, Served, Accepts, CanServe;
    } else {
      if s == RemoveUploaded(id) {
        RemovedIsHeld(setup, w, id);
      } else {
        QueuedStep(w.cameras, s, id);
      }
      hide Inv, Moved, Sends, CanAct;
    }
  }

  lemma LeftoverServed(setup: Setup, sent: set<Request>, v: Server, k: Work, id: string)
    requires CanServe(setup, sent, v, k) && !setup.remote && id !in v.objects && (id, v.pid) in v.leftover && !k.Restart?
    ensures var n := Served(setup, v, k); id !in n.objects && n.pid == v.pid && v.leftover <= n.leftover
  {
    hide GrantIsValid, LooksLikeJpeg, StorageKey, Blocked, Reserved, Marked, Adopted, SizeOf;
  }

  lemma SaveBroken(setup: Setup, w: World, id: string, bearer: Option<string>, grant: Request, body: Request)
    requires id in w.cameras.queue && !setup.remote && id !in w.server.objects && (id, w.server.pid) !in w.server.leftover
    requires grant in w.accepted && grant.Grant? && grant.id == id && grant.attempt == AttemptOf(w.cameras, id)
    requires body == Body(id, AttemptOf(w.cameras, id), w.cameras.queue[id].bytes, bearer)
    requires PrincipalOf(w.server.access, bearer).Some?
    ensures var (send, crash) := (SendBody(id, bearer), Serve(BreakSave(body)));
            var n := Next(setup, Next(setup, w, send), crash);
            && Enabled(setup, w, send) && Enabled(setup, Next(setup, w, send), crash)
            && n.cameras == w.cameras
            && n.server == w.server.(leftover := w.server.leftover + {(id, w.server.pid)})
  {
  }

  lemma SavedAfterRestart(setup: Setup, w: World, n: World, id: string, bearer: Option<string>, now: int, pid: nat)
    requires id in w.cameras.queue && GrantPasses(setup, w, id, bearer, now) && setup.decodes(w.cameras.queue[id].bytes)
    requires !setup.remote && id !in w.server.objects && pid != w.server.pid && (id, pid) !in w.server.leftover
    requires n.cameras == w.cameras && n.server == w.server.(leftover := w.server.leftover + {(id, w.server.pid)})
    ensures forall d, at :: !Completable(setup, n, id, d, at)
    ensures Completable(setup, Next(setup, n, Serve(Restart(pid))), id, bearer, now)
  {
    hide Blocked, Timestamps.ValidateCaptureId;
  }

  /** Such a state is reached wherever a grant would pass, and a restarted
      process can finish the photo again. */
  lemma BrokenSaveStopsRetries(setup: Setup, w: World, id: string, bearer: Option<string>, now: int, pid: nat)
    returns (steps: seq<Step>)
    requires Inv(setup, w) && id in w.cameras.queue && w.cameras.queue[id].camera !in w.cameras.testMode
    requires !setup.remote && id !in w.server.objects && Completable(setup, w, id, bearer, now)
    requires pid != w.server.pid && (id, pid) !in w.server.leftover
    ensures Runs(setup, w, steps) && id in After(setup, w, steps).cameras.queue
    ensures forall d, at :: !Completable(setup, After(setup, w, steps), id, d, at)
    ensures var n := Next(setup, After(setup, w, steps), Serve(Restart(pid)));
            id in n.cameras.queue && Completable(setup, n, id, bearer, now)
  {
    var (p, t) := (w.cameras.queue[id], AttemptOf(w.cameras, id) + 1);
    var grant, body := Grant(id, t, |p.bytes|, p.sidecar, bearer), Body(id, t, p.bytes, bearer);
    var begin, serve, send := BeginUpload(id, InQueue, bearer), Serve(ServeGrant(grant, None, now)), SendBody(id, bearer);
    var crash := Serve(BreakSave(body));
    Begun(setup, w, id, bearer);
    var w1 := Next(setup, w, begin);
    hide Inv, StorageKey, Timestamps.ValidateCaptureId, Timestamps.IdToTimestamp, LooksLikeJpeg;
    GrantServed(setup, w1, id, bearer, now, grant);
    var w2 := Next(setup, w1, serve);
    SaveBroken(setup, w2, id, bearer, grant, body);
    var w3 := Next(setup, w2, send);
    var n := Next(setup, w3, crash);
    steps := [begin] + ([serve] + ([send] + ([crash] + [])));
    SavedAfterRestart(setup, w2, n, id, bearer, now, pid);
    hide Runs, After, Next, Enabled, Completable;
    RunsFirst(setup, w3, crash, []);
    RunsFirst(setup, w2, send, [crash] + []);
    RunsFirst(setup, w1, serve, [send] + ([crash] + []));
    RunsFirst(setup, w, begin, [serve] + ([send] + ([crash] + [])));
    assert After(setup, n, []) == n;
  }
}
