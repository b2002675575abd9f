/** One camera's durable queue: capturing, uploading and retrying
    (`Camera` and `Uploader` of device/src/main.rs). The server's answers are
    a parameter; UploadRuns says what they can be. */
module PhotoQueue {
  import opened Text
  import opened UploadFlow
  import opened UploadRuns

  /** Whether the grant, the photo and the completion were accepted. A server
      may name no completion endpoint. */
  datatype Answers = Answers(granted: bool, stored: bool, completion: Option<bool>)

  predicate AllAccepted(a: Answers) {
    a.granted && a.stored && (a.completion.Some? ==> a.completion.value)
  }

  type Counts = map<string, nat>

  function NextAttempt(attempts: Counts, id: string): nat {
    if id in attempts then attempts[id] + 1 else 1
  }

  /** The requests of one attempt: each only after the one before was accepted. */
  function Exchange(id: string, attempt: nat, photo: Photo, bearer: Option<string>, a: Answers): seq<Request> {
    [Grant(id, attempt, |photo.bytes|, photo.sidecar, bearer)]
    + (if a.granted then [Body(id, attempt, photo.bytes, bearer)] else [])
    + (if a.granted && a.stored && a.completion.Some? then [Complete(id, attempt, bearer)] else [])
  }

  /** The listing of the queue directory, in the order of its file names. */
  ghost predicate Listing(ids: seq<string>, queue: Photos) {
    && (forall id :: id in ids <==> id in queue)
    && (forall i, j :: 0 <= i < j < |ids| ==> LexLess(ids[i] + EXTENSION, ids[j] + EXTENSION))
  }

  /** `attempts` and `requests` record what was sent. */
  class Device {
    const name: string
    const deviceToken: Option<string>
    const uploadToken: Option<string>
    var queue: Photos
    var local: Photos
    var testMode: bool
    ghost var attempts: Counts
    ghost var requests: seq<Request>

    constructor (name: string, deviceToken: Option<string>, uploadToken: Option<string>)
      ensures this.name == name && this.deviceToken == deviceToken && this.uploadToken == uploadToken
      ensures queue == map[] && local == map[] && !testMode && attempts == map[] && requests == []
    {
      this.name, this.deviceToken, this.uploadToken := name, deviceToken, uploadToken;
      queue, local, testMode, attempts, requests := map[], map[], false, map[], [];
    }

    method StartCapture() returns (place: Place)
      ensures place == if testMode then InLocal else InQueue
    {
      if testMode {
        return InLocal;
      }
      return InQueue;
    }

    /** The photo appears whole, or not at all. */
    method FinishCapture(place: Place, id: string, exited: bool, bytes: Bytes, sidecar: Option<string>)
      returns (committed: bool)
      modifies this`queue, this`local
      ensures committed == (exited && LooksLikeJpeg(bytes))
      ensures committed <==> exited && |bytes| >= 4 && bytes[..2] == [0xff, 0xd8] && bytes[|bytes| - 2..] == [0xff, 0xd9]
      ensures queue == if committed && place.InQueue? then old(queue)[id := Photo(name, bytes, sidecar)] else old(queue)
      ensures local == if committed && place.InLocal? then old(local)[id := Photo(name, bytes, sidecar)] else old(local)
    {
      if !exited || !LooksLikeJpeg(bytes) {
        return false;
      }
      if place.InLocal? {
        local := local[id := Photo(name, bytes, sidecar)];
      } else {
        queue := queue[id := Photo(name, bytes, sidecar)];
      }
      return true;
    }

    /** A local test photo cannot be queued. */
    method QueueExisting(source: Place, id: string, bytes: Bytes) returns (queued: bool)
      modifies this`queue
      ensures queued == (source.InQueue? && LooksLikeJpeg(bytes))
      ensures queue == if queued then old(queue)[id := Photo(name, bytes, None)] else old(queue)
    {
      if source.InLocal? || !LooksLikeJpeg(bytes) {
        return false;
      }
      queue := queue[id := Photo(name, bytes, None)];
      return true;
    }

    /** Its own token wins; without one the shared token is sent. */
    function Bearer(): Option<string>
    {
      AuthToken(deviceToken, uploadToken)
    }

    method Upload(place: Place, id: string, a: Answers) returns (ok: bool)
      modifies this`queue, this`attempts, this`requests
      ensures place.InLocal? || testMode ==>
                ok == (id in if place.InLocal? then local else old(queue))
                && queue == old(queue) && attempts == old(attempts) && requests == old(requests)
      ensures place.InQueue? && !testMode && id !in old(queue) ==>
                !ok && queue == old(queue) && attempts == old(attempts) && requests == old(requests)
      ensures place.InQueue? && !testMode && id in old(queue) ==>
                && ok == AllAccepted(a)
                && Log(queue, attempts, requests) == UploadedOne(Log(old(queue), old(attempts), old(requests)), id, Bearer(), a)
    {
      if place.InLocal? {
        return id in local;
      }
      if id !in queue {
        return false;
      }
      if testMode {
        return true;
      }
      var photo := queue[id];
      var bearer := if deviceToken.Some? then deviceToken else uploadToken;
      ghost var attempt := NextAttempt(attempts, id);
      attempts := attempts[id := attempt];
      requests := requests + [Grant(id, attempt, |photo.bytes|, photo.sidecar, bearer)];
      if !a.granted {
        return false;
      }
      requests := requests + [Body(id, attempt, photo.bytes, bearer)];
      if !a.stored {
        return false;
      }
      if a.completion.Some? {
        requests := requests + [Complete(id, attempt, bearer)];
        if !a.completion.value {
          return false;
        }
      }
      queue := queue - {id};
      return true;
    }

    /** A failed upload does not stop the others. The result is what is still
        waiting. */
    method RetryAll(ids: seq<string>, answers: seq<Answers>) returns (waiting: nat)
      requires Listing(ids, queue) && |answers| == |ids|
      modifies this`queue, this`attempts, this`requests
      ensures testMode ==> waiting == 0 && queue == old(queue) && requests == old(requests)
      ensures !testMode ==>
                && waiting == |queue|
                && queue == old(queue) - Uploaded(ids, answers, |ids|)
                && requests == old(requests) + Exchanges(ids, old(attempts), old(queue), Bearer(), answers, |ids|)
    {
      hide *;
      if testMode {
        return 0;
      }
      ghost var start := Log(queue, attempts, requests);
      RetriedNone(ids, Bearer(), answers, start);
      for i := 0 to |ids|
        invariant Retried(ids, Bearer(), answers, start, i, Log(queue, attempts, requests))
      {
        RetriedHas(ids, Bearer(), answers, start, i, Log(queue, attempts, requests));
        RetriedOne(ids, Bearer(), answers, start, i, Log(queue, attempts, requests));
        ghost var next := UploadedOne(Log(queue, attempts, requests), ids[i], Bearer(), answers[i]);
        var ok := Upload(InQueue, ids[i], answers[i]);
        assert Log(queue, attempts, requests) == next;
      }
      RetriedAll(ids, Bearer(), answers, start, Log(queue, attempts, requests));
      return |queue|;
    }
  }

  /** What a device keeps of its queue and of what it sent. */
  datatype Log = Log(queue: Photos, attempts: Counts, requests: seq<Request>)

  /** The log after one upload of a queued photo. */
  function UploadedOne(log: Log, id: string, bearer: Option<string>, a: Answers): Log
    requires id in log.queue
  {
    var attempt := NextAttempt(log.attempts, id);
    Log(if AllAccepted(a) then log.queue - {id} else log.queue, log.attempts[id := attempt],
        log.requests + Exchange(id, attempt, log.queue[id], bearer, a))
  }

  /** The log after the first `n` uploads of the listing. */
  predicate Retried(ids: seq<string>, bearer: Option<string>, answers: seq<Answers>, start: Log, n: nat, log: Log) {
    && n <= |ids| == |answers| && AllIn(ids, start.queue) && Distinct(ids)
    && log.queue == start.queue - Uploaded(ids, answers, n)
    && CountsFrom(ids, n, log.attempts, start.attempts)
    && log.requests == start.requests + Exchanges(ids, start.attempts, start.queue, bearer, answers, n)
  }

  lemma Less(queue: Photos, a: set<string>, b: set<string>)
    ensures queue - a - b == queue - (a + b) && queue - (a + {}) == queue - a
  {
  }

  predicate AllIn(ids: seq<string>, queue: Photos) {
    forall i :: 0 <= i < |ids| ==> ids[i] in queue
  }

  predicate Distinct(ids: seq<string>) {
    forall i, j :: 0 <= i < j < |ids| ==> ids[i] != ids[j]
  }

  /** The counts of the photos not tried yet. */
  predicate CountsFrom(ids: seq<string>, i: nat, attempts: Counts, counts: Counts) {
    forall k :: i <= k < |ids| ==> NextAttempt(attempts, ids[k]) == NextAttempt(counts, ids[k])
  }

  lemma ListedOnce(ids: seq<string>, queue: Photos)
    requires Listing(ids, queue)
    ensures AllIn(ids, queue) && Distinct(ids)
  {
    forall i, j | 0 <= i < j < |ids|
      ensures ids[i] != ids[j]
    {
      LexTotal(ids[i] + EXTENSION, ids[j] + EXTENSION);
    }
  }

  /** The photos that the first `n` uploads of the listing took out. */
  function Uploaded(ids: seq<string>, answers: seq<Answers>, n: nat): set<string>
    requires n <= |answers| == |ids|
  {
    if n == 0 then {} else Uploaded(ids, answers, n - 1) + (if AllAccepted(answers[n - 1]) then {ids[n - 1]} else {})
  }

  /** The requests that the first `n` uploads of the listing sent. */
  function Exchanges(ids: seq<string>, attempts: Counts, queue: Photos, bearer: Option<string>, answers: seq<Answers>, n: nat)
    : seq<Request>
    requires n <= |answers| == |ids| && AllIn(ids, queue)
  {
    if n == 0 then []
    else
      Exchanges(ids, attempts, queue, bearer, answers, n - 1)
      + Exchange(ids[n - 1], NextAttempt(attempts, ids[n - 1]), queue[ids[n - 1]], bearer, answers[n - 1])
  }

  lemma RetriedNone(ids: seq<string>, bearer: Option<string>, answers: seq<Answers>, start: Log)
    requires |answers| == |ids| && Listing(ids, start.queue)
    ensures Retried(ids, bearer, answers, start, 0, start)
  {
    ListedOnce(ids, start.queue);
  }

  lemma RetriedHas(ids: seq<string>, bearer: Option<string>, answers: seq<Answers>, start: Log, i: nat, log: Log)
    requires Retried(ids, bearer, answers, start, i, log) && i < |ids|
    ensures ids[i] in log.queue && log.queue[ids[i]] == start.queue[ids[i]]
  {
    UploadedAmong(ids, answers, i, ids[i]);
  }

  lemma RetriedOne(ids: seq<string>, bearer: Option<string>, answers: seq<Answers>, start: Log, i: nat, log: Log)
    requires Retried(ids, bearer, answers, start, i, log) && i < |ids| && ids[i] in log.queue
    ensures Retried(ids, bearer, answers, start, i + 1, UploadedOne(log, ids[i], bearer, answers[i]))
  {
    hide Exchange, AllAccepted;
    RetriedHas(ids, bearer, answers, start, i, log);
    Less(start.queue, Uploaded(ids, answers, i), {ids[i]});
    Associates(start.requests, Exchanges(ids, start.attempts, start.queue, bearer, answers, i),
               Exchange(ids[i], NextAttempt(start.attempts, ids[i]), start.queue[ids[i]], bearer, answers[i]));
  }

  lemma RetriedAll(ids: seq<string>, bearer: Option<string>, answers: seq<Answers>, start: Log, log: Log)
    requires Retried(ids, bearer, answers, start, |ids|, log)
    ensures AllIn(ids, start.queue) && |answers| == |ids|
    ensures log.queue == start.queue - Uploaded(ids, answers, |ids|)
    ensures log.requests == start.requests + Exchanges(ids, start.attempts, start.queue, bearer, answers, |ids|)
  {
  }

  lemma {:induction false} UploadedAmong(ids: seq<string>, answers: seq<Answers>, n: nat, id: string)
    requires n <= |answers| == |ids| && forall k :: 0 <= k < n ==> ids[k] != id
    ensures id !in Uploaded(ids, answers, n)
  {
    if n > 0 {
      UploadedAmong(ids, answers, n - 1, id);
    }
  }

  /** Exactly the photos whose whole exchange was accepted leave the queue. */
  lemma {:induction false} UploadedIds(ids: seq<string>, answers: seq<Answers>, n: nat)
    requires n <= |answers| == |ids|
    ensures forall id ::
              id in Uploaded(ids, answers, n) <==> exists i :: 0 <= i < n && ids[i] == id && AllAccepted(answers[i])
  {
    if n > 0 {
      UploadedIds(ids, answers, n - 1);
    }
  }

  // ----- What is sent -----

  /** The grant request is always sent; the photo's bytes exactly where the grant
      was given; the completion exactly where the bytes were taken and one is
      asked for. */
  lemma ExchangeMeans(id: string, attempt: nat, photo: Photo, bearer: Option<string>, a: Answers)
    ensures var sent := Exchange(id, attempt, photo, bearer, a);
            && |sent| == (if !a.granted then 1 else if !a.stored || a.completion.None? then 2 else 3)
            && sent[0] == Grant(id, attempt, |photo.bytes|, photo.sidecar, bearer)
            && (a.granted ==> sent[1] == Body(id, attempt, photo.bytes, bearer))
            && (a.granted && a.stored && a.completion.Some? ==> sent[2] == Complete(id, attempt, bearer))
  {
  }

  /** A photo's attempts are numbered from one, and it leaves the queue exactly
      where no request of the exchange is refused. */
  lemma UploadedOneMeans(log: Log, id: string, bearer: Option<string>, a: Answers)
    requires id in log.queue
    ensures var after := UploadedOne(log, id, bearer, a);
            var attempt := if id in log.attempts then log.attempts[id] + 1 else 1;
            && after.attempts == log.attempts[id := attempt]
            && after.requests == log.requests + Exchange(id, attempt, log.queue[id], bearer, a)
            && after.queue.Keys
               == (if a.granted && a.stored && a.completion != Some(false) then log.queue.Keys - {id} else log.queue.Keys)
            && forall other :: other in after.queue ==> after.queue[other] == log.queue[other]
  {
    hide Exchange;
  }

  /** The requests about one photo, in order. */
  function Own(requests: seq<Request>, id: string): seq<Request> {
    if requests == [] then []
    else Own(requests[..|requests| - 1], id) + if requests[|requests| - 1].id == id then [requests[|requests| - 1]] else []
  }

  lemma {:induction false} OwnAppends(a: seq<Request>, b: seq<Request>, id: string)
    ensures Own(a + b, id) == Own(a, id) + Own(b, id)
    decreases |b|
  {
    if b == [] {
      assert a + b == a;
    } else {
      var n := |b| - 1;
      assert (a + b)[..|a| + n] == a + b[..n];
      OwnAppends(a, b[..n], id);
    }
  }

  lemma {:induction false} OwnAll(requests: seq<Request>, id: string, own: bool)
    requires forall r :: r in requests ==> (r.id == id <==> own)
    ensures Own(requests, id) == if own then requests else []
  {
    if requests != [] {
      OwnAll(requests[..|requests| - 1], id, own);
    }
  }

  /** A retry sends each queued photo's own exchange, as the next attempt, once. */
  lemma {:induction false} EachIsTried(ids: seq<string>, attempts: Counts, queue: Photos, bearer: Option<string>,
                                       answers: seq<Answers>, n: nat, i: nat)
    requires n <= |answers| == |ids| && AllIn(ids, queue) && Distinct(ids) && i < |ids|
    ensures Own(Exchanges(ids, attempts, queue, bearer, answers, n), ids[i])
         == if i < n
            then Exchange(ids[i], if ids[i] in attempts then attempts[ids[i]] + 1 else 1, queue[ids[i]], bearer, answers[i])
            else []
  {
    hide Exchange, Own;
    if n == 0 {
      OwnAll([], ids[i], false);
    } else {
      var (id, attempt) := (ids[n - 1], NextAttempt(attempts, ids[n - 1]));
      var last := Exchange(id, attempt, queue[id], bearer, answers[n - 1]);
      EachIsTried(ids, attempts, queue, bearer, answers, n - 1, i);
      OwnAppends(Exchanges(ids, attempts, queue, bearer, answers, n - 1), last, ids[i]);
      OwnExchange(id, attempt, queue[id], bearer, answers[n - 1], ids[i]);
    }
  }

  lemma OwnExchange(id: string, attempt: nat, photo: Photo, bearer: Option<string>, a: Answers, other: string)
    ensures var sent := Exchange(id, attempt, photo, bearer, a); Own(sent, other) == if other == id then sent else []
  {
    OwnAll(Exchange(id, attempt, photo, bearer, a), other, other == id);
  }

  // ----- An upload as a run of the protocol -----

  /** The steps of one call of `upload`, with whatever else happens meanwhile. */
  function Attempt(id: string, bearer: Option<string>, a: Answers, others: seq<seq<Step>>): seq<Step>
    requires |others| == 3
  {
    [BeginUpload(id, InQueue, bearer)] + others[0] + (if a.granted then SendingSteps(id, bearer, a, others) else [])
  }

  function SendingSteps(id: string, bearer: Option<string>, a: Answers, others: seq<seq<Step>>): seq<Step>
    requires |others| == 3
  {
    [SendBody(id, bearer)] + others[1] + (if a.stored then CompletingSteps(id, bearer, a, others[2]) else [])
  }

  function CompletingSteps(id: string, bearer: Option<string>, a: Answers, others: seq<Step>): seq<Step> {
    [SendComplete(id, bearer)] + others + (if a.completion == Some(true) then [RemoveUploaded(id)] else [])
  }

  /** No other upload of the same photo: a camera runs one at a time. */
  predicate Foreign(s: Step, id: string) {
    s != RemoveUploaded(id) && !(s.BeginUpload? && s.id == id)
  }

  /** A step the camera takes and then steps of others. */
  ghost predicate Stage(setup: Setup, w: World, s: Step, others: seq<Step>, id: string) {
    Runs(setup, w, [s] + others) && s != RemoveUploaded(id) && forall other :: other in others ==> Foreign(other, id)
  }

  /** The answers are the truth: each is a reply of success the world has given
      by then. */
  ghost predicate Answered(setup: Setup, w: World, id: string, bearer: Option<string>, a: Answers, others: seq<seq<Step>>)
    requires |others| == 3 && id in w.cameras.queue
  {
    var (p, t) := (w.cameras.queue[id], AttemptOf(w.cameras, id) + 1);
    var w1 := After(setup, w, [BeginUpload(id, InQueue, bearer)] + others[0]);
    var w2 := After(setup, w1, [SendBody(id, bearer)] + others[1]);
    var w3 := After(setup, w2, [SendComplete(id, bearer)] + others[2]);
    && a.completion.Some?
    && Stage(setup, w, BeginUpload(id, InQueue, bearer), others[0], id)
    && (a.granted ==>
          && Grant(id, t, |p.bytes|, p.sidecar, bearer) in w1.accepted
          && Stage(setup, w1, SendBody(id, bearer), others[1], id)
          && (a.stored ==>
                && Body(id, t, p.bytes, bearer) in w2.accepted
                && Stage(setup, w2, SendComplete(id, bearer), others[2], id)
                && (a.completion.value ==> Complete(id, t, bearer) in w3.accepted)))
  }

  lemma {:induction false} AttemptStays(setup: Setup, w: World, steps: seq<Step>, id: string)
    requires Runs(setup, w, steps) && forall s :: s in steps ==> Foreign(s, id)
    ensures AttemptOf(After(setup, w, steps).cameras, id) == AttemptOf(w.cameras, id)
    decreases |steps|
  {
    hide Enabled, Foreign, Next;
    if steps != [] {
      assert steps[0] in steps;
      AttemptStep(setup, w, steps[0], id);
      forall s | s in steps[1..]
        ensures Foreign(s, id)
      {
        assert s in steps;
      }
      AttemptStays(setup, Next(setup, w, steps[0]), steps[1..], id);
    }
  }

  lemma AttemptStep(setup: Setup, w: World, s: Step, id: string)
    requires Foreign(s, id)
    ensures AttemptOf(Next(setup, w, s).cameras, id) == AttemptOf(w.cameras, id)
  {
    hide Served, Accepts;
  }

  lemma StageKeeps(setup: Setup, w: World, s: Step, others: seq<Step>, id: string)
    requires Inv(setup, w) && id in w.cameras.queue && Stage(setup, w, s, others, id) && !s.Serve?
    ensures var n := After(setup, w, [s] + others);
            && Inv(setup, n) && id in n.cameras.queue && n.cameras.queue[id] == w.cameras.queue[id]
            && AttemptOf(n.cameras, id) == AttemptOf(Moved(w.cameras, s), id)
            && w.sent + Sends(w.cameras, s) <= n.sent
  {
    var steps := [s] + others;
    assert steps[1..] == others && steps[0] == s;
    assert RemoveUploaded(id) !in others by {
      assert !Foreign(RemoveUploaded(id), id);
    }
    hide Inv, Foreign, Sends, Moved;
    OthersKeepQueued(setup, w, [s], id) by {
      assert [s][1..] == [];
    }
    var w1 := Next(setup, w, s);
    assert After(setup, w, [s]) == w1 by {
      assert [s][1..] == [];
    }
    OthersKeepQueued(setup, w1, others, id);
    AttemptStays(setup, w1, others, id);
  }

  /** A call of `upload`, amid any other steps, is a run that sends the
      exchange's requests, and frees the queue exactly when all of them were
      accepted. */
  lemma UploadIsARun(setup: Setup, w: World, id: string, bearer: Option<string>, a: Answers, others: seq<seq<Step>>)
    requires Inv(setup, w) && id in w.cameras.queue && w.cameras.queue[id].camera !in w.cameras.testMode
    requires |others| == 3 && Answered(setup, w, id, bearer, a, others)
    ensures Runs(setup, w, Attempt(id, bearer, a, others))
    ensures var n := After(setup, w, Attempt(id, bearer, a, others));
            && (forall r :: r in Exchange(id, AttemptOf(w.cameras, id) + 1, w.cameras.queue[id], bearer, a) ==> r in n.sent)
            && (id !in n.cameras.queue <==> AllAccepted(a))
  {
    hide Runs, After, Inv, Next;
    var begin := BeginUpload(id, InQueue, bearer);
    StageKeeps(setup, w, begin, others[0], id);
    var w1 := After(setup, w, [begin] + others[0]);
    if a.granted {
      SendingRuns(setup, w1, id, bearer, a, others);
      RunsJoin(setup, w, [begin] + others[0], SendingSteps(id, bearer, a, others));
    } else {
      assert Attempt(id, bearer, a, others) == [begin] + others[0];
    }
  }

  lemma SendingRuns(setup: Setup, w: World, id: string, bearer: Option<string>, a: Answers, others: seq<seq<Step>>)
    requires Inv(setup, w) && id in w.cameras.queue && |others| == 3
    requires a.granted && a.completion.Some? && Stage(setup, w, SendBody(id, bearer), others[1], id)
    requires var w2 := After(setup, w, [SendBody(id, bearer)] + others[1]);
             a.stored ==> Stage(setup, w2, SendComplete(id, bearer), others[2], id)
                          && (a.completion.value ==>
                                Complete(id, AttemptOf(w.cameras, id), bearer)
                                in After(setup, w2, [SendComplete(id, bearer)] + others[2]).accepted)
    ensures Runs(setup, w, SendingSteps(id, bearer, a, others))
    ensures var n := After(setup, w, SendingSteps(id, bearer, a, others));
            var t := AttemptOf(w.cameras, id);
            && w.sent <= n.sent && Body(id, t, w.cameras.queue[id].bytes, bearer) in n.sent
            && (a.stored ==> Complete(id, t, bearer) in n.sent)
            && (id !in n.cameras.queue <==> AllAccepted(a))
  {
    hide Runs, After, Inv, Next;
    var send := SendBody(id, bearer);
    StageKeeps(setup, w, send, others[1], id);
    var w2 := After(setup, w, [send] + others[1]);
    if a.stored {
      CompletingRuns(setup, w2, id, bearer, a, others[2]);
      RunsJoin(setup, w, [send] + others[1], CompletingSteps(id, bearer, a, others[2]));
    } else {
      assert SendingSteps(id, bearer, a, others) == [send] + others[1];
    }
  }

  lemma CompletingRuns(setup: Setup, w: World, id: string, bearer: Option<string>, a: Answers, others: seq<Step>)
    requires Inv(setup, w) && id in w.cameras.queue && a.completion.Some?
    requires Stage(setup, w, SendComplete(id, bearer), others, id)
    requires a.completion.value ==>
               Complete(id, AttemptOf(w.cameras, id), bearer) in After(setup, w, [SendComplete(id, bearer)] + others).accepted
    ensures Runs(setup, w, CompletingSteps(id, bearer, a, others))
    ensures var n := After(setup, w, CompletingSteps(id, bearer, a, others));
            && w.sent <= n.sent && Complete(id, AttemptOf(w.cameras, id), bearer) in n.sent
            && (id !in n.cameras.queue <==> a.completion.value)
  {
    hide Runs, After, Inv, Next;
    var finish := SendComplete(id, bearer);
    StageKeeps(setup, w, finish, others, id);
    var w3 := After(setup, w, [finish] + others);
    if a.completion.value {
      RemovedLast(setup, w3, id, bearer);
      RunsJoin(setup, w, [finish] + others, [RemoveUploaded(id)]);
    } else {
      assert CompletingSteps(id, bearer, a, others) == [finish] + others;
    }
  }

  lemma RemovedLast(setup: Setup, w: World, id: string, bearer: Option<string>)
    requires id in w.cameras.queue && Complete(id, AttemptOf(w.cameras, id), bearer) in w.accepted
    ensures Runs(setup, w, [RemoveUploaded(id)])
    ensures var n := After(setup, w, [RemoveUploaded(id)]); n.sent == w.sent && id !in n.cameras.queue
  {
    var n := Next(setup, w, RemoveUploaded(id));
    assert [RemoveUploaded(id)][1..] == [];
    assert After(setup, w, [RemoveUploaded(id)]) == n;
  }
}
