/** Every run of the durable upload protocol: cameras that queue, send and
    delete photographs (device/src/main.rs), a network that may lose, delay or
    repeat any request or reply, and a server whose requests and reconciliation
    pass interleave statement by statement. A crash is a sequence that stops.
    Capture IDs are unique and nothing is deleted or rotated by a user. */
module UploadRuns {
  import opened Text
  import opened Catalog
  import Timestamps
  import opened UploadFlow

  const MAX_PHOTO_BYTES := 32 * 1024 * 1024

  /** `sidecar` is the capture metadata saved beside the photo, if any. */
  datatype Photo = Photo(camera: string, bytes: Bytes, sidecar: Option<string>)

  type Photos = map<string, Photo>

  datatype Place = InQueue | InLocal

  datatype Started = Started(camera: string, place: Place)

  /** The cameras' disks and modes, the upload attempts made for each photo, the
      IDs ever taken, and every photo ever committed to a queue. */
  datatype Cameras = Cameras(queue: Photos, local: Photos, testMode: set<string>, capturing: map<string, Started>,
                             attempts: map<string, nat>, used: set<string>, committed: Photos)

  /** A request belongs to one attempt, and so does its reply. `bearer` is the
      token it carries. */
  datatype Request =
    | Grant(id: string, attempt: nat, size: uint64, sidecar: Option<string>, bearer: Option<string>)
    | Body(id: string, attempt: nat, bytes: Bytes, bearer: Option<string>)
    | Complete(id: string, attempt: nat, bearer: Option<string>)

  /** The tokens of the active devices, and the shared token if one is set. */
  datatype Access = Access(devices: map<string, string>, shared: Option<string>)

  /** Whom a bearer token stands for: nobody, a device, or (`Some(None)`) the
      holder of the shared token. Without a shared token everybody is that. */
  function PrincipalOf(a: Access, bearer: Option<string>): Option<Option<string>> {
    if bearer.Some? && bearer.value in a.devices then Some(Some(a.devices[bearer.value]))
    else if a.shared.None? || (a.shared == bearer && a.shared.value != "") then Some(None)
    else None
  }

  /** The token a camera sends: its own wins over the shared one. */
  function AuthToken(deviceToken: Option<string>, uploadToken: Option<string>): Option<string> {
    if deviceToken.Some? then deviceToken else uploadToken
  }

  /** A body request that was let in, as whom. */
  datatype Admitted = Admitted(request: Request, device: Option<string>)

  /** What one reconciliation pass has read so far. */
  datatype Pass = Pass(ready: Option<set<string>>, pending: Option<set<string>>, stored: Option<set<string>>,
                       sized: set<(string, int)>, found: set<string>)

  const NO_PASS := Pass(None, None, None, {}, {})

  /** The table, the store, the temporary files broken saves have left, by ID
      and process, and the statements that requests have got through. */
  datatype Server = Server(rows: Rows, objects: Objects, access: Access, pid: nat, leftover: set<(string, nat)>,
                           saved: set<Admitted>, registered: set<Request>, expected: set<(Request, int)>,
                           measured: set<Request>, checked: set<Request>, pass: Pass)

  /** `sent` and `accepted` are the requests ever sent and ever answered with success. */
  datatype World = World(cameras: Cameras, sent: set<Request>, accepted: set<Request>, server: Server)

  /** Which store is in use and its key prefix; which bytes the image library
      decodes, and which capture metadata passes validation. */
  datatype Setup = Setup(remote: bool, prefix: string, decodes: Bytes -> bool, validSidecar: string -> bool)

  datatype Step =
    | SetTestMode(camera: string, on: bool)
    | StartCapture(camera: string, id: string)
    | FinishCapture(id: string, bytes: Bytes, sidecar: Option<string>)
    | LoseCapture(id: string)
    | QueueExisting(camera: string, id: string, bytes: Bytes)
    | BeginUpload(id: string, place: Place, bearer: Option<string>)
    | SendBody(id: string, bearer: Option<string>)
    | SendComplete(id: string, bearer: Option<string>)
    | RemoveUploaded(id: string)
    | Serve(work: Work)

  datatype Work =
    | ServeGrant(request: Request, capturedAt: Option<string>, now: int)
    | StoreBody(request: Request)
    | BreakSave(request: Request)
    | RegisterBody(request: Request, device: Option<string>)
    | MarkBody(request: Request)
    | ReadExpected(request: Request)
    | ReadStored(request: Request, size: int)
    | CheckReadable(request: Request)
    | MarkComplete(request: Request)
    | PassReadReady
    | PassReadPending
    | PassReadStored
    | PassFind(id: string, size: int)
    | PassMark(id: string)
    | PassImport(id: string)
    | PassEnd
    | Restart(newPid: nat)
    | SetAccess(access: Access)

  // ----- The cameras -----

  /** The attempt a photo is at; 0 before the first. */
  function AttemptOf(c: Cameras, id: string): nat {
    if id in c.attempts then c.attempts[id] else 0
  }

  predicate CanAct(w: World, s: Step)
    requires !s.Serve?
  {
    var c := w.cameras;
    match s
    case SetTestMode(_, _) => true
    case StartCapture(_, id) => id !in c.used
    case FinishCapture(id, bytes, _) => id in c.capturing && LooksLikeJpeg(bytes)
    case LoseCapture(id) => id in c.capturing
    case QueueExisting(_, id, bytes) => id !in c.used && LooksLikeJpeg(bytes)
    case BeginUpload(id, place, _) => if place.InLocal? then id in c.local else id in c.queue
    case SendBody(id, _) =>
      id in c.queue && exists r :: r in w.accepted && r.Grant? && r.id == id && r.attempt == AttemptOf(c, id)
    case SendComplete(id, _) =>
      id in c.queue && exists r :: r in w.accepted && r.Body? && r.id == id && r.attempt == AttemptOf(c, id)
    case RemoveUploaded(id) =>
      id in c.queue && exists r :: r in w.accepted && r.Complete? && r.id == id && r.attempt == AttemptOf(c, id)
  }

  function Captured(c: Cameras, id: string, photo: Photo, place: Place): Cameras {
    if place.InLocal? then c.(local := c.local[id := photo])
    else c.(queue := c.queue[id := photo], committed := c.committed[id := photo])
  }

  /** `upload`'s first two tests: it sends nothing for a local file, nor for any
      file in test mode. */
  predicate Sending(c: Cameras, id: string, place: Place) {
    place.InQueue? && id in c.queue && c.queue[id].camera !in c.testMode
  }

  /** The cameras' own state after a step. */
  function Moved(c: Cameras, s: Step): Cameras {
    match s
    case SetTestMode(camera, on) => c.(testMode := if on then c.testMode + {camera} else c.testMode - {camera})
    case StartCapture(camera, id) =>
      c.(capturing := c.capturing[id := Started(camera, if camera in c.testMode then InLocal else InQueue)],
         used := c.used + {id})
    case FinishCapture(id, bytes, sidecar) =>
      if id !in c.capturing then c
      else
        var started := c.capturing[id];
        Captured(c.(capturing := c.capturing - {id}), id, Photo(started.camera, bytes, sidecar), started.place)
    case LoseCapture(id) => c.(capturing := c.capturing - {id})
    case QueueExisting(camera, id, bytes) =>
      Captured(c.(used := c.used + {id}), id, Photo(camera, bytes, None), InQueue)
    case BeginUpload(id, place, _) =>
      if Sending(c, id, place) then c.(attempts := c.attempts[id := AttemptOf(c, id) + 1]) else c
    case RemoveUploaded(id) => c.(queue := c.queue - {id})
    case _ => c
  }

  function Sends(c: Cameras, s: Step): set<Request> {
    match s
    case BeginUpload(id, place, bearer) =>
      if !Sending(c, id, place) then {}
      else {Grant(id, AttemptOf(c, id) + 1, |c.queue[id].bytes|, c.queue[id].sidecar, bearer)}
    case SendBody(id, bearer) => if id in c.queue then {Body(id, AttemptOf(c, id), c.queue[id].bytes, bearer)} else {}
    case SendComplete(id, bearer) => {Complete(id, AttemptOf(c, id), bearer)}
    case _ => {}
  }

  // ----- The server -----

  /** A capture ID or metadata that does not validate is refused before
      anything is reserved. */
  predicate GrantIsValid(setup: Setup, r: Request, now: int)
    requires r.Grant?
  {
    (r.sidecar.None? || setup.validSidecar(r.sidecar.value)) && Timestamps.ValidateCaptureId(r.id, now).Accepted?
  }

  /** The local save succeeds if the photo is there already, or if its
      temporary file can be created. */
  predicate SaveWorks(v: Server, r: Request) {
    r.id in v.objects || (r.id, v.pid) !in v.leftover
  }

  predicate LetsIn(v: Server, r: Request) {
    PrincipalOf(v.access, r.bearer).Some?
  }

  /** A signed URL needs no bearer token; the server's own routes do. */
  predicate CanServe(setup: Setup, sent: set<Request>, v: Server, k: Work) {
    match k
    case ServeGrant(r, _, _) => r in sent && r.Grant?
    case StoreBody(r) =>
      r in sent && r.Body? && (setup.remote || (LetsIn(v, r) && LooksLikeJpeg(r.bytes) && SaveWorks(v, r)))
    case BreakSave(r) => r in sent && r.Body? && !setup.remote && LetsIn(v, r) && r.id !in v.objects && SaveWorks(v, r)
    case RegisterBody(r, device) =>
      Admitted(r, device) in v.saved && r.Body? && !setup.remote && r.id in v.objects && setup.decodes(v.objects[r.id])
    case MarkBody(r) => r in v.registered && r.Body?
    case ReadExpected(r) => r in sent && r.Complete? && LetsIn(v, r) && r.id in v.rows && SizeOf(v.rows[r.id]).Size?
    case ReadStored(r, size) => (r, size) in v.expected && r.id in v.objects && |v.objects[r.id]| == size
    case CheckReadable(r) => r in v.measured && r.id in v.objects && setup.decodes(v.objects[r.id])
    case MarkComplete(r) => r in v.checked
    case PassReadReady => v.pass.ready.None?
    case PassReadPending => v.pass.ready.Some? && v.pass.pending.None?
    case PassReadStored => v.pass.pending.Some? && v.pass.stored.None?
    case PassFind(id, size) =>
      && v.pass.stored.Some? && (id, size) in v.pass.sized
      && id in v.objects && |v.objects[id]| == size && setup.decodes(v.objects[id])
    case PassMark(id) => id in v.pass.found
    case PassImport(id) =>
      && v.pass.stored.Some? && v.pass.ready.Some? && v.pass.pending.Some?
      && id in v.pass.stored.value && id !in v.pass.ready.value && id !in v.pass.pending.value
    case PassEnd => true
    case Restart(_) => true
    case SetAccess(_) => true
  }

  /** The route's tests, up to the reservation: token, ID and metadata, guard. */
  predicate GrantReserves(setup: Setup, v: Server, r: Request, now: int)
    requires r.Grant?
  {
    LetsIn(v, r) && GrantIsValid(setup, r, now) && !Blocked(v.rows, r.id, r.size, PrincipalOf(v.access, r.bearer).value)
  }

  /** One statement. A grant reserves, and only then checks the size. A restart
      drops what is in flight; temporary files stay. */
  function Served(setup: Setup, v: Server, k: Work): Server {
    match k
    case ServeGrant(r, at, now) =>
      if !r.Grant? || !GrantReserves(setup, v, r, now) then v
      else
        var device := PrincipalOf(v.access, r.bearer).value;
        v.(rows := Reserved(v.rows, r.id, StorageKey(setup.prefix, r.id), r.size, device, at))
    case StoreBody(r) =>
      if !r.Body? then v
      else if setup.remote then v.(objects := v.objects[r.id := r.bytes])
      else if !LetsIn(v, r) then v
      else v.(objects := if r.id in v.objects then v.objects else v.objects[r.id := r.bytes],
              saved := v.saved + {Admitted(r, PrincipalOf(v.access, r.bearer).value)})
    case BreakSave(r) => v.(leftover := v.leftover + {(r.id, v.pid)})
    case RegisterBody(r, device) =>
      if !r.Body? || Blocked(v.rows, r.id, |r.bytes|, device) then v
      else v.(rows := Reserved(v.rows, r.id, StorageKey(setup.prefix, r.id), |r.bytes|, device, None),
              registered := v.registered + {r})
    case MarkBody(r) => v.(rows := Marked(v.rows, r.id))
    case ReadExpected(r) =>
      if r.id in v.rows && SizeOf(v.rows[r.id]).Size? then v.(expected := v.expected + {(r, SizeOf(v.rows[r.id]).bytes)})
      else v
    case ReadStored(r, _) => v.(measured := v.measured + {r})
    case CheckReadable(r) => v.(checked := v.checked + {r})
    case MarkComplete(r) => v.(rows := Marked(v.rows, r.id))
    case PassReadReady => v.(pass := v.pass.(ready := Some(set id | id in v.rows && v.rows[id].status.Ready?)))
    case PassReadPending =>
      v.(pass := v.pass.(pending := Some(PendingIds(v.rows)),
                         sized := set id | id in PendingIds(v.rows) && SizeOf(v.rows[id]).Size?
                                  :: (id, SizeOf(v.rows[id]).bytes)))
    case PassReadStored => v.(pass := v.pass.(stored := Some(v.objects.Keys)))
    case PassFind(id, _) => v.(pass := v.pass.(found := v.pass.found + {id}))
    case PassMark(id) => v.(rows := Marked(v.rows, id))
    case PassImport(id) => v.(rows := Adopted(v.rows, id, StorageKey(setup.prefix, id)))
    case PassEnd => v.(pass := NO_PASS)
    case Restart(pid) =>
      v.(pid := pid, saved := {}, registered := {}, expected := {}, measured := {}, checked := {}, pass := NO_PASS)
    case SetAccess(access) => v.(access := access)
  }

  /** The requests a statement answers with success. */
  function Accepts(setup: Setup, v: Server, k: Work): set<Request> {
    match k
    case ServeGrant(r, _, now) =>
      if r.Grant? && GrantReserves(setup, v, r, now) && 0 < r.size <= MAX_PHOTO_BYTES then {r} else {}
    case StoreBody(r) => if setup.remote then {r} else {}
    case MarkBody(r) => {r}
    case MarkComplete(r) => {r}
    case _ => {}
  }

  // ----- Runs -----

  predicate Enabled(setup: Setup, w: World, s: Step) {
    if s.Serve? then CanServe(setup, w.sent, w.server, s.work) else CanAct(w, s)
  }

  function Next(setup: Setup, w: World, s: Step): World {
    if s.Serve? then
      w.(server := Served(setup, w.server, s.work), accepted := w.accepted + Accepts(setup, w.server, s.work))
    else w.(cameras := Moved(w.cameras, s), sent := w.sent + Sends(w.cameras, s))
  }

  predicate Runs(setup: Setup, w: World, steps: seq<Step>)
    decreases |steps|
  {
    steps == [] || (Enabled(setup, w, steps[0]) && Runs(setup, Next(setup, w, steps[0]), steps[1..]))
  }

  function After(setup: Setup, w: World, steps: seq<Step>): World
    decreases |steps|
  {
    if steps == [] then w else After(setup, Next(setup, w, steps[0]), steps[1..])
  }

  lemma {:induction false} RunsJoin(setup: Setup, w: World, a: seq<Step>, b: seq<Step>)
    requires Runs(setup, w, a) && Runs(setup, After(setup, w, a), b)
    ensures Runs(setup, w, a + b) && After(setup, w, a + b) == After(setup, After(setup, w, a), b)
    decreases |a|
  {
    hide Enabled, Next;
    if a == [] {
      assert a + b == b;
    } else {
      assert (a + b)[1..] == a[1..] + b;
      RunsJoin(setup, Next(setup, w, a[0]), a[1..], b);
    }
  }

  const EMPTY := World(Cameras(map[], map[], {}, map[], map[], {}, map[]), {}, {},
                       Server(map[], map[], Access(map[], None), 0, {}, {}, {}, {}, {}, {}, NO_PASS))

  // ----- What every run keeps -----

  predicate CameraInv(c: Cameras) {
    && (forall id :: id in c.queue ==> id in c.committed && c.queue[id] == c.committed[id])
    && (forall id :: id in c.committed ==> LooksLikeJpeg(c.committed[id].bytes))
    && c.committed.Keys <= c.used && c.local.Keys <= c.used && c.capturing.Keys <= c.used
    && c.local.Keys !! c.committed.Keys && c.capturing.Keys !! c.committed.Keys && c.capturing.Keys !! c.local.Keys
  }

  /** The ID denotes a possible moment in no year before the first plausible one. */
  predicate PlausibleId(id: string) {
    && Timestamps.IdShape(id) && Timestamps.FieldsInRange(Timestamps.IdCivil(id))
    && Timestamps.IdCivil(id).year >= Timestamps.MIN_YEAR
  }

  /** What a grant's validation and size check ask of a photo, whatever the clock. */
  predicate Grantable(setup: Setup, id: string, photo: Photo) {
    && PlausibleId(id) && (photo.sidecar.None? || setup.validSidecar(photo.sidecar.value))
    && 0 < |photo.bytes| <= MAX_PHOTO_BYTES
  }

  /** A request speaks of a committed photo, and follows what it depends on. */
  predicate SentInv(setup: Setup, c: Cameras, v: Server, r: Request) {
    && r.id in c.committed && 0 < r.attempt <= AttemptOf(c, r.id)
    && (r.Grant? ==> r.size == |c.committed[r.id].bytes| && r.sidecar == c.committed[r.id].sidecar)
    && (!r.Grant? ==> r.id in v.rows && Grantable(setup, r.id, c.committed[r.id]))
    && (r.Body? ==> r.bytes == c.committed[r.id].bytes)
    && (r.Complete? ==> r.id in v.objects)
  }

  predicate AcceptedInv(setup: Setup, c: Cameras, sent: set<Request>, v: Server, r: Request) {
    && r in sent && r.id in c.committed
    && (r.Grant? ==> r.id in v.rows && Grantable(setup, r.id, c.committed[r.id]))
    && (r.Body? ==> r.id in v.objects)
    && (r.Complete? ==> Stored(v, r.id) && setup.decodes(c.committed[r.id].bytes))
  }

  predicate Stored(v: Server, id: string) {
    id in v.rows && v.rows[id].status.Ready? && id in v.objects
  }

  /** The row of a committed photo. */
  predicate RowInv(setup: Setup, committed: Photos, v: Server, id: string)
    requires id in v.rows
  {
    && id in committed
    && v.rows[id].storageKey == StorageKey(setup.prefix, id)
    && v.rows[id].byteSize == Some(|committed[id].bytes|)
    && (v.rows[id].status.Ready? ==> id in v.objects)
  }

  predicate ObjectInv(committed: Photos, v: Server, id: string)
    requires id in v.objects
  {
    id in v.rows && id in committed && v.objects[id] == committed[id].bytes
  }

  predicate Readable(setup: Setup, committed: Photos, id: string) {
    id in committed && setup.decodes(committed[id].bytes)
  }

  predicate WorkInv(setup: Setup, committed: Photos, sent: set<Request>, v: Server) {
    && (forall a :: a in v.saved ==> a.request in sent && a.request.Body? && a.request.id in v.objects)
    && (forall r :: r in v.registered ==> r in sent && r.Body? && r.id in v.objects)
    && (forall p :: p in v.expected ==> p.0 in sent && p.0.Complete?)
    && (forall r :: r in v.measured ==> r in sent && r.Complete?)
    && (forall r :: r in v.checked ==> r in sent && r.Complete? && Readable(setup, committed, r.id))
    && (v.pass.stored.Some? ==> v.pass.stored.value <= v.objects.Keys)
    && v.pass.found <= v.objects.Keys
  }

  /** A committed photo is still queued, or it is stored and met every
      condition of the exchange. */
  predicate Held(setup: Setup, c: Cameras, v: Server, id: string)
    requires id in c.committed
  {
    id in c.queue
    || (Stored(v, id) && Grantable(setup, id, c.committed[id]) && setup.decodes(c.committed[id].bytes))
  }

  ghost predicate Inv(setup: Setup, w: World) {
    var (c, v) := (w.cameras, w.server);
    && CameraInv(c)
    && (forall r :: r in w.sent ==> SentInv(setup, c, v, r))
    && (forall r :: r in w.accepted ==> AcceptedInv(setup, c, w.sent, v, r))
    && (forall id :: id in v.rows ==> RowInv(setup, c.committed, v, id))
    && (forall id :: id in v.objects ==> ObjectInv(c.committed, v, id))
    && WorkInv(setup, c.committed, w.sent, v)
    && (forall id :: id in c.committed ==> Held(setup, c, v, id))
  }

  // ----- Camera steps -----

  lemma CapturedKeepsCameras(c: Cameras, id: string, photo: Photo, place: Place)
    requires CameraInv(c) && id in c.used && id !in c.committed && id !in c.local && id !in c.capturing
    requires LooksLikeJpeg(photo.bytes)
    ensures CameraInv(Captured(c, id, photo, place))
  {
    hide LooksLikeJpeg;
  }

  lemma MoveKeepsCameras(c: Cameras, s: Step)
    requires CameraInv(c) && (s.StartCapture? || s.QueueExisting? ==> s.id !in c.used)
    requires s.FinishCapture? || s.QueueExisting? ==> LooksLikeJpeg(s.bytes)
    ensures CameraInv(Moved(c, s))
  {
    hide LooksLikeJpeg;
    match s {
      case FinishCapture(id, bytes, sidecar) =>
        if id in c.capturing {
          var started := c.capturing[id];
          var rest := c.(capturing := c.capturing - {id});
          assert CameraInv(rest);
          hide CameraInv;
          CapturedKeepsCameras(rest, id, Photo(started.camera, bytes, sidecar), started.place);
        }
      case QueueExisting(camera, id, bytes) =>
        assert CameraInv(c.(used := c.used + {id}));
        hide CameraInv;
        CapturedKeepsCameras(c.(used := c.used + {id}), id, Photo(camera, bytes, None), InQueue);
      case _ =>
    }
  }

  /** Only a removal takes a photo out of the queue, and nothing is forgotten. */
  lemma MoveKeepsPhotos(c: Cameras, s: Step)
    requires CameraInv(c) && (s.StartCapture? || s.QueueExisting? ==> s.id !in c.used)
    ensures forall id :: id in c.committed ==> id in Moved(c, s).committed && Moved(c, s).committed[id] == c.committed[id]
    ensures forall id :: id in Moved(c, s).committed && id !in c.committed ==> id in Moved(c, s).queue
    ensures forall id :: id in c.queue && id !in Moved(c, s).queue ==> s == RemoveUploaded(id)
    ensures forall id :: AttemptOf(c, id) <= AttemptOf(Moved(c, s), id)
  {
    hide LooksLikeJpeg;
  }

  lemma SendIsSound(setup: Setup, w: World, s: Step, r: Request)
    requires Inv(setup, w) && !s.Serve? && CanAct(w, s) && r in Sends(w.cameras, s)
    ensures SentInv(setup, Moved(w.cameras, s), w.server, r)
  {
    hide RowInv, ObjectInv, WorkInv, Held, Grantable, LooksLikeJpeg;
    var c := w.cameras;
    if s.SendBody? {
      var g :| g in w.accepted && g.Grant? && g.id == s.id && g.attempt == AttemptOf(c, s.id);
      assert AcceptedInv(setup, c, w.sent, w.server, g);
      assert SentInv(setup, c, w.server, g);
    } else if s.SendComplete? {
      var b :| b in w.accepted && b.Body? && b.id == s.id && b.attempt == AttemptOf(c, s.id);
      assert AcceptedInv(setup, c, w.sent, w.server, b);
      assert SentInv(setup, c, w.server, b);
    }
  }

  /** Photos, attempts and rows are only added, and what is stored stays stored. */
  ghost predicate Extends(c: Cameras, v: Server, moreCameras: Cameras, more: Server) {
    && (forall id :: id in c.committed ==>
          id in moreCameras.committed && moreCameras.committed[id] == c.committed[id])
    && (forall id :: AttemptOf(c, id) <= AttemptOf(moreCameras, id))
    && v.rows.Keys <= more.rows.Keys && v.objects.Keys <= more.objects.Keys
    && forall id :: Stored(v, id) ==> Stored(more, id)
  }

  lemma RequestsSurvive(setup: Setup, w: World, n: World)
    requires Inv(setup, w) && Extends(w.cameras, w.server, n.cameras, n.server) && w.sent <= n.sent
    ensures forall r :: r in w.sent ==> SentInv(setup, n.cameras, n.server, r)
    ensures forall r :: r in w.accepted ==> AcceptedInv(setup, n.cameras, n.sent, n.server, r)
  {
    hide CameraInv, RowInv, ObjectInv, WorkInv, Stored, Held, Grantable;
    forall r | r in w.sent
      ensures SentInv(setup, n.cameras, n.server, r)
    {
      assert SentInv(setup, w.cameras, w.server, r);
    }
    forall r | r in w.accepted
      ensures AcceptedInv(setup, n.cameras, n.sent, n.server, r)
    {
      assert AcceptedInv(setup, w.cameras, w.sent, w.server, r);
    }
  }

  /** Committing photos leaves the server's side as it was. */
  lemma ServerUnmoved(setup: Setup, w: World, n: World)
    requires Inv(setup, w) && n.server == w.server && w.sent <= n.sent
    requires forall id :: id in w.cameras.committed ==>
               id in n.cameras.committed && n.cameras.committed[id] == w.cameras.committed[id]
    ensures forall id :: id in n.server.rows ==> RowInv(setup, n.cameras.committed, n.server, id)
    ensures forall id :: id in n.server.objects ==> ObjectInv(n.cameras.committed, n.server, id)
    ensures WorkInv(setup, n.cameras.committed, n.sent, n.server)
  {
    hide CameraInv, SentInv, AcceptedInv, Held;
    var v := n.server;
    forall id | id in v.rows
      ensures RowInv(setup, n.cameras.committed, v, id)
    {
      assert RowInv(setup, w.cameras.committed, v, id);
    }
    forall id | id in v.objects
      ensures ObjectInv(n.cameras.committed, v, id)
    {
      assert ObjectInv(w.cameras.committed, v, id);
    }
    forall r | r in v.checked
      ensures Readable(setup, n.cameras.committed, r.id)
    {
      assert Readable(setup, w.cameras.committed, r.id);
    }
  }

  lemma CameraStepKeepsInv(setup: Setup, w: World, s: Step)
    requires Inv(setup, w) && !s.Serve? && CanAct(w, s)
    ensures Inv(setup, Next(setup, w, s))
  {
    var n := Next(setup, w, s);
    MoveKeepsCameras(w.cameras, s);
    MoveKeepsPhotos(w.cameras, s);
    hide CameraInv, Moved, LooksLikeJpeg, Grantable, AttemptOf;
    ServerUnmoved(setup, w, n);
    RequestsSurvive(setup, w, n);
    forall r | r in n.sent && r !in w.sent
      ensures SentInv(setup, n.cameras, n.server, r)
    {
      SendIsSound(setup, w, s, r);
    }
    forall id | id in n.cameras.committed
      ensures Held(setup, n.cameras, n.server, id)
    {
      if id in w.cameras.committed {
        assert Held(setup, w.cameras, w.server, id);
        if id in w.cameras.queue && id !in n.cameras.queue {
          RemovedIsHeld(setup, w, id);
        }
      }
    }
  }

  lemma RemovedIsHeld(setup: Setup, w: World, id: string)
    requires Inv(setup, w) && CanAct(w, RemoveUploaded(id))
    ensures id in w.cameras.committed && Stored(w.server, id)
    ensures Grantable(setup, id, w.cameras.committed[id]) && setup.decodes(w.cameras.committed[id].bytes)
  {
    var r :| r in w.accepted && r.Complete? && r.id == id && r.attempt == AttemptOf(w.cameras, id);
    assert AcceptedInv(setup, w.cameras, w.sent, w.server, r);
    assert SentInv(setup, w.cameras, w.server, r);
  }

  // ----- Server steps -----

  lemma ServedExtends(setup: Setup, sent: set<Request>, v: Server, k: Work)
    requires CanServe(setup, sent, v, k)
    ensures var n := Served(setup, v, k);
            && v.rows.Keys <= n.rows.Keys && v.objects.Keys <= n.objects.Keys
            && (forall id :: Stored(v, id) ==> Stored(n, id))
  {
    hide GrantIsValid, LooksLikeJpeg, StorageKey;
  }

  /** What a statement is about is a request that was sent. */
  lemma WorkIsSent(setup: Setup, w: World, k: Work)
    requires Inv(setup, w) && CanServe(setup, w.sent, w.server, k)
    ensures (k.ServeGrant? || k.StoreBody? || k.RegisterBody? || k.MarkBody?) ==>
              k.request in w.sent && SentInv(setup, w.cameras, w.server, k.request)
    ensures (k.RegisterBody? || k.MarkBody?) ==> k.request.Body? && k.request.id in w.server.objects
    ensures k.ReadExpected? || k.ReadStored? || k.CheckReadable? || k.MarkComplete? ==>
              k.request in w.sent && k.request.Complete? && SentInv(setup, w.cameras, w.server, k.request)
    ensures k.MarkComplete? ==> Readable(setup, w.cameras.committed, k.request.id)
    ensures k.PassMark? || k.PassImport? ==> k.id in w.server.objects
  {
    hide CameraInv, SentInv, AcceptedInv, RowInv, ObjectInv, Held, Readable, LooksLikeJpeg;
  }

  /** What one statement can make of a row. */
  lemma RowChanges(setup: Setup, v: Server, k: Work, id: string)
    requires id in Served(setup, v, k).rows
    ensures var (row, n) := (Served(setup, v, k).rows[id], Served(setup, v, k));
            || (id in v.rows && row == v.rows[id])
            || (k.ServeGrant? && k.request.Grant? && k.request.id == id && row.byteSize == Some(AsI64(k.request.size))
                && row.storageKey == (if id in v.rows then v.rows[id].storageKey else StorageKey(setup.prefix, id))
                && row.status == (if id in v.rows then v.rows[id].status else Pending))
            || (k.RegisterBody? && k.request.Body? && k.request.id == id && row.byteSize == Some(AsI64(|k.request.bytes|))
                && row.storageKey == (if id in v.rows then v.rows[id].storageKey else StorageKey(setup.prefix, id))
                && row.status == (if id in v.rows then v.rows[id].status else Pending))
            || ((k.MarkBody? || k.MarkComplete?) && k.request.id == id && id in v.rows && row == v.rows[id].(status := Ready))
            || (k.PassMark? && k.id == id && id in v.rows && row == v.rows[id].(status := Ready))
            || (k.PassImport? && k.id == id && row.storageKey == StorageKey(setup.prefix, id) && row.status == Ready
                && (id in v.rows ==> row.byteSize == v.rows[id].byteSize))
  {
    hide StorageKey, Timestamps.IdToTimestamp, GrantIsValid, LooksLikeJpeg;
  }

  lemma RowServed(setup: Setup, w: World, k: Work, id: string)
    requires Inv(setup, w) && CanServe(setup, w.sent, w.server, k) && id in Served(setup, w.server, k).rows
    ensures RowInv(setup, w.cameras.committed, Served(setup, w.server, k), id)
  {
    var (v, n) := (w.server, Served(setup, w.server, k));
    WorkIsSent(setup, w, k);
    ServedExtends(setup, w.sent, v, k);
    RowChanges(setup, v, k, id);
    if id in v.rows {
      assert RowInv(setup, w.cameras.committed, v, id);
    }
    if id in v.objects {
      assert ObjectInv(w.cameras.committed, v, id);
    }
    hide Inv, CanServe, Served, Grantable, StorageKey;
  }

  lemma RowsServed(setup: Setup, w: World, k: Work)
    requires Inv(setup, w) && CanServe(setup, w.sent, w.server, k)
    ensures var n := Served(setup, w.server, k);
            forall id :: id in n.rows ==> RowInv(setup, w.cameras.committed, n, id)
  {
    hide Inv, CanServe, RowInv, Served;
    forall id | id in Served(setup, w.server, k).rows
      ensures RowInv(setup, w.cameras.committed, Served(setup, w.server, k), id)
    {
      RowServed(setup, w, k, id);
    }
  }

  lemma ObjectsServed(setup: Setup, w: World, k: Work)
    requires Inv(setup, w) && CanServe(setup, w.sent, w.server, k)
    ensures var n := Served(setup, w.server, k);
            forall id :: id in n.objects ==> ObjectInv(w.cameras.committed, n, id)
  {
    var (v, n) := (w.server, Served(setup, w.server, k));
    WorkIsSent(setup, w, k);
    ServedExtends(setup, w.sent, v, k);
    ObjectChanges(setup, v, k);
    forall id | id in n.objects
      ensures ObjectInv(w.cameras.committed, n, id)
    {
      if id in v.objects {
        assert ObjectInv(w.cameras.committed, v, id);
      }
    }
    hide Inv, CanServe, Served, Grantable;
  }

  lemma ObjectChanges(setup: Setup, v: Server, k: Work)
    ensures forall id :: id in Served(setup, v, k).objects ==>
              || (id in v.objects && Served(setup, v, k).objects[id] == v.objects[id])
              || (k.StoreBody? && k.request.Body? && k.request.id == id && Served(setup, v, k).objects[id] == k.request.bytes)
  {
    hide StorageKey, GrantIsValid;
  }

  lemma WorkServed(setup: Setup, w: World, k: Work)
    requires Inv(setup, w) && CanServe(setup, w.sent, w.server, k)
    ensures WorkInv(setup, w.cameras.committed, w.sent, Served(setup, w.server, k))
  {
    if k.CheckReadable? {
      assert ObjectInv(w.cameras.committed, w.server, k.request.id);
    }
    assert WorkInv(setup, w.cameras.committed, w.sent, w.server);
    hide Inv;
    WorkStep(setup, w.cameras.committed, w.sent, w.server, k);
  }

  lemma WorkStep(setup: Setup, committed: Photos, sent: set<Request>, v: Server, k: Work)
    requires WorkInv(setup, committed, sent, v) && CanServe(setup, sent, v, k)
    requires k.CheckReadable? ==> ObjectInv(committed, v, k.request.id)
    ensures WorkInv(setup, committed, sent, Served(setup, v, k))
  {
    hide GrantIsValid, LooksLikeJpeg, StorageKey, Blocked, Reserved, Marked, Adopted, SizeOf, PendingIds;
  }

  lemma GrantIsSound(setup: Setup, c: Cameras, v: Server, k: Work)
    requires k.ServeGrant? && k.request.Grant? && SentInv(setup, c, v, k.request) && k.request in Accepts(setup, v, k)
    ensures k.request.id in Served(setup, v, k).rows && Grantable(setup, k.request.id, c.committed[k.request.id])
  {
    hide StorageKey, Timestamps.IdToTimestamp, Timestamps.ValidateCaptureId, PlausibleId;
    ValidIdIsPlausible(k.request.id, k.now);
  }

  /** What a marking leaves is stored. */
  lemma MarkIsSound(setup: Setup, w: World, k: Work)
    requires Inv(setup, w) && CanServe(setup, w.sent, w.server, k) && (k.MarkBody? || k.MarkComplete?)
    requires k.request in w.sent && SentInv(setup, w.cameras, w.server, k.request)
    requires k.request.id in w.server.rows && k.request.id in w.server.objects
    ensures Stored(Served(setup, w.server, k), k.request.id)
  {
    hide Inv, SentInv, CanServe;
  }

  /** A reply of success tells the truth. */
  lemma AcceptIsSound(setup: Setup, w: World, k: Work, r: Request)
    requires Inv(setup, w) && CanServe(setup, w.sent, w.server, k) && r in Accepts(setup, w.server, k)
    ensures AcceptedInv(setup, w.cameras, w.sent, Served(setup, w.server, k), r)
  {
    WorkIsSent(setup, w, k);
    hide Inv, Served, Stored, Grantable, CanServe, LooksLikeJpeg, GrantIsValid, Blocked;
    match k {
      case ServeGrant(_, _, _) => GrantIsSound(setup, w.cameras, w.server, k);
      case StoreBody(_) => StoreIsSound(setup, w, k);
      case MarkBody(_) => MarkIsSound(setup, w, k);
      case MarkComplete(_) => MarkIsSound(setup, w, k);
      case _ =>
    }
  }

  lemma StoreIsSound(setup: Setup, w: World, k: Work)
    requires k.StoreBody? && k.request.Body? && setup.remote
    ensures k.request.id in Served(setup, w.server, k).objects
  {
  }

  lemma ValidIdIsPlausible(id: string, now: int)
    requires Timestamps.ValidateCaptureId(id, now).Accepted?
    ensures PlausibleId(id)
  {
    Timestamps.AcceptedInstants(id, now);
  }

  lemma ServerStepKeepsInv(setup: Setup, w: World, k: Work)
    requires Inv(setup, w) && CanServe(setup, w.sent, w.server, k)
    ensures Inv(setup, Next(setup, w, Serve(k)))
  {
    var n := Next(setup, w, Serve(k));
    hide CameraInv, RowInv, ObjectInv, WorkInv, Served, Accepts, Stored, Grantable, CanServe, SentInv, AcceptedInv, AttemptOf;
    ServedExtends(setup, w.sent, w.server, k);
    RowsServed(setup, w, k);
    ObjectsServed(setup, w, k);
    WorkServed(setup, w, k);
    forall r | r in Accepts(setup, w.server, k)
      ensures AcceptedInv(setup, w.cameras, w.sent, Served(setup, w.server, k), r)
    {
      AcceptIsSound(setup, w, k, r);
    }
    RequestsSurvive(setup, w, n);
    forall id | id in n.cameras.committed
      ensures Held(setup, n.cameras, n.server, id)
    {
      assert Held(setup, w.cameras, w.server, id);
    }
  }

  lemma {:induction false} RunKeepsInv(setup: Setup, w: World, steps: seq<Step>)
    requires Inv(setup, w) && Runs(setup, w, steps)
    ensures Inv(setup, After(setup, w, steps))
    decreases |steps|
  {
    hide Inv, Enabled, Next;
    if steps != [] {
      StepKeepsInv(setup, w, steps[0]);
      RunKeepsInv(setup, Next(setup, w, steps[0]), steps[1..]);
    }
  }

  lemma StepKeepsInv(setup: Setup, w: World, s: Step)
    requires Inv(setup, w) && Enabled(setup, w, s)
    ensures Inv(setup, Next(setup, w, s))
  {
    hide Inv;
    if s.Serve? {
      ServerStepKeepsInv(setup, w, s.work);
    } else {
      CameraStepKeepsInv(setup, w, s);
    }
  }

  // ----- Main results -----

  /** In every run, each photo committed to a queue is still queued, or is a
      ready row under its own key, of its own size, whose object is that photo. */
  lemma NoPhotoIsLost(setup: Setup, steps: seq<Step>, id: string)
    requires Runs(setup, EMPTY, steps)
    ensures var (c, v) := (After(setup, EMPTY, steps).cameras, After(setup, EMPTY, steps).server);
            id in c.committed ==>
              id in c.queue
              || (&& id in v.rows && v.rows[id].status.Ready?
                  && v.rows[id].storageKey == StorageKey(setup.prefix, id)
                  && v.rows[id].byteSize == Some(|c.committed[id].bytes|)
                  && id in v.objects && v.objects[id] == c.committed[id].bytes)
  {
    RunKeepsInv(setup, EMPTY, steps);
    var w := After(setup, EMPTY, steps);
    hide CameraInv, WorkInv, Grantable;
    if id in w.cameras.committed && id !in w.cameras.queue {
      assert Held(setup, w.cameras, w.server, id);
      assert Stored(w.server, id);
      assert RowInv(setup, w.cameras.committed, w.server, id) && ObjectInv(w.cameras.committed, w.server, id);
    }
  }

  /** A ready row never lacks its photo, and a stored object never lacks its
      row: reconciliation finds no orphan, and its import adds no row. */
  lemma GalleryIsComplete(setup: Setup, steps: seq<Step>, id: string)
    requires Runs(setup, EMPTY, steps)
    ensures var (c, v) := (After(setup, EMPTY, steps).cameras, After(setup, EMPTY, steps).server);
            && (id in v.rows && v.rows[id].status.Ready? ==>
                  id in v.objects && id in c.committed && v.objects[id] == c.committed[id].bytes)
            && Orphans(v.rows, v.objects) == {}
            && (CanServe(setup, {}, v, PassImport(id)) ==> id in v.rows)
  {
    hide Runs, After;
    assert Inv(setup, EMPTY);
    RunKeepsInv(setup, EMPTY, steps);
    var w := After(setup, EMPTY, steps);
    StateIsComplete(setup, w, id);
  }

  lemma StateIsComplete(setup: Setup, w: World, id: string)
    requires Inv(setup, w)
    ensures var (c, v) := (w.cameras, w.server);
            && (id in v.rows && v.rows[id].status.Ready? ==>
                  id in v.objects && id in c.committed && v.objects[id] == c.committed[id].bytes)
            && Orphans(v.rows, v.objects) == {}
            && (CanServe(setup, {}, v, PassImport(id)) ==> id in v.rows)
  {
    var v := w.server;
    hide CameraInv, SentInv, AcceptedInv, Held;
    if id in v.rows && v.rows[id].status.Ready? {
      assert RowInv(setup, w.cameras.committed, v, id) && ObjectInv(w.cameras.committed, v, id);
    }
    forall other | other in v.objects
      ensures other in v.rows
    {
      assert ObjectInv(w.cameras.committed, v, other);
    }
  }

  lemma {:induction false} LocalStaysLocal(setup: Setup, w: World, steps: seq<Step>, id: string)
    requires Inv(setup, w) && Runs(setup, w, steps) && id in w.cameras.local
    ensures var n := After(setup, w, steps);
            id in n.cameras.local && n.cameras.local[id] == w.cameras.local[id]
    decreases |steps|
  {
    if steps != [] {
      StepKeepsInv(setup, w, steps[0]);
      KeepsLocal(setup, w, steps[0], id);
      LocalStaysLocal(setup, Next(setup, w, steps[0]), steps[1..], id);
    }
  }

  lemma KeepsLocal(setup: Setup, w: World, s: Step, id: string)
    requires Inv(setup, w) && Enabled(setup, w, s) && id in w.cameras.local
    ensures var n := Next(setup, w, s); id in n.cameras.local && n.cameras.local[id] == w.cameras.local[id]
  {
  }

  /** A photo taken in test mode keeps its local file and never appears in a
      request, a queue, the table or the store, however the mode is toggled. */
  lemma TestPhotosAreNeverSent(setup: Setup, before: seq<Step>, later: seq<Step>, id: string)
    requires Runs(setup, EMPTY, before) && id in After(setup, EMPTY, before).cameras.local
    requires Runs(setup, After(setup, EMPTY, before), later)
    ensures var w := After(setup, After(setup, EMPTY, before), later);
            && id in w.cameras.local && w.cameras.local[id] == After(setup, EMPTY, before).cameras.local[id]
            && id !in w.cameras.queue && id !in w.server.rows && id !in w.server.objects
            && forall r :: r in w.sent ==> r.id != id
  {
    var w := After(setup, EMPTY, before);
    RunKeepsInv(setup, EMPTY, before);
    LocalStaysLocal(setup, w, later, id);
    RunKeepsInv(setup, w, later);
    NothingLocalIsKnown(setup, After(setup, w, later), id);
  }

  lemma NothingLocalIsKnown(setup: Setup, w: World, id: string)
    requires Inv(setup, w) && id in w.cameras.local
    ensures id !in w.cameras.queue && id !in w.server.rows && id !in w.server.objects
    ensures forall r :: r in w.sent ==> r.id != id
  {
    assert id !in w.cameras.committed;
    forall r | r in w.sent
      ensures r.id != id
    {
      assert SentInv(setup, w.cameras, w.server, r);
    }
  }

  predicate Ends(s: Step, id: string) {
    (s.FinishCapture? && s.id == id) || s == LoseCapture(id)
  }

  lemma CapturingStep(setup: Setup, w: World, s: Step, id: string)
    requires Inv(setup, w) && Enabled(setup, w, s) && id in w.cameras.capturing && !Ends(s, id)
    ensures var c := Next(setup, w, s).cameras; id in c.capturing && c.capturing[id] == w.cameras.capturing[id]
  {
    if !s.Serve? {
      CapturingMoves(w.cameras, s, id);
    }
    hide Inv, Moved, Served, CanServe, Accepts, Sends, CanAct;
  }

  lemma CapturingMoves(c: Cameras, s: Step, id: string)
    requires CameraInv(c) && (s.StartCapture? ==> s.id !in c.used) && id in c.capturing && !Ends(s, id)
    ensures id in Moved(c, s).capturing && Moved(c, s).capturing[id] == c.capturing[id]
  {
  }

  lemma {:induction false} CapturingStays(setup: Setup, w: World, steps: seq<Step>, id: string)
    requires Inv(setup, w) && Runs(setup, w, steps) && id in w.cameras.capturing
    requires forall s :: s in steps ==> !Ends(s, id)
    ensures var n := After(setup, w, steps);
            Inv(setup, n) && id in n.cameras.capturing && n.cameras.capturing[id] == w.cameras.capturing[id]
    decreases |steps|
  {
    hide Inv, Enabled, Next, Ends;
    if steps != [] {
      assert steps[0] in steps;
      StepKeepsInv(setup, w, steps[0]);
      CapturingStep(setup, w, steps[0], id);
      forall s | s in steps[1..]
        ensures !Ends(s, id)
      {
        assert s in steps;
      }
      CapturingStays(setup, Next(setup, w, steps[0]), steps[1..], id);
    }
  }

  /** The mode at the shutter decides where a photo goes, whatever is switched
      or done before the capture finishes. */
  lemma PlaceIsFixedAtTheShutter(setup: Setup, w: World, camera: string, id: string, meanwhile: seq<Step>, bytes: Bytes,
                                 sidecar: Option<string>)
    requires Inv(setup, w) && Enabled(setup, w, StartCapture(camera, id)) && LooksLikeJpeg(bytes)
    requires Runs(setup, Next(setup, w, StartCapture(camera, id)), meanwhile)
    requires forall s :: s in meanwhile ==> !Ends(s, id)
    ensures var w1 := After(setup, Next(setup, w, StartCapture(camera, id)), meanwhile);
            var n := Next(setup, w1, FinishCapture(id, bytes, sidecar));
            && Enabled(setup, w1, FinishCapture(id, bytes, sidecar))
            && (id in n.cameras.local <==> camera in w.cameras.testMode)
            && (id in n.cameras.queue <==> camera !in w.cameras.testMode)
            && (if camera in w.cameras.testMode then n.cameras.local[id] else n.cameras.queue[id])
               == Photo(camera, bytes, sidecar)
  {
    var started := Next(setup, w, StartCapture(camera, id));
    assert started.cameras.capturing[id] == Started(camera, if camera in w.cameras.testMode then InLocal else InQueue);
    StepKeepsInv(setup, w, StartCapture(camera, id));
    CapturingStays(setup, started, meanwhile, id);
    assert CameraInv(After(setup, started, meanwhile).cameras);
    hide Inv, Runs, After, LooksLikeJpeg;
  }

  /** From the moment a row is ready, its key, size and device stay. */
  lemma {:induction false} ReadyRowStays(setup: Setup, w: World, steps: seq<Step>, id: string)
    requires Inv(setup, w) && Runs(setup, w, steps) && id in w.server.rows && w.server.rows[id].status.Ready?
    ensures id in After(setup, w, steps).server.rows
    ensures var row := After(setup, w, steps).server.rows[id];
            row == w.server.rows[id].(capturedAt := row.capturedAt)
    decreases |steps|
  {
    hide Inv, Enabled, Next;
    if steps != [] {
      StepKeepsInv(setup, w, steps[0]);
      ReadyRowStep(setup, w, steps[0], id);
      ReadyRowStays(setup, Next(setup, w, steps[0]), steps[1..], id);
    }
  }

  lemma ReadyRowStep(setup: Setup, w: World, s: Step, id: string)
    requires Inv(setup, w) && Enabled(setup, w, s) && id in w.server.rows && w.server.rows[id].status.Ready?
    ensures id in Next(setup, w, s).server.rows
    ensures var row := Next(setup, w, s).server.rows[id];
            row == w.server.rows[id].(capturedAt := row.capturedAt)
  {
    assert RowInv(setup, w.cameras.committed, w.server, id);
    if s.Serve? {
      hide Inv, CanServe, Accepts;
      ServedKeepsReady(setup, w.server, s.work, id);
    }
  }

  lemma ServedKeepsReady(setup: Setup, v: Server, k: Work, id: string)
    requires id in v.rows && v.rows[id].status.Ready? && v.rows[id].storageKey == StorageKey(setup.prefix, id)
    ensures var n := Served(setup, v, k);
            && id in n.rows && var row := n.rows[id]; row == v.rows[id].(capturedAt := row.capturedAt)
  {
    hide StorageKey, Timestamps.IdToTimestamp;
  }

  /** Nothing but its removal takes a photo out of the queue, and what was sent
      and accepted stays so. */
  lemma {:induction false} OthersKeepQueued(setup: Setup, w: World, steps: seq<Step>, id: string)
    requires Inv(setup, w) && Runs(setup, w, steps) && id in w.cameras.queue && RemoveUploaded(id) !in steps
    ensures var n := After(setup, w, steps);
            && Inv(setup, n) && id in n.cameras.queue && n.cameras.queue[id] == w.cameras.queue[id]
            && w.sent <= n.sent && w.accepted <= n.accepted
    decreases |steps|
  {
    hide Inv, Enabled, Next;
    if steps != [] {
      StepKeepsInv(setup, w, steps[0]);
      OtherStep(setup, w, steps[0], id);
      OthersKeepQueued(setup, Next(setup, w, steps[0]), steps[1..], id);
    }
  }

  lemma OtherStep(setup: Setup, w: World, s: Step, id: string)
    requires Inv(setup, w) && Enabled(setup, w, s) && id in w.cameras.queue && s != RemoveUploaded(id)
    ensures var n := Next(setup, w, s);
            && id in n.cameras.queue && n.cameras.queue[id] == w.cameras.queue[id]
            && w.sent <= n.sent && w.accepted <= n.accepted
  {
    if !s.Serve? {
      QueuedStep(w.cameras, s, id);
    }
    hide Inv, Moved, Sends, Served, Accepts, CanServe;
  }

  lemma QueuedStep(c: Cameras, s: Step, id: string)
    requires CameraInv(c) && id in c.queue && s != RemoveUploaded(id)
    requires s.StartCapture? || s.QueueExisting? ==> s.id !in c.used
    ensures id in Moved(c, s).queue && Moved(c, s).queue[id] == c.queue[id]
  {
  }
}
