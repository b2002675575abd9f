/** Accepting an upload on the server: the photo store (server/src/photos.rs),
    completion and reconciliation (server/src/upload_flow.rs) and the direct
    upload route (server/app/api/photos/route.rs). Requests run one at a time
    here; UploadRuns interleaves their statements. */
module UploadFlow {
  import opened Text
  import opened Catalog
  import Timestamps

  /** A file or a slice is shorter than 2^63 bytes. */
  type Bytes = b: seq<byte> | |b| < 0x8000_0000_0000_0000

  type Objects = map<string, Bytes>

  const EXTENSION := ".jpg"

  /** `prefix` is empty for the local store. */
  function StorageKey(prefix: string, id: string): string {
    prefix + id + EXTENSION
  }

  lemma StorageKeysDiffer(prefix: string, a: string, b: string)
    requires StorageKey(prefix, a) == StorageKey(prefix, b)
    ensures a == b
  {
    assert |a| == |b|;
    assert StorageKey(prefix, a)[|prefix|..|prefix| + |a|] == a;
    assert StorageKey(prefix, b)[|prefix|..|prefix| + |b|] == b;
  }

  /** The test cameras and store make: length and the first and last marker. */
  predicate LooksLikeJpeg(b: Bytes) {
    |b| >= 4 && b[0] == 0xff && b[1] == 0xd8 && b[|b| - 2] == 0xff && b[|b| - 1] == 0xd9
  }

  /** How writing and renaming the temporary file goes. */
  datatype Write = Written | WriteFails | RenameFails

  /** Objects by capture ID, and the temporary files that failed writes of this
      process have left. Whether bytes decode is a parameter of the operations
      that look. */
  class PhotoStore {
    var objects: Objects
    var leftover: set<string>

    const remote: bool

    constructor (remote: bool)
      ensures this.remote == remote && objects == map[] && leftover == {}
    {
      this.remote := remote;
      objects, leftover := map[], {};
    }

    /** The local save looks whether the file exists, writes a temporary file
        that must be new, and renames it into place. `arrived` is what another
        save of the same ID puts there after the look: the rename replaces it.
        A failing write leaves the temporary file behind. */
    method Save(id: string, jpeg: Bytes, arrived: Option<Bytes>, write: Write) returns (saved: bool)
      modifies this
      ensures saved <==> LooksLikeJpeg(jpeg) && !remote
                         && (id in old(objects) || (id !in old(leftover) && write.Written?))
      ensures !LooksLikeJpeg(jpeg) || remote || id in old(objects) ==> objects == old(objects)
      ensures LooksLikeJpeg(jpeg) && !remote && id !in old(objects) ==>
                objects == if saved then old(objects)[id := jpeg]
                           else if arrived.Some? then old(objects)[id := arrived.value] else old(objects)
      ensures LooksLikeJpeg(jpeg) && !remote && id !in old(objects) && write.WriteFails? ==>
                leftover == old(leftover) + {id}
      ensures !LooksLikeJpeg(jpeg) || remote || id in old(objects) || !write.WriteFails? ==> leftover == old(leftover)
    {
      if !LooksLikeJpeg(jpeg) || remote {
        return false;
      }
      if id in objects {
        return true;
      }
      if arrived.Some? {
        objects := objects[id := arrived.value];
      }
      if id in leftover {
        return false;
      }
      if write.WriteFails? {
        leftover := leftover + {id};
        return false;
      }
      if write.RenameFails? {
        return false;
      }
      objects := objects[id := jpeg];
      return true;
    }

    /** The signed PUT of the remote store replaces the object. */
    method Put(id: string, jpeg: Bytes)
      requires remote
      modifies this`objects
      ensures objects == old(objects)[id := jpeg]
    {
      objects := objects[id := jpeg];
    }

    method UploadedSize(id: string) returns (size: Option<nat>)
      ensures size == if id in objects then Some(|objects[id]|) else None
    {
      if id !in objects {
        return None;
      }
      return Some(|objects[id]|);
    }
  }

  // ----- Completion -----

  datatype Finalize = Finalized | ReservationNotFound | CatalogFailed | ObjectNotFound | SizeMismatch | UnreadableImage

  function FinalizeResult(rows: Rows, objects: Objects, id: string, readable: bool): Finalize {
    if id !in rows then ReservationNotFound
    else if !SizeOf(rows[id]).Size? then CatalogFailed
    else if id !in objects then ObjectNotFound
    else if |objects[id]| != SizeOf(rows[id]).bytes then SizeMismatch
    else if !readable then UnreadableImage
    else Finalized
  }

  predicate Positive(size: Option<int>) {
    size.Some? && size.value > 0
  }

  /** The reserved size can be read, and the object is there with it. */
  predicate HasItsObject(rows: Rows, objects: Objects, id: string) {
    id in rows && Positive(rows[id].byteSize) && id in objects && |objects[id]| == rows[id].byteSize.value
  }

  /** Completion: everything is checked before the row becomes ready. */
  method FinalizeUpload(store: PhotoStore, catalog: PhotoCatalog, id: string, readable: bool)
    returns (result: Finalize)
    modifies catalog
    ensures result == FinalizeResult(old(catalog.rows), store.objects, id, readable)
    ensures catalog.rows == if result.Finalized? then Marked(old(catalog.rows), id) else old(catalog.rows)
    ensures result.ReservationNotFound? <==> id !in old(catalog.rows)
    ensures result.CatalogFailed? <==> id in old(catalog.rows) && !Positive(old(catalog.rows)[id].byteSize)
    ensures result.ObjectNotFound? <==> id in old(catalog.rows) && Positive(old(catalog.rows)[id].byteSize)
                                        && id !in store.objects
    ensures result.SizeMismatch? <==> id in old(catalog.rows) && Positive(old(catalog.rows)[id].byteSize) && id in store.objects
                                      && |store.objects[id]| != old(catalog.rows)[id].byteSize.value
    ensures result.UnreadableImage? <==> HasItsObject(old(catalog.rows), store.objects, id) && !readable
    ensures result.Finalized? <==> HasItsObject(old(catalog.rows), store.objects, id) && readable
    ensures result.Finalized? ==> id in catalog.rows && catalog.rows[id].status.Ready?
  {
    var expected := catalog.ExpectedSize(id);
    if expected.NoRow? {
      return ReservationNotFound;
    }
    if expected.InvalidSize? {
      return CatalogFailed;
    }
    var actual := store.UploadedSize(id);
    if actual.None? {
      return ObjectNotFound;
    }
    if actual.value != expected.bytes {
      return SizeMismatch;
    }
    if !readable {
      return UnreadableImage;
    }
    var marked := catalog.MarkReady(id);
    if marked.NotFound? {
      return ReservationNotFound;
    }
    return Finalized;
  }

  /** The direct upload: save, check, then register the row as ready. */
  method DirectUpload(store: PhotoStore, catalog: PhotoCatalog, key: string, id: string, body: Bytes,
                      device: Option<string>, arrived: Option<Bytes>, write: Write, readable: bool) returns (accepted: bool)
    modifies store, catalog
    ensures accepted <==> LooksLikeJpeg(body) && !store.remote && readable
                          && (id in old(store.objects) || (id !in old(store.leftover) && write.Written?))
                          && !Blocked(old(catalog.rows), id, |body|, device)
    ensures !LooksLikeJpeg(body) || store.remote || id in old(store.objects) ==> store.objects == old(store.objects)
    ensures LooksLikeJpeg(body) && !store.remote && id !in old(store.objects) ==>
              store.objects == if id !in old(store.leftover) && write.Written? then old(store.objects)[id := body]
                               else if arrived.Some? then old(store.objects)[id := arrived.value] else old(store.objects)
    ensures accepted ==> id in store.objects && |body| >= 4 && body[..2] == [0xff, 0xd8] && body[|body| - 2..] == [0xff, 0xd9]
    ensures catalog.rows == if accepted then Marked(Reserved(old(catalog.rows), id, key, |body|, device, None), id)
                            else old(catalog.rows)
  {
    var saved := store.Save(id, body, arrived, write);
    if !saved || !readable {
      return false;
    }
    var registered := catalog.RegisterReadyForDevice(id, key, |body|, device, None);
    return registered.Done?;
  }

  /** A completed photo stays complete: after any later reservations,
      completions and imports its row is ready with its object's size, and
      completing it again succeeds and changes nothing. */
  lemma FinalizedIsComplete(rows: Rows, objects: Objects, id: string, readable: bool, later: seq<Statement>,
                            keyOf: string -> string)
    requires FinalizeResult(rows, objects, id, readable).Finalized? && RowsKeyed(rows, keyOf)
    requires forall i :: 0 <= i < |later| ==> Keyed(later[i], keyOf)
    ensures var after := ExecutedAll(Marked(rows, id), later);
            && id in objects && id in after && after[id].status.Ready? && after[id].byteSize == Some(|objects[id]|)
            && FinalizeResult(after, objects, id, readable).Finalized? && Marked(after, id) == after
  {
    ReadyRowsArePinned(Marked(rows, id), later, keyOf, id);
    hide ExecutedAll, Keyed;
  }

  // ----- Reconciliation -----

  function PendingIds(rows: Rows): set<string> {
    set id | id in rows && rows[id].status.Pending?
  }

  function Orphans(rows: Rows, objects: Objects): set<string> {
    set id | id in objects && id !in rows
  }

  /** A pending photo that reconciliation completes. */
  predicate Recoverable(rows: Rows, objects: Objects, readable: set<string>, id: string) {
    id in rows && rows[id].status.Pending? && id in objects && rows[id].byteSize == Some(|objects[id]|) && id in readable
  }

  predicate SizesUsable(rows: Rows) {
    forall id :: id in PendingIds(rows) ==> SizeOf(rows[id]).Size?
  }

  function RecoveredIds(rows: Rows, objects: Objects, readable: set<string>): set<string> {
    set id | id in PendingIds(rows) && Recoverable(rows, objects, readable, id)
  }

  /** The table after reconciliation, whatever order its loops take. */
  function Reconciled(rows: Rows, objects: Objects, readable: set<string>, prefix: string): Rows {
    map id | id in rows.Keys + Orphans(rows, objects) ::
      if id !in rows then Row(StorageKey(prefix, id), Timestamps.IdToTimestamp(id), None, Ready, None)
      else if id in RecoveredIds(rows, objects, readable) then rows[id].(status := Ready)
      else rows[id]
  }

  /** `recovered` is `None` where a pending row's size cannot be read, which
      fails the whole pass before it changes anything. */
  method ReconcileAll(store: PhotoStore, catalog: PhotoCatalog, readable: set<string>, prefix: string)
    returns (recovered: Option<set<string>>)
    modifies catalog
    ensures recovered == if SizesUsable(old(catalog.rows))
                         then Some(RecoveredIds(old(catalog.rows), store.objects, readable)) else None
    ensures catalog.rows == if recovered.Some? then Reconciled(old(catalog.rows), store.objects, readable, prefix)
                            else old(catalog.rows)
  {
    var rows := catalog.rows;
    var pending := PendingIds(rows);
    if exists id :: id in pending && !SizeOf(rows[id]).Size? {
      return None;
    }
    var orphans := Orphans(rows, store.objects);
    var found := CompletePending(store, catalog, pending, readable);
    assert found == RecoveredIds(rows, store.objects, readable);
    ImportOrphans(catalog, orphans, prefix);
    return Some(found);
  }

  method CompletePending(store: PhotoStore, catalog: PhotoCatalog, pending: set<string>, readable: set<string>)
    returns (found: set<string>)
    requires pending == PendingIds(catalog.rows) && SizesUsable(catalog.rows)
    modifies catalog
    ensures found == RecoveredIds(old(catalog.rows), store.objects, readable)
    ensures catalog.rows.Keys == old(catalog.rows).Keys
    ensures forall id :: id in old(catalog.rows) ==>
              catalog.rows[id] == if id in found then old(catalog.rows)[id].(status := Ready) else old(catalog.rows)[id]
  {
    var rows := catalog.rows;
    found := {};
    var left := pending;
    while left != {}
      invariant left <= pending && found <= pending - left
      invariant forall id :: id in pending - left ==> (id in found <==> Recoverable(rows, store.objects, readable, id))
      invariant catalog.rows.Keys == rows.Keys
      invariant forall id :: id in rows ==>
                  catalog.rows[id] == if id in found then rows[id].(status := Ready) else rows[id]
      decreases left
    {
      var id := AnyOf(left);
      left := left - {id};
      var actual := store.UploadedSize(id);
      if actual.Some? && actual.value == SizeOf(rows[id]).bytes && id in readable {
        var marked := catalog.MarkReady(id);
        found := found + {id};
      }
    }
  }

  method ImportOrphans(catalog: PhotoCatalog, orphans: set<string>, prefix: string)
    requires orphans !! catalog.rows.Keys
    modifies catalog
    ensures catalog.rows.Keys == old(catalog.rows).Keys + orphans
    ensures forall id :: id in old(catalog.rows) ==> catalog.rows[id] == old(catalog.rows)[id]
    ensures forall id :: id in orphans ==>
              catalog.rows[id] == Row(StorageKey(prefix, id), Timestamps.IdToTimestamp(id), None, Ready, None)
  {
    hide StorageKey, Timestamps.IdToTimestamp;
    ghost var rows := catalog.rows;
    var left := orphans;
    while left != {}
      invariant left <= orphans
      invariant catalog.rows.Keys == rows.Keys + (orphans - left)
      invariant forall id :: id in rows ==> catalog.rows[id] == rows[id]
      invariant forall id :: id in orphans - left ==>
                  catalog.rows[id] == Row(StorageKey(prefix, id), Timestamps.IdToTimestamp(id), None, Ready, None)
      decreases left
    {
      var id := AnyOf(left);
      left := left - {id};
      assert [(id, StorageKey(prefix, id))][..0] == [];
      catalog.Import([(id, StorageKey(prefix, id))]);
    }
  }

  /** After a pass there is a row for every row before and every stored object.
      A missing one is made ready, with its key and its ID's time and no size; a
      pending one is ready exactly if the object has its size and can be read;
      everything else stays. */
  lemma ReconciledMeans(rows: Rows, objects: Objects, readable: set<string>, prefix: string)
    ensures var after := Reconciled(rows, objects, readable, prefix);
            && (forall id :: id in after <==> id in rows || id in objects)
            && (forall id :: id in objects && id !in rows ==>
                  after[id] == Row(prefix + id + ".jpg", Timestamps.IdToTimestamp(id), None, Ready, None))
            && (forall id :: id in rows ==>
                  var completed := rows[id].status.Pending? && id in objects && id in readable
                                   && rows[id].byteSize.Some? && |objects[id]| == rows[id].byteSize.value;
                  after[id] == if completed then rows[id].(status := Ready) else rows[id])
    ensures forall id :: id in RecoveredIds(rows, objects, readable) <==>
              && id in rows && rows[id].status.Pending? && id in objects && id in readable
              && rows[id].byteSize.Some? && |objects[id]| == rows[id].byteSize.value
  {
    hide Timestamps.IdToTimestamp;
  }

  /** A second pass finds nothing to do, and the gallery then has every stored
      object whose row is ready or was missing. */
  lemma ReconcileIsIdempotent(rows: Rows, objects: Objects, readable: set<string>, prefix: string)
    requires SizesUsable(rows)
    ensures var after := Reconciled(rows, objects, readable, prefix);
            && SizesUsable(after)
            && RecoveredIds(after, objects, readable) == {} && Orphans(after, objects) == {}
            && Reconciled(after, objects, readable, prefix) == after
  {
    var after := Reconciled(rows, objects, readable, prefix);
    assert Orphans(after, objects) == {};
    assert RecoveredIds(after, objects, readable) == {};
  }
}
