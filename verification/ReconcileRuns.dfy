/** When reconciliation fails as a whole: every history of grants, uploads,
    completions and passes, one at a time (server/src/upload_flow.rs,
    server/src/catalog.rs, server/app/api/uploads/route.rs). */
module ReconcileRuns {
  import opened Text
  import opened Catalog
  import Timestamps
  import opened UploadFlow

  datatype Operation =
    | Grant(id: string, size: uint64, device: Option<string>, capturedAt: Option<string>)
    | Put(id: string, jpeg: Bytes)
    | Complete(id: string, readable: bool)
    | Direct(id: string, body: Bytes, device: Option<string>, saved: bool, readable: bool)
    | Pass(decodable: set<string>)

  datatype Site = Site(rows: Rows, objects: Objects)

  /** A grant reserves before it checks the size, so its row is there even
      where it is refused. */
  function Operated(site: Site, op: Operation, prefix: string): Site {
    match op
    case Grant(id, size, device, at) =>
      if Blocked(site.rows, id, size, device) then site
      else site.(rows := Reserved(site.rows, id, StorageKey(prefix, id), size, device, at))
    case Put(id, jpeg) => site.(objects := site.objects[id := jpeg])
    case Complete(id, readable) =>
      if FinalizeResult(site.rows, site.objects, id, readable).Finalized? then site.(rows := Marked(site.rows, id))
      else site
    case Direct(id, body, device, saved, readable) =>
      if !saved then site
      else
        var stored := site.(objects := if id in site.objects then site.objects else site.objects[id := body]);
        if !readable || Blocked(site.rows, id, |body|, device) then stored
        else stored.(rows := Marked(Reserved(site.rows, id, StorageKey(prefix, id), |body|, device, None), id))
    case Pass(decodable) =>
      if SizesUsable(site.rows) then site.(rows := Reconciled(site.rows, site.objects, decodable, prefix)) else site
  }

  /** One operation is what the handlers' calls do to the catalog and the
      store. The signed PUT is the remote store's; `saved` is how the local
      store's save ends. */
  method Operate(store: PhotoStore, catalog: PhotoCatalog, op: Operation, write: Write, prefix: string)
    requires op.Put? ==> store.remote
    requires op.Direct? ==>
               op.saved == (LooksLikeJpeg(op.body) && !store.remote
                            && (op.id in store.objects || (op.id !in store.leftover && write.Written?)))
    modifies store, catalog
    ensures Site(catalog.rows, store.objects) == Operated(old(Site(catalog.rows, store.objects)), op, prefix)
  {
    hide Reserved, Marked, Reconciled, FinalizeResult, Blocked, SizesUsable, LooksLikeJpeg, StorageKey;
    match op {
      case Grant(id, size, device, at) =>
        var reserved := catalog.ReserveForDevice(id, StorageKey(prefix, id), size, device, at);
      case Put(id, jpeg) => store.Put(id, jpeg);
      case Complete(id, readable) =>
        var result := FinalizeUpload(store, catalog, id, readable);
      case Direct(id, body, device, saved, readable) =>
        var accepted := DirectUpload(store, catalog, StorageKey(prefix, id), id, body, device, None, write, readable);
      case Pass(decodable) =>
        var recovered := ReconcileAll(store, catalog, decodable, prefix);
    }
  }

  function OperatedAll(site: Site, ops: seq<Operation>, prefix: string): Site
    decreases |ops|
  {
    if ops == [] then site else OperatedAll(Operated(site, ops[0], prefix), ops[1..], prefix)
  }

  /** A pending row whose size cannot be read. */
  predicate Stuck(rows: Rows, id: string) {
    id in rows && rows[id].status.Pending? && !SizeOf(rows[id]).Size?
  }

  /** A new reservation of `id` with a size that can be read, or its direct upload. */
  predicate Repairs(op: Operation, id: string) {
    (op.Grant? && op.id == id && Usable(op.size)) || (op.Direct? && op.id == id)
  }

  lemma StuckFailsPasses(rows: Rows, id: string)
    requires Stuck(rows, id)
    ensures !SizesUsable(rows)
  {
    assert id in PendingIds(rows);
  }

  lemma StuckStep(site: Site, op: Operation, prefix: string, id: string)
    requires Stuck(site.rows, id) && !Repairs(op, id)
    ensures Stuck(Operated(site, op, prefix).rows, id)
  {
    StuckFailsPasses(site.rows, id);
  }

  lemma {:induction false} StuckStays(site: Site, ops: seq<Operation>, prefix: string, id: string)
    requires Stuck(site.rows, id)
    requires forall i :: 0 <= i < |ops| ==> !Repairs(ops[i], id)
    ensures Stuck(OperatedAll(site, ops, prefix).rows, id)
    decreases |ops|
  {
    if ops != [] {
      StuckStep(site, ops[0], prefix, id);
      StuckStays(Operated(site, ops[0], prefix), ops[1..], prefix, id);
    }
  }

  /** A grant of a size the column cannot hold as a positive number is refused,
      and from then on every pass fails, whatever else is uploaded, until that
      very ID is reserved again with a readable size. */
  lemma UnusableGrantFailsEveryPass(site: Site, id: string, size: uint64, device: Option<string>, ops: seq<Operation>,
                                    prefix: string)
    requires !Usable(size) && (id in site.rows ==> site.rows[id].status.Pending?)
    requires forall i :: 0 <= i < |ops| ==> !Repairs(ops[i], id)
    ensures var granted := Operated(site, Grant(id, size, device, None), prefix);
            !SizesUsable(OperatedAll(granted, ops, prefix).rows)
  {
    var granted := Operated(site, Grant(id, size, device, None), prefix);
    StuckStays(granted, ops, prefix, id);
    StuckFailsPasses(OperatedAll(granted, ops, prefix).rows, id);
  }

  function Granted(id: string, size: uint64, prefix: string): Rows {
    Operated(Site(map[], map[]), Grant(id, size, None, None), prefix).rows
  }

  /** The two inputs at the edges, on an empty site: an empty upload, and one of
      2^63 bytes, which is stored as a negative number. */
  lemma EdgeGrants(id: string, prefix: string)
    ensures Granted(id, 0, prefix)[id].byteSize == Some(0) && !SizesUsable(Granted(id, 0, prefix))
    ensures Granted(id, 0x8000_0000_0000_0000, prefix)[id].byteSize == Some(-0x8000_0000_0000_0000)
    ensures !SizesUsable(Granted(id, 0x8000_0000_0000_0000, prefix))
    ensures SizesUsable(Granted(id, 1, prefix)) && SizesUsable(Granted(id, 0x7fff_ffff_ffff_ffff, prefix))
  {
    hide StorageKey, Timestamps.IdToTimestamp;
    StuckFailsPasses(Granted(id, 0, prefix), id);
    StuckFailsPasses(Granted(id, 0x8000_0000_0000_0000, prefix), id);
  }

  /** A reservation of a photo that is not ready leaves passes working exactly
      when its own size can be read and every other pending size can. */
  lemma ReservationKeepsPasses(rows: Rows, id: string, key: string, size: uint64, device: Option<string>, at: Option<string>)
    requires id in rows ==> rows[id].status.Pending?
    ensures !Blocked(rows, id, size, device)
    ensures SizesUsable(Reserved(rows, id, key, size, device, at))
       <==> Usable(size) && forall other :: other in PendingIds(rows) && other != id ==> SizeOf(rows[other]).Size?
  {
    var after := Reserved(rows, id, key, size, device, at);
    assert PendingIds(after) == PendingIds(rows) + {id};
    assert SizeOf(after[id]).Size? <==> Usable(size);
    assert forall other :: other in PendingIds(rows) && other != id ==> after[other] == rows[other];
  }

  /** In every history of the table a pass works exactly when each photo still
      pending was last reserved with a size that can be read. */
  lemma PassWorksExactlyWhen(statements: seq<Statement>)
    ensures var rows := ExecutedAll(map[], statements);
            SizesUsable(rows)
            <==> forall id :: id in PendingIds(rows) ==>
                   LastReserved(statements, id, None).Some? && Usable(LastReserved(statements, id, None).value)
  {
    var rows := ExecutedAll(map[], statements);
    forall id | id in PendingIds(rows)
      ensures LastReserved(statements, id, None).Some?
      ensures SizeOf(rows[id]).Size? <==> Usable(LastReserved(statements, id, None).value)
    {
      ExpectedSizeIsLastReserved(statements, id);
    }
  }
}
