/** The photos table (server/src/catalog.rs). Each SQL statement is one step;
    a reservation's guard and upsert are taken together. */
module Catalog {
  import opened Text
  import Timestamps

  datatype Status = Pending | Ready

  /** `byteSize` is NULL for an imported orphan. */
  datatype Row = Row(storageKey: string, capturedAt: string, byteSize: Option<int>, status: Status, device: Option<string>)

  type Rows = map<string, Row>

  /** A size as a request gives it. */
  type uint64 = x: int | 0 <= x < 0x1_0000_0000_0000_0000

  /** The size as the table stores it: a signed 64-bit number, by a cast. */
  function AsI64(size: uint64): int {
    if size < 0x8000_0000_0000_0000 then size else size - 0x1_0000_0000_0000_0000
  }

  datatype Outcome = Done | AlreadyExists | NotFound

  /** A size read back: missing row, unusable size, or the size. */
  datatype SizeRead = NoRow | InvalidSize | Size(bytes: int)

  /** `guard_completed_row`: a ready row is reserved again only for the same
      size, and for no device or the same one. */
  predicate Blocked(rows: Rows, id: string, size: uint64, device: Option<string>) {
    && id in rows
    && rows[id].status.Ready?
    && !(rows[id].byteSize == Some(AsI64(size)) && (device.None? || device == rows[id].device))
  }

  /** The reservation's upsert. */
  function Reserved(rows: Rows, id: string, key: string, size: uint64, device: Option<string>, capturedAt: Option<string>)
    : Rows
  {
    var at := if capturedAt.Some? then capturedAt.value else Timestamps.IdToTimestamp(id);
    if id in rows then
      rows[id := rows[id].(byteSize := Some(AsI64(size)), capturedAt := at,
                           device := if device.Some? then device else rows[id].device)]
    else rows[id := Row(key, at, Some(AsI64(size)), Pending, device)]
  }

  function Marked(rows: Rows, id: string): Rows {
    if id in rows then rows[id := rows[id].(status := Ready)] else rows
  }

  /** The upsert that adopts a stored object. */
  function Adopted(rows: Rows, id: string, key: string): Rows {
    if id in rows then rows[id := rows[id].(storageKey := key, status := Ready)]
    else rows[id := Row(key, Timestamps.IdToTimestamp(id), None, Ready, None)]
  }

  function Imported(rows: Rows, photos: seq<(string, string)>): Rows
    decreases |photos|
  {
    if photos == [] then rows
    else var (id, key) := photos[|photos| - 1]; Adopted(Imported(rows, photos[..|photos| - 1]), id, key)
  }

  lemma AdoptedMeans(rows: Rows, adopted: string, key: string, id: string)
    ensures var after := Adopted(rows, adopted, key);
            && (id in after <==> id in rows || id == adopted)
            && (id != adopted && id in rows ==> after[id] == rows[id])
            && (id == adopted ==>
                  after[id] == if id in rows then rows[id].(status := Ready, storageKey := key)
                               else Row(key, Timestamps.IdToTimestamp(id), None, Ready, None))
  {
    hide Timestamps.IdToTimestamp;
  }

  /** The rows of photos that are not imported stay as they were. */
  lemma {:induction false} OthersStay(rows: Rows, photos: seq<(string, string)>, id: string)
    requires forall i :: 0 <= i < |photos| ==> photos[i].0 != id
    ensures id in Imported(rows, photos) <==> id in rows
    ensures id in rows ==> Imported(rows, photos)[id] == rows[id]
    decreases |photos|
  {
    if photos != [] {
      var n := |photos| - 1;
      OthersStay(rows, photos[..n], id);
      AdoptedMeans(Imported(rows, photos[..n]), photos[n].0, photos[n].1, id);
      hide Adopted;
    }
  }

  /** An imported photo is ready afterwards, under the last key it came with: a
      row that was there keeps everything else, a new one has its ID's time and
      neither size nor device. */
  lemma {:induction false} ImportedMeans(rows: Rows, photos: seq<(string, string)>, k: nat)
    requires k < |photos| && forall i :: k < i < |photos| ==> photos[i].0 != photos[k].0
    ensures var (id, key) := photos[k];
            && id in Imported(rows, photos)
            && Imported(rows, photos)[id]
            == if id in rows then rows[id].(status := Ready, storageKey := key)
               else Row(key, Timestamps.IdToTimestamp(id), None, Ready, None)
    decreases |photos|
  {
    var n := |photos| - 1;
    var before := Imported(rows, photos[..n]);
    AdoptedMeans(before, photos[n].0, photos[n].1, photos[k].0);
    if k < n {
      ImportedMeans(rows, photos[..n], k);
    } else {
      ImportedBefore(rows, photos[..n], photos[k].0);
    }
    hide Adopted, Timestamps.IdToTimestamp;
  }

  /** Whatever was imported before, adopting the photo leaves the same row. */
  lemma {:induction false} ImportedBefore(rows: Rows, photos: seq<(string, string)>, id: string)
    ensures var before := Imported(rows, photos);
            && (id in rows ==>
                  id in before && forall key :: before[id].(status := Ready, storageKey := key)
                                             == rows[id].(status := Ready, storageKey := key))
            && (id !in rows && id in before ==>
                  before[id] == Row(before[id].storageKey, Timestamps.IdToTimestamp(id), None, Ready, None))
    decreases |photos|
  {
    if photos != [] {
      var n := |photos| - 1;
      ImportedBefore(rows, photos[..n], id);
      AdoptedMeans(Imported(rows, photos[..n]), photos[n].0, photos[n].1, id);
      hide Adopted, Timestamps.IdToTimestamp;
    }
  }

  function SizeOf(row: Row): SizeRead {
    if row.byteSize.Some? && row.byteSize.value > 0 then Size(row.byteSize.value) else InvalidSize
  }

  class PhotoCatalog {
    var rows: Rows

    constructor ()
      ensures rows == map[]
    {
      rows := map[];
    }

    method ReserveForDevice(id: string, key: string, size: uint64, device: Option<string>, capturedAt: Option<string>)
      returns (outcome: Outcome)
      modifies this
      ensures Blocked(old(rows), id, size, device) ==> outcome.AlreadyExists? && rows == old(rows)
      ensures !Blocked(old(rows), id, size, device) ==>
                outcome.Done? && rows == Reserved(old(rows), id, key, size, device, capturedAt)
      ensures outcome.AlreadyExists? <==>
                && id in old(rows) && old(rows)[id].status.Ready?
                && (old(rows)[id].byteSize != Some(AsI64(size)) || (device.Some? && device != old(rows)[id].device))
      ensures outcome.Done? ==> id in rows && rows[id].byteSize == Some(AsI64(size)) && rows.Keys == old(rows).Keys + {id}
    {
      if id in rows && rows[id].status.Ready? {
        var sameSize := rows[id].byteSize == Some(AsI64(size));
        var sameDevice := device.None? || device == rows[id].device;
        if !(sameSize && sameDevice) {
          return AlreadyExists;
        }
      }
      var at := if capturedAt.Some? then capturedAt.value else Timestamps.IdToTimestamp(id);
      if id in rows {
        var row := rows[id].(byteSize := Some(AsI64(size)), capturedAt := at);
        if device.Some? {
          row := row.(device := device);
        }
        rows := rows[id := row];
      } else {
        rows := rows[id := Row(key, at, Some(AsI64(size)), Pending, device)];
      }
      return Done;
    }

    method MarkReady(id: string) returns (outcome: Outcome)
      modifies this
      ensures rows == Marked(old(rows), id)
      ensures outcome == if id in old(rows) then Done else NotFound
      ensures rows.Keys == old(rows).Keys && (id in rows ==> rows[id] == old(rows)[id].(status := Ready))
      ensures forall other :: other in rows && other != id ==> rows[other] == old(rows)[other]
    {
      if id !in rows {
        return NotFound;
      }
      rows := rows[id := rows[id].(status := Ready)];
      return Done;
    }

    method ExpectedSize(id: string) returns (size: SizeRead)
      ensures size == if id in rows then SizeOf(rows[id]) else NoRow
    {
      if id !in rows {
        return NoRow;
      }
      return SizeOf(rows[id]);
    }

    method RegisterReadyForDevice(id: string, key: string, size: uint64, device: Option<string>, capturedAt: Option<string>)
      returns (outcome: Outcome)
      modifies this
      ensures Blocked(old(rows), id, size, device) ==> outcome.AlreadyExists? && rows == old(rows)
      ensures !Blocked(old(rows), id, size, device) ==>
                outcome.Done? && rows == Marked(Reserved(old(rows), id, key, size, device, capturedAt), id)
    {
      outcome := ReserveForDevice(id, key, size, device, capturedAt);
      if outcome.Done? {
        outcome := MarkReady(id);
      }
    }

    method Import(photos: seq<(string, string)>)
      modifies this
      ensures rows == Imported(old(rows), photos)
    {
      for i := 0 to |photos|
        invariant rows == Imported(old(rows), photos[..i])
      {
        assert photos[..i + 1][..i] == photos[..i];
        var (id, key) := photos[i];
        if id in rows {
          rows := rows[id := rows[id].(storageKey := key, status := Ready)];
        } else {
          rows := rows[id := Row(key, Timestamps.IdToTimestamp(id), None, Ready, None)];
        }
      }
      assert photos[..|photos|] == photos;
    }
  }

  // ----- What no sequence of statements changes -----

  datatype Statement =
    | Reserve(id: string, key: string, size: uint64, device: Option<string>, capturedAt: Option<string>)
    | MarkReady(id: string)
    | Import(id: string, key: string)

  function Executed(rows: Rows, s: Statement): Rows {
    match s
    case Reserve(id, key, size, device, at) =>
      if Blocked(rows, id, size, device) then rows else Reserved(rows, id, key, size, device, at)
    case MarkReady(id) => Marked(rows, id)
    case Import(id, key) => Adopted(rows, id, key)
  }

  function ExecutedAll(rows: Rows, statements: seq<Statement>): Rows
    decreases |statements|
  {
    if statements == [] then rows else ExecutedAll(Executed(rows, statements[0]), statements[1..])
  }

  /** Storage keys follow from the ID. */
  predicate Keyed(s: Statement, keyOf: string -> string) {
    s.MarkReady? || s.key == keyOf(s.id)
  }

  predicate RowsKeyed(rows: Rows, keyOf: string -> string) {
    forall id :: id in rows ==> rows[id].storageKey == keyOf(id)
  }

  /** Once ready, a row's object, size and device stay as they are, whatever
      is reserved, completed or adopted later, for any IDs and any sizes. */
  lemma {:induction false} ReadyRowsArePinned(rows: Rows, statements: seq<Statement>, keyOf: string -> string, id: string)
    requires id in rows && rows[id].status.Ready? && RowsKeyed(rows, keyOf)
    requires forall i :: 0 <= i < |statements| ==> Keyed(statements[i], keyOf)
    ensures id in ExecutedAll(rows, statements)
    ensures var after := ExecutedAll(rows, statements)[id];
            after == rows[id].(capturedAt := after.capturedAt)
    decreases |statements|
  {
    if statements != [] {
      assert Keyed(statements[0], keyOf);
      ReadyRowsArePinned(Executed(rows, statements[0]), statements[1..], keyOf, id);
    }
  }

  /** A statement about one photo leaves every other photo's row alone. */
  lemma {:induction false} OthersAreUntouched(rows: Rows, statements: seq<Statement>, id: string)
    requires forall i :: 0 <= i < |statements| ==> statements[i].id != id
    ensures id in ExecutedAll(rows, statements) <==> id in rows
    ensures id in rows ==> ExecutedAll(rows, statements)[id] == rows[id]
    decreases |statements|
  {
    if statements != [] {
      assert statements[0].id != id;
      OthersAreUntouched(Executed(rows, statements[0]), statements[1..], id);
    }
  }

  // ----- The size read back -----

  /** The size of the last reservation of `id`, or `before` if there is none. */
  function LastReserved(statements: seq<Statement>, id: string, before: Option<uint64>): Option<uint64>
    decreases |statements|
  {
    if statements == [] then before
    else
      var s := statements[0];
      LastReserved(statements[1..], id, if s.Reserve? && s.id == id then Some(s.size) else before)
  }

  /** A pending row holds the given reservation's size. */
  predicate Holds(rows: Rows, id: string, last: Option<uint64>) {
    id in rows && rows[id].status.Pending? ==> last.Some? && rows[id].byteSize == Some(AsI64(last.value))
  }

  lemma {:induction false} PendingHoldsLast(rows: Rows, statements: seq<Statement>, id: string, before: Option<uint64>)
    requires Holds(rows, id, before)
    ensures Holds(ExecutedAll(rows, statements), id, LastReserved(statements, id, before))
    decreases |statements|
  {
    if statements != [] {
      var s := statements[0];
      PendingHoldsLast(Executed(rows, s), statements[1..], id, if s.Reserve? && s.id == id then Some(s.size) else before);
    }
  }

  predicate Usable(size: uint64) {
    0 < size < 0x8000_0000_0000_0000
  }

  /** In every history of the table, the size a pending photo's completion
      expects is the one last reserved for it, and it cannot be read exactly
      when that was zero or did not fit the column. */
  lemma ExpectedSizeIsLastReserved(statements: seq<Statement>, id: string)
    requires id in ExecutedAll(map[], statements) && ExecutedAll(map[], statements)[id].status.Pending?
    ensures var last := LastReserved(statements, id, None);
            && last.Some?
            && SizeOf(ExecutedAll(map[], statements)[id])
               == if Usable(last.value) then Size(last.value) else InvalidSize
  {
    PendingHoldsLast(map[], statements, id, None);
  }

  // ----- The whole of a pending row -----

  /** The capture time the last reservation of `id` gave, or else its ID's. */
  function LastCapturedAt(statements: seq<Statement>, id: string, before: string): string
    decreases |statements|
  {
    if statements == [] then before
    else
      var s := statements[0];
      var at := if !(s.Reserve? && s.id == id) then before
                else if s.capturedAt.Some? then s.capturedAt.value else Timestamps.IdToTimestamp(id);
      LastCapturedAt(statements[1..], id, at)
  }

  /** The device last named by a reservation of `id`. */
  function LastDevice(statements: seq<Statement>, id: string, before: Option<string>): Option<string>
    decreases |statements|
  {
    if statements == [] then before
    else
      var s := statements[0];
      LastDevice(statements[1..], id, if s.Reserve? && s.id == id && s.device.Some? then s.device else before)
  }

  /** The key of the first reservation of `id`. */
  function FirstKey(statements: seq<Statement>, id: string, before: Option<string>): Option<string>
    decreases |statements|
  {
    if statements == [] || before.Some? then before
    else
      var s := statements[0];
      FirstKey(statements[1..], id, if s.Reserve? && s.id == id then Some(s.key) else None)
  }

  lemma {:induction false} PendingRowFrom(rows: Rows, statements: seq<Statement>, id: string)
    requires id in ExecutedAll(rows, statements) && ExecutedAll(rows, statements)[id].status.Pending?
    ensures var after := ExecutedAll(rows, statements)[id];
            && (id in rows ==> rows[id].status.Pending?)
            && after.capturedAt == LastCapturedAt(statements, id, if id in rows then rows[id].capturedAt else after.capturedAt)
            && after.device == LastDevice(statements, id, if id in rows then rows[id].device else None)
            && Some(after.storageKey) == FirstKey(statements, id, if id in rows then Some(rows[id].storageKey) else None)
    decreases |statements|
  {
    hide Timestamps.IdToTimestamp;
    if statements != [] {
      PendingRowFrom(Executed(rows, statements[0]), statements[1..], id);
    }
  }

  /** In every history of the table a pending row has the key of its first
      reservation, the device last named for it, and the capture time that its
      last reservation gave or else its ID's. */
  lemma PendingRowIsReserved(statements: seq<Statement>, id: string)
    requires id in ExecutedAll(map[], statements) && ExecutedAll(map[], statements)[id].status.Pending?
    ensures var row := ExecutedAll(map[], statements)[id];
            && row.capturedAt == LastCapturedAt(statements, id, row.capturedAt)
            && (exists k :: 0 <= k < |statements| && statements[k].Reserve? && statements[k].id == id)
            && row.device == LastDevice(statements, id, None)
            && Some(row.storageKey) == FirstKey(statements, id, None)
  {
    PendingRowFrom(map[], statements, id);
    SomeKey(statements, id);
  }

  lemma {:induction false} SomeKey(statements: seq<Statement>, id: string)
    requires FirstKey(statements, id, None).Some?
    ensures exists k :: 0 <= k < |statements| && statements[k].Reserve? && statements[k].id == id
    decreases |statements|
  {
    if statements[0].Reserve? && statements[0].id == id {
    } else {
      SomeKey(statements[1..], id);
      var k :| 0 <= k < |statements[1..]| && statements[1..][k].Reserve? && statements[1..][k].id == id;
      assert statements[k + 1] == statements[1..][k];
    }
  }
}
