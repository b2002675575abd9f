/** The EXIF reader of the local photo page (device/src/local_photo_viewer.js):
    a walk over JPEG segments and a recursive reader of TIFF directories. */
module Exif {
  import opened Text

  type Buffer = seq<byte>

  datatype Value = Words(bytes: seq<byte>) | Whole(number: int) | Fraction(quotient: real)

  type Fields = map<string, Value>

  // ----- Reads -----

  function Uint(bytes: seq<byte>, little: bool): nat {
    if bytes == [] then 0
    else if little then bytes[0] + 256 * Uint(bytes[1..], little)
    else 256 * Uint(bytes[..|bytes| - 1], little) + bytes[|bytes| - 1]
  }

  /** The part of the buffer that holds one APP1 segment's TIFF data. */
  datatype Segment = Segment(base: nat, end: nat, little: bool)

  predicate Fits(buffer: Buffer, s: Segment) {
    s.base + 8 <= s.end <= |buffer|
  }

  /** The reader's own test. */
  predicate Valid(s: Segment, p: int, n: nat) {
    s.base <= p && p + n <= s.end
  }

  /** Every TIFF read is one of these two: none leaves the segment. */
  function U16(buffer: Buffer, s: Segment, p: int): nat
    requires Fits(buffer, s) && Valid(s, p, 2)
  {
    Uint(buffer[p..p + 2], s.little)
  }

  function U32(buffer: Buffer, s: Segment, p: int): nat
    requires Fits(buffer, s) && Valid(s, p, 4)
  {
    Uint(buffer[p..p + 4], s.little)
  }

  /** Two's complement. */
  function Signed(x: nat): int {
    if x < 0x8000_0000 then x else x - 0x1_0000_0000
  }

  const TAG_NAMES: map<int, string> := map[
    0x010f := "Camera make", 0x0110 := "Camera model", 0x0131 := "Software", 0x0112 := "EXIF orientation",
    0x9003 := "EXIF capture time", 0x829a := "Exposure (s)", 0x829d := "Aperture (f/)", 0x8827 := "ISO",
    0x9204 := "Exposure bias (EV)", 0x9206 := "Reported focus distance (m)", 0x920a := "Focal length (mm)",
    0xa403 := "White balance mode"]

  function TagName(tag: nat): Option<string> {
    if tag in TAG_NAMES then Some(TAG_NAMES[tag]) else None
  }

  /** Bytes per element; zero for a type the reader skips. */
  function UnitSize(kind: nat): nat {
    if kind == 2 then 1 else if kind == 3 then 2 else if kind == 4 then 4 else if kind == 5 || kind == 10 then 8 else 0
  }

  /** What `n` elements take up. */
  function ByteSize(kind: nat, n: nat): nat {
    n * UnitSize(kind)
  }

  function UpToNul(bytes: seq<byte>): seq<byte> {
    if bytes == [] || bytes[0] == 0 then [] else [bytes[0]] + UpToNul(bytes[1..])
  }

  /** Text is the longest part from the front without a zero byte. */
  lemma {:induction false} TextStopsAtNul(bytes: seq<byte>)
    ensures var text := UpToNul(bytes); text <= bytes && 0 !in text && (|text| < |bytes| ==> bytes[|text|] == 0)
  {
    if bytes != [] && bytes[0] != 0 {
      TextStopsAtNul(bytes[1..]);
      assert bytes == [bytes[0]] + bytes[1..];
    }
  }

  const SUB_DIRECTORY := 0x8769
  const MAX_ENTRIES := 512
  const MAX_COUNT := 1024
  const MAX_DEPTH := 2

  // ----- One directory -----

  /** The value found at `at`; a zero denominator gives none. */
  function ValueAt(buffer: Buffer, s: Segment, kind: nat, n: nat, at: int): Option<Value>
    requires Fits(buffer, s) && UnitSize(kind) > 0 && n > 0 && Valid(s, at, ByteSize(kind, n))
  {
    ElementsFit(kind, n);
    if kind == 2 then Some(Words(UpToNul(buffer[at..at + n])))
    else if kind == 3 then Some(Whole(U16(buffer, s, at)))
    else if kind == 4 then Some(Whole(U32(buffer, s, at)))
    else
      var (a, b) := (U32(buffer, s, at), U32(buffer, s, at + 4));
      var (numerator, denominator) := if kind == 10 then (Signed(a), Signed(b)) else (a, b);
      if denominator == 0 then None else Some(Fraction(numerator as real / denominator as real))
  }

  lemma ElementsFit(kind: nat, n: nat)
    requires n > 0
    ensures UnitSize(kind) <= ByteSize(kind, n) && (kind == 2 ==> ByteSize(kind, n) == n)
  {
    assert (n - 1) * UnitSize(kind) >= 0;
  }

  /** Data of up to four bytes is kept in the entry itself. */
  function DataPlace(buffer: Buffer, s: Segment, entry: int, kind: nat, n: nat): int
    requires Fits(buffer, s) && Valid(s, entry, 12)
  {
    if ByteSize(kind, n) <= 4 then entry + 8 else s.base + U32(buffer, s, entry + 8)
  }

  /** The value of an entry that is not a directory pointer. */
  function EntryValue(buffer: Buffer, s: Segment, entry: int): Option<(string, Value)>
    requires Fits(buffer, s) && Valid(s, entry, 12)
  {
    var (tag, kind, n) := (U16(buffer, s, entry), U16(buffer, s, entry + 2), U32(buffer, s, entry + 4));
    if TagName(tag).None? || UnitSize(kind) == 0 || n == 0 || n > MAX_COUNT then None
    else
      var at := DataPlace(buffer, s, entry, kind, n);
      if !Valid(s, at, ByteSize(kind, n)) then None
      else
        match ValueAt(buffer, s, kind, n, at)
        case None => None
        case Some(v) => Some((TagName(tag).value, v))
  }

  predicate PointsToDirectory(buffer: Buffer, s: Segment, entry: int)
    requires Fits(buffer, s) && Valid(s, entry, 12)
  {
    U16(buffer, s, entry) == SUB_DIRECTORY && U16(buffer, s, entry + 2) == 4 && U32(buffer, s, entry + 4) == 1
  }

  datatype Reading = Reading(visited: set<int>, fields: Fields)

  function Directory(buffer: Buffer, s: Segment, relative: nat, depth: nat, r: Reading): Reading
    requires Fits(buffer, s)
    decreases MAX_DEPTH + 1 - depth, MAX_ENTRIES + 1
  {
    var p := s.base + relative;
    if depth > MAX_DEPTH || p in r.visited || !Valid(s, p, 2) then r
    else
      var (count, seen) := (U16(buffer, s, p), r.(visited := r.visited + {p}));
      if count > MAX_ENTRIES || !Valid(s, p + 2, count * 12) then seen
      else Entries(buffer, s, p + 2, count, depth, seen)
  }

  function Entries(buffer: Buffer, s: Segment, first: int, count: nat, depth: nat, r: Reading): Reading
    requires Fits(buffer, s) && depth <= MAX_DEPTH && Valid(s, first, count * 12)
    decreases MAX_DEPTH + 1 - depth, count
  {
    if count == 0 then r
    else Entries(buffer, s, first + 12, count - 1, depth, OneEntry(buffer, s, first, depth, r))
  }

  function OneEntry(buffer: Buffer, s: Segment, entry: int, depth: nat, r: Reading): Reading
    requires Fits(buffer, s) && depth <= MAX_DEPTH && Valid(s, entry, 12)
    decreases MAX_DEPTH + 1 - depth, 0
  {
    if PointsToDirectory(buffer, s, entry) then Directory(buffer, s, U32(buffer, s, entry + 8), depth + 1, r)
    else
      match EntryValue(buffer, s, entry)
      case None => r
      case Some((name, v)) => r.(fields := r.fields[name := v])
  }

  // ----- The segments -----

  function BigEndian(buffer: Buffer, p: nat, n: nat): nat
    requires p + n <= |buffer|
  {
    Uint(buffer[p..p + n], false)
  }

  const EXIF := 0x45786966

  predicate IsExif(buffer: Buffer, offset: nat, marker: byte, length: nat)
    requires offset + length <= |buffer|
  {
    marker == 0xe1 && length >= 16 && BigEndian(buffer, offset + 2, 4) == EXIF && BigEndian(buffer, offset + 6, 2) == 0
  }

  function Tiff(buffer: Buffer, base: nat, end: nat): Fields
    requires base + 8 <= end <= |buffer|
  {
    var order := BigEndian(buffer, base, 2);
    if order != 0x4949 && order != 0x4d4d then map[]
    else
      var s := Segment(base, end, order == 0x4949);
      if U16(buffer, s, base + 2) != 42 then map[]
      else Directory(buffer, s, U32(buffer, s, base + 4), 0, Reading({}, map[])).fields
  }

  function SkipFill(buffer: Buffer, offset: nat): (o: nat)
    requires offset <= |buffer|
    ensures offset <= o <= |buffer|
    decreases |buffer| - offset
  {
    if offset < |buffer| && buffer[offset] == 0xff then SkipFill(buffer, offset + 1) else offset
  }

  function Walk(buffer: Buffer, offset: nat): Fields
    decreases |buffer| - offset
  {
    if offset + 4 > |buffer| || buffer[offset] != 0xff then map[]
    else
      var o := SkipFill(buffer, offset + 1);
      if o >= |buffer| then map[]
      else
        var (marker, start) := (buffer[o], o + 1);
        if marker == 0xda || marker == 0xd9 then map[]
        else if marker == 0x01 || 0xd0 <= marker <= 0xd7 then Walk(buffer, start)
        else if start + 2 > |buffer| then map[]
        else
          var length := BigEndian(buffer, start, 2);
          if length < 2 || start + length > |buffer| then map[]
          else if IsExif(buffer, start, marker, length) then Tiff(buffer, start + 8, start + length)
          else Walk(buffer, start + length)
  }

  function PhotoExif(buffer: Buffer): Fields {
    if |buffer| < 4 || BigEndian(buffer, 0, 2) != 0xffd8 then map[] else Walk(buffer, 2)
  }

  class Reader {
    const buffer: Buffer
    var visited: set<int>
    var fields: Fields

    constructor (buffer: Buffer)
      ensures this.buffer == buffer && visited == {} && fields == map[]
    {
      this.buffer, visited, fields := buffer, {}, map[];
    }

    method ReadPhotoExif() returns (result: Fields)
      requires visited == {} && fields == map[]
      modifies this
      ensures result == PhotoExif(buffer)
    {
      hide Tiff, Uint, BigEndian;
      if |buffer| < 4 || BigEndian(buffer, 0, 2) != 0xffd8 {
        return fields;
      }
      var offset := 2;
      while offset + 4 <= |buffer|
        invariant offset <= |buffer| && visited == {} && fields == map[]
        invariant Walk(buffer, offset) == PhotoExif(buffer)
        decreases |buffer| - offset
      {
        ghost var start := offset;
        if buffer[offset] != 0xff {
          break;
        }
        offset := offset + 1;
        while offset < |buffer| && buffer[offset] == 0xff
          invariant start < offset <= |buffer|
          invariant SkipFill(buffer, offset) == SkipFill(buffer, start + 1)
        {
          offset := offset + 1;
        }
        if offset >= |buffer| {
          break;
        }
        var marker := buffer[offset];
        offset := offset + 1;
        if marker == 0xda || marker == 0xd9 {
          break;
        }
        if marker == 0x01 || 0xd0 <= marker <= 0xd7 {
          continue;
        }
        if offset + 2 > |buffer| {
          break;
        }
        var length := BigEndian(buffer, offset, 2);
        var end := offset + length;
        if length < 2 || end > |buffer| {
          break;
        }
        if IsExif(buffer, offset, marker, length) {
          result := ReadTiff(offset + 8, end);
          return;
        }
        offset := end;
      }
      return fields;
    }

    method ReadTiff(base: nat, end: nat) returns (result: Fields)
      requires base + 8 <= end <= |buffer| && visited == {} && fields == map[]
      modifies this
      ensures result == Tiff(buffer, base, end)
    {
      var order := BigEndian(buffer, base, 2);
      if order != 0x4949 && order != 0x4d4d {
        return fields;
      }
      var s := Segment(base, end, order == 0x4949);
      if U16(buffer, s, base + 2) != 42 {
        return fields;
      }
      ReadDirectory(s, U32(buffer, s, base + 4), 0);
      return fields;
    }

    method ReadDirectory(s: Segment, relative: nat, depth: nat)
      requires Fits(buffer, s)
      modifies this
      ensures Reading(visited, fields) == Directory(buffer, s, relative, depth, old(Reading(visited, fields)))
      decreases MAX_DEPTH + 1 - depth
    {
      hide OneEntry, U16;
      var p := s.base + relative;
      if depth > MAX_DEPTH || p in visited || !Valid(s, p, 2) {
        return;
      }
      visited := visited + {p};
      var count := U16(buffer, s, p);
      if count > MAX_ENTRIES || !Valid(s, p + 2, count * 12) {
        return;
      }
      ghost var seen := Reading(visited, fields);
      for i := 0 to count
        invariant Entries(buffer, s, p + 2 + i * 12, count - i, depth, Reading(visited, fields))
               == Entries(buffer, s, p + 2, count, depth, seen)
      {
        assert p + 2 + i * 12 + 12 == p + 2 + (i + 1) * 12;
        ReadEntry(s, p + 2 + i * 12, depth);
      }
    }

    method ReadEntry(s: Segment, entry: int, depth: nat)
      requires Fits(buffer, s) && depth <= MAX_DEPTH && Valid(s, entry, 12)
      modifies this
      ensures Reading(visited, fields) == OneEntry(buffer, s, entry, depth, old(Reading(visited, fields)))
      decreases MAX_DEPTH + 1 - depth, 0
    {
      hide Uint, UpToNul, Directory, Signed;
      var tag, kind, n := U16(buffer, s, entry), U16(buffer, s, entry + 2), U32(buffer, s, entry + 4);
      if tag == SUB_DIRECTORY && kind == 4 && n == 1 {
        ReadDirectory(s, U32(buffer, s, entry + 8), depth + 1);
        return;
      }
      if TagName(tag).None? {
        return;
      }
      var unit := UnitSize(kind);
      if unit == 0 || n == 0 || n > MAX_COUNT {
        return;
      }
      var size := ByteSize(kind, n);
      var at := if size <= 4 then entry + 8 else s.base + U32(buffer, s, entry + 8);
      if !Valid(s, at, size) {
        return;
      }
      ElementsFit(kind, n);
      var value: Value;
      if kind == 2 {
        value := Words(UpToNul(buffer[at..at + n]));
      } else if kind == 3 {
        value := Whole(U16(buffer, s, at));
      } else if kind == 4 {
        value := Whole(U32(buffer, s, at));
      } else {
        var numerator := if kind == 10 then Signed(U32(buffer, s, at)) else U32(buffer, s, at);
        var denominator := if kind == 10 then Signed(U32(buffer, s, at + 4)) else U32(buffer, s, at + 4);
        if denominator == 0 {
          return;
        }
        value := Fraction(numerator as real / denominator as real);
      }
      fields := fields[TagName(tag).value := value];
    }
  }
}
