/** What the EXIF reader makes of well-formed data: TIFF directories as laid
    out in section 2 of TIFF 6.0, in either byte order. */
module ExifFormat {
  import opened Text
  import opened Exif

  // ----- Numbers as bytes -----

  function Encode(x: nat, n: nat, little: bool): (bytes: seq<byte>)
    ensures |bytes| == n
  {
    if n == 0 then []
    else if little then [x % 256] + Encode(x / 256, n - 1, little)
    else Encode(x / 256, n - 1, little) + [x % 256]
  }

  predicate FitsIn(x: nat, n: nat) {
    if n == 0 then x == 0 else FitsIn(x / 256, n - 1)
  }

  lemma {:induction false} UintOfEncode(x: nat, n: nat, little: bool)
    requires FitsIn(x, n)
    ensures Uint(Encode(x, n, little), little) == x
  {
    if n > 0 {
      UintOfEncode(x / 256, n - 1, little);
      var bytes := Encode(x, n, little);
      if little {
        assert bytes[1..] == Encode(x / 256, n - 1, little);
      } else {
        assert bytes[..n - 1] == Encode(x / 256, n - 1, little);
      }
    }
  }

  lemma WordFits(x: nat)
    ensures x < 0x1_0000 ==> FitsIn(x, 2)
    ensures x < 0x1_0000_0000 ==> FitsIn(x, 4)
  {
    assert FitsIn(x, 2) == FitsIn(x / 256 / 256, 0);
    assert FitsIn(x, 4) == FitsIn(x / 256 / 256, 2);
    assert FitsIn(x / 256 / 256, 2) == FitsIn(x / 256 / 256 / 256 / 256, 0);
  }

  function Unsigned(x: int): nat
    requires -0x8000_0000 <= x < 0x8000_0000
  {
    if x >= 0 then x else x + 0x1_0000_0000
  }

  predicate Stores(buffer: Buffer, s: Segment, p: int, bytes: seq<byte>)
    requires Fits(buffer, s)
  {
    Valid(s, p, |bytes|) && buffer[p..p + |bytes|] == bytes
  }

  lemma ReadsStored(buffer: Buffer, s: Segment, p: int, x: nat)
    requires Fits(buffer, s)
    ensures x < 0x1_0000 && Stores(buffer, s, p, Encode(x, 2, s.little)) ==> U16(buffer, s, p) == x
    ensures x < 0x1_0000_0000 && Stores(buffer, s, p, Encode(x, 4, s.little)) ==> U32(buffer, s, p) == x
  {
    WordFits(x);
    if x < 0x1_0000 {
      UintOfEncode(x, 2, s.little);
    }
    if x < 0x1_0000_0000 {
      UintOfEncode(x, 4, s.little);
    }
  }

  lemma StoresPart(buffer: Buffer, s: Segment, p: int, a: seq<byte>, b: seq<byte>)
    requires Fits(buffer, s) && Stores(buffer, s, p, a + b)
    ensures Stores(buffer, s, p, a) && Stores(buffer, s, p + |a|, b)
  {
    var whole := buffer[p..p + |a + b|];
    assert whole[..|a|] == a && whole[|a|..] == b;
    assert buffer[p..p + |a|] == whole[..|a|] && buffer[p + |a|..p + |a| + |b|] == whole[|a|..];
  }

  // ----- Stored values -----

  type uint16 = x: int | 0 <= x < 0x1_0000

  type uint32 = x: int | 0 <= x < 0x1_0000_0000

  type int32 = x: int | -0x8000_0000 <= x < 0x8000_0000

  datatype Stored =
    | Ascii(bytes: seq<byte>)
    | Shorts(shorts: seq<uint16>)
    | Longs(longs: seq<uint32>)
    | Rationals(rationals: seq<(uint32, uint32)>)
    | SignedRationals(signed: seq<(int32, int32)>)

  function Kind(v: Stored): nat {
    match v
    case Ascii(_) => 2
    case Shorts(_) => 3
    case Longs(_) => 4
    case Rationals(_) => 5
    case SignedRationals(_) => 10
  }

  function Count(v: Stored): nat {
    match v
    case Ascii(bytes) => |bytes|
    case Shorts(xs) => |xs|
    case Longs(xs) => |xs|
    case Rationals(xs) => |xs|
    case SignedRationals(xs) => |xs|
  }

  /** The bytes of the first element, and of the others. */
  function First(v: Stored, little: bool): (bytes: seq<byte>)
    requires Count(v) > 0
    ensures |bytes| == UnitSize(Kind(v))
  {
    match v
    case Ascii(bytes) => [bytes[0]]
    case Shorts(xs) => Encode(xs[0], 2, little)
    case Longs(xs) => Encode(xs[0], 4, little)
    case Rationals(xs) => Encode(xs[0].0, 4, little) + Encode(xs[0].1, 4, little)
    case SignedRationals(xs) => Encode(Unsigned(xs[0].0), 4, little) + Encode(Unsigned(xs[0].1), 4, little)
  }

  function Others(v: Stored): (others: Stored)
    requires Count(v) > 0
    ensures Kind(others) == Kind(v) && Count(others) == Count(v) - 1
  {
    match v
    case Ascii(bytes) => Ascii(bytes[1..])
    case Shorts(xs) => Shorts(xs[1..])
    case Longs(xs) => Longs(xs[1..])
    case Rationals(xs) => Rationals(xs[1..])
    case SignedRationals(xs) => SignedRationals(xs[1..])
  }

  lemma OneMore(kind: nat, n: nat)
    requires n > 0
    ensures ByteSize(kind, n) == UnitSize(kind) + ByteSize(kind, n - 1)
  {
  }

  function Data(v: Stored, little: bool): (bytes: seq<byte>)
    ensures |bytes| == ByteSize(Kind(v), Count(v))
    decreases Count(v)
  {
    if Count(v) == 0 then []
    else
      OneMore(Kind(v), Count(v));
      First(v, little) + Data(Others(v), little)
  }

  /** What the page shows: text up to a NUL, the first number, or the first
      quotient unless its denominator is zero. */
  function Denoted(v: Stored): Option<Value>
    requires Count(v) > 0
  {
    match v
    case Ascii(bytes) => Some(Words(UpToNul(bytes)))
    case Shorts(xs) => Some(Whole(xs[0]))
    case Longs(xs) => Some(Whole(xs[0]))
    case Rationals(xs) => if xs[0].1 == 0 then None else Some(Fraction(xs[0].0 as real / xs[0].1 as real))
    case SignedRationals(xs) => if xs[0].1 == 0 then None else Some(Fraction(xs[0].0 as real / xs[0].1 as real))
  }

  lemma {:induction false} AsciiData(bytes: seq<byte>, little: bool)
    ensures Data(Ascii(bytes), little) == bytes
  {
    if bytes != [] {
      AsciiData(bytes[1..], little);
    }
  }

  lemma DataSplits(v: Stored, little: bool)
    requires Count(v) > 0
    ensures Data(v, little) == First(v, little) + Data(Others(v), little)
    ensures UnitSize(Kind(v)) <= |Data(v, little)|
  {
    ElementsFit(Kind(v), Count(v));
  }

  /** Reading a stored value gives what it denotes. */
  lemma ValueIsRead(buffer: Buffer, s: Segment, v: Stored, at: int)
    requires Fits(buffer, s) && Count(v) > 0 && Stores(buffer, s, at, Data(v, s.little))
    ensures ValueAt(buffer, s, Kind(v), Count(v), at) == Denoted(v)
  {
    hide Data, Uint, Encode, U16, U32, UpToNul, ByteSize;
    DataSplits(v, s.little);
    StoresPart(buffer, s, at, First(v, s.little), Data(Others(v), s.little));
    hide Stores;
    match v
    case Ascii(bytes) =>
      AsciiData(bytes, s.little);
      TextIsRead(buffer, s, at, bytes);
    case Shorts(xs) => ReadsStored(buffer, s, at, xs[0]);
    case Longs(xs) => ReadsStored(buffer, s, at, xs[0]);
    case Rationals(xs) => PairIsRead(buffer, s, at, xs[0].0, xs[0].1);
    case SignedRationals(xs) => PairIsRead(buffer, s, at, Unsigned(xs[0].0), Unsigned(xs[0].1));
  }

  lemma TextIsRead(buffer: Buffer, s: Segment, at: int, bytes: seq<byte>)
    requires Fits(buffer, s) && Stores(buffer, s, at, bytes)
    ensures Valid(s, at, |bytes|) && buffer[at..at + |bytes|] == bytes
  {
  }

  lemma PairIsRead(buffer: Buffer, s: Segment, at: int, a: uint32, b: uint32)
    requires Fits(buffer, s) && Stores(buffer, s, at, Encode(a, 4, s.little) + Encode(b, 4, s.little))
    ensures Valid(s, at, 8) && U32(buffer, s, at) == a && U32(buffer, s, at + 4) == b
  {
    StoresPart(buffer, s, at, Encode(a, 4, s.little), Encode(b, 4, s.little));
    ReadsStored(buffer, s, at, a);
    ReadsStored(buffer, s, at + 4, b);
  }

  // ----- Directories -----

  /** An entry with its data (inline, or at an offset), a pointer to another
      directory, or an entry of a type that is not read. */
  datatype Item =
    | Field(tag: uint16, value: Stored, offset: uint32)
    | Sub(relative: uint32, items: seq<Item>)
    | Other(tag: uint16, kind: uint16, count: uint32)

  predicate Header(buffer: Buffer, s: Segment, entry: int, tag: uint16, kind: uint16, count: nat)
    requires Fits(buffer, s)
  {
    && count < 0x1_0000_0000
    && Valid(s, entry, 12)
    && Stores(buffer, s, entry, Encode(tag, 2, s.little))
    && Stores(buffer, s, entry + 2, Encode(kind, 2, s.little))
    && Stores(buffer, s, entry + 4, Encode(count, 4, s.little))
  }

  predicate IsPointer(tag: uint16, kind: uint16, count: nat) {
    tag == SUB_DIRECTORY && kind == 4 && count == 1
  }

  predicate DescribesItem(buffer: Buffer, s: Segment, entry: int, item: Item, depth: nat)
    requires Fits(buffer, s)
    decreases item, 1
  {
    match item
    case Field(tag, value, offset) =>
      && !IsPointer(tag, Kind(value), Count(value))
      && Header(buffer, s, entry, tag, Kind(value), Count(value))
      && var data := Data(value, s.little);
         if |data| <= 4 then Stores(buffer, s, entry + 8, data)
         else Stores(buffer, s, entry + 8, Encode(offset, 4, s.little)) && Stores(buffer, s, s.base + offset, data)
    case Sub(relative, items) =>
      && depth < MAX_DEPTH
      && Header(buffer, s, entry, SUB_DIRECTORY, 4, 1)
      && Stores(buffer, s, entry + 8, Encode(relative, 4, s.little))
      && Describes(buffer, s, s.base + relative, items, depth + 1)
    case Other(tag, kind, count) => UnitSize(kind) == 0 && Header(buffer, s, entry, tag, kind, count)
  }

  /** The directory at `p` lists these items. */
  predicate Describes(buffer: Buffer, s: Segment, p: int, items: seq<Item>, depth: nat)
    requires Fits(buffer, s)
    decreases items, 1
  {
    && |items| <= MAX_ENTRIES
    && Stores(buffer, s, p, Encode(|items|, 2, s.little))
    && Valid(s, p + 2, |items| * 12)
    && DescribesItems(buffer, s, p + 2, items, depth)
  }

  predicate DescribesItems(buffer: Buffer, s: Segment, first: int, items: seq<Item>, depth: nat)
    requires Fits(buffer, s)
    decreases items, 0
  {
    items == []
    || (DescribesItem(buffer, s, first, items[0], depth) && DescribesItems(buffer, s, first + 12, items[1..], depth))
  }

  /** Where the directories below these items are. */
  function Places(base: nat, items: seq<Item>): set<int>
    decreases items, 0
  {
    if items == [] then {} else ItemPlaces(base, items[0]) + Places(base, items[1..])
  }

  function ItemPlaces(base: nat, item: Item): set<int>
    decreases item, 1
  {
    if item.Sub? then {base + item.relative} + Places(base, item.items) else {}
  }

  /** No two directories share a place. */
  predicate Separate(base: nat, items: seq<Item>)
    decreases items, 0
  {
    items == []
    || (&& SeparateItem(base, items[0]) && Separate(base, items[1..])
        && ItemPlaces(base, items[0]) !! Places(base, items[1..]))
  }

  predicate SeparateItem(base: nat, item: Item)
    decreases item, 1
  {
    item.Sub? ==> Separate(base, item.items) && base + item.relative !in Places(base, item.items)
  }

  /** The supported entries in order, the last one of a name winning, with
      each sub-directory read where its pointer stands. */
  function Meaning(items: seq<Item>, fields: Fields): Fields
    decreases items, 0
  {
    if items == [] then fields else Meaning(items[1..], ItemMeaning(items[0], fields))
  }

  function ItemMeaning(item: Item, fields: Fields): Fields
    decreases item, 1
  {
    match item
    case Field(tag, value, _) =>
      if TagName(tag).Some? && 0 < Count(value) <= MAX_COUNT && Denoted(value).Some?
      then fields[TagName(tag).value := Denoted(value).value] else fields
    case Sub(_, items) => Meaning(items, fields)
    case Other(_, _, _) => fields
  }

  // ----- Reading them back -----

  lemma HeaderIsRead(buffer: Buffer, s: Segment, entry: int, tag: uint16, kind: uint16, count: nat)
    requires Fits(buffer, s) && Header(buffer, s, entry, tag, kind, count)
    ensures U16(buffer, s, entry) == tag && U16(buffer, s, entry + 2) == kind && U32(buffer, s, entry + 4) == count
  {
    ReadsStored(buffer, s, entry, tag);
    ReadsStored(buffer, s, entry + 2, kind);
    ReadsStored(buffer, s, entry + 4, count);
  }

  lemma FieldIsRead(buffer: Buffer, s: Segment, entry: int, item: Item, depth: nat, r: Reading)
    requires Fits(buffer, s) && depth <= MAX_DEPTH && item.Field? && DescribesItem(buffer, s, entry, item, depth)
    ensures OneEntry(buffer, s, entry, depth, r) == r.(fields := ItemMeaning(item, r.fields))
  {
    HeaderIsRead(buffer, s, entry, item.tag, Kind(item.value), Count(item.value));
    hide Uint, U16, U32, Data, EntryValue, Directory;
    FieldValueIsRead(buffer, s, entry, item, depth);
  }

  lemma KindIsRead(v: Stored)
    ensures UnitSize(Kind(v)) > 0
  {
  }

  lemma FieldValueIsRead(buffer: Buffer, s: Segment, entry: int, item: Item, depth: nat)
    requires Fits(buffer, s) && Valid(s, entry, 12) && item.Field? && DescribesItem(buffer, s, entry, item, depth)
    ensures var v := item.value;
            EntryValue(buffer, s, entry)
            == if TagName(item.tag).Some? && 0 < Count(v) <= MAX_COUNT && Denoted(v).Some?
               then Some((TagName(item.tag).value, Denoted(v).value)) else None
  {
    var v := item.value;
    HeaderIsRead(buffer, s, entry, item.tag, Kind(v), Count(v));
    KindIsRead(v);
    DataIsThere(buffer, s, entry, item, depth);
    hide Uint, U16, U32, Data, ValueAt, Denoted, DataPlace, TagName, ByteSize, UnitSize, Kind, Count, DescribesItem, Stores;
    if 0 < Count(v) <= MAX_COUNT {
      ValueIsRead(buffer, s, v, DataPlace(buffer, s, entry, Kind(v), Count(v)));
    }
  }

  lemma DataIsThere(buffer: Buffer, s: Segment, entry: int, item: Item, depth: nat)
    requires Fits(buffer, s) && Valid(s, entry, 12) && item.Field? && DescribesItem(buffer, s, entry, item, depth)
    ensures var (kind, n) := (Kind(item.value), Count(item.value));
            var at := DataPlace(buffer, s, entry, kind, n);
            Stores(buffer, s, at, Data(item.value, s.little)) && Valid(s, at, ByteSize(kind, n))
  {
    hide Uint, Encode, Data, Header, ByteSize, Kind, Count;
    ReadsStored(buffer, s, entry + 8, item.offset);
  }

  lemma OtherIsSkipped(buffer: Buffer, s: Segment, entry: int, item: Item, depth: nat, r: Reading)
    requires Fits(buffer, s) && depth <= MAX_DEPTH && item.Other? && DescribesItem(buffer, s, entry, item, depth)
    ensures OneEntry(buffer, s, entry, depth, r) == r
  {
    HeaderIsRead(buffer, s, entry, item.tag, item.kind, item.count);
  }

  /** A well-formed directory yields its supported entries. */
  lemma {:induction false} DirectoryIsRead(buffer: Buffer, s: Segment, relative: uint32, items: seq<Item>, depth: nat,
                                           r: Reading)
    requires Fits(buffer, s) && depth <= MAX_DEPTH && Describes(buffer, s, s.base + relative, items, depth)
    requires Separate(s.base, items) && s.base + relative !in Places(s.base, items)
    requires ({s.base + relative} + Places(s.base, items)) !! r.visited
    ensures Directory(buffer, s, relative, depth, r)
         == Reading(r.visited + {s.base + relative} + Places(s.base, items), Meaning(items, r.fields))
    decreases items, 1
  {
    var p := s.base + relative;
    ReadsStored(buffer, s, p, |items|);
    ItemsAreRead(buffer, s, p + 2, items, depth, r.(visited := r.visited + {p}));
  }

  lemma {:induction false} ItemsAreRead(buffer: Buffer, s: Segment, first: int, items: seq<Item>, depth: nat, r: Reading)
    requires Fits(buffer, s) && depth <= MAX_DEPTH && Valid(s, first, |items| * 12)
    requires DescribesItems(buffer, s, first, items, depth)
    requires Separate(s.base, items) && Places(s.base, items) !! r.visited
    ensures Entries(buffer, s, first, |items|, depth, r) == Reading(r.visited + Places(s.base, items), Meaning(items, r.fields))
    decreases items, 0
  {
    hide DescribesItem, OneEntry, ItemMeaning, ItemPlaces, SeparateItem;
    if items == [] {
      assert r.visited + {} == r.visited;
    } else {
      ItemIsRead(buffer, s, first, items[0], depth, r);
      var next := OneEntry(buffer, s, first, depth, r);
      ItemsAreRead(buffer, s, first + 12, items[1..], depth, next);
      assert next.visited + Places(s.base, items[1..]) == r.visited + Places(s.base, items);
    }
  }

  lemma {:induction false} ItemIsRead(buffer: Buffer, s: Segment, entry: int, item: Item, depth: nat, r: Reading)
    requires Fits(buffer, s) && depth <= MAX_DEPTH && Valid(s, entry, 12) && DescribesItem(buffer, s, entry, item, depth)
    requires SeparateItem(s.base, item) && ItemPlaces(s.base, item) !! r.visited
    ensures OneEntry(buffer, s, entry, depth, r) == Reading(r.visited + ItemPlaces(s.base, item), ItemMeaning(item, r.fields))
    decreases item, 1
  {
    hide Uint, Encode, EntryValue, U16, U32, Directory, Meaning, ByteSize, Data;
    match item {
      case Field(_, _, _) =>
        FieldIsRead(buffer, s, entry, item, depth, r);
        assert r.visited + {} == r.visited;
      case Other(_, _, _) =>
        OtherIsSkipped(buffer, s, entry, item, depth, r);
        assert r.visited + {} == r.visited;
      case Sub(relative, items) =>
        HeaderIsRead(buffer, s, entry, SUB_DIRECTORY, 4, 1);
        ReadsStored(buffer, s, entry + 8, relative);
        DirectoryIsRead(buffer, s, relative, items, depth + 1, r);
        assert r.visited + ItemPlaces(s.base, item) == r.visited + {s.base + relative} + Places(s.base, items);
    }
  }

  // ----- Whole photos -----

  /** Ordinary segments from `offset` to `until`, none of them EXIF. */
  predicate Segments(buffer: Buffer, offset: nat, until: nat)
    decreases until - offset
  {
    offset == until
    || (&& offset + 4 <= until <= |buffer| && buffer[offset] == 0xff
        && var (marker, length) := (buffer[offset + 1], BigEndian(buffer, offset + 2, 2));
           && marker != 0xff && marker != 0xda && marker != 0xd9 && marker != 0x01 && !(0xd0 <= marker <= 0xd7)
           && length >= 2 && offset + 2 + length <= until
           && !IsExif(buffer, offset + 2, marker, length)
           && Segments(buffer, offset + 2 + length, until))
  }

  /** One turn of the walk over a plain marker segment. */
  lemma WalkTurn(buffer: Buffer, offset: nat)
    requires offset + 4 <= |buffer| && buffer[offset] == 0xff
    requires var marker := buffer[offset + 1];
             marker != 0xff && marker != 0xda && marker != 0xd9 && marker != 0x01 && !(0xd0 <= marker <= 0xd7)
    requires var length := BigEndian(buffer, offset + 2, 2); length >= 2 && offset + 2 + length <= |buffer|
    ensures var (marker, end) := (buffer[offset + 1], offset + 2 + BigEndian(buffer, offset + 2, 2));
            Walk(buffer, offset)
            == if IsExif(buffer, offset + 2, marker, end - offset - 2) then Tiff(buffer, offset + 10, end)
               else Walk(buffer, end)
  {
    hide IsExif, Tiff, BigEndian;
    assert SkipFill(buffer, offset + 1) == offset + 1;
  }

  lemma {:induction false} WalkSkips(buffer: Buffer, offset: nat, until: nat)
    requires Segments(buffer, offset, until)
    ensures Walk(buffer, offset) == Walk(buffer, until)
    decreases until - offset
  {
    hide IsExif, Tiff, BigEndian, Walk;
    if offset != until {
      WalkTurn(buffer, offset);
      WalkSkips(buffer, offset + 2 + BigEndian(buffer, offset + 2, 2), until);
    }
  }

  /** A JPEG whose first EXIF segment starts at `at`, with TIFF data in the
      given byte order that describes these items. */
  predicate Photographed(buffer: Buffer, at: nat, little: bool, relative: uint32, items: seq<Item>) {
    && |buffer| >= 4 && BigEndian(buffer, 0, 2) == 0xffd8
    && 2 <= at && Segments(buffer, 2, at)
    && at + 4 <= |buffer| && buffer[at] == 0xff && buffer[at + 1] == 0xe1
    && var length := BigEndian(buffer, at + 2, 2);
       && at + 2 + length <= |buffer| && IsExif(buffer, at + 2, 0xe1, length)
       && BigEndian(buffer, at + 10, 2) == (if little then 0x4949 else 0x4d4d)
       && var s := Segment(at + 10, at + 2 + length, little);
          && Stores(buffer, s, s.base + 2, Encode(42, 2, little))
          && Stores(buffer, s, s.base + 4, Encode(relative, 4, little))
          && Describes(buffer, s, s.base + relative, items, 0)
          && Separate(s.base, items) && s.base + relative !in Places(s.base, items)
  }

  lemma PhotoIsRead(buffer: Buffer, at: nat, little: bool, relative: uint32, items: seq<Item>)
    requires Photographed(buffer, at, little, relative, items)
    ensures PhotoExif(buffer) == Meaning(items, map[])
  {
    hide Uint, Encode, Describes, Segments, Walk, Tiff, Meaning, Separate, Places;
    WalkSkips(buffer, 2, at);
    WalkTurn(buffer, at);
    TiffIsRead(buffer, Segment(at + 10, at + 2 + BigEndian(buffer, at + 2, 2), little), relative, items);
  }

  lemma TiffIsRead(buffer: Buffer, s: Segment, relative: uint32, items: seq<Item>)
    requires Fits(buffer, s) && BigEndian(buffer, s.base, 2) == (if s.little then 0x4949 else 0x4d4d)
    requires Stores(buffer, s, s.base + 2, Encode(42, 2, s.little))
    requires Stores(buffer, s, s.base + 4, Encode(relative, 4, s.little))
    requires Describes(buffer, s, s.base + relative, items, 0)
    requires Separate(s.base, items) && s.base + relative !in Places(s.base, items)
    ensures Tiff(buffer, s.base, s.end) == Meaning(items, map[])
  {
    hide Uint, Encode;
    ReadsStored(buffer, s, s.base + 2, 42);
    ReadsStored(buffer, s, s.base + 4, relative);
    DirectoryIsRead(buffer, s, relative, items, 0, Reading({}, map[]));
  }

  /** The byte order does not matter. */
  lemma ByteOrderDoesNotMatter(one: Buffer, other: Buffer, at: nat, atOther: nat, relative: uint32, relativeOther: uint32,
                               items: seq<Item>)
    requires Photographed(one, at, true, relative, items) && Photographed(other, atOther, false, relativeOther, items)
    ensures PhotoExif(one) == PhotoExif(other)
  {
    PhotoIsRead(one, at, true, relative, items);
    PhotoIsRead(other, atOther, false, relativeOther, items);
  }

  // ----- Only the segment is read -----

  predicate SameSegment(a: Buffer, b: Buffer, s: Segment) {
    Fits(a, s) && Fits(b, s) && a[s.base..s.end] == b[s.base..s.end]
  }

  lemma SameBytes(a: Buffer, b: Buffer, s: Segment, p: int, n: nat)
    requires SameSegment(a, b, s) && Valid(s, p, n)
    ensures a[p..p + n] == b[p..p + n]
  {
    forall i | p <= i < p + n
      ensures a[i] == b[i]
    {
      assert a[s.base..s.end][i - s.base] == b[s.base..s.end][i - s.base];
    }
  }

  lemma SameNumbers(a: Buffer, b: Buffer, s: Segment, p: int)
    requires SameSegment(a, b, s)
    ensures Valid(s, p, 2) ==> U16(a, s, p) == U16(b, s, p)
    ensures Valid(s, p, 4) ==> U32(a, s, p) == U32(b, s, p)
  {
    if Valid(s, p, 2) {
      SameBytes(a, b, s, p, 2);
    }
    if Valid(s, p, 4) {
      SameBytes(a, b, s, p, 4);
    }
  }

  lemma SameValue(a: Buffer, b: Buffer, s: Segment, kind: nat, n: nat, at: int)
    requires SameSegment(a, b, s) && UnitSize(kind) > 0 && n > 0 && Valid(s, at, ByteSize(kind, n))
    ensures ValueAt(a, s, kind, n, at) == ValueAt(b, s, kind, n, at)
  {
    ElementsFit(kind, n);
    SameNumbers(a, b, s, at);
    SameNumbers(a, b, s, at + 4);
    if kind == 2 {
      SameBytes(a, b, s, at, n);
    }
  }

  lemma SameEntry(a: Buffer, b: Buffer, s: Segment, entry: int)
    requires SameSegment(a, b, s) && Valid(s, entry, 12)
    ensures PointsToDirectory(a, s, entry) == PointsToDirectory(b, s, entry)
    ensures U32(a, s, entry + 8) == U32(b, s, entry + 8)
    ensures EntryValue(a, s, entry) == EntryValue(b, s, entry)
  {
    SameNumbers(a, b, s, entry);
    SameNumbers(a, b, s, entry + 2);
    SameNumbers(a, b, s, entry + 4);
    SameNumbers(a, b, s, entry + 8);
    hide Uint, U16, U32, ValueAt, TagName, SameSegment;
    var (kind, n) := (U16(a, s, entry + 2), U32(a, s, entry + 4));
    var at := DataPlace(a, s, entry, kind, n);
    if UnitSize(kind) > 0 && n > 0 && Valid(s, at, ByteSize(kind, n)) {
      SameValue(a, b, s, kind, n, at);
    }
  }

  /** Whatever the bytes are, the reading is decided by the segment alone. */
  lemma {:induction false} OnlyTheSegmentIsRead(a: Buffer, b: Buffer, s: Segment, relative: nat, depth: nat, r: Reading)
    requires SameSegment(a, b, s)
    ensures Directory(a, s, relative, depth, r) == Directory(b, s, relative, depth, r)
    decreases MAX_DEPTH + 1 - depth, MAX_ENTRIES + 1
  {
    var p := s.base + relative;
    SameNumbers(a, b, s, p);
    if depth <= MAX_DEPTH && p !in r.visited && Valid(s, p, 2) {
      var count := U16(a, s, p);
      if count <= MAX_ENTRIES && Valid(s, p + 2, count * 12) {
        SameEntries(a, b, s, p + 2, count, depth, r.(visited := r.visited + {p}));
      }
    }
  }

  lemma {:induction false} SameEntries(a: Buffer, b: Buffer, s: Segment, first: int, count: nat, depth: nat, r: Reading)
    requires SameSegment(a, b, s) && depth <= MAX_DEPTH && Valid(s, first, count * 12)
    ensures Entries(a, s, first, count, depth, r) == Entries(b, s, first, count, depth, r)
    decreases MAX_DEPTH + 1 - depth, count
  {
    assert Fits(a, s) && Fits(b, s);
    hide PointsToDirectory, EntryValue, Directory, U32, SameSegment, Fits;
    if count > 0 {
      SameEntry(a, b, s, first);
      if PointsToDirectory(a, s, first) {
        OnlyTheSegmentIsRead(a, b, s, U32(a, s, first + 8), depth + 1, r);
      }
      assert OneEntry(a, s, first, depth, r) == OneEntry(b, s, first, depth, r) by {
        hide Entries;
      }
      hide OneEntry;
      SameEntries(a, b, s, first + 12, count - 1, depth, OneEntry(a, s, first, depth, r));
    }
  }

  // ----- Bytes, types and tags by hand -----

  function TwoBytes(high: int, low: int): int {
    256 * high + low
  }

  function FourBytes(a: int, b: int, c: int, d: int): int {
    TwoBytes(TwoBytes(TwoBytes(a, b), c), d)
  }

  /** Two and four bytes, the high ones last or first. */
  lemma WordsAre(buffer: Buffer, s: Segment, p: int)
    requires Fits(buffer, s) && Valid(s, p, 2)
    ensures s.little ==> U16(buffer, s, p) == TwoBytes(buffer[p + 1], buffer[p])
    ensures !s.little ==> U16(buffer, s, p) == TwoBytes(buffer[p], buffer[p + 1])
    ensures Valid(s, p, 4) && s.little ==>
              U32(buffer, s, p) == FourBytes(buffer[p + 3], buffer[p + 2], buffer[p + 1], buffer[p])
    ensures Valid(s, p, 4) && !s.little ==>
              U32(buffer, s, p) == FourBytes(buffer[p], buffer[p + 1], buffer[p + 2], buffer[p + 3])
  {
    UintOfTwo(buffer[p..p + 2], s.little);
    if Valid(s, p, 4) {
      UintOfFour(buffer[p..p + 4], s.little);
    }
    hide Uint;
  }

  lemma UintOfTwo(b: seq<byte>, little: bool)
    requires |b| == 2
    ensures Uint(b, little) == if little then TwoBytes(b[1], b[0]) else TwoBytes(b[0], b[1])
  {
    assert b[1..][1..] == [] && b[..1][..0] == [];
    assert Uint(b[1..], little) == b[1] && Uint(b[..1], little) == b[0];
  }

  lemma UintOfFour(b: seq<byte>, little: bool)
    requires |b| == 4
    ensures Uint(b, little) == if little then FourBytes(b[3], b[2], b[1], b[0]) else FourBytes(b[0], b[1], b[2], b[3])
  {
    if little {
      UintOfTwo(b[2..], true);
      assert b[1..][1..] == b[2..];
      assert Uint(b[1..], true) == b[1] + 256 * Uint(b[2..], true);
    } else {
      UintOfTwo(b[..2], false);
      assert b[..3][..2] == b[..2];
      assert Uint(b[..3], false) == 256 * Uint(b[..2], false) + b[2];
    }
  }

  /** The five types that are read, and the twelve tags. */
  lemma TypesAndTags(kind: nat, tag: nat)
    ensures UnitSize(kind) > 0 <==> kind in {2, 3, 4, 5, 10}
    ensures TagName(tag).Some?
       <==> tag in {0x010f, 0x0110, 0x0131, 0x0112, 0x9003, 0x829a, 0x829d, 0x8827, 0x9204, 0x9206, 0x920a, 0xa403}
    ensures TagName(0x010f) == Some("Camera make") && TagName(0x0110) == Some("Camera model")
    ensures TagName(0x0131) == Some("Software") && TagName(0x0112) == Some("EXIF orientation")
    ensures TagName(0x9003) == Some("EXIF capture time") && TagName(0x829a) == Some("Exposure (s)")
    ensures TagName(0x829d) == Some("Aperture (f/)") && TagName(0x8827) == Some("ISO")
    ensures TagName(0x9204) == Some("Exposure bias (EV)") && TagName(0x9206) == Some("Reported focus distance (m)")
    ensures TagName(0x920a) == Some("Focal length (mm)") && TagName(0xa403) == Some("White balance mode")
  {
  }

  // ----- The walk by hand -----

  /** The TIFF data is read only after its byte order twice, and then 42. */
  lemma TiffStarts(buffer: Buffer, base: nat, end: nat)
    requires base + 8 <= end <= |buffer|
    ensures !(buffer[base] == buffer[base + 1] && buffer[base] in {0x49, 0x4d}) ==> Tiff(buffer, base, end) == map[]
    ensures buffer[base] == buffer[base + 1] == 0x49 ==>
              Tiff(buffer, base, end) == if buffer[base + 2] == 42 && buffer[base + 3] == 0
                                         then FirstDirectory(buffer, Segment(base, end, true)) else map[]
    ensures buffer[base] == buffer[base + 1] == 0x4d ==>
              Tiff(buffer, base, end) == if buffer[base + 2] == 0 && buffer[base + 3] == 42
                                         then FirstDirectory(buffer, Segment(base, end, false)) else map[]
  {
    UintOfTwo(buffer[base..base + 2], false);
    WordsAre(buffer, Segment(base, end, true), base + 2);
    WordsAre(buffer, Segment(base, end, false), base + 2);
    hide Uint, U16, U32, Directory;
  }

  /** The directory at the offset that follows the magic number. */
  function FirstDirectory(buffer: Buffer, s: Segment): Fields
    requires Fits(buffer, s)
  {
    Directory(buffer, s, U32(buffer, s, s.base + 4), 0, Reading({}, map[])).fields
  }

  /** Without the two bytes that start a JPEG nothing is read. */
  lemma OnlyJpegs(buffer: Buffer)
    ensures |buffer| < 4 || buffer[0] != 0xff || buffer[1] != 0xd8 ==> PhotoExif(buffer) == map[]
    ensures |buffer| >= 4 && buffer[0] == 0xff && buffer[1] == 0xd8 ==> PhotoExif(buffer) == Walk(buffer, 2)
  {
    if |buffer| >= 4 {
      UintOfTwo(buffer[0..2], false);
    }
    hide Walk, Uint;
  }

  lemma {:induction false} FillIsSkipped(buffer: Buffer, p: nat, q: nat)
    requires p <= q <= |buffer| && (forall i :: p <= i < q ==> buffer[i] == 0xff) && (q < |buffer| ==> buffer[q] != 0xff)
    ensures SkipFill(buffer, p) == q
    decreases q - p
  {
    if p < q {
      FillIsSkipped(buffer, p + 1, q);
    }
  }

  /** At 0xff, and past any more of it, there is a marker at `q`. */
  predicate MarkerAt(buffer: Buffer, p: nat, q: nat) {
    && p + 4 <= |buffer| && p < q < |buffer|
    && buffer[p] == 0xff && (forall i :: p < i < q ==> buffer[i] == 0xff) && buffer[q] != 0xff
  }

  /** Anything but a marker stops the walk, and so do image data and the end; a
      marker that stands alone is passed over. */
  lemma WalkStopsOrPasses(buffer: Buffer, p: nat, q: nat)
    ensures p + 4 > |buffer| || buffer[p] != 0xff ==> Walk(buffer, p) == map[]
    ensures MarkerAt(buffer, p, q) && buffer[q] in {0xda, 0xd9} ==> Walk(buffer, p) == map[]
    ensures MarkerAt(buffer, p, q) && (buffer[q] == 1 || 0xd0 <= buffer[q] <= 0xd7) ==>
              Walk(buffer, p) == Walk(buffer, q + 1)
  {
    if MarkerAt(buffer, p, q) {
      FillIsSkipped(buffer, p + 1, q);
    }
    hide SkipFill, Uint, Tiff, IsExif;
  }

  /** "Exif" and two zero bytes. */
  predicate SaysExif(buffer: Buffer, p: nat) {
    p + 6 <= |buffer| && buffer[p..p + 6] == [0x45, 0x78, 0x69, 0x66, 0, 0]
  }

  /** Any other marker has a length behind it. One that does not fit stops the
      walk, the EXIF segment is read, any other segment is skipped. */
  lemma WalkSegment(buffer: Buffer, p: nat, q: nat)
    requires MarkerAt(buffer, p, q) && q < |buffer| && buffer[q] !in {0xda, 0xd9, 1} && !(0xd0 <= buffer[q] <= 0xd7)
    ensures q + 3 > |buffer| ==> Walk(buffer, p) == map[]
    ensures q + 3 <= |buffer| ==>
              var length := TwoBytes(buffer[q + 1], buffer[q + 2]);
              if length < 2 || q + 1 + length > |buffer| then Walk(buffer, p) == map[]
              else if buffer[q] == 0xe1 && length >= 16 && SaysExif(buffer, q + 3)
              then Walk(buffer, p) == Tiff(buffer, q + 9, q + 1 + length)
              else Walk(buffer, p) == Walk(buffer, q + 1 + length)
  {
    hide *;
    MarkerMeans(buffer, p, q);
    WalkAtMarker(buffer, p, q);
    if q + 3 <= |buffer| {
      LengthIs(buffer, q + 1);
      var length := BigEndian(buffer, q + 1, 2);
      if 2 <= length && q + 1 + length <= |buffer| {
        ExifSegment(buffer, q + 1, buffer[q], length);
      }
    }
  }

  lemma MarkerMeans(buffer: Buffer, p: nat, q: nat)
    requires MarkerAt(buffer, p, q)
    ensures p + 4 <= |buffer| && p < q < |buffer| && buffer[p] == 0xff && SkipFill(buffer, p + 1) == q
  {
    FillIsSkipped(buffer, p + 1, q);
  }

  lemma LengthIs(buffer: Buffer, p: nat)
    requires p + 2 <= |buffer|
    ensures BigEndian(buffer, p, 2) == TwoBytes(buffer[p], buffer[p + 1])
  {
    UintOfTwo(buffer[p..p + 2], false);
  }

  lemma WalkAtMarker(buffer: Buffer, p: nat, q: nat)
    requires p + 4 <= |buffer| && q < |buffer| && buffer[p] == 0xff && SkipFill(buffer, p + 1) == q
    requires buffer[q] !in {0xda, 0xd9, 1} && !(0xd0 <= buffer[q] <= 0xd7)
    ensures q + 3 > |buffer| ==> Walk(buffer, p) == map[]
    ensures q + 3 <= |buffer| ==>
              var length := BigEndian(buffer, q + 1, 2);
              Walk(buffer, p) == if length < 2 || q + 1 + length > |buffer| then map[]
                                 else if IsExif(buffer, q + 1, buffer[q], length) then Tiff(buffer, q + 9, q + 1 + length)
                                 else Walk(buffer, q + 1 + length)
  {
    hide SkipFill, BigEndian, Tiff, IsExif;
  }

  lemma ExifSegment(buffer: Buffer, offset: nat, marker: byte, length: nat)
    requires offset + length <= |buffer|
    ensures IsExif(buffer, offset, marker, length)
       <==> marker == 0xe1 && length >= 16 && SaysExif(buffer, offset + 2)
  {
    if length >= 16 {
      ExifHeader(buffer, offset + 2);
    }
  }

  lemma SameTwo(a: int, b: byte, c: int, d: byte)
    ensures TwoBytes(a, b) == TwoBytes(c, d) <==> a == c && b == d
  {
  }

  lemma ExifBytes(a: byte, b: byte, c: byte, d: byte)
    ensures FourBytes(a, b, c, d) == EXIF <==> a == 0x45 && b == 0x78 && c == 0x69 && d == 0x66
  {
    assert FourBytes(0x45, 0x78, 0x69, 0x66) == EXIF;
    hide TwoBytes;
    SameTwo(TwoBytes(TwoBytes(a, b), c), d, TwoBytes(TwoBytes(0x45, 0x78), 0x69), 0x66);
    SameTwo(TwoBytes(a, b), c, TwoBytes(0x45, 0x78), 0x69);
    SameTwo(a, b, 0x45, 0x78);
  }

  lemma ExifHeader(buffer: Buffer, p: nat)
    requires p + 6 <= |buffer|
    ensures BigEndian(buffer, p, 4) == EXIF && BigEndian(buffer, p + 4, 2) == 0
       <==> buffer[p..p + 6] == [0x45, 0x78, 0x69, 0x66, 0, 0]
  {
    var b := buffer[p..p + 6];
    UintOfFour(buffer[p..p + 4], false);
    UintOfTwo(buffer[p + 4..p + 6], false);
    ExifBytes(b[0], b[1], b[2], b[3]);
    SameTwo(b[4], b[5], 0, 0);
    assert TwoBytes(0, 0) == 0;
    hide Uint, TwoBytes, FourBytes;
    assert buffer[p..p + 4] == b[..4] && buffer[p + 4..p + 6] == b[4..];
    if b[0] == 0x45 && b[1] == 0x78 && b[2] == 0x69 && b[3] == 0x66 && b[4] == 0 && b[5] == 0 {
      assert b == [0x45, 0x78, 0x69, 0x66, 0, 0];
    }
  }
}
