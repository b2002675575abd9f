/** The base64url pair of server/components/webauthn.ts, over the browser's
    `btoa` and forgiving `atob` (base64url is section 5 of RFC 4648). */
module Base64Url {
  import opened Text

  newtype Six = x: int | 0 <= x < 64

  // ----- Bytes and sextets -----

  /** Three bytes as four sextets. */
  function Split(x: byte, y: byte, z: byte): (Six, Six, Six, Six) {
    ((x as int / 4) as Six, (x as int % 4 * 16 + y as int / 16) as Six,
     (y as int % 16 * 4 + z as int / 64) as Six, (z as int % 64) as Six)
  }

  /** Four sextets as three bytes. */
  function Merge(a: Six, b: Six, c: Six, d: Six): (byte, byte, byte) {
    ((a as int * 4 + b as int / 16) as byte, (b as int % 16 * 16 + c as int / 4) as byte,
     (c as int % 4 * 64 + d as int) as byte)
  }

  /** One or two bytes at the end take two or three sextets. */
  function Sextets(b: seq<byte>): seq<Six> {
    if b == [] then []
    else if |b| == 1 then var (p, q, _, _) := Split(b[0], 0, 0); [p, q]
    else if |b| == 2 then var (p, q, r, _) := Split(b[0], b[1], 0); [p, q, r]
    else var (p, q, r, t) := Split(b[0], b[1], b[2]); [p, q, r, t] + Sextets(b[3..])
  }

  /** Sextets to bytes, dropping the spare bits of the last one. */
  function Bytes(v: seq<Six>): seq<byte> {
    if |v| < 2 then []
    else if |v| == 2 then [Merge(v[0], v[1], 0, 0).0]
    else if |v| == 3 then var (x, y, _) := Merge(v[0], v[1], v[2], 0); [x, y]
    else var (x, y, z) := Merge(v[0], v[1], v[2], v[3]); [x, y, z] + Bytes(v[4..])
  }

  // ----- The browser's half -----

  function Symbol(v: Six): char {
    var i := v as int;
    if i < 26 then ('A' as int + i) as char
    else if i < 52 then ('a' as int + (i - 26)) as char
    else if i < 62 then ('0' as int + (i - 52)) as char
    else if i == 62 then '+' else '/'
  }

  predicate InAlphabet(c: char) {
    'A' <= c <= 'Z' || 'a' <= c <= 'z' || '0' <= c <= '9' || c == '+' || c == '/'
  }

  function Sextet(c: char): Six {
    if 'A' <= c <= 'Z' then (c as int - 'A' as int) as Six
    else if 'a' <= c <= 'z' then (c as int - 'a' as int + 26) as Six
    else if '0' <= c <= '9' then (c as int - '0' as int + 52) as Six
    else if c == '+' then 62 else 63
  }

  function Symbols(v: seq<Six>): string {
    seq(|v|, i requires 0 <= i < |v| => Symbol(v[i]))
  }

  function Values(s: string): seq<Six> {
    seq(|s|, i requires 0 <= i < |s| => Sextet(s[i]))
  }

  function Core(b: seq<byte>): string {
    Symbols(Sextets(b))
  }

  function Btoa(b: seq<byte>): string {
    Core(b) + (if |b| % 3 == 1 then "==" else if |b| % 3 == 2 then "=" else "")
  }

  predicate IsAsciiWhitespace(c: char) {
    c == ' ' || c == '\t' || c == '\n' || c == '\r' || c == 12 as char
  }

  function WithoutWhitespace(s: string): string {
    if s == [] then []
    else (if IsAsciiWhitespace(s[0]) then [] else [s[0]]) + WithoutWhitespace(s[1..])
  }

  function WithoutPadding(s: string): string {
    if |s| % 4 != 0 then s
    else if |s| >= 2 && s[|s| - 1] == '=' && s[|s| - 2] == '=' then s[..|s| - 2]
    else if |s| >= 1 && s[|s| - 1] == '=' then s[..|s| - 1]
    else s
  }

  predicate AllInAlphabet(s: string) {
    forall i :: 0 <= i < |s| ==> InAlphabet(s[i])
  }

  /** `None` where the browser throws. */
  function Atob(data: string): Option<seq<byte>> {
    var d := WithoutPadding(WithoutWhitespace(data));
    if |d| % 4 == 1 || !AllInAlphabet(d) then None else Some(Bytes(Values(d)))
  }

  // ----- The module's half -----

  function Replaced(s: string, from: char, to: char): string {
    seq(|s|, i requires 0 <= i < |s| => if s[i] == from then to else s[i])
  }

  function StripPadding(s: string): string {
    if s != [] && s[|s| - 1] == '=' then StripPadding(s[..|s| - 1]) else s
  }

  function Encoded(b: seq<byte>): string {
    StripPadding(Replaced(Replaced(Btoa(b), '+', '-'), '/', '_'))
  }

  predicate Latin1(binary: string) {
    forall k :: 0 <= k < |binary| ==> binary[k] as int < 256
  }

  function CharCodes(binary: string): seq<byte>
    requires Latin1(binary)
  {
    seq(|binary|, k requires 0 <= k < |binary| => binary[k] as byte)
  }

  method Encode(value: seq<byte>) returns (s: string)
    ensures s == Encoded(value)
  {
    var binary := "";
    for i := 0 to |value|
      invariant |binary| == i
      invariant forall k :: 0 <= k < i ==> binary[k] == value[k] as char
    {
      binary := binary + [value[i] as char];
    }
    assert CharCodes(binary) == value;
    s := StripPadding(Replaced(Replaced(Btoa(CharCodes(binary)), '+', '-'), '/', '_'));
  }

  function PadEnd(s: string, length: nat): string {
    if length <= |s| then s else s + seq(length - |s|, i => '=')
  }

  function Decode(value: string): Option<seq<byte>> {
    var normalized := Replaced(Replaced(value, '-', '+'), '_', '/');
    var padded := PadEnd(normalized, (|normalized| + 3) / 4 * 4);
    Atob(padded)
  }

  // ----- Sextets and Bytes undo each other -----

  /** A number is its quotient and remainder put together. */
  lemma Parts(n: int, q: int, r: int, k: int)
    requires (k == 4 || k == 16 || k == 64) && n == q * k + r && 0 <= r < k
    ensures n / k == q && n % k == r
  {
  }

  lemma MergeSplit(x: byte, y: byte, z: byte)
    ensures var (a, b, c, d) := Split(x, y, z);
            && Merge(a, b, c, d) == (x, y, z)
            && (y == 0 ==> b as int % 16 == 0) && (z == 0 ==> c as int % 4 == 0)
  {
    var (a, b, c, d) := Split(x, y, z);
    Parts(b as int, x as int % 4, y as int / 16, 16);
    Parts(c as int, y as int % 16, z as int / 64, 4);
  }

  lemma SplitMerge(a: Six, b: Six, c: Six, d: Six)
    ensures var (x, y, z) := Merge(a, b, c, d); Split(x, y, z) == (a, b, c, d)
    ensures b as int % 16 == 0 && c == 0 ==> Merge(a, b, c, d).1 == 0
    ensures c as int % 4 == 0 && d == 0 ==> Merge(a, b, c, d).2 == 0
  {
    var (x, y, z) := Merge(a, b, c, d);
    Parts(x as int, a as int, b as int / 16, 4);
    Parts(y as int, b as int % 16, c as int / 4, 16);
    Parts(z as int, c as int % 4, d as int, 64);
  }

  lemma MergeIgnoresSpare(a: Six, b: Six, c: Six, d: Six)
    ensures Merge(a, b, c, d).0 == Merge(a, b, 0, 0).0
    ensures Merge(a, b, c, d).1 == Merge(a, b, c, 0).1
  {
  }

  lemma {:induction false} SextetCount(b: seq<byte>)
    ensures |Sextets(b)| == |b| / 3 * 4 + (if |b| % 3 == 0 then 0 else |b| % 3 + 1)
  {
    if |b| >= 3 {
      SextetCount(b[3..]);
    }
  }

  lemma {:induction false} BytesOfSextets(b: seq<byte>)
    ensures Bytes(Sextets(b)) == b
  {
    hide Merge, Split;
    if |b| == 1 {
      MergeSplit(b[0], 0, 0);
      var (p, q, r, t) := Split(b[0], 0, 0);
      MergeIgnoresSpare(p, q, r, t);
    } else if |b| == 2 {
      MergeSplit(b[0], b[1], 0);
      var (p, q, r, t) := Split(b[0], b[1], 0);
      MergeIgnoresSpare(p, q, r, t);
      MergeIgnoresSpare(p, q, r, 0);
    } else if |b| >= 3 {
      MergeSplit(b[0], b[1], b[2]);
      BytesOfSextets(b[3..]);
      var (p, q, r, t) := Split(b[0], b[1], b[2]);
      BytesOfFour(p, q, r, t, Sextets(b[3..]));
      assert b == [b[0], b[1], b[2]] + b[3..];
    }
  }

  lemma BytesOfFour(p: Six, q: Six, r: Six, t: Six, rest: seq<Six>)
    ensures var (x, y, z) := Merge(p, q, r, t); Bytes([p, q, r, t] + rest) == [x, y, z] + Bytes(rest)
  {
    assert ([p, q, r, t] + rest)[4..] == rest;
  }

  /** The bits of the last sextet that no byte uses are zero. */
  predicate SpareBitsZero(v: seq<Six>) {
    && (|v| % 4 == 2 ==> v[|v| - 1] as int % 16 == 0)
    && (|v| % 4 == 3 ==> v[|v| - 1] as int % 4 == 0)
  }

  lemma {:induction false} SextetsOfBytes(v: seq<Six>)
    requires |v| % 4 != 1 && SpareBitsZero(v)
    ensures Sextets(Bytes(v)) == v
  {
    hide Merge, Split;
    if |v| == 2 || |v| == 3 {
      SextetsOfTail(v);
    } else if |v| >= 4 {
      SplitMerge(v[0], v[1], v[2], v[3]);
      SextetsOfBytes(v[4..]);
      var (x, y, z) := Merge(v[0], v[1], v[2], v[3]);
      SextetsOfThree(x, y, z, Bytes(v[4..]));
      assert v == [v[0], v[1], v[2], v[3]] + v[4..];
    }
  }

  lemma SextetsOfTail(v: seq<Six>)
    requires |v| == 2 || |v| == 3
    requires SpareBitsZero(v)
    ensures Sextets(Bytes(v)) == v
  {
    SplitMerge(v[0], v[1], if |v| == 3 then v[2] else 0, 0);
    assert v == if |v| == 2 then [v[0], v[1]] else [v[0], v[1], v[2]];
  }

  lemma SextetsOfThree(x: byte, y: byte, z: byte, rest: seq<byte>)
    ensures var (p, q, r, t) := Split(x, y, z); Sextets([x, y, z] + rest) == [p, q, r, t] + Sextets(rest)
  {
    assert ([x, y, z] + rest)[3..] == rest;
  }

  lemma {:induction false} SextetsSpareBits(b: seq<byte>)
    ensures SpareBitsZero(Sextets(b))
  {
    if |b| >= 3 {
      SextetsSpareBits(b[3..]);
      var (p, q, r, t) := Split(b[0], b[1], b[2]);
      SpareBitsOfRest(p, q, r, t, Sextets(b[3..]));
    } else if |b| >= 1 {
      MergeSplit(b[0], if |b| == 1 then 0 else b[1], 0);
    }
  }

  lemma SpareBitsOfRest(p: Six, q: Six, r: Six, t: Six, rest: seq<Six>)
    requires SpareBitsZero(rest)
    ensures SpareBitsZero([p, q, r, t] + rest)
  {
  }

  // ----- Sextets and symbols -----

  lemma SymbolsAreValues(v: seq<Six>)
    ensures AllInAlphabet(Symbols(v)) && Values(Symbols(v)) == v
  {
    forall i | 0 <= i < |v| ensures InAlphabet(Symbol(v[i])) && Sextet(Symbol(v[i])) == v[i] {
    }
  }

  lemma ValuesAreSymbols(s: string)
    requires AllInAlphabet(s)
    ensures Symbols(Values(s)) == s
  {
    forall i | 0 <= i < |s| ensures Symbol(Sextet(s[i])) == s[i] {
      assert InAlphabet(s[i]);
    }
  }

  lemma CoreShape(b: seq<byte>)
    ensures AllInAlphabet(Core(b))
    ensures |Core(b)| == |b| / 3 * 4 + (if |b| % 3 == 0 then 0 else |b| % 3 + 1)
  {
    SextetCount(b);
    SymbolsAreValues(Sextets(b));
  }

  // ----- Alphabets and padding -----

  /** No symbol is whitespace or padding, and the url alphabet swaps two. */
  function ToUrl(s: string): string {
    Replaced(Replaced(s, '+', '-'), '/', '_')
  }

  function FromUrl(s: string): string {
    Replaced(Replaced(s, '-', '+'), '_', '/')
  }

  lemma {:induction false} NothingToStrip(s: string)
    requires forall i :: 0 <= i < |s| ==> !IsAsciiWhitespace(s[i])
    ensures WithoutWhitespace(s) == s
  {
    if s != [] {
      NothingToStrip(s[1..]);
    }
  }

  lemma {:induction false} PaddingStripped(s: string, k: nat)
    requires s == [] || s[|s| - 1] != '='
    ensures StripPadding(s + Padding(k)) == s
  {
    var t := s + Padding(k);
    if k > 0 {
      assert t[..|t| - 1] == s + Padding(k - 1);
      PaddingStripped(s, k - 1);
    } else {
      assert t == s;
    }
  }

  function Padding(k: nat): string {
    seq(k, i => '=')
  }

  lemma PaddingLength(n: nat, length: nat)
    requires length == n / 3 * 4 + (if n % 3 == 0 then 0 else n % 3 + 1)
    ensures (length + 3) / 4 * 4 - length == (3 - n % 3) % 3
    ensures length % 4 != 1
  {
    var (q, r) := (n / 3, n % 3);
    if r == 0 {
      assert length == 4 * q && (length + 3) / 4 == q;
    } else {
      assert length == 4 * q + (r + 1) && (length + 3) / 4 == q + 1;
    }
  }

  /** Padding as `btoa` writes it is padding as `padEnd` restores it. */
  lemma PaddingRestored(b: seq<byte>)
    ensures |Core(b)| % 4 != 1
    ensures Btoa(b) == PadEnd(Core(b), (|Core(b)| + 3) / 4 * 4)
    ensures Btoa(b) == Core(b) + Padding((3 - |b| % 3) % 3)
  {
    CoreShape(b);
    PaddingLength(|b|, |Core(b)|);
    assert Padding(0) == "" && Padding(1) == "=" && Padding(2) == "==";
    PadEndIs(Core(b), (3 - |b| % 3) % 3, (|Core(b)| + 3) / 4 * 4);
  }

  lemma PadEndIs(s: string, k: nat, length: nat)
    requires length == |s| + k
    ensures PadEnd(s, length) == s + Padding(k)
  {
  }

  lemma ToUrlPadded(s: string, k: nat)
    ensures ToUrl(s + Padding(k)) == ToUrl(s) + Padding(k)
  {
  }

  lemma EncodedIsUrlCore(b: seq<byte>)
    ensures Encoded(b) == ToUrl(Core(b))
  {
    CoreShape(b);
    PaddingRestored(b);
    var k := (3 - |b| % 3) % 3;
    ToUrlPadded(Core(b), k);
    ToUrlAlphabet(Core(b));
    PaddingStripped(ToUrl(Core(b)), k);
  }

  lemma ToUrlAlphabet(s: string)
    requires AllInAlphabet(s)
    ensures UrlSafe(ToUrl(s)) && FromUrl(ToUrl(s)) == s && |ToUrl(s)| == |s|
    ensures s != [] ==> ToUrl(s)[|s| - 1] != '='
  {
    assert forall i :: 0 <= i < |s| ==> InAlphabet(s[i]);
  }

  lemma NoWhitespace(s: string, k: nat)
    requires AllInAlphabet(s)
    ensures WithoutWhitespace(s + Padding(k)) == s + Padding(k)
  {
    var padded := s + Padding(k);
    forall i | 0 <= i < |padded| ensures !IsAsciiWhitespace(padded[i]) {
      assert i < |s| ==> InAlphabet(s[i]);
    }
    NothingToStrip(padded);
  }

  lemma PaddingRemoved(s: string, k: nat)
    requires k <= 2 && (|s| + k) % 4 == 0 && (s != [] ==> s[|s| - 1] != '=')
    ensures WithoutPadding(s + Padding(k)) == s
  {
    var padded := s + Padding(k);
    assert padded[..|s|] == s;
    if k == 0 {
      assert padded == s;
    }
  }

  lemma AtobPadded(s: string)
    requires AllInAlphabet(s) && |s| % 4 != 1
    ensures Atob(PadEnd(s, (|s| + 3) / 4 * 4)) == Some(Bytes(Values(s)))
  {
    var k := (|s| + 3) / 4 * 4 - |s|;
    PadEndIs(s, k, (|s| + 3) / 4 * 4);
    NoWhitespace(s, k);
    assert s != [] ==> InAlphabet(s[|s| - 1]);
    PaddingRemoved(s, k);
  }

  // ----- The round trips -----

  /** Every byte sequence survives encoding and decoding. */
  lemma DecodeEncode(b: seq<byte>)
    ensures Decode(Encoded(b)) == Some(b)
  {
    CoreShape(b);
    PaddingRestored(b);
    EncodedIsUrlCore(b);
    ToUrlAlphabet(Core(b));
    AtobPadded(Core(b));
    SymbolsAreValues(Sextets(b));
    BytesOfSextets(b);
  }

  predicate UrlSafe(s: string) {
    forall i :: 0 <= i < |s| ==> (InAlphabet(s[i]) && s[i] != '+' && s[i] != '/') || s[i] == '-' || s[i] == '_'
  }

  /** The strings `encode` can write: url alphabet, a possible length, and no
      stray bits after the last byte. */
  predicate Canonical(v: string) {
    UrlSafe(v) && |v| % 4 != 1 && SpareBitsZero(Values(FromUrl(v)))
  }

  lemma EncodedIsCanonical(b: seq<byte>)
    ensures Canonical(Encoded(b))
  {
    CoreShape(b);
    PaddingRestored(b);
    EncodedIsUrlCore(b);
    ToUrlAlphabet(Core(b));
    SymbolsAreValues(Sextets(b));
    SextetsSpareBits(b);
  }

  lemma FromUrlSafe(v: string)
    requires UrlSafe(v)
    ensures AllInAlphabet(FromUrl(v)) && ToUrl(FromUrl(v)) == v && |FromUrl(v)| == |v|
  {
  }

  lemma CanonicalDecodes(v: string)
    requires Canonical(v)
    ensures Decode(v).Some? && Encoded(Decode(v).value) == v
  {
    var s := FromUrl(v);
    FromUrlSafe(v);
    AtobPadded(s);
    SextetsOfBytes(Values(s));
    ValuesAreSymbols(s);
    EncodedIsUrlCore(Bytes(Values(s)));
  }

  /** A string decodes to bytes that encode back to it exactly when it is
      canonical. */
  lemma EncodeDecode(v: string)
    ensures Canonical(v) <==> Decode(v).Some? && Encoded(Decode(v).value) == v
  {
    if Canonical(v) {
      CanonicalDecodes(v);
    } else if Decode(v).Some? {
      EncodedIsCanonical(Decode(v).value);
    }
  }

  // ----- The encoding, bit by bit -----

  /** The character of a value in the url alphabet (table 2 of RFC 4648). */
  predicate Stands(c: char, n: int) {
    || (0 <= n < 26 && c as int == 'A' as int + n)
    || (26 <= n < 52 && c as int == 'a' as int + n - 26)
    || (52 <= n < 62 && c as int == '0' as int + n - 52)
    || (n == 62 && c == '-')
    || (n == 63 && c == '_')
  }

  function ByteAt(b: seq<byte>, i: nat): int {
    if i < |b| then b[i] else 0
  }

  /** The 24 bits of three bytes, with zero bits past the end. */
  function Group(b: seq<byte>, q: nat): int {
    65536 * ByteAt(b, 3 * q) + 256 * ByteAt(b, 3 * q + 1) + ByteAt(b, 3 * q + 2)
  }

  /** Six bits of a group, from the highest ones down. */
  function SixBits(group: int, r: nat): int
    requires r < 4
  {
    group / (if r == 0 then 262144 else if r == 1 then 4096 else if r == 2 then 64 else 1) % 64
  }

  lemma DigitsOfGroup(a: int, b: int, c: int, d: int)
    requires 0 <= a < 64 && 0 <= b < 64 && 0 <= c < 64 && 0 <= d < 64
    ensures var n := 262144 * a + 4096 * b + 64 * c + d;
            SixBits(n, 0) == a && SixBits(n, 1) == b && SixBits(n, 2) == c && SixBits(n, 3) == d
  {
    var n := 262144 * a + 4096 * b + 64 * c + d;
    assert n / 64 == 4096 * a + 64 * b + c;
    assert n / 4096 == 64 * a + b;
    assert n / 262144 == a;
  }

  lemma SplitIsSixBits(x: byte, y: byte, z: byte)
    ensures var ((a, b, c, d), n) := (Split(x, y, z), 65536 * x + 256 * y + z);
            a as int == SixBits(n, 0) && b as int == SixBits(n, 1) && c as int == SixBits(n, 2) && d as int == SixBits(n, 3)
  {
    var (a, b, c, d) := Split(x, y, z);
    assert 65536 * x + 256 * y + z == 262144 * a as int + 4096 * b as int + 64 * c as int + d as int;
    DigitsOfGroup(a as int, b as int, c as int, d as int);
  }

  lemma {:induction false} SextetIsSixBits(b: seq<byte>, q: nat, r: nat)
    requires r < 4 && 4 * q + r < |Sextets(b)|
    ensures Sextets(b)[4 * q + r] as int == SixBits(Group(b, q), r)
    decreases q
  {
    hide Split, SixBits;
    if q == 0 {
      SplitIsSixBits(ByteAt(b, 0), ByteAt(b, 1), ByteAt(b, 2));
    } else {
      SextetIsSixBits(b[3..], q - 1, r);
      assert Group(b[3..], q - 1) == Group(b, q);
    }
  }

  lemma UrlSymbol(v: Six)
    ensures Stands(ToUrl([Symbol(v)])[0], v as int)
  {
  }

  /** The encoding is the bytes' bits, six at a time, in the url alphabet: as
      many characters as hold all the bits, and no padding. */
  lemma EncodedIsBits(b: seq<byte>)
    ensures |Encoded(b)| == (8 * |b| + 5) / 6
    ensures forall q: nat, r: nat :: r < 4 && 4 * q + r < |Encoded(b)| ==>
              Stands(Encoded(b)[4 * q + r], SixBits(Group(b, q), r))
  {
    EncodedIsUrlCore(b);
    CoreShape(b);
    ToUrlAlphabet(Core(b));
    hide SixBits, Group, Sextets, Symbol, Stands;
    forall q: nat, r: nat | r < 4 && 4 * q + r < |Encoded(b)|
      ensures Stands(Encoded(b)[4 * q + r], SixBits(Group(b, q), r))
    {
      var v := Sextets(b)[4 * q + r];
      SextetIsSixBits(b, q, r);
      UrlSymbol(v);
      assert Core(b)[4 * q + r] == Symbol(v) && Encoded(b)[4 * q + r] == ToUrl([Symbol(v)])[0];
    }
  }

  // ----- What does not decode -----

  /** A character of either alphabet, by its code. */
  predicate IsSymbol(c: char) {
    65 <= c as int <= 90 || 97 <= c as int <= 122 || 48 <= c as int <= 57 || c in {'+', '/', '-', '_'}
  }

  lemma SymbolIsInAlphabet(v: string, i: nat)
    requires i < |v|
    ensures |FromUrl(v)| == |v| && (InAlphabet(FromUrl(v)[i]) <==> IsSymbol(v[i]))
    ensures FromUrl(v)[i] == '=' <==> v[i] == '='
    ensures IsAsciiWhitespace(FromUrl(v)[i]) <==> IsAsciiWhitespace(v[i])
  {
  }

  /** Without padding and white space of its own, a string fails to decode
      exactly when it has a character of neither alphabet, or a length that no
      number of bytes has. */
  lemma DecodeFailsWhen(v: string)
    requires forall i :: 0 <= i < |v| ==> v[i] != '=' && !IsAsciiWhitespace(v[i])
    ensures Decode(v).None? <==> |v| % 4 == 1 || exists i :: 0 <= i < |v| && !IsSymbol(v[i])
  {
    var s := FromUrl(v);
    forall i | 0 <= i < |v|
      ensures InAlphabet(s[i]) <==> IsSymbol(v[i])
      ensures s[i] != '=' && !IsAsciiWhitespace(s[i])
    {
      SymbolIsInAlphabet(v, i);
    }
    var k := (|s| + 3) / 4 * 4 - |s|;
    var padded := s + Padding(k);
    PadEndIs(s, k, |s| + k);
    NothingToStrip(padded);
    assert forall i :: 0 <= i < |v| ==> InAlphabet(s[i]) == IsSymbol(v[i]);
    hide FromUrl, InAlphabet, IsSymbol, Bytes, Values, WithoutWhitespace, IsAsciiWhitespace;
    if |s| % 4 == 1 {
      OneTooMany(s);
    } else {
      PaddingRemoved(s, k);
    }
  }

  /** A length with one symbol too many keeps one of its three padding signs. */
  lemma OneTooMany(s: string)
    requires |s| % 4 == 1
    ensures var d := WithoutPadding(s + Padding(3)); |d| == |s| + 1 && d[|s|] == '=' && !AllInAlphabet(d)
  {
    var padded := s + Padding(3);
    assert Padding(3) == "===" && |padded| % 4 == 0;
    assert WithoutPadding(padded) == padded[..|padded| - 2];
    PadIsNoSymbol();
    hide InAlphabet;
  }

  lemma PadIsNoSymbol()
    ensures !InAlphabet('=')
  {
  }
}
