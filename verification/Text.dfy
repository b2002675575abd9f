/** Text as the programs see it: ASCII strings, one character a byte. */
module Text {

  datatype Option<+T> = None | Some(value: T)

  /** Some element of a set, for loops in no particular order. */
  method AnyOf<T>(s: set<T>) returns (x: T)
    requires s != {}
    ensures x in s
  {
    x :| x in s;
  }

  type byte = x: int | 0 <= x < 256

  lemma Associates<T>(a: seq<T>, b: seq<T>, c: seq<T>)
    ensures (a + b) + c == a + (b + c)
  {
  }

  predicate IsDigit(c: char) {
    '0' <= c <= '9'
  }

  predicate AllDigits(s: string) {
    forall i :: 0 <= i < |s| ==> IsDigit(s[i])
  }

  predicate IsSpace(c: char) {
    c == ' ' || (9 as char) <= c <= (13 as char)
  }

  function DigitChar(n: int): (c: char)
    requires 0 <= n < 10
    ensures IsDigit(c) && DigitValue(c) == n
  {
    ('0' as int + n) as char
  }

  function DigitValue(c: char): int {
    c as int - '0' as int
  }

  /** The number a digit string spells. */
  function Number(s: string): int {
    if s == [] then 0 else 10 * Number(s[..|s| - 1]) + DigitValue(s[|s| - 1])
  }

  function Digits(n: nat): string {
    if n < 10 then [DigitChar(n)] else Digits(n / 10) + [DigitChar(n % 10)]
  }

  function Zeros(n: nat): string {
    seq(n, i => '0')
  }

  /** Zero-padded decimal, the sign counting towards the width. */
  function Pad(n: int, width: nat): string {
    if n >= 0 then PadNat(n, width)
    else "-" + PadNat(-n, if width > 0 then width - 1 else 0)
  }

  function PadNat(n: nat, width: nat): string {
    var d := Digits(n);
    if |d| < width then Zeros(width - |d|) + d else d
  }

  function TrimStart(s: string): string {
    if s != [] && IsSpace(s[0]) then TrimStart(s[1..]) else s
  }

  function TrimEnd(s: string): string {
    if s != [] && IsSpace(s[|s| - 1]) then TrimEnd(s[..|s| - 1]) else s
  }

  function Trim(s: string): string {
    TrimEnd(TrimStart(s))
  }

  /** Byte-wise string order: Rust's `str` order and SQLite's default collation. */
  predicate LexLess(a: string, b: string) {
    b != [] && (a == [] || a[0] < b[0] || (a[0] == b[0] && LexLess(a[1..], b[1..])))
  }

  // ----- Trimming -----

  lemma {:induction false} TrimmedIsFixed(s: string)
    requires s == [] || (!IsSpace(s[0]) && !IsSpace(s[|s| - 1]))
    ensures Trim(s) == s
  {
  }

  /** What trimming leaves has no space at either end. */
  lemma {:induction false} TrimEnds(s: string)
    ensures Trim(s) == [] || (!IsSpace(Trim(s)[0]) && !IsSpace(Trim(s)[|Trim(s)| - 1]))
  {
    TrimStartHead(s);
    TrimEndTail(TrimStart(s));
  }

  lemma {:induction false} TrimStartHead(s: string)
    ensures TrimStart(s) != [] ==> !IsSpace(TrimStart(s)[0])
  {
    if s != [] && IsSpace(s[0]) {
      TrimStartHead(s[1..]);
    }
  }

  lemma {:induction false} TrimEndTail(s: string)
    ensures TrimEnd(s) <= s
    ensures TrimEnd(s) != [] ==> !IsSpace(TrimEnd(s)[|TrimEnd(s)| - 1])
  {
    if s != [] && IsSpace(s[|s| - 1]) {
      TrimEndTail(s[..|s| - 1]);
    }
  }

  // ----- Numbers -----

  lemma {:induction false} DigitsSpell(n: nat)
    ensures AllDigits(Digits(n)) && Number(Digits(n)) == n
    ensures n < 10 ==> |Digits(n)| == 1
    ensures 10 <= n < 100 ==> |Digits(n)| == 2
    ensures 100 <= n < 1000 ==> |Digits(n)| == 3
    ensures 1000 <= n < 10000 ==> |Digits(n)| == 4
  {
    if n >= 10 {
      DigitsSpell(n / 10);
      var d := Digits(n);
      assert d[..|d| - 1] == Digits(n / 10);
    }
  }

  lemma {:induction false} LeadingZeros(k: nat, s: string)
    ensures Number(Zeros(k) + s) == Number(s)
  {
    if s != [] {
      var t := Zeros(k) + s;
      assert t[..|t| - 1] == Zeros(k) + s[..|s| - 1];
      LeadingZeros(k, s[..|s| - 1]);
    } else if k > 0 {
      var t := Zeros(k) + s;
      assert t[..|t| - 1] == Zeros(k - 1) + s;
      LeadingZeros(k - 1, s);
    }
  }

  lemma ZeroPad(d: string, width: nat)
    requires AllDigits(d)
    ensures var p := if |d| < width then Zeros(width - |d|) + d else d;
            && AllDigits(p) && Number(p) == Number(d)
            && |p| == if |d| < width then width else |d|
  {
    if |d| < width {
      LeadingZeros(width - |d|, d);
    }
  }

  /** A padded number keeps its value, and fits the width it is padded to. */
  lemma PadSpells(n: nat, width: nat)
    ensures AllDigits(PadNat(n, width)) && Number(PadNat(n, width)) == n
    ensures width == 2 && n < 100 ==> |PadNat(n, width)| == 2
    ensures width == 3 && n < 1000 ==> |PadNat(n, width)| == 3
    ensures width == 4 && n < 10000 ==> |PadNat(n, width)| == 4
  {
    hide Number, Digits, Zeros;
    DigitsSpell(n);
    ZeroPad(Digits(n), width);
  }

  /** Digits bound the number they spell. */
  lemma {:induction false} NumberBounds(s: string)
    requires AllDigits(s) && |s| <= 4
    ensures 0 <= Number(s)
    ensures |s| <= 2 ==> Number(s) < 100
    ensures |s| <= 3 ==> Number(s) < 1000
    ensures Number(s) < 10000
    ensures |s| == 0 ==> Number(s) == 0
    ensures |s| == 1 ==> Number(s) < 10
  {
    if s != [] {
      NumberBounds(s[..|s| - 1]);
    }
  }

  // ----- Order -----

  lemma {:induction false} LexTotal(a: string, b: string)
    ensures LexLess(a, b) || a == b || LexLess(b, a)
    ensures !(LexLess(a, b) && LexLess(b, a)) && !LexLess(a, a)
  {
    if a != [] && b != [] {
      LexTotal(a[1..], b[1..]);
      assert a == [a[0]] + a[1..] && b == [b[0]] + b[1..];
    }
    if a != [] {
      LexTotal(a[1..], a[1..]);
    }
  }

  /** With first parts of equal length, the first parts decide before the rest. */
  lemma {:induction false} LexBlocks(x: string, x': string, y: string, y': string)
    requires |x| == |y|
    ensures LexLess(x + x', y + y') <==> LexLess(x, y) || (x == y && LexLess(x', y'))
  {
    if x == [] {
      assert x + x' == x' && y + y' == y';
    } else {
      assert (x + x')[1..] == x[1..] + x' && (y + y')[1..] == y[1..] + y';
      LexBlocks(x[1..], x', y[1..], y');
      assert x == [x[0]] + x[1..] && y == [y[0]] + y[1..];
    }
  }

  /** Digit strings of one length are ordered as the numbers they spell. */
  lemma {:induction false} DigitsOrder(x: string, y: string)
    requires |x| == |y| && AllDigits(x) && AllDigits(y)
    ensures LexLess(x, y) <==> Number(x) < Number(y)
    ensures x == y <==> Number(x) == Number(y)
  {
    if x != [] {
      var n := |x| - 1;
      DigitsOrder(x[..n], y[..n]);
      LexBlocks(x[..n], x[n..], y[..n], y[n..]);
      assert x[..n] + x[n..] == x && y[..n] + y[n..] == y;
      assert x[n..] == [x[n]] && y[n..] == [y[n]];
      assert x[n] < y[n] <==> DigitValue(x[n]) < DigitValue(y[n]);
      assert x[n] == y[n] <==> DigitValue(x[n]) == DigitValue(y[n]);
    }
  }

  /** Trimming cuts white space off both ends and nothing else. */
  lemma TrimMeans(s: string) returns (i: nat, j: nat)
    ensures i <= j <= |s| && Trim(s) == s[i..j]
    ensures forall k :: 0 <= k < i || j <= k < |s| ==> s[k] as int in {9, 10, 11, 12, 13, 32}
    ensures i < j ==> s[i] as int !in {9, 10, 11, 12, 13, 32} && s[j - 1] as int !in {9, 10, 11, 12, 13, 32}
  {
    var started := TrimStart(s);
    i := StartMeans(s);
    var n := EndMeans(started);
    j := i + n;
    assert started == s[i..] && forall k :: n <= k < |started| ==> started[k] == s[i + k];
    forall k | 0 <= k < i || j <= k < |s|
      ensures s[k] as int in {9, 10, 11, 12, 13, 32}
    {
      if k >= j {
        assert started[k - i] == s[k];
      }
    }
  }

  lemma {:induction false} StartMeans(s: string) returns (i: nat)
    ensures i <= |s| && TrimStart(s) == s[i..]
    ensures forall k :: 0 <= k < i ==> s[k] as int in {9, 10, 11, 12, 13, 32}
    ensures i < |s| ==> s[i] as int !in {9, 10, 11, 12, 13, 32}
  {
    i := 0;
    if s != [] && IsSpace(s[0]) {
      var rest := StartMeans(s[1..]);
      i := rest + 1;
    }
  }

  lemma {:induction false} EndMeans(s: string) returns (n: nat)
    ensures n <= |s| && TrimEnd(s) == s[..n]
    ensures forall k :: n <= k < |s| ==> s[k] as int in {9, 10, 11, 12, 13, 32}
    ensures n > 0 ==> s[n - 1] as int !in {9, 10, 11, 12, 13, 32}
  {
    n := |s|;
    if s != [] && IsSpace(s[|s| - 1]) {
      n := EndMeans(s[..|s| - 1]);
    }
  }
}
