/** RFC 3339 instants (section 5.6) and capture IDs, from server/src/capture.rs,
    and the two listing orders that rely on them. Text is ASCII. */
module Timestamps {
  import opened Text
  import opened Calendar

  const MIN_YEAR := 2020

  // ----- Formatting and parsing -----

  function FormatCivil(c: Civil): string {
    Pad(c.year, 4) + "-" + Pad(c.month, 2) + "-" + Pad(c.day, 2) + "T"
    + Pad(c.hour, 2) + ":" + Pad(c.minute, 2) + ":" + Pad(c.second, 2) + "Z"
  }

  /** Rust's integer parser: one optional sign, then digits. Only a signed type
      takes a minus. */
  function ParseInteger(s: string, signed: bool): Option<int> {
    if |s| >= 2 && s[0] == '+' then ParseDigits(s[1..])
    else if |s| >= 2 && s[0] == '-' && signed then
      match ParseDigits(s[1..])
      case Some(n) => Some(-n)
      case None => None
    else ParseDigits(s)
  }

  function ParseDigits(s: string): Option<int> {
    if s != [] && AllDigits(s) then Some(Number(s)) else None
  }

  function DigitRun(s: string): nat {
    if s != [] && IsDigit(s[0]) then 1 + DigitRun(s[1..]) else 0
  }

  lemma {:induction false} DigitRunFits(s: string)
    ensures DigitRun(s) <= |s|
  {
    if s != [] && IsDigit(s[0]) {
      DigitRunFits(s[1..]);
    }
  }

  function DropFraction(tail: string): string {
    if tail != [] && tail[0] == '.' then
      DigitRunFits(tail[1..]);
      tail[1..][DigitRun(tail[1..])..]
    else tail
  }

  predicate IsUtcSuffix(tail: string) {
    tail == "Z" || tail == "z" || tail == "+00:00" || tail == "-00:00"
  }

  predicate FieldsInRange(c: Civil) {
    && 1 <= c.month <= 12 && 1 <= c.day <= 31
    && 0 <= c.hour <= 23 && 0 <= c.minute <= 59 && 0 <= c.second <= 60
  }

  function ParseRfc3339(v: string): Option<Civil> {
    if |v| < 20 || v[4] != '-' || v[7] != '-' then None
    else if !(v[10] == 'T' || v[10] == 't' || v[10] == ' ') || v[13] != ':' || v[16] != ':' then None
    else if !IsUtcSuffix(DropFraction(v[19..])) then None
    else
      match (ParseInteger(v[0..4], true), ParseInteger(v[5..7], false), ParseInteger(v[8..10], false),
             ParseInteger(v[11..13], false), ParseInteger(v[14..16], false), ParseInteger(v[17..19], false))
      case (Some(year), Some(month), Some(day), Some(hour), Some(minute), Some(second)) =>
        var c := Civil(year, month, day, hour, minute, second);
        if FieldsInRange(c) then Some(c) else None
      case _ => None
  }

  /** The years a four-character field can spell. */
  predicate FourCharacterYear(c: Civil) {
    -999 <= c.year <= 9999
  }

  lemma ParseDigitsBounds(s: string)
    requires |s| <= 4
    ensures var r := ParseDigits(s);
            r.Some? ==> 0 <= r.value <= 9999 && (|s| <= 3 ==> r.value <= 999)
  {
    if AllDigits(s) {
      NumberBounds(s);
    }
  }

  lemma ParseIntegerBounds(s: string, signed: bool)
    requires |s| <= 4
    ensures var r := ParseInteger(s, signed);
            r.Some? ==> -999 <= r.value <= 9999 && (!signed ==> r.value >= 0)
  {
    ParseDigitsBounds(s);
    if s != [] {
      ParseDigitsBounds(s[1..]);
    }
  }

  lemma ParsedYear(v: string)
    ensures ParseRfc3339(v).Some? ==> FourCharacterYear(ParseRfc3339(v).value)
    ensures ParseRfc3339(v).Some? ==> FieldsInRange(ParseRfc3339(v).value)
  {
    if |v| >= 20 {
      ParseIntegerBounds(v[0..4], true);
    }
  }

  lemma PadYear(year: int)
    requires -999 <= year <= 9999
    ensures |Pad(year, 4)| == 4 && ParseInteger(Pad(year, 4), true) == Some(year)
  {
    if year >= 0 {
      PadSpells(year, 4);
      assert IsDigit(Pad(year, 4)[0]);
    } else {
      PadSpells(-year, 3);
      assert Pad(year, 4)[1..] == PadNat(-year, 3);
    }
  }

  lemma PadField(n: nat)
    requires n < 100
    ensures |Pad(n, 2)| == 2 && ParseInteger(Pad(n, 2), false) == Some(n)
  {
    PadSpells(n, 2);
    assert IsDigit(Pad(n, 2)[0]);
  }

  lemma Middle(v: string, before: string, x: string, after: string)
    requires v == before + x + after
    ensures v[|before|..|before| + |x|] == x
  {
  }

  /** The twenty characters of an instant whose fields have their usual widths. */
  lemma Layout(y: string, mo: string, d: string, h: string, mi: string, s: string)
    requires |y| == 4 && |mo| == |d| == |h| == |mi| == |s| == 2
    ensures var v := y + "-" + mo + "-" + d + "T" + h + ":" + mi + ":" + s + "Z";
            && |v| == 20 && v[4] == '-' && v[7] == '-' && v[10] == 'T' && v[13] == ':' && v[16] == ':'
            && v[0..4] == y && v[5..7] == mo && v[8..10] == d
            && v[11..13] == h && v[14..16] == mi && v[17..19] == s && v[19..] == "Z"
  {
    var v := y + "-" + mo + "-" + d + "T" + h + ":" + mi + ":" + s + "Z";
    var date := y + "-" + mo + "-" + d + "T";
    var time := h + ":" + mi + ":" + s + "Z";
    DateLayout(y, mo, d);
    TimeLayout(h, mi, s);
    assert v == date + time;
    Shifted(v, date, time);
  }

  lemma Shifted(v: string, date: string, time: string)
    requires v == date + time && |date| == 11 && |time| == 9
    ensures v[0..4] == date[0..4] && v[5..7] == date[5..7] && v[8..10] == date[8..10]
    ensures v[11..13] == time[0..2] && v[14..16] == time[3..5] && v[17..19] == time[6..8] && v[19..] == time[8..]
  {
  }

  lemma DateLayout(y: string, mo: string, d: string)
    requires |y| == 4 && |mo| == |d| == 2
    ensures var v := y + "-" + mo + "-" + d + "T";
            && |v| == 11 && v[4] == '-' && v[7] == '-' && v[10] == 'T'
            && v[0..4] == y && v[5..7] == mo && v[8..10] == d
  {
    var v := y + "-" + mo + "-" + d + "T";
    Middle(v, y + "-", mo, "-" + d + "T");
    Middle(v, y + "-" + mo + "-", d, "T");
  }

  lemma TimeLayout(h: string, mi: string, s: string)
    requires |h| == |mi| == |s| == 2
    ensures var v := h + ":" + mi + ":" + s + "Z";
            && |v| == 9 && v[2] == ':' && v[5] == ':'
            && v[0..2] == h && v[3..5] == mi && v[6..8] == s && v[8..] == "Z"
  {
    var v := h + ":" + mi + ":" + s + "Z";
    Middle(v, h + ":", mi, ":" + s + "Z");
    Middle(v, h + ":" + mi + ":", s, "Z");
  }

  /** What the server writes, it reads back: exactly the civil tuples with
      in-range fields and a year of at most four characters survive. */
  lemma FormatParses(c: Civil)
    ensures ParseRfc3339(FormatCivil(c)) == Some(c) <==> FieldsInRange(c) && FourCharacterYear(c)
  {
    if FieldsInRange(c) && FourCharacterYear(c) {
      PadYear(c.year);
      PadField(c.month);
      PadField(c.day);
      PadField(c.hour);
      PadField(c.minute);
      PadField(c.second);
      Layout(Pad(c.year, 4), Pad(c.month, 2), Pad(c.day, 2), Pad(c.hour, 2), Pad(c.minute, 2), Pad(c.second, 2));
    } else {
      ParsedYear(FormatCivil(c));
    }
  }

  // ----- Timestamp normalisation -----

  datatype Plausible = Malformed | Dropped | Kept(text: string)

  function MaxYear(now: int): int {
    CivilFromUnix(now + 24 * 60 * 60).year
  }

  function PlausibleTimestamp(value: string, now: int): Plausible {
    match ParseRfc3339(Trim(value))
    case None => Malformed
    case Some(c) => if c.year < MIN_YEAR || c.year > MaxYear(now) then Dropped else Kept(FormatCivil(c))
  }

  lemma FormatIsTrimmed(c: Civil)
    requires FourCharacterYear(c)
    ensures Trim(FormatCivil(c)) == FormatCivil(c)
  {
    PadYear(c.year);
    PadSpells(if c.year < 0 then -c.year else c.year, if c.year < 0 then 3 else 4);
    var text := FormatCivil(c);
    assert text[0] == Pad(c.year, 4)[0] && !IsSpace(text[0]) && text[|text| - 1] == 'Z';
    TrimmedIsFixed(text);
  }

  /** The server's own text is kept as it is, exactly in the plausible years. */
  lemma NormalFormsAreKept(c: Civil, now: int)
    requires FieldsInRange(c) && FourCharacterYear(c)
    ensures PlausibleTimestamp(FormatCivil(c), now)
         == if MIN_YEAR <= c.year <= MaxYear(now) then Kept(FormatCivil(c)) else Dropped
  {
    FormatIsTrimmed(c);
    FormatParses(c);
  }

  /** Normalising is idempotent under one clock, and keeps the civil fields. */
  lemma NormalisationIdempotent(value: string, now: int)
    requires PlausibleTimestamp(value, now).Kept?
    ensures var kept := PlausibleTimestamp(value, now).text;
            && PlausibleTimestamp(kept, now) == Kept(kept)
            && ParseRfc3339(kept) == ParseRfc3339(Trim(value))
  {
    var c := ParseRfc3339(Trim(value)).value;
    ParsedYear(Trim(value));
    FormatParses(c);
    NormalFormsAreKept(c, now);
  }

  /** Some second count denotes the tuple. */
  ghost predicate IsInstant(c: Civil) {
    exists s: int :: CivilFromUnix(s) == c
  }

  /** Of the tuples the parser's range test lets through, exactly these denote
      an instant: it checks days against 31 and seconds against 60. */
  lemma InstantsInRange(c: Civil)
    requires FieldsInRange(c)
    ensures IsInstant(c) <==> c.second < 60 && c.day <= MonthLength(c.year, c.month)
  {
    if c.second < 60 && c.day <= MonthLength(c.year, c.month) {
      UnixFromCivilInverts(c);
      assert CivilFromUnix(UnixFromCivil(c)) == c;
    } else if s: int :| CivilFromUnix(s) == c {
      CivilFromUnixInverts(s);
    }
  }

  /** A kept timestamp denotes an instant exactly when its second is below 60
      and its day is one its month has. */
  lemma KeptInstants(value: string, now: int)
    requires PlausibleTimestamp(value, now).Kept?
    ensures var c := ParseRfc3339(Trim(value)).value;
            IsInstant(c) <==> c.second < 60 && c.day <= MonthLength(c.year, c.month)
  {
    ParsedYear(Trim(value));
    InstantsInRange(ParseRfc3339(Trim(value)).value);
  }

  /** The thirty-first of February is kept. */
  lemma ImpossibleDayIsKept(now: int)
    requires 2026 <= MaxYear(now)
    ensures var c := Civil(2026, 2, 31, 0, 0, 0);
            PlausibleTimestamp(FormatCivil(c), now) == Kept(FormatCivil(c)) && !IsInstant(c)
  {
    NormalFormsAreKept(Civil(2026, 2, 31, 0, 0, 0), now);
    InstantsInRange(Civil(2026, 2, 31, 0, 0, 0));
  }

  /** So is a second 60 at noon. */
  lemma SecondSixtyIsKept(now: int)
    requires 2026 <= MaxYear(now)
    ensures var c := Civil(2026, 1, 1, 12, 0, 60);
            PlausibleTimestamp(FormatCivil(c), now) == Kept(FormatCivil(c)) && !IsInstant(c)
  {
    NormalFormsAreKept(Civil(2026, 1, 1, 12, 0, 60), now);
    InstantsInRange(Civil(2026, 1, 1, 12, 0, 60));
  }

  // ----- Capture IDs -----

  datatype IdVerdict = Accepted | Refused | Implausible

  predicate IsLowerHex(c: char) {
    IsDigit(c) || 'a' <= c <= 'f'
  }

  predicate IdShape(id: string) {
    && |id| == 25 && id[8] == 'T' && id[15] == 'Z' && id[16] == '-'
    && AllDigits(id[0..8] + id[9..15])
    && forall i :: 17 <= i < |id| ==> IsLowerHex(id[i])
  }

  /** The prefix of an ID rewritten as an instant; catalog rows store this. */
  function IdToTimestamp(id: string): string {
    if |id| >= 16 then
      id[0..4] + "-" + id[4..6] + "-" + id[6..8] + "T" + id[9..11] + ":" + id[11..13] + ":" + id[13..15] + "Z"
    else id
  }

  function ValidateCaptureId(id: string, now: int): IdVerdict {
    if !IdShape(id) then Refused
    else match ParseRfc3339(IdToTimestamp(id))
      case None => Refused
      case Some(c) => if c.year < MIN_YEAR || c.year > MaxYear(now) then Implausible else Accepted
  }

  /** The civil tuple the digits of an ID spell. */
  function IdCivil(id: string): Civil
    requires IdShape(id)
  {
    Civil(Number(id[0..4]), Number(id[4..6]), Number(id[6..8]),
          Number(id[9..11]), Number(id[11..13]), Number(id[13..15]))
  }

  lemma IdDigits(id: string)
    requires IdShape(id)
    ensures AllDigits(id[0..4]) && AllDigits(id[4..6]) && AllDigits(id[6..8])
    ensures AllDigits(id[9..11]) && AllDigits(id[11..13]) && AllDigits(id[13..15])
  {
    var d := id[0..8] + id[9..15];
    assert forall i :: 0 <= i < 8 ==> id[i] == d[i];
    assert forall i :: 9 <= i < 15 ==> id[i] == d[i - 1];
  }

  lemma PlainDigits(s: string, signed: bool)
    requires s != [] && AllDigits(s)
    ensures ParseInteger(s, signed) == Some(Number(s))
  {
    assert IsDigit(s[0]);
  }

  /** A shaped ID parses to the tuple its digits spell, if the fields are in
      range, and its timestamp is that tuple's own text. */
  lemma ShapedIdParses(id: string)
    requires IdShape(id)
    ensures ParseRfc3339(IdToTimestamp(id))
         == if FieldsInRange(IdCivil(id)) then Some(IdCivil(id)) else None
  {
    IdDigits(id);
    Layout(id[0..4], id[4..6], id[6..8], id[9..11], id[11..13], id[13..15]);
    PlainDigits(id[0..4], true);
    PlainDigits(id[4..6], false);
    PlainDigits(id[6..8], false);
    PlainDigits(id[9..11], false);
    PlainDigits(id[11..13], false);
    PlainDigits(id[13..15], false);
  }

  /** An accepted ID denotes an instant exactly under the same condition. */
  lemma AcceptedInstants(id: string, now: int)
    requires ValidateCaptureId(id, now) == Accepted
    ensures FieldsInRange(IdCivil(id)) && MIN_YEAR <= IdCivil(id).year <= MaxYear(now)
    ensures IsInstant(IdCivil(id)) <==>
              IdCivil(id).second < 60 && IdCivil(id).day <= MonthLength(IdCivil(id).year, IdCivil(id).month)
  {
    ShapedIdParses(id);
    InstantsInRange(IdCivil(id));
  }

  // ----- Order -----

  predicate CivilLess(a: Civil, b: Civil) {
    a.year < b.year || (a.year == b.year && (
      a.month < b.month || (a.month == b.month && (
        a.day < b.day || (a.day == b.day && (
          a.hour < b.hour || (a.hour == b.hour && (
            a.minute < b.minute || (a.minute == b.minute && a.second < b.second)))))))))
  }

  /** One digit field: compare numbers, then whatever follows. */
  lemma DigitField(x: string, x': string, y: string, y': string)
    requires |x| == |y| && AllDigits(x) && AllDigits(y)
    ensures LexLess(x + x', y + y')
       <==> Number(x) < Number(y) || (Number(x) == Number(y) && LexLess(x', y'))
  {
    LexBlocks(x, x', y, y');
    DigitsOrder(x, y);
  }

  /** One separator: it never decides. */
  lemma Separator(sep: string, x: string, y: string)
    ensures LexLess(sep + x, sep + y) <==> LexLess(x, y)
  {
    LexBlocks(sep, x, sep, y);
    LexTotal(sep, sep);
  }

  /** A digit field and the separator after it. */
  lemma FieldThen(x: string, sep: string, x': string, y: string, y': string)
    requires |x| == |y| && AllDigits(x) && AllDigits(y)
    ensures LexLess(x + (sep + x'), y + (sep + y'))
       <==> Number(x) < Number(y) || (Number(x) == Number(y) && LexLess(x', y'))
  {
    DigitField(x, sep + x', y, sep + y');
    Separator(sep, x', y');
  }

  /** Digit fields interleaved with fixed separators, then a tail. */
  function Compose(fields: seq<string>, seps: seq<string>, tail: string): string
    requires |fields| == |seps|
  {
    if fields == [] then tail
    else fields[0] + (seps[0] + Compose(fields[1..], seps[1..], tail))
  }

  predicate SameShape(f: seq<string>, g: seq<string>) {
    |f| == |g| && forall i :: 0 <= i < |f| ==> |f[i]| == |g[i]| && AllDigits(f[i]) && AllDigits(g[i])
  }

  /** The first field that spells another number decides. */
  predicate NumbersLess(f: seq<string>, g: seq<string>)
    requires |f| == |g|
  {
    f != [] && (Number(f[0]) < Number(g[0]) || (Number(f[0]) == Number(g[0]) && NumbersLess(f[1..], g[1..])))
  }

  /** Text order of composed fields is number order of the fields, whatever the
      separators are. */
  lemma {:induction false} ComposeOrder(f: seq<string>, g: seq<string>, seps: seq<string>, t: string, u: string)
    requires |f| == |seps| && SameShape(f, g)
    ensures LexLess(Compose(f, seps, t), Compose(g, seps, u))
       <==> NumbersLess(f, g) || (f == g && LexLess(t, u))
  {
    if f != [] {
      FieldThen(f[0], seps[0], Compose(f[1..], seps[1..], t), g[0], Compose(g[1..], seps[1..], u));
      ComposeOrder(f[1..], g[1..], seps[1..], t, u);
      DigitsOrder(f[0], g[0]);
      assert f == [f[0]] + f[1..] && g == [g[0]] + g[1..];
    }
  }

  function IdFields(id: string): seq<string>
    requires IdShape(id)
  {
    [id[0..4], id[4..6], id[6..8], id[9..11], id[11..13], id[13..15]]
  }

  const ID_SEPARATORS := ["", "", "T", "", "", "Z-"]
  const TIMESTAMP_SEPARATORS := ["-", "-", "T", ":", ":", "Z"]

  lemma SixFields(f: seq<string>, seps: seq<string>, tail: string)
    requires |f| == |seps| == 6
    ensures Compose(f, seps, tail)
         == f[0] + (seps[0] + (f[1] + (seps[1] + (f[2] + (seps[2] + (f[3] + (seps[3]
            + (f[4] + (seps[4] + (f[5] + (seps[5] + tail)))))))))))
  {
    ComposeStep(f, seps, tail, 0);
    ComposeStep(f, seps, tail, 1);
    ComposeStep(f, seps, tail, 2);
    ComposeStep(f, seps, tail, 3);
    ComposeStep(f, seps, tail, 4);
    ComposeStep(f, seps, tail, 5);
  }

  lemma ComposeStep(f: seq<string>, seps: seq<string>, tail: string, i: nat)
    requires |f| == |seps| && i < |f|
    ensures Compose(f[i..], seps[i..], tail) == f[i] + (seps[i] + Compose(f[i + 1..], seps[i + 1..], tail))
  {
    assert f[i..][1..] == f[i + 1..] && seps[i..][1..] == seps[i + 1..];
  }

  lemma IdComposes(id: string)
    requires IdShape(id)
    ensures id == Compose(IdFields(id), ID_SEPARATORS, id[17..])
  {
    IdSplits(id);
    SixFields(IdFields(id), ID_SEPARATORS, id[17..]);
  }

  lemma TimestampComposes(id: string)
    requires IdShape(id)
    ensures IdToTimestamp(id) == Compose(IdFields(id), TIMESTAMP_SEPARATORS, "")
  {
    SixFields(IdFields(id), TIMESTAMP_SEPARATORS, "");
  }

  lemma IdSplits(id: string)
    requires |id| == 25 && id[8] == 'T' && id[15] == 'Z' && id[16] == '-'
    ensures id == id[0..4] + ("" + (id[4..6] + ("" + (id[6..8] + ("T" + (id[9..11] + (""
                  + (id[11..13] + ("" + (id[13..15] + ("Z-" + id[17..])))))))))))
  {
    assert id[13..] == id[13..15] + ("Z-" + id[17..]);
    assert id[9..] == id[9..11] + ("" + (id[11..13] + ("" + id[13..])));
    assert id[6..] == id[6..8] + ("T" + id[9..]);
    assert id == id[0..4] + ("" + (id[4..6] + ("" + id[6..])));
  }

  lemma FieldsAreCivil(a: string, b: string)
    requires IdShape(a) && IdShape(b)
    ensures SameShape(IdFields(a), IdFields(b))
    ensures NumbersLess(IdFields(a), IdFields(b)) <==> CivilLess(IdCivil(a), IdCivil(b))
    ensures IdFields(a) == IdFields(b) <==> IdCivil(a) == IdCivil(b)
  {
    hide Number;
    IdDigits(a);
    IdDigits(b);
    var (f, g) := (IdFields(a), IdFields(b));
    assert f[1..][1..] == f[2..] && f[2..][1..] == f[3..] && f[3..][1..] == f[4..] && f[4..][1..] == f[5..];
    assert g[1..][1..] == g[2..] && g[2..][1..] == g[3..] && g[3..][1..] == g[4..] && g[4..][1..] == g[5..];
    assert f[5..][1..] == [] && g[5..][1..] == [];
    assert NumbersLess(f[5..], g[5..]) <==> IdCivil(a).second < IdCivil(b).second;
    assert NumbersLess(f[4..], g[4..]) <==>
        (IdCivil(a).minute < IdCivil(b).minute || (IdCivil(a).minute == IdCivil(b).minute && NumbersLess(f[5..], g[5..])));
    assert NumbersLess(f[3..], g[3..]) <==>
        (IdCivil(a).hour < IdCivil(b).hour || (IdCivil(a).hour == IdCivil(b).hour && NumbersLess(f[4..], g[4..])));
    assert NumbersLess(f[2..], g[2..]) <==>
        (IdCivil(a).day < IdCivil(b).day || (IdCivil(a).day == IdCivil(b).day && NumbersLess(f[3..], g[3..])));
    assert NumbersLess(f[1..], g[1..]) <==>
        (IdCivil(a).month < IdCivil(b).month || (IdCivil(a).month == IdCivil(b).month && NumbersLess(f[2..], g[2..])));
    forall i | 0 <= i < 6
      ensures f[i] == g[i] <==> Number(f[i]) == Number(g[i])
    {
      DigitsOrder(f[i], g[i]);
    }
    assert f == g <==> f[0] == g[0] && f[1] == g[1] && f[2] == g[2] && f[3] == g[3] && f[4] == g[4] && f[5] == g[5];
  }

  /** IDs are ordered by their civil tuples, then by their suffixes. */
  lemma IdOrder(a: string, b: string)
    requires IdShape(a) && IdShape(b)
    ensures LexLess(a, b)
       <==> CivilLess(IdCivil(a), IdCivil(b)) || (IdCivil(a) == IdCivil(b) && LexLess(a[17..], b[17..]))
  {
    IdComposes(a);
    IdComposes(b);
    FieldsAreCivil(a, b);
    ComposeOrder(IdFields(a), IdFields(b), ID_SEPARATORS, a[17..], b[17..]);
  }

  /** The catalog's timestamps are ordered as the same tuples. */
  lemma TimestampOrder(a: string, b: string)
    requires IdShape(a) && IdShape(b)
    ensures LexLess(IdToTimestamp(a), IdToTimestamp(b)) <==> CivilLess(IdCivil(a), IdCivil(b))
    ensures IdToTimestamp(a) == IdToTimestamp(b) <==> IdCivil(a) == IdCivil(b)
  {
    TimestampComposes(a);
    TimestampComposes(b);
    FieldsAreCivil(a, b);
    FieldsAreCivil(b, a);
    ComposeOrder(IdFields(a), IdFields(b), TIMESTAMP_SEPARATORS, "", "");
    ComposeOrder(IdFields(b), IdFields(a), TIMESTAMP_SEPARATORS, "", "");
    LexTotal(IdToTimestamp(a), IdToTimestamp(b));
    CivilTotal(IdCivil(a), IdCivil(b));
  }

  lemma CivilTotal(a: Civil, b: Civil)
    ensures CivilLess(a, b) || a == b || CivilLess(b, a)
    ensures !(CivilLess(a, b) && CivilLess(b, a)) && !CivilLess(a, a)
  {
  }

  /** For real instants the tuple order is the order of second counts, so IDs
      sort chronologically; ties are broken by the suffix alone. */
  lemma IdsSortByTime(a: string, b: string)
    requires IdShape(a) && IdShape(b)
    requires IsDate(IdCivil(a)) && IsTimeOfDay(IdCivil(a))
    requires IsDate(IdCivil(b)) && IsTimeOfDay(IdCivil(b))
    ensures var (s, t) := (UnixFromCivil(IdCivil(a)), UnixFromCivil(IdCivil(b)));
            LexLess(a, b) <==> s < t || (s == t && LexLess(a[17..], b[17..]))
  {
    IdOrder(a, b);
    CivilTotal(IdCivil(a), IdCivil(b));
    if CivilLess(IdCivil(a), IdCivil(b)) {
      CivilOrderIsTime(IdCivil(a), IdCivil(b));
    } else if CivilLess(IdCivil(b), IdCivil(a)) {
      CivilOrderIsTime(IdCivil(b), IdCivil(a));
    }
  }

  lemma CivilOrderIsTime(a: Civil, b: Civil)
    requires IsDate(a) && IsTimeOfDay(a) && IsDate(b) && IsTimeOfDay(b) && CivilLess(a, b)
    ensures UnixFromCivil(a) < UnixFromCivil(b)
  {
    if DateBefore(a, b) {
      DateOrder(a, b);
    }
  }

  // ----- The two listings -----

  /** `PhotoStore::list`: IDs descending. */
  predicate StoreOrdered(ids: seq<string>) {
    forall i, j :: 0 <= i < j < |ids| ==> LexLess(ids[j], ids[i])
  }

  /** `ORDER BY captured_at DESC, id DESC`, with times derived from the IDs. */
  predicate CatalogBefore(a: string, b: string) {
    LexLess(IdToTimestamp(b), IdToTimestamp(a)) || (IdToTimestamp(b) == IdToTimestamp(a) && LexLess(b, a))
  }

  predicate CatalogOrdered(ids: seq<string>) {
    forall i, j :: 0 <= i < j < |ids| ==> CatalogBefore(ids[i], ids[j])
  }

  /** The storage listing and the catalog listing of the same photos agree. */
  lemma ListingsAgree(store: seq<string>, catalog: seq<string>)
    requires forall id :: id in store ==> IdShape(id)
    requires multiset(store) == multiset(catalog)
    requires StoreOrdered(store) && CatalogOrdered(catalog)
    ensures store == catalog
  {
    forall i, j | 0 <= i < j < |catalog|
      ensures LexLess(catalog[j], catalog[i])
    {
      assert catalog[i] in multiset(store) && catalog[j] in multiset(store);
      IdOrder(catalog[j], catalog[i]);
      TimestampOrder(catalog[j], catalog[i]);
    }
    DescendingIsUnique(store, catalog);
  }

  lemma {:induction false} DescendingIsUnique(s: seq<string>, t: seq<string>)
    requires multiset(s) == multiset(t) && StoreOrdered(s) && StoreOrdered(t)
    ensures s == t
  {
    hide LexLess;
    if s == [] || t == [] {
      assert |multiset(s)| == |multiset(t)|;
    } else {
      SameHead(s, t);
      assert s == [s[0]] + s[1..] && t == [t[0]] + t[1..];
      assert multiset(s[1..]) == multiset(s) - multiset{s[0]} == multiset(t[1..]);
      DescendingIsUnique(s[1..], t[1..]);
    }
  }

  lemma SameHead(s: seq<string>, t: seq<string>)
    requires s != [] && t != [] && multiset(s) == multiset(t) && StoreOrdered(s) && StoreOrdered(t)
    ensures s[0] == t[0]
  {
    assert s[0] in multiset(t) && t[0] in multiset(s);
    var i :| 0 <= i < |t| && t[i] == s[0];
    var j :| 0 <= j < |s| && s[j] == t[0];
    LexTotal(s[0], t[0]);
  }

  // ----- IDs as the camera makes them -----

  /** `capture_id`: the UTC second of the shutter and eight hex characters. */
  function CaptureId(c: Civil, suffix: string): string {
    Pad(c.year, 4) + Pad(c.month, 2) + Pad(c.day, 2) + "T"
    + Pad(c.hour, 2) + Pad(c.minute, 2) + Pad(c.second, 2) + "Z-" + suffix
  }

  predicate IsSuffix(s: string) {
    |s| == 8 && forall i :: 0 <= i < 8 ==> IsLowerHex(s[i])
  }

  /** A date and time of day in a four-digit year. */
  predicate CameraInstant(c: Civil) {
    IsDate(c) && IsTimeOfDay(c) && 0 <= c.year <= 9999
  }

  /** An ID made by a camera, whatever its clock says, is accepted exactly in
      the server's plausible years. */
  lemma CameraIdsAcceptedWhen(c: Civil, suffix: string, now: int)
    requires IsSuffix(suffix) && CameraInstant(c)
    ensures IdShape(CaptureId(c, suffix)) && IdCivil(CaptureId(c, suffix)) == c
    ensures IdToTimestamp(CaptureId(c, suffix)) == FormatCivil(c)
    ensures ValidateCaptureId(CaptureId(c, suffix), now) == Accepted <==> MIN_YEAR <= c.year <= MaxYear(now)
  {
    CaptureIdParses(c, suffix);
  }

  /** So a clock not before MIN_YEAR and not more than a day ahead of the
      server's is good enough. */
  lemma CameraIdsAccepted(c: Civil, suffix: string, now: int)
    requires IsSuffix(suffix) && CameraInstant(c)
    requires MIN_YEAR <= c.year && UnixFromCivil(c) <= now + SECONDS_PER_DAY
    ensures ValidateCaptureId(CaptureId(c, suffix), now) == Accepted
  {
    CameraIdsAcceptedWhen(c, suffix, now);
    YearReached(c, now);
  }

  lemma CaptureIdParses(c: Civil, suffix: string)
    requires IsSuffix(suffix) && FieldsInRange(c) && 0 <= c.year <= 9999
    ensures var id := CaptureId(c, suffix);
            && IdShape(id) && IdCivil(id) == c && id[17..] == suffix && IdToTimestamp(id) == FormatCivil(c)
            && ParseRfc3339(IdToTimestamp(id)) == Some(c)
  {
    hide PadNat, Number, ParseRfc3339;
    PadSpells(c.year, 4);
    PadSpells(c.month, 2);
    PadSpells(c.day, 2);
    PadSpells(c.hour, 2);
    PadSpells(c.minute, 2);
    PadSpells(c.second, 2);
    IdLayout(Pad(c.year, 4), Pad(c.month, 2), Pad(c.day, 2),
             Pad(c.hour, 2), Pad(c.minute, 2), Pad(c.second, 2), suffix);
    FormatParses(c);
  }

  lemma LatestInstant(now: int) returns (limit: Civil)
    ensures limit.year == MaxYear(now) && IsDate(limit) && IsTimeOfDay(limit)
    ensures UnixFromCivil(limit) == now + SECONDS_PER_DAY
  {
    limit := CivilFromUnix(now + SECONDS_PER_DAY);
    CivilFromUnixInverts(now + SECONDS_PER_DAY);
  }

  lemma YearReached(c: Civil, now: int)
    requires IsDate(c) && IsTimeOfDay(c) && UnixFromCivil(c) <= now + SECONDS_PER_DAY
    ensures c.year <= MaxYear(now)
  {
    var limit := LatestInstant(now);
    NotLaterYear(c, limit);
  }

  lemma NotLaterYear(a: Civil, b: Civil)
    requires IsDate(a) && IsTimeOfDay(a) && IsDate(b) && IsTimeOfDay(b)
    requires UnixFromCivil(a) <= UnixFromCivil(b)
    ensures a.year <= b.year
  {
    if b.year < a.year {
      CivilOrderIsTime(b, a);
    }
  }

  /** So photos from cameras with right clocks list newest first. */
  lemma CameraIdsSortByTime(a: Civil, b: Civil, x: string, y: string)
    requires IsSuffix(x) && IsSuffix(y) && CameraInstant(a) && CameraInstant(b)
    ensures LexLess(CaptureId(a, x), CaptureId(b, y))
       <==> UnixFromCivil(a) < UnixFromCivil(b) || (UnixFromCivil(a) == UnixFromCivil(b) && LexLess(x, y))
  {
    hide CaptureId, LexLess, UnixFromCivil, ParseRfc3339, IdToTimestamp, Number;
    CaptureIdParses(a, x);
    CaptureIdParses(b, y);
    IdsSortByTime(CaptureId(a, x), CaptureId(b, y));
  }

  lemma IdLayout(y: string, mo: string, d: string, h: string, mi: string, s: string, suffix: string)
    requires |y| == 4 && |mo| == |d| == |h| == |mi| == |s| == 2 && IsSuffix(suffix)
    requires AllDigits(y) && AllDigits(mo) && AllDigits(d) && AllDigits(h) && AllDigits(mi) && AllDigits(s)
    ensures var id := y + mo + d + "T" + h + mi + s + "Z-" + suffix;
            && IdShape(id)
            && id[0..4] == y && id[4..6] == mo && id[6..8] == d
            && id[9..11] == h && id[11..13] == mi && id[13..15] == s && id[17..] == suffix
  {
    var id := y + mo + d + "T" + h + mi + s + "Z-" + suffix;
    assert id[0..8] == y + mo + d && id[9..15] == h + mi + s;
    assert id[17..] == suffix;
    forall i | 17 <= i < |id| ensures IsLowerHex(id[i]) {
      assert id[i] == suffix[i - 17];
    }
  }

}
