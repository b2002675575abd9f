/** Which texts Timestamps takes for an instant and which IDs it accepts, said of
    the characters (server/src/capture.rs). */
module TimestampForms {
  import opened Text
  import opened Calendar
  import opened Timestamps

  /** The parts of an instant's text. */
  datatype Form = Form(year: string, month: string, day: string, separator: string, hour: string, minute: string,
                       second: string, fraction: string, zone: string)

  function TextOf(f: Form): string {
    f.year + "-" + f.month + "-" + f.day + f.separator + f.hour + ":" + f.minute + ":" + f.second + f.fraction + f.zone
  }

  /** Four characters for the year and two for each other field; T, t or a blank
      between date and time; a fraction of any length, the point alone too; and
      one of four ways to say UTC. */
  predicate WellFormed(f: Form) {
    && |f.year| == 4 && |f.month| == 2 && |f.day| == 2 && |f.hour| == 2 && |f.minute| == 2 && |f.second| == 2
    && f.separator in ["T", "t", " "]
    && (f.fraction == "" || (f.fraction[0] == '.' && AllDigits(f.fraction[1..])))
    && f.zone in ["Z", "z", "+00:00", "-00:00"]
  }

  /** Digits, after a plus sign or, where a sign is allowed, a minus. */
  predicate Spells(text: string, n: int, signed: bool) {
    || (text != "" && AllDigits(text) && n == Number(text))
    || (|text| >= 2 && text[0] == '+' && AllDigits(text[1..]) && n == Number(text[1..]))
    || (|text| >= 2 && text[0] == '-' && AllDigits(text[1..]) && n == -Number(text[1..]) && signed)
  }

  predicate SpellsAll(f: Form, c: Civil) {
    && Spells(f.year, c.year, true) && Spells(f.month, c.month, false) && Spells(f.day, c.day, false)
    && Spells(f.hour, c.hour, false) && Spells(f.minute, c.minute, false) && Spells(f.second, c.second, false)
  }

  lemma IntegerSpells(text: string, n: int, signed: bool)
    requires text != ""
    ensures ParseInteger(text, signed) == Some(n) <==> Spells(text, n, signed)
  {
    assert text[0] == '+' || text[0] == '-' ==> !IsDigit(text[0]);
  }

  lemma {:induction false} RunEnds(digits: string, rest: string)
    requires AllDigits(digits) && (rest == "" || !IsDigit(rest[0]))
    ensures DigitRun(digits + rest) == |digits|
  {
    if digits != "" {
      assert (digits + rest)[1..] == digits[1..] + rest;
      RunEnds(digits[1..], rest);
    } else {
      assert digits + rest == rest;
    }
  }

  lemma {:induction false} RunIsDigits(s: string)
    ensures DigitRun(s) <= |s| && AllDigits(s[..DigitRun(s)])
  {
    if s != "" && IsDigit(s[0]) {
      RunIsDigits(s[1..]);
      var n := DigitRun(s[1..]);
      assert s[..1 + n] == [s[0]] + s[1..][..n];
    }
  }

  lemma FractionDropped(fraction: string, zone: string)
    requires fraction == "" || (fraction[0] == '.' && AllDigits(fraction[1..]))
    requires zone in ["Z", "z", "+00:00", "-00:00"]
    ensures DropFraction(fraction + zone) == zone
  {
    if fraction == "" {
      assert fraction + zone == zone;
    } else {
      assert (fraction + zone)[1..] == fraction[1..] + zone;
      RunEnds(fraction[1..], zone);
    }
  }

  lemma FractionSplit(tail: string) returns (fraction: string, zone: string)
    ensures tail == fraction + zone && zone == DropFraction(tail)
    ensures fraction == "" || (fraction[0] == '.' && AllDigits(fraction[1..]))
  {
    if tail != "" {
      RunIsDigits(tail[1..]);
    }
    zone := DropFraction(tail);
    fraction := tail[..|tail| - |zone|];
    if tail != "" && tail[0] == '.' {
      var n := DigitRun(tail[1..]);
      assert fraction[1..] == tail[1..][..n];
    }
  }

  function DateOf(f: Form): string {
    f.year + "-" + f.month + "-" + f.day
  }

  function TimeOf(f: Form): string {
    f.hour + ":" + f.minute + ":" + f.second
  }

  lemma TextInParts(f: Form)
    ensures TextOf(f) == DateOf(f) + (f.separator + (TimeOf(f) + (f.fraction + f.zone)))
  {
    var tail := f.fraction + f.zone;
    Associates(DateOf(f) + f.separator, f.hour + ":" + f.minute + ":" + f.second, tail);
    Associates(DateOf(f), f.separator, TimeOf(f) + tail);
    assert TextOf(f) == DateOf(f) + f.separator + TimeOf(f) + f.fraction + f.zone;
    Associates(DateOf(f) + f.separator + TimeOf(f), f.fraction, f.zone);
  }

  lemma DateParts(f: Form)
    requires WellFormed(f)
    ensures var d := DateOf(f);
            |d| == 10 && d[0..4] == f.year && d[4] == '-' && d[5..7] == f.month && d[7] == '-' && d[8..10] == f.day
  {
  }

  lemma TimeParts(f: Form)
    requires WellFormed(f)
    ensures var t := TimeOf(f);
            |t| == 8 && t[0..2] == f.hour && t[2] == ':' && t[3..5] == f.minute && t[5] == ':' && t[6..8] == f.second
  {
  }

  lemma SliceBefore(a: string, b: string, from: nat, until: nat)
    requires from <= until <= |a|
    ensures (a + b)[from..until] == a[from..until]
  {
  }

  lemma SliceAfter(a: string, b: string, from: nat, until: nat)
    requires from <= until <= |b|
    ensures (a + b)[|a| + from..|a| + until] == b[from..until]
  {
  }

  /** Where a form's parts stand in its text. */
  lemma PartsStand(f: Form)
    requires WellFormed(f)
    ensures var v := TextOf(f);
            && |v| >= 20 && v[0..4] == f.year && v[4] == '-' && v[5..7] == f.month && v[7] == '-' && v[8..10] == f.day
            && v[10..11] == f.separator && v[11..13] == f.hour && v[13] == ':' && v[14..16] == f.minute && v[16] == ':'
            && v[17..19] == f.second && v[19..] == f.fraction + f.zone
  {
    var (d, t, tail) := (DateOf(f), TimeOf(f), f.fraction + f.zone);
    TextInParts(f);
    DateParts(f);
    TimeParts(f);
    assert |tail| >= 1 && |f.separator| == 1;
    hide DateOf, TimeOf, TextOf, WellFormed;
    var rest := f.separator + (t + tail);
    assert rest == (f.separator + t) + tail;
    SliceBefore(d, rest, 0, 4);
    SliceBefore(d, rest, 5, 7);
    SliceBefore(d, rest, 8, 10);
    SliceAfter(d, rest, 0, 1);
    SliceBefore(f.separator, t + tail, 0, 1);
    SliceAfter(d, rest, 1, 3);
    SliceAfter(d, rest, 4, 6);
    SliceAfter(d, rest, 7, 9);
    SliceAfter(d, rest, 9, |rest|);
    SliceAfter(f.separator, t + tail, 0, 2);
    SliceAfter(f.separator, t + tail, 3, 5);
    SliceAfter(f.separator, t + tail, 6, 8);
    SliceAfter(f.separator, t + tail, 8, 8 + |tail|);
    SliceBefore(t, tail, 0, 2);
    SliceBefore(t, tail, 3, 5);
    SliceBefore(t, tail, 6, 8);
    SliceAfter(t, tail, 0, |tail|);
  }

  /** The fields' integers and the zone are all that parsing looks at. */
  lemma PartsParse(v: string, c: Civil)
    requires |v| >= 20 && v[4] == v[7] == '-' && v[13] == v[16] == ':' && v[10] in ['T', 't', ' ']
    requires DropFraction(v[19..]) in ["Z", "z", "+00:00", "-00:00"] && FieldsInRange(c)
    requires ParseInteger(v[0..4], true) == Some(c.year) && ParseInteger(v[5..7], false) == Some(c.month)
    requires ParseInteger(v[8..10], false) == Some(c.day) && ParseInteger(v[11..13], false) == Some(c.hour)
    requires ParseInteger(v[14..16], false) == Some(c.minute) && ParseInteger(v[17..19], false) == Some(c.second)
    ensures ParseRfc3339(v) == Some(c)
  {
    hide ParseInteger, DropFraction;
  }

  lemma FormIntegers(f: Form, c: Civil)
    requires WellFormed(f) && SpellsAll(f, c)
    ensures ParseInteger(f.year, true) == Some(c.year) && ParseInteger(f.month, false) == Some(c.month)
    ensures ParseInteger(f.day, false) == Some(c.day) && ParseInteger(f.hour, false) == Some(c.hour)
    ensures ParseInteger(f.minute, false) == Some(c.minute) && ParseInteger(f.second, false) == Some(c.second)
  {
    hide ParseInteger, Spells;
    IntegerSpells(f.year, c.year, true);
    IntegerSpells(f.month, c.month, false);
    IntegerSpells(f.day, c.day, false);
    IntegerSpells(f.hour, c.hour, false);
    IntegerSpells(f.minute, c.minute, false);
    IntegerSpells(f.second, c.second, false);
  }

  lemma FormEnds(f: Form)
    requires WellFormed(f)
    ensures DropFraction(f.fraction + f.zone) in ["Z", "z", "+00:00", "-00:00"] && f.separator in ["T", "t", " "]
  {
    FractionDropped(f.fraction, f.zone);
  }

  /** A form that spells the fields of an instant in range parses to it. */
  lemma FormParses(f: Form, c: Civil)
    requires WellFormed(f) && SpellsAll(f, c) && FieldsInRange(c)
    ensures ParseRfc3339(TextOf(f)) == Some(c)
  {
    hide *;
    var v := TextOf(f);
    PartsStand(f);
    FormIntegers(f, c);
    FormEnds(f);
    assert v[10] == v[10..11][0];
    PartsParse(v, c);
  }

  lemma CutInParts(v: string)
    requires |v| >= 20 && v[4] == v[7] == '-' && v[13] == v[16] == ':'
    ensures v == v[0..4] + "-" + v[5..7] + "-" + v[8..10] + v[10..11] + v[11..13] + ":" + v[14..16] + ":" + v[17..19] + v[19..]
  {
    assert v[0..4] + "-" + v[5..7] + "-" + v[8..10] == v[0..10];
    assert v[0..10] + v[10..11] + v[11..13] + ":" == v[0..14];
    assert v[0..14] + v[14..16] + ":" + v[17..19] + v[19..] == v;
  }

  lemma ParsedParts(v: string)
    requires ParseRfc3339(v).Some?
    ensures |v| >= 20 && v[4] == v[7] == '-' && v[13] == v[16] == ':' && v[10..11] in ["T", "t", " "]
    ensures DropFraction(v[19..]) in ["Z", "z", "+00:00", "-00:00"]
    ensures var c := ParseRfc3339(v).value;
            && ParseInteger(v[0..4], true) == Some(c.year) && ParseInteger(v[5..7], false) == Some(c.month)
            && ParseInteger(v[8..10], false) == Some(c.day) && ParseInteger(v[11..13], false) == Some(c.hour)
            && ParseInteger(v[14..16], false) == Some(c.minute) && ParseInteger(v[17..19], false) == Some(c.second)
  {
    hide ParseInteger, DropFraction;
    assert v[10..11] == [v[10]];
  }

  lemma IntegersSpell(f: Form, c: Civil)
    requires |f.year| == 4 && |f.month| == |f.day| == |f.hour| == |f.minute| == |f.second| == 2
    requires ParseInteger(f.year, true) == Some(c.year) && ParseInteger(f.month, false) == Some(c.month)
    requires ParseInteger(f.day, false) == Some(c.day) && ParseInteger(f.hour, false) == Some(c.hour)
    requires ParseInteger(f.minute, false) == Some(c.minute) && ParseInteger(f.second, false) == Some(c.second)
    ensures SpellsAll(f, c)
  {
    hide ParseInteger, Spells;
    IntegerSpells(f.year, c.year, true);
    IntegerSpells(f.month, c.month, false);
    IntegerSpells(f.day, c.day, false);
    IntegerSpells(f.hour, c.hour, false);
    IntegerSpells(f.minute, c.minute, false);
    IntegerSpells(f.second, c.second, false);
  }

  /** The text cut at fixed places. */
  function Cut(v: string, fraction: string, zone: string): Form
    requires |v| >= 20
  {
    Form(v[0..4], v[5..7], v[8..10], v[10..11], v[11..13], v[14..16], v[17..19], fraction, zone)
  }

  lemma CutIsForm(v: string, fraction: string, zone: string)
    requires |v| >= 20 && v[4] == v[7] == '-' && v[13] == v[16] == ':' && v[10..11] in ["T", "t", " "]
    requires v[19..] == fraction + zone && zone in ["Z", "z", "+00:00", "-00:00"]
    requires fraction == "" || (fraction[0] == '.' && AllDigits(fraction[1..]))
    ensures WellFormed(Cut(v, fraction, zone)) && TextOf(Cut(v, fraction, zone)) == v
  {
    CutInParts(v);
    Associates(v[0..4] + "-" + v[5..7] + "-" + v[8..10] + v[10..11] + v[11..13] + ":" + v[14..16] + ":" + v[17..19],
               fraction, zone);
  }

  lemma ParsedHasForm(v: string) returns (f: Form)
    requires ParseRfc3339(v).Some?
    ensures WellFormed(f) && TextOf(f) == v && SpellsAll(f, ParseRfc3339(v).value)
  {
    ParsedParts(v);
    hide ParseRfc3339, ParseInteger, DropFraction, SpellsAll, WellFormed, TextOf, AllDigits;
    var fraction, zone := FractionSplit(v[19..]);
    f := Cut(v, fraction, zone);
    CutIsForm(v, fraction, zone);
    IntegersSpell(f, ParseRfc3339(v).value);
  }

  /** A text is taken for an instant exactly when it has the form and its fields
      are in range; which instant follows from the characters. */
  lemma ParsesExactlyWhen(v: string, c: Civil)
    ensures ParseRfc3339(v) == Some(c)
       <==> && 1 <= c.month <= 12 && 1 <= c.day <= 31 && 0 <= c.hour <= 23 && 0 <= c.minute <= 59 && 0 <= c.second <= 60
            && exists f :: WellFormed(f) && TextOf(f) == v && SpellsAll(f, c)
  {
    if ParseRfc3339(v) == Some(c) {
      ParsedYear(v);
      var f := ParsedHasForm(v);
    } else if FieldsInRange(c) {
      hide ParseRfc3339, WellFormed, TextOf, SpellsAll;
      forall f | WellFormed(f) && TextOf(f) == v && SpellsAll(f, c)
        ensures false
      {
        FormParses(f, c);
      }
    }
  }

  // ----- Years and IDs -----

  /** The latest plausible year is this one, or the next on its last day. */
  lemma LatestYear(now: int)
    ensures var c := CivilFromUnix(now); MaxYear(now) == if c.month == 12 && c.day == 31 then c.year + 1 else c.year
  {
    hide *;
    AddingADay(now);
    CivilFromUnixInverts(now);
    LatestIsTomorrows(now);
    YearOfTomorrow(CivilFromUnix(now));
  }

  lemma LatestIsTomorrows(now: int)
    ensures MaxYear(now) == CivilFromUnix(now + SECONDS_PER_DAY).year
  {
    hide CivilFromUnix;
  }

  lemma YearOfTomorrow(c: Civil)
    requires IsDate(c)
    ensures Tomorrow(c).year == if c.month == 12 && c.day == 31 then c.year + 1 else c.year
  {
    hide IsLeap;
  }

  /** A timestamp is malformed exactly when what is left of it after trimming
      does not parse, dropped outside 2020 and the latest year, and else kept in
      the server's own text. */
  lemma PlausibleExactlyWhen(value: string, now: int)
    ensures var (parsed, r) := (ParseRfc3339(Trim(value)), PlausibleTimestamp(value, now));
            && (r.Malformed? <==> parsed.None?)
            && (r.Dropped? <==> parsed.Some? && !(2020 <= parsed.value.year <= MaxYear(now)))
            && (r.Kept? ==> parsed.Some? && r.text == FormatCivil(parsed.value))
  {
  }

  /** An ID is refused exactly when it is not fourteen digits, T, Z, a dash and
      eight lower-case hexadecimal digits in their places, or a field is out of
      range; implausible outside 2020 and the latest year; and else accepted. */
  lemma IdVerdictWhen(id: string, now: int)
    ensures var verdict := ValidateCaptureId(id, now);
            var shape := && |id| == 25 && id[8] == 'T' && id[15] == 'Z' && id[16] == '-'
                         && (forall i :: 0 <= i < 15 && i != 8 ==> 48 <= id[i] as int <= 57)
                         && (forall i :: 17 <= i < 25 ==> 48 <= id[i] as int <= 57 || 97 <= id[i] as int <= 102);
            && (!shape ==> verdict == Refused)
            && (shape ==>
                  && IdShape(id)
                  && var c := IdCivil(id);
                  var inRange := && 1 <= c.month <= 12 && 1 <= c.day <= 31
                                 && 0 <= c.hour <= 23 && 0 <= c.minute <= 59 && 0 <= c.second <= 60;
                  && (verdict == Refused <==> !inRange)
                  && (verdict == Implausible <==> inRange && !(2020 <= c.year <= MaxYear(now)))
                  && (verdict == Accepted <==> inRange && 2020 <= c.year <= MaxYear(now)))
  {
    ShapeByCharacter(id);
    if IdShape(id) {
      ShapedIdParses(id);
    }
    hide ParseRfc3339, IdToTimestamp, IdShape;
  }

  lemma ShapeByCharacter(id: string)
    ensures IdShape(id)
       <==> && |id| == 25 && id[8] == 'T' && id[15] == 'Z' && id[16] == '-'
            && (forall i :: 0 <= i < 15 && i != 8 ==> 48 <= id[i] as int <= 57)
            && (forall i :: 17 <= i < 25 ==> 48 <= id[i] as int <= 57 || 97 <= id[i] as int <= 102)
  {
    if |id| == 25 {
      var d := id[0..8] + id[9..15];
      assert forall i :: 0 <= i < 8 ==> id[i] == d[i];
      assert forall i :: 9 <= i < 15 ==> id[i] == d[i - 1];
      assert AllDigits(d) <==> forall i :: 0 <= i < 15 && i != 8 ==> IsDigit(id[i]);
    }
  }

  /** The catalog's time for an ID: its digits with the separators in between, and
      an ID too short for that as it is. */
  lemma IdTimestampIs(id: string)
    ensures |id| < 16 ==> IdToTimestamp(id) == id
    ensures |id| >= 16 ==>
              var t := IdToTimestamp(id);
              && |t| == 20 && t[0..4] == id[0..4] && t[5..7] == id[4..6] && t[8..10] == id[6..8]
              && t[11..13] == id[9..11] && t[14..16] == id[11..13] && t[17..19] == id[13..15]
              && t[4] == t[7] == '-' && t[10] == 'T' && t[13] == t[16] == ':' && t[19] == 'Z'
  {
    if |id| >= 16 {
      var f := Form(id[0..4], id[4..6], id[6..8], "T", id[9..11], id[11..13], id[13..15], "", "Z");
      PartsStand(f);
      var v := TextOf(f);
      assert v == IdToTimestamp(id) by {
        Associates(v[..19], "", "Z");
      }
      assert v[10] == v[10..11][0] && v[19] == v[19..][0];
      hide TextOf, IdToTimestamp;
    }
  }
}
