/** The calendar arithmetic of server/src/capture.rs: seconds since the epoch to
    a proleptic Gregorian date and time of day, and the plain calendar count it
    has to agree with. */
module Calendar {

  datatype Civil = Civil(year: int, month: int, day: int, hour: int, minute: int, second: int)

  const SECONDS_PER_DAY := 86_400

  // ----- The calendar itself, said month by month -----

  predicate IsLeap(year: int) {
    year % 4 == 0 && (year % 100 != 0 || year % 400 == 0)
  }

  function YearLength(year: int): int {
    if IsLeap(year) then 366 else 365
  }

  function MonthLength(year: int, month: int): int {
    if month == 2 then (if IsLeap(year) then 29 else 28)
    else if month == 4 || month == 6 || month == 9 || month == 11 then 30
    else 31
  }

  predicate IsDate(c: Civil) {
    1 <= c.month <= 12 && 1 <= c.day <= MonthLength(c.year, c.month)
  }

  predicate IsTimeOfDay(c: Civil) {
    0 <= c.hour < 24 && 0 <= c.minute < 60 && 0 <= c.second < 60
  }

  /** Days from 1970-01-01 to January 1st of `year`, one year at a time. */
  function DaysBeforeYear(year: int): int
    decreases if year < 1970 then 1970 - year else year - 1970
  {
    if year == 1970 then 0
    else if year > 1970 then DaysBeforeYear(year - 1) + YearLength(year - 1)
    else DaysBeforeYear(year + 1) - YearLength(year)
  }

  function DaysBeforeMonth(year: int, month: int): int
    requires 1 <= month
    decreases month
  {
    if month == 1 then 0 else DaysBeforeMonth(year, month - 1) + MonthLength(year, month - 1)
  }

  /** The day number of a date, counting 1970-01-01 as day 0. */
  function DayNumber(c: Civil): int
    requires 1 <= c.month
  {
    DaysBeforeYear(c.year) + DaysBeforeMonth(c.year, c.month) + c.day - 1
  }

  function UnixFromCivil(c: Civil): int
    requires 1 <= c.month
  {
    DayNumber(c) * SECONDS_PER_DAY + c.hour * 3600 + c.minute * 60 + c.second
  }

  /** The next calendar day at the same time of day. */
  function Tomorrow(c: Civil): Civil {
    if c.day < MonthLength(c.year, c.month) then c.(day := c.day + 1)
    else if c.month < 12 then c.(month := c.month + 1, day := 1)
    else c.(year := c.year + 1, month := 1, day := 1)
  }

  // ----- The conversion the server runs -----

  function YearOfEra(dayOfEra: int): int {
    (dayOfEra - dayOfEra / 1_460 + dayOfEra / 36_524 - dayOfEra / 146_096) / 365
  }

  /** Days from March 1st of era year 0 to March 1st of era year `y`. */
  function EraDays(y: int): int {
    365 * y + y / 4 - y / 100
  }

  /** Day `dayOfYear` of the year that starts on March 1st of `year`. */
  function CivilOfYearDay(year: int, dayOfYear: int): Civil {
    var shiftedMonth := (5 * dayOfYear + 2) / 153;
    var day := dayOfYear - (153 * shiftedMonth + 2) / 5 + 1;
    var month := if shiftedMonth < 10 then shiftedMonth + 3 else shiftedMonth - 9;
    Civil(year + (if month <= 2 then 1 else 0), month, day, 0, 0, 0)
  }

  /** The date part: day `dayOfEra` of 400-year era `era`, both counted from
      March 1st of year 0. */
  function CivilOfEraDay(era: int, dayOfEra: int): Civil {
    var yearOfEra := YearOfEra(dayOfEra);
    CivilOfYearDay(yearOfEra + era * 400, dayOfEra - EraDays(yearOfEra))
  }

  function CivilFromUnix(seconds: int): Civil {
    var days := seconds / SECONDS_PER_DAY;
    var remainder := seconds % SECONDS_PER_DAY;
    var z := days + 719_468;
    CivilOfEraDay(z / 146_097, z % 146_097)
      .(hour := remainder / 3_600, minute := remainder % 3_600 / 60, second := remainder % 60)
  }

  // ----- The inverse -----

  /** Counting multiples of 4, 100 and 400 counts the leap years. */
  lemma LeapStep(n: int)
    ensures (n / 4 - n / 100 + n / 400) - ((n - 1) / 4 - (n - 1) / 100 + (n - 1) / 400)
         == if IsLeap(n) then 1 else 0
  {
    DivStep(n, 4);
    DivStep(n, 100);
    DivStep(n, 400);
    Multiples(n);
  }

  lemma Multiples(n: int)
    ensures n % 400 == 0 ==> n % 100 == 0
    ensures n % 100 == 0 ==> n % 4 == 0
  {
    if n % 400 == 0 {
      ModShift(0, 4 * (n / 400), 100);
    }
    if n % 100 == 0 {
      ModShift(0, 25 * (n / 100), 4);
    }
  }

  lemma DivStep(n: int, k: int)
    requires k == 4 || k == 100 || k == 400
    ensures n / k - (n - 1) / k == if n % k == 0 then 1 else 0
  {
  }

  /** The year count has a closed form, on both sides of 1970. */
  lemma {:induction false} DaysBeforeYearClosed(year: int)
    ensures DaysBeforeYear(year)
         == 365 * (year - 1970) + ((year - 1) / 4 - (year - 1) / 100 + (year - 1) / 400) - 477
    decreases if year < 1970 then 1970 - year else year - 1970
  {
    if year > 1970 {
      DaysBeforeYearClosed(year - 1);
      LeapStep(year - 1);
    } else if year < 1970 {
      DaysBeforeYearClosed(year + 1);
      LeapStep(year);
    }
  }

  /** An era year split into centuries, 4-year cycles and years. */
  lemma EraYearParts(c: int, q: int, r: int)
    requires 0 <= c < 4 && 0 <= q < 25 && 0 <= r < 4
    ensures EraDays(100 * c + 4 * q + r) == 36_524 * c + 1_461 * q + 365 * r
  {
    var y := 100 * c + 4 * q + r;
    assert y / 4 == 25 * c + q;
    assert y / 100 == c;
  }

  lemma YearOfEraAt(c: int, q: int, r: int, dayOfYear: int)
    requires 0 <= c < 4 && 0 <= q < 25 && 0 <= r < 4 && 0 <= dayOfYear <= 365
    requires dayOfYear == 365 ==> r == 3 && (q < 24 || c == 3)
    ensures YearOfEra(36_524 * c + 1_461 * q + 365 * r + dayOfYear) == 100 * c + 4 * q + r
  {
    var dayOfEra := 36_524 * c + 1_461 * q + 365 * r + dayOfYear;
    var excess := 24 * c + q + 365 * r + dayOfYear;
    assert dayOfEra == 1_460 * (25 * c + q) + excess;
    var e := if excess >= 1_460 then 1 else 0;
    assert dayOfEra / 1_460 == 25 * c + q + e;
    var last := if dayOfEra == 146_096 then 1 else 0;
    assert dayOfEra / 146_096 == last;
    assert dayOfEra / 36_524 == c + last;
    var y := 100 * c + 4 * q + r;
    assert dayOfEra - dayOfEra / 1_460 + dayOfEra / 36_524 - dayOfEra / 146_096
        == 365 * y + (dayOfYear - e);
  }

  /** The four-division year formula finds the March-based year a day lies in. */
  lemma YearOfEraLocates(dayOfEra: int)
    requires 0 <= dayOfEra < 146_097
    ensures var y := YearOfEra(dayOfEra);
            && 0 <= y < 400
            && 0 <= dayOfEra - EraDays(y) <= 365
            && (dayOfEra - EraDays(y) == 365 ==> IsLeap(y + 1))
  {
    var c := if dayOfEra / 36_524 < 3 then dayOfEra / 36_524 else 3;
    CenturyDay(dayOfEra - 36_524 * c, c);
  }

  lemma CenturyDay(inCentury: int, c: int)
    requires 0 <= c < 4 && 0 <= inCentury <= 36_524 && (inCentury == 36_524 ==> c == 3)
    ensures var y := YearOfEra(36_524 * c + inCentury);
            && 0 <= y < 400
            && 0 <= 36_524 * c + inCentury - EraDays(y) <= 365
            && (36_524 * c + inCentury - EraDays(y) == 365 ==> IsLeap(y + 1))
  {
    var q := inCentury / 1_461;
    var inCycle := inCentury - 1_461 * q;
    var r := if inCycle / 365 < 3 then inCycle / 365 else 3;
    var dayOfYear := inCycle - 365 * r;
    YearOfEraAt(c, q, r, dayOfYear);
    EraYearParts(c, q, r);
    if dayOfYear == 365 {
      LastYearIsLeap(c, q);
    }
  }

  /** Every fourth year is leap, but a century's last only every fourth time. */
  lemma LastYearIsLeap(c: int, q: int)
    requires 0 <= c < 4 && 0 <= q < 25 && (q == 24 ==> c == 3)
    ensures IsLeap(100 * c + 4 * q + 4)
  {
    var y := 100 * c + 4 * q + 4;
    assert y == 4 * (25 * c + q + 1);
    if q < 24 {
      assert y / 100 == c && y % 100 == 4 * q + 4;
    }
  }

  /** March-based month and day against the months of the calendar year. */
  lemma MonthOfShiftedYear(year: int, dayOfYear: int)
    requires 0 <= dayOfYear <= 365
    requires dayOfYear == 365 ==> IsLeap(year + 1)
    ensures var c := CivilOfYearDay(year, dayOfYear);
            && IsDate(c) && c.year == year + (if c.month <= 2 then 1 else 0)
            && DaysBeforeMonth(c.year, c.month) + c.day - 1
            == (if c.month <= 2 then dayOfYear - 306 else dayOfYear + 59 + (if IsLeap(c.year) then 1 else 0))
  {
    MonthTable(CivilOfYearDay(year, dayOfYear).year);
  }

  lemma MonthTable(y: int)
    ensures var leap := if IsLeap(y) then 1 else 0;
            && DaysBeforeMonth(y, 1) == 0 && DaysBeforeMonth(y, 2) == 31
            && DaysBeforeMonth(y, 3) == 59 + leap && DaysBeforeMonth(y, 4) == 90 + leap
            && DaysBeforeMonth(y, 5) == 120 + leap && DaysBeforeMonth(y, 6) == 151 + leap
            && DaysBeforeMonth(y, 7) == 181 + leap && DaysBeforeMonth(y, 8) == 212 + leap
            && DaysBeforeMonth(y, 9) == 243 + leap && DaysBeforeMonth(y, 10) == 273 + leap
            && DaysBeforeMonth(y, 11) == 304 + leap && DaysBeforeMonth(y, 12) == 334 + leap
  {
    assert DaysBeforeMonth(y, 3) == DaysBeforeMonth(y, 2) + MonthLength(y, 2);
    assert DaysBeforeMonth(y, 5) == DaysBeforeMonth(y, 4) + MonthLength(y, 4);
    assert DaysBeforeMonth(y, 7) == DaysBeforeMonth(y, 6) + MonthLength(y, 6);
    assert DaysBeforeMonth(y, 9) == DaysBeforeMonth(y, 8) + MonthLength(y, 8);
    assert DaysBeforeMonth(y, 11) == DaysBeforeMonth(y, 10) + MonthLength(y, 10);
  }

  /** Day numbers of the dates in the year that starts on March 1st of `year`. */
  lemma DayNumberFromMarch(year: int, c: Civil, dayOfYear: int)
    requires c.month >= 1
    requires c.year == year + (if c.month <= 2 then 1 else 0)
    requires DaysBeforeMonth(c.year, c.month) + c.day - 1
          == (if c.month <= 2 then dayOfYear - 306 else dayOfYear + 59 + (if IsLeap(c.year) then 1 else 0))
    ensures DayNumber(c) == 365 * year + year / 4 - year / 100 + year / 400 + dayOfYear - 719_468
  {
    DaysBeforeYearClosed(year + 1);
    assert DaysBeforeYear(year + 1) == 365 * year + (year / 4 - year / 100 + year / 400) - 719_162;
    assert c.month > 2 ==> DaysBeforeYear(year) == DaysBeforeYear(year + 1) - YearLength(year) by {
      if year >= 1970 {
        assert DaysBeforeYear(year + 1) == DaysBeforeYear(year) + YearLength(year);
      }
    }
  }

  lemma DateOfEraDay(era: int, dayOfEra: int)
    requires 0 <= dayOfEra < 146_097
    ensures var c := CivilOfEraDay(era, dayOfEra);
            IsDate(c) && DayNumber(c) == 146_097 * era + dayOfEra - 719_468
  {
    YearOfEraLocates(dayOfEra);
    var yearOfEra := YearOfEra(dayOfEra);
    DateOfYearDay(era, yearOfEra, dayOfEra - EraDays(yearOfEra));
  }

  lemma DateOfYearDay(era: int, yearOfEra: int, dayOfYear: int)
    requires 0 <= yearOfEra < 400 && 0 <= dayOfYear <= 365
    requires dayOfYear == 365 ==> IsLeap(yearOfEra + 1)
    ensures var c := CivilOfYearDay(yearOfEra + era * 400, dayOfYear);
            IsDate(c) && DayNumber(c) == 146_097 * era + EraDays(yearOfEra) + dayOfYear - 719_468
  {
    var year := yearOfEra + era * 400;
    LeapPeriod(yearOfEra + 1, era);
    MonthOfShiftedYear(year, dayOfYear);
    DayNumberFromMarch(year, CivilOfYearDay(year, dayOfYear), dayOfYear);
    MarchStart(yearOfEra, era);
  }

  /** For every second count, the conversion returns a real calendar date and
      time of day, and the plain count takes it back to that second. */
  lemma CivilFromUnixInverts(seconds: int)
    ensures var c := CivilFromUnix(seconds);
            IsDate(c) && IsTimeOfDay(c) && UnixFromCivil(c) == seconds
  {
    var days, remainder := seconds / SECONDS_PER_DAY, seconds % SECONDS_PER_DAY;
    var z := days + 719_468;
    DateOfEraDay(z / 146_097, z % 146_097);
    TimeOfDaySplits(remainder);
  }

  lemma TimeOfDaySplits(remainder: int)
    requires 0 <= remainder < SECONDS_PER_DAY
    ensures 0 <= remainder / 3_600 < 24 && 0 <= remainder % 3_600 / 60 < 60
    ensures remainder / 3_600 * 3600 + remainder % 3_600 / 60 * 60 + remainder % 60 == remainder
  {
    assert remainder % 3_600 % 60 == remainder % 60;
  }

  lemma LeapPeriod(y: int, era: int)
    ensures IsLeap(y + 400 * era) == IsLeap(y)
  {
    assert y + 400 * era == y + 4 * (100 * era) == y + 100 * (4 * era);
    ModShift(y, 100 * era, 4);
    ModShift(y, 4 * era, 100);
    ModShift(y, era, 400);
  }

  lemma ModShift(y: int, n: int, k: int)
    requires k == 4 || k == 100 || k == 400
    ensures (y + k * n) % k == y % k && (y + k * n) / k == y / k + n
  {
  }

  /** Days to March 1st of a year, by era and by leap-year count. */
  lemma MarchStart(yearOfEra: int, era: int)
    requires 0 <= yearOfEra < 400
    ensures var year := yearOfEra + 400 * era;
            146_097 * era + EraDays(yearOfEra) == 365 * year + year / 4 - year / 100 + year / 400
  {
    ModShift(yearOfEra, 100 * era, 4);
    ModShift(yearOfEra, 4 * era, 100);
    ModShift(yearOfEra, era, 400);
  }

  // ----- The other direction, and the successor day -----

  /** The day number steps by exactly one from each date to the next. */
  lemma TomorrowSteps(c: Civil)
    requires IsDate(c)
    ensures IsDate(Tomorrow(c)) && DayNumber(Tomorrow(c)) == DayNumber(c) + 1
  {
    MonthTable(c.year);
  }

  /** Dates in calendar order have day numbers in the same order. */
  predicate DateBefore(a: Civil, b: Civil) {
    a.year < b.year || (a.year == b.year && (a.month < b.month || (a.month == b.month && a.day < b.day)))
  }

  lemma {:induction false} YearsGrow(y: int, z: int)
    requires y <= z
    ensures DaysBeforeYear(z) >= DaysBeforeYear(y) + 365 * (z - y)
    decreases z - y
  {
    if y < z {
      YearsGrow(y, z - 1);
      if z <= 1970 {
        assert DaysBeforeYear(z - 1) == DaysBeforeYear(z) - YearLength(z - 1);
      }
    }
  }

  lemma DateOrder(a: Civil, b: Civil)
    requires IsDate(a) && IsDate(b) && DateBefore(a, b)
    ensures DayNumber(a) < DayNumber(b)
  {
    MonthTable(a.year);
    MonthTable(b.year);
    if a.year < b.year {
      YearsGrow(a.year + 1, b.year);
      assert DaysBeforeYear(a.year + 1) == DaysBeforeYear(a.year) + YearLength(a.year);
    }
  }

  /** Every calendar date and time of day comes back from its second count. */
  lemma UnixFromCivilInverts(c: Civil)
    requires IsDate(c) && IsTimeOfDay(c)
    ensures CivilFromUnix(UnixFromCivil(c)) == c
  {
    var seconds := UnixFromCivil(c);
    var back := CivilFromUnix(seconds);
    CivilFromUnixInverts(seconds);
    SameInstant(c, back);
  }

  lemma SameInstant(a: Civil, b: Civil)
    requires IsDate(a) && IsTimeOfDay(a) && IsDate(b) && IsTimeOfDay(b)
    requires UnixFromCivil(a) == UnixFromCivil(b)
    ensures a == b
  {
    assert DayNumber(a) == DayNumber(b);
    if DateBefore(a, b) {
      DateOrder(a, b);
    } else if DateBefore(b, a) {
      DateOrder(b, a);
    }
  }

  /** Adding a day's seconds moves to exactly the next calendar day. */
  lemma AddingADay(seconds: int)
    ensures CivilFromUnix(seconds + SECONDS_PER_DAY) == Tomorrow(CivilFromUnix(seconds))
  {
    CivilFromUnixInverts(seconds);
    CivilFromUnixInverts(seconds + SECONDS_PER_DAY);
    NextInstant(seconds, CivilFromUnix(seconds), CivilFromUnix(seconds + SECONDS_PER_DAY));
  }

  lemma NextInstant(seconds: int, c: Civil, next: Civil)
    requires IsDate(c) && IsTimeOfDay(c) && UnixFromCivil(c) == seconds
    requires IsDate(next) && IsTimeOfDay(next) && UnixFromCivil(next) == seconds + SECONDS_PER_DAY
    ensures next == Tomorrow(c)
  {
    TomorrowSteps(c);
    SameInstant(next, Tomorrow(c));
  }
}
