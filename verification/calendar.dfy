/**
 * Calendar arithmetic behind DATE(...), DATE_TRUNC('week'|'month', ...) and
 * EXTRACT(YEAR|MONTH FROM ...) on a TIMESTAMP WITHOUT TIME ZONE.
 *
 * A timestamp is a whole number of seconds since 1970-01-01 00:00:00; a day
 * number counts days since 1970-01-01. The proleptic Gregorian calendar is
 * computed by splitting a day number into 400-year eras (146097 days each)
 * and then subtracting whole years and whole months.
 */
module Calendar {

  const SecondsPerDay: int := 86400
  const DaysPerWeek: int := 7
  /** Days in 400 Gregorian years. */
  const DaysPerEra: int := 146097
  /** Days from 0000-01-01 (proleptic Gregorian) to 1970-01-01. */
  const EpochDayOffset: int := 719528

  datatype Date = Date(year: int, month: int, day: int)

  /** DATE(ts): the day number containing ts (floor division). */
  function DayOf(ts: int): (d: int)
    ensures d * SecondsPerDay <= ts < d * SecondsPerDay + SecondsPerDay
  {
    ts / SecondsPerDay
  }

  /** ISO 8601 weekday as an index, Monday = 0 ... Sunday = 6; 1970-01-01 was a Thursday. */
  function WeekdayIndex(day: int): (w: int)
    ensures 0 <= w < DaysPerWeek
  {
    (day + 3) % DaysPerWeek
  }

  /** DATE_TRUNC('week', ts): midnight of the Monday that starts ts's ISO week. */
  function WeekStart(ts: int): (w: int)
    ensures w % SecondsPerDay == 0
    ensures w <= ts < w + DaysPerWeek * SecondsPerDay
  {
    var d := DayOf(ts);
    DivModUnique((d - WeekdayIndex(d)) * SecondsPerDay, SecondsPerDay, d - WeekdayIndex(d), 0);
    (d - WeekdayIndex(d)) * SecondsPerDay
  }

  /**
   * The week key is a Monday at 00:00, and the timestamp lies in the
   * seven days that begin there.
   */
  lemma WeekStartIsMonday(ts: int)
    ensures WeekStart(ts) % SecondsPerDay == 0
    ensures WeekdayIndex(WeekStart(ts) / SecondsPerDay) == 0
    ensures WeekStart(ts) <= ts < WeekStart(ts) + DaysPerWeek * SecondsPerDay
  {
    var d := DayOf(ts);
    var m := d - WeekdayIndex(d);
    assert WeekStart(ts) / SecondsPerDay == m;
    assert (m + 3) % 7 == 0;
  }

  /** Two timestamps share a week key exactly when they fall in the same Monday-to-Sunday week. */
  lemma WeekStartCharacterised(ts: int, ws: int)
    requires ws % SecondsPerDay == 0 && WeekdayIndex(ws / SecondsPerDay) == 0
    requires ws <= ts < ws + DaysPerWeek * SecondsPerDay
    ensures WeekStart(ts) == ws
  {
    var m := ws / SecondsPerDay;
    var d := DayOf(ts);
    assert m <= d < m + 7;
    assert WeekdayIndex(d) == d - m;
  }

  // ---------------------------------------------------------------------------
  // Civil dates
  // ---------------------------------------------------------------------------

  predicate IsLeap(y: int)
  {
    y % 4 == 0 && (y % 100 != 0 || y % 400 == 0)
  }

  function DaysInYear(y: int): int
  {
    if IsLeap(y) then 366 else 365
  }

  function DaysInMonth(m: int, leap: bool): int
  {
    if m == 2 then (if leap then 29 else 28)
    else if m == 4 || m == 6 || m == 9 || m == 11 then 30
    else 31
  }

  /** Days in the months of the year before month m; month 13 stands for the end of the year. */
  function DaysBeforeMonth(m: int, leap: bool): int
  {
    var common :=
      if m <= 1 then 0 else if m == 2 then 31 else if m == 3 then 59
      else if m == 4 then 90 else if m == 5 then 120 else if m == 6 then 151
      else if m == 7 then 181 else if m == 8 then 212 else if m == 9 then 243
      else if m == 10 then 273 else if m == 11 then 304 else if m == 12 then 334
      else 365;
    common + (if leap && m > 2 then 1 else 0)
  }

  /** The month table agrees with the month lengths and with the length of the year. */
  lemma MonthStep(m: int, leap: bool)
    requires 1 <= m <= 12
    ensures DaysBeforeMonth(m + 1, leap) == DaysBeforeMonth(m, leap) + DaysInMonth(m, leap)
    ensures DaysBeforeMonth(13, leap) == (if leap then 366 else 365)
  {
  }

  /**
   * Splits a day of an era into (year within the era, day of that year),
   * counting from year y of the era that starts in year base.
   */
  function YearOfEra(doe: int, base: int, y: int): (r: (int, int))
    requires doe >= 0
    ensures 0 <= r.1 <= doe && r.0 >= y
    ensures r.1 < DaysInYear(base + r.0)
    decreases doe
  {
    if doe < DaysInYear(base + y) then (y, doe)
    else YearOfEra(doe - DaysInYear(base + y), base, y + 1)
  }

  /** The month (1..12) in which day-of-year doy (0-based) falls. */
  function MonthOfDay(doy: int, leap: bool): (m: int)
    requires 0 <= doy < (if leap then 366 else 365)
    ensures 1 <= m <= 12
    ensures DaysBeforeMonth(m, leap) <= doy < DaysBeforeMonth(m + 1, leap)
  {
    if doy < DaysBeforeMonth(2, leap) then 1
    else if doy < DaysBeforeMonth(3, leap) then 2
    else if doy < DaysBeforeMonth(4, leap) then 3
    else if doy < DaysBeforeMonth(5, leap) then 4
    else if doy < DaysBeforeMonth(6, leap) then 5
    else if doy < DaysBeforeMonth(7, leap) then 6
    else if doy < DaysBeforeMonth(8, leap) then 7
    else if doy < DaysBeforeMonth(9, leap) then 8
    else if doy < DaysBeforeMonth(10, leap) then 9
    else if doy < DaysBeforeMonth(11, leap) then 10
    else if doy < DaysBeforeMonth(12, leap) then 11
    else 12
  }

  /** Only one month contains a given day of the year. */
  lemma MonthOfDayUnique(doy: int, leap: bool, m: int)
    requires 1 <= m <= 12 && DaysBeforeMonth(m, leap) <= doy < DaysBeforeMonth(m + 1, leap)
    ensures MonthOfDay(doy, leap) == m
  {
  }

  /** The year of a day number and the day's 0-based position in that year. */
  function YearAndDay(day: int): (r: (int, int))
    ensures 0 <= r.1 < DaysInYear(r.0)
  {
    var z := day + EpochDayOffset;
    var era := z / DaysPerEra;
    var yd := YearOfEra(z % DaysPerEra, era * 400, 0);
    (era * 400 + yd.0, yd.1)
  }

  /** The proleptic Gregorian date of a day number; the year is astronomical (it has a year 0). */
  function Civil(day: int): (d: Date)
    ensures 1 <= d.month <= 12
    ensures 1 <= d.day <= DaysInMonth(d.month, IsLeap(d.year))
  {
    var yd := YearAndDay(day);
    var leap := IsLeap(yd.0);
    var m := MonthOfDay(yd.1, leap);
    MonthStep(m, leap);
    Date(yd.0, m, yd.1 - DaysBeforeMonth(m, leap) + 1)
  }

  // ---------------------------------------------------------------------------
  // The closed-form day number, and Civil as its inverse
  // ---------------------------------------------------------------------------

  /** Days from 0000-01-01 to January 1 of year y: 365 a year plus the leap days before y. */
  function DaysBeforeYear(y: int): int
  {
    365 * y + (y + 3) / 4 - (y + 99) / 100 + (y + 399) / 400
  }

  /** The day number of a calendar date, counted in closed form. */
  function DayNumber(d: Date): int
  {
    DaysBeforeYear(d.year) + DaysBeforeMonth(d.month, IsLeap(d.year)) + d.day - 1 - EpochDayOffset
  }

  /** A date that exists in the proleptic Gregorian calendar. */
  predicate ValidDate(d: Date)
  {
    1 <= d.month <= 12 && 1 <= d.day <= DaysInMonth(d.month, IsLeap(d.year))
  }

  /** (y + 1 + c) / k steps up by one exactly when k divides y, for k = c + 1. */
  lemma CeilStep(y: int)
    ensures (y + 4) / 4 == (y + 3) / 4 + (if y % 4 == 0 then 1 else 0)
    ensures (y + 100) / 100 == (y + 99) / 100 + (if y % 100 == 0 then 1 else 0)
    ensures (y + 400) / 400 == (y + 399) / 400 + (if y % 400 == 0 then 1 else 0)
  {
    assert y == 4 * (y / 4) + y % 4;
    assert y == 100 * (y / 100) + y % 100;
    assert y == 400 * (y / 400) + y % 400;
  }

  /** A non-zero multiple of k is at least k away from zero. */
  lemma MultipleAwayFromZero(k: int, d: int)
    requires k > 0
    ensures d >= 1 ==> k * d >= k
    ensures d <= -1 ==> k * d <= -k
  {
    assert k * d == k + k * (d - 1);
    assert k * d == -k + k * (d + 1);
  }

  /** Division by k is unique: q and r are x / k and x % k when 0 <= r < k. */
  lemma DivModUnique(x: int, k: int, q: int, r: int)
    requires k > 0 && x == k * q + r && 0 <= r < k
    ensures x / k == q && x % k == r
  {
    assert x == k * (x / k) + x % k;
    assert k * (q - x / k) == x % k - r;
    MultipleAwayFromZero(k, q - x / k);
  }

  /** Divisibility of y by 4, 100 and 400 is decided by its remainder modulo 400. */
  lemma LeapByRemainder(y: int, q: int, r: int)
    requires y == 400 * q + r && 0 <= r < 400
    ensures y % 400 == r
    ensures y % 100 == r % 100
    ensures y % 4 == r % 4
  {
    DivModUnique(y, 400, q, r);
    assert r == 100 * (r / 100) + r % 100;
    DivModUnique(y, 100, 4 * q + r / 100, r % 100);
    assert r == 4 * (r / 4) + r % 4;
    DivModUnique(y, 4, 100 * q + r / 4, r % 4);
  }

  /** Each year adds its own length to the closed form. */
  lemma DaysBeforeYearStep(y: int)
    ensures DaysBeforeYear(y + 1) == DaysBeforeYear(y) + DaysInYear(y)
  {
    CeilStep(y);
    assert DaysBeforeYear(y + 1) == 365 * y + 365 + (y + 4) / 4 - (y + 100) / 100 + (y + 400) / 400;
    var q := y / 400;
    var r := y % 400;
    assert y == 400 * q + r;
    LeapByRemainder(y, q, r);
  }

  /** An era of 400 years is 146097 days. */
  lemma DaysBeforeEra(era: int)
    ensures DaysBeforeYear(era * 400) == era * DaysPerEra
  {
    DivModUnique(era * 400 + 3, 4, era * 100, 3);
    DivModUnique(era * 400 + 99, 100, era * 4, 99);
    DivModUnique(era * 400 + 399, 400, era, 399);
  }

  /** The years YearOfEra skips are exactly the days it subtracts. */
  lemma {:induction false} YearOfEraCount(doe: int, base: int, y: int)
    requires doe >= 0
    ensures DaysBeforeYear(base + YearOfEra(doe, base, y).0) + YearOfEra(doe, base, y).1 == DaysBeforeYear(base + y) + doe
    decreases doe
  {
    if doe >= DaysInYear(base + y) {
      YearOfEraCount(doe - DaysInYear(base + y), base, y + 1);
      DaysBeforeYearStep(base + y);
    }
  }

  /** The year and day of year YearAndDay finds add up to the day number. */
  lemma YearAndDayCount(day: int)
    ensures DaysBeforeYear(YearAndDay(day).0) + YearAndDay(day).1 == day + EpochDayOffset
  {
    var z := day + EpochDayOffset;
    var era := z / DaysPerEra;
    YearOfEraCount(z % DaysPerEra, era * 400, 0);
    DaysBeforeEra(era);
  }

  /** A later year starts after every day of an earlier one. */
  lemma {:induction false} DaysBeforeYearIncreasing(a: int, b: int)
    requires a < b
    ensures DaysBeforeYear(a) + DaysInYear(a) <= DaysBeforeYear(b)
    decreases b - a
  {
    DaysBeforeYearStep(a);
    if a + 1 < b {
      DaysBeforeYearIncreasing(a + 1, b);
      DaysBeforeYearStep(a + 1);
    }
  }

  /** A day number has one (year, day of year) decomposition. */
  lemma YearAndDayUnique(y1: int, d1: int, y2: int, d2: int)
    requires 0 <= d1 < DaysInYear(y1) && 0 <= d2 < DaysInYear(y2)
    requires DaysBeforeYear(y1) + d1 == DaysBeforeYear(y2) + d2
    ensures y1 == y2 && d1 == d2
  {
    if y1 < y2 {
      DaysBeforeYearIncreasing(y1, y2);
    } else if y2 < y1 {
      DaysBeforeYearIncreasing(y2, y1);
    }
  }

  /** Civil undoes the closed-form day number. */
  lemma DayNumberOfCivil(day: int)
    ensures ValidDate(Civil(day))
    ensures DayNumber(Civil(day)) == day
  {
    YearAndDayCount(day);
  }

  /** Every valid date is the Civil date of its day number. */
  lemma CivilOfDayNumber(d: Date)
    requires ValidDate(d)
    ensures Civil(DayNumber(d)) == d
  {
    var leap := IsLeap(d.year);
    var doy := DaysBeforeMonth(d.month, leap) + d.day - 1;
    MonthStep(d.month, leap);
    assert DaysBeforeMonth(d.month + 1, leap) <= DaysBeforeMonth(13, leap);
    var day := DayNumber(d);
    YearAndDayCount(day);
    YearAndDayUnique(YearAndDay(day).0, YearAndDay(day).1, d.year, doy);
    MonthOfDayUnique(doy, leap, d.month);
  }

  /** 1970-01-01 is day 0, and it was a Thursday. */
  lemma CivilEpoch()
    ensures Civil(0) == Date(1970, 1, 1) && WeekdayIndex(0) == 3
  {
    CivilOfDayNumber(Date(1970, 1, 1));
  }

  /** The count starts at 0000-01-01 (1 BC). */
  lemma CivilYearZero()
    ensures Civil(-EpochDayOffset) == Date(0, 1, 1)
  {
    CivilOfDayNumber(Date(0, 1, 1));
  }

  /** 2000 is a leap year (divisible by 400): 2000-02-29 is day 11016. */
  lemma CivilLeapDay()
    ensures Civil(11016) == Date(2000, 2, 29)
  {
    CivilOfDayNumber(Date(2000, 2, 29));
  }

  /** 2024-01-01 is day 19723, and it was a Monday. */
  lemma CivilMonday()
    ensures Civil(19723) == Date(2024, 1, 1) && WeekdayIndex(19723) == 0
  {
    CivilOfDayNumber(Date(2024, 1, 1));
  }

  /** The day number of the first of the month containing day. */
  function MonthStartDay(day: int): int
  {
    day - (Civil(day).day - 1)
  }

  /** DATE_TRUNC('month', ts): midnight of the first day of ts's month. */
  function MonthStart(ts: int): (m: int)
    ensures m % SecondsPerDay == 0
    ensures m <= ts
  {
    var md := MonthStartDay(DayOf(ts));
    DivModUnique(md * SecondsPerDay, SecondsPerDay, md, 0);
    md * SecondsPerDay
  }

  /** PostgreSQL numbers years without a year 0: astronomical year 0 is 1 BC, reported as -1. */
  function ExtractYear(ts: int): (y: int)
    ensures y != 0
    ensures Civil(DayOf(ts)).year >= 1 ==> y == Civil(DayOf(ts)).year
    ensures Civil(DayOf(ts)).year <= 0 ==> y == Civil(DayOf(ts)).year - 1
  {
    var y := Civil(DayOf(ts)).year;
    if y <= 0 then y - 1 else y
  }

  /** EXTRACT(MONTH FROM ts). */
  function ExtractMonth(ts: int): (m: int)
    ensures 1 <= m <= 12
  {
    Civil(DayOf(ts)).month
  }

  /** Moving back k days inside the same year keeps the year and shifts the day of year by k. */
  lemma {:induction false} YearOfEraShift(doe: int, base: int, y: int, k: int)
    requires doe >= 0 && 0 <= k <= YearOfEra(doe, base, y).1
    ensures YearOfEra(doe - k, base, y) == (YearOfEra(doe, base, y).0, YearOfEra(doe, base, y).1 - k)
    decreases doe
  {
    if doe >= DaysInYear(base + y) {
      YearOfEraShift(doe - DaysInYear(base + y), base, y + 1, k);
    }
  }

  /** Stepping back within an era does not change the era. */
  lemma EraShift(z: int, k: int)
    requires 0 <= k <= z % DaysPerEra
    ensures (z - k) / DaysPerEra == z / DaysPerEra
    ensures (z - k) % DaysPerEra == z % DaysPerEra - k
  {
    var era := z / DaysPerEra;
    assert z == era * DaysPerEra + z % DaysPerEra;
    assert era * DaysPerEra <= z - k < era * DaysPerEra + DaysPerEra;
  }

  /** Moving back k days, no further than the first day of the year, stays in the same year. */
  lemma YearAndDayShift(day: int, k: int)
    requires 0 <= k <= YearAndDay(day).1
    ensures YearAndDay(day - k) == (YearAndDay(day).0, YearAndDay(day).1 - k)
  {
    var z := day + EpochDayOffset;
    var era := z / DaysPerEra;
    var doe := z % DaysPerEra;
    YearOfEraShift(doe, era * 400, 0, k);
    EraShift(z, k);
  }

  /** Moving back k days, k less than the day of the month, stays in the same month. */
  lemma CivilShift(day: int, k: int)
    requires 0 <= k < Civil(day).day
    ensures Civil(day - k) == Date(Civil(day).year, Civil(day).month, Civil(day).day - k)
  {
    var yd := YearAndDay(day);
    var leap := IsLeap(yd.0);
    var m := MonthOfDay(yd.1, leap);
    YearAndDayShift(day, k);
    MonthOfDayUnique(yd.1 - k, leap, m);
  }

  /** DATE_TRUNC('month') lands on day 1 of the same year and month. */
  lemma MonthStartIsFirstOfMonth(day: int)
    ensures Civil(MonthStartDay(day)) == Date(Civil(day).year, Civil(day).month, 1)
    ensures MonthStartDay(day) <= day < MonthStartDay(day) + DaysInMonth(Civil(day).month, IsLeap(Civil(day).year))
  {
    CivilShift(day, Civil(day).day - 1);
  }

  /** The month key determines EXTRACT(YEAR) and EXTRACT(MONTH): one monthly row per month. */
  lemma MonthStartDeterminesYearMonth(t1: int, t2: int)
    requires MonthStart(t1) == MonthStart(t2)
    ensures ExtractYear(t1) == ExtractYear(t2)
    ensures ExtractMonth(t1) == ExtractMonth(t2)
  {
    var d1, d2 := DayOf(t1), DayOf(t2);
    assert MonthStartDay(d1) == MonthStartDay(d2);
    MonthStartIsFirstOfMonth(d1);
    MonthStartIsFirstOfMonth(d2);
  }

  /** Truncating to the week is idempotent. */
  lemma WeekStartIdempotent(ts: int)
    ensures WeekStart(WeekStart(ts)) == WeekStart(ts)
  {
    WeekStartIsMonday(ts);
    WeekStartCharacterised(WeekStart(ts), WeekStart(ts));
  }

  /** The month key lies in the month it names, and truncating again changes nothing. */
  lemma MonthStartSameMonth(ts: int)
    ensures ExtractYear(MonthStart(ts)) == ExtractYear(ts)
    ensures ExtractMonth(MonthStart(ts)) == ExtractMonth(ts)
    ensures MonthStart(MonthStart(ts)) == MonthStart(ts)
  {
    var d := DayOf(ts);
    var m := MonthStartDay(d);
    MonthStartIsFirstOfMonth(d);
    assert DayOf(MonthStart(ts)) == m;
    assert Civil(m).day == 1;
  }

  /** The month key is midnight of a day that is not after the timestamp, within the same month. */
  lemma MonthStartBounds(ts: int)
    ensures MonthStart(ts) % SecondsPerDay == 0
    ensures MonthStart(ts) <= ts
    ensures Civil(MonthStart(ts) / SecondsPerDay).day == 1
  {
    var d := DayOf(ts);
    MonthStartIsFirstOfMonth(d);
    assert MonthStart(ts) / SecondsPerDay == MonthStartDay(d);
  }
}
