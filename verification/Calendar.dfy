/**
 The date arithmetic behind `parse_expiry`: `year_month_day::ok` and the conversion to `sys_days` of section
 [time.cal.ymd] of ISO C++20, and the expiry instant of src/marketdata/model.cpp:82-90.
 */
module Calendar {

  datatype Date = Date(year: int, month: int, day: int)

  predicate IsLeap(y: int) {
    y % 4 == 0 && (y % 100 != 0 || y % 400 == 0)
  }

  function MonthLength(y: int, m: int): int {
    if m == 2 then (if IsLeap(y) then 29 else 28)
    else if m in {4, 6, 9, 11} then 30
    else 31
  }

  function YearLength(y: int): int {
    if IsLeap(y) then 366 else 365
  }

  /** `year_month_day::ok`. */
  predicate IsDate(d: Date) {
    -32767 <= d.year <= 32767 && 1 <= d.month <= 12 && 1 <= d.day <= MonthLength(d.year, d.month)
  }

  /** Leap years up to and including y, counted from year 0 (negative before it). */
  function Leaps(y: int): int {
    y / 4 - y / 100 + y / 400
  }

  /** Days from 1970-01-01 to the first day of the year, by the closed form. */
  function YearStart(y: int): int {
    365 * (y - 1970) + Leaps(y - 1) - Leaps(1969)
  }

  function DaysBeforeMonth(y: int, m: int): int
    requires 1 <= m <= 13
    decreases m
  {
    if m == 1 then 0 else DaysBeforeMonth(y, m - 1) + MonthLength(y, m - 1)
  }

  /** `sys_days{date}`: days since 1970-01-01. */
  function DayNumber(d: Date): int
    requires IsDate(d)
  {
    YearStart(d.year) + DaysBeforeMonth(d.year, d.month) + d.day - 1
  }

  /** The calendar's own successor, which knows nothing of day numbers. */
  function NextDay(d: Date): Date {
    if d.day < MonthLength(d.year, d.month) then d.(day := d.day + 1)
    else if d.month < 12 then Date(d.year, d.month + 1, 1)
    else Date(d.year + 1, 1, 1)
  }

  /** Lexicographic order on year, month and day. */
  predicate Before(a: Date, b: Date) {
    || a.year < b.year
    || (a.year == b.year && a.month < b.month)
    || (a.year == b.year && a.month == b.month && a.day < b.day)
  }

  lemma QuotientStep(y: int, n: int, q: int)
    requires n > 1 && n * q <= y < n * q + n
    ensures (y - 1) / n == if y == n * q then q - 1 else q
    ensures y % n == 0 <==> y == n * q
  {
    if y == n * q {
      Quotient(y - 1, n, q - 1);
    } else {
      Quotient(y - 1, n, q);
    }
    Quotient(y, n, q);
  }

  lemma Quotient(y: int, n: int, q: int)
    requires n > 1 && n * q <= y < n * q + n
    ensures y / n == q && y % n == y - n * q
  {
    var k := y / n;
    assert y == n * k + y % n;
    LessScaled(n, k, q);
    LessScaled(n, q, k);
  }

  lemma LessScaled(n: int, a: int, b: int)
    requires n > 1
    ensures a < b ==> n * a + n <= n * b
  {
    if a < b {
      assert n * (a + 1) <= n * b;
    }
  }

  lemma LeapsStep(y: int)
    ensures Leaps(y) == Leaps(y - 1) + if IsLeap(y) then 1 else 0
  {
    QuotientStep(y, 4, y / 4);
    QuotientStep(y, 100, y / 100);
    QuotientStep(y, 400, y / 400);
  }

  lemma YearStep(y: int)
    ensures YearStart(y + 1) == YearStart(y) + YearLength(y)
  {
    LeapsStep(y);
  }

  lemma {:induction false} YearsAdvance(a: int, b: int)
    requires a < b
    ensures YearStart(a) + YearLength(a) <= YearStart(b)
    decreases b - a
  {
    YearStep(b - 1);
    if a < b - 1 {
      YearsAdvance(a, b - 1);
    }
  }

  lemma TwelveMonths(y: int)
    ensures DaysBeforeMonth(y, 13) == YearLength(y)
  {
    assert DaysBeforeMonth(y, 4) == 59 + (if IsLeap(y) then 1 else 0) + 31;
    assert DaysBeforeMonth(y, 7) == DaysBeforeMonth(y, 4) + 91;
    assert DaysBeforeMonth(y, 10) == DaysBeforeMonth(y, 7) + 92;
    assert DaysBeforeMonth(y, 13) == DaysBeforeMonth(y, 10) + 92;
  }

  lemma {:induction false} MonthsAdvance(y: int, a: int, b: int)
    requires 1 <= a < b <= 13
    ensures DaysBeforeMonth(y, a) + MonthLength(y, a) <= DaysBeforeMonth(y, b)
    decreases b - a
  {
    if a < b - 1 {
      MonthsAdvance(y, a, b - 1);
    }
  }

  /**
   The closed form counts days: 1970-01-01 is day 0 and each next day of the calendar is one more. Together with
   `DateOrder` this fixes the numbering on every valid date.
   */
  lemma DayNumberCounts(d: Date)
    requires IsDate(d) && IsDate(NextDay(d))
    ensures DayNumber(Date(1970, 1, 1)) == 0
    ensures DayNumber(NextDay(d)) == DayNumber(d) + 1
  {
    if d.day == MonthLength(d.year, d.month) && d.month == 12 {
      YearStep(d.year);
      TwelveMonths(d.year);
    }
  }

  lemma InYear(d: Date)
    requires IsDate(d)
    ensures YearStart(d.year) <= DayNumber(d) < YearStart(d.year) + YearLength(d.year)
  {
    StartsAtZero(d.year, d.month);
    MonthsAdvance(d.year, d.month, 13);
    TwelveMonths(d.year);
  }

  lemma EarlierIsSmaller(a: Date, b: Date)
    requires IsDate(a) && IsDate(b) && Before(a, b)
    ensures DayNumber(a) < DayNumber(b)
  {
    if a.year < b.year {
      YearsAdvance(a.year, b.year);
      InYear(a);
      InYear(b);
    } else if a.month < b.month {
      MonthsAdvance(a.year, a.month, b.month);
    }
  }

  lemma {:induction false} StartsAtZero(y: int, m: int)
    requires 1 <= m <= 13
    ensures 0 <= DaysBeforeMonth(y, m)
    decreases m
  {
    if m > 1 {
      StartsAtZero(y, m - 1);
    }
  }

  /** Day numbers order dates exactly as year, month and day do, and distinguish all of them. */
  lemma DateOrder(a: Date, b: Date)
    requires IsDate(a) && IsDate(b)
    ensures Before(a, b) <==> DayNumber(a) < DayNumber(b)
    ensures a == b <==> DayNumber(a) == DayNumber(b)
  {
    if Before(a, b) {
      EarlierIsSmaller(a, b);
    } else if Before(b, a) {
      EarlierIsSmaller(b, a);
    }
  }

  // ---------- The closed form without a month table ----------

  /** Days from 1 March to the first day of the month, in a year that starts in March. */
  function MarchDays(month: int): int {
    (153 * ((month + 9) % 12) + 2) / 5
  }

  /** The civil-from-fields formula: 400-year eras, years from March, no table of months. */
  function CivilDays(d: Date): int {
    var y := d.year - if d.month <= 2 then 1 else 0;
    var era := y / 400;
    var yoe := y - 400 * era;
    146097 * era + 365 * yoe + yoe / 4 - yoe / 100 + MarchDays(d.month) + d.day - 1 - 719468
  }

  lemma EraYears(y: int)
    ensures var era, yoe := y / 400, y - 400 * (y / 400);
            146097 * era + 365 * yoe + yoe / 4 - yoe / 100 == 365 * y + Leaps(y)
  {
    var era, yoe := y / 400, y - 400 * (y / 400);
    Quotient(yoe, 4, yoe / 4);
    Quotient(y, 4, 100 * era + yoe / 4);
    Quotient(y, 100, 4 * era + yoe / 100);
  }

  /** Days before a month, from March on, are what the formula says after the first two months. */
  lemma MonthsFromMarch(y: int, m: int)
    requires 1 <= m <= 12
    ensures DaysBeforeMonth(y, m) == MarchDays(m) + if m <= 2 then -306 else if IsLeap(y) then 60 else 59
    decreases m
  {
    if m > 1 {
      MonthsFromMarch(y, m - 1);
      MarchStep(m - 1);
    }
  }

  lemma MarchStep(m: int)
    requires 1 <= m <= 11
    ensures MarchDays(1) == 306 && MarchDays(2) == 337 && MarchDays(3) == 0
    ensures m != 2 ==> MarchDays(m + 1) - MarchDays(m) == if m in {4, 6, 9, 11} then 30 else 31
  {
    if m <= 4 {
    } else if m <= 8 {
    } else {
    }
  }

  /** `sys_days`, on every valid date, by a formula that shares nothing with the month lengths. */
  lemma DayNumberIsCivil(d: Date)
    requires IsDate(d)
    ensures DayNumber(d) == CivilDays(d)
  {
    CivilFirst(d.year, d.month);
  }

  /** `ok`: a day exists when the month has not ended by the formula's count. */
  lemma DatesAreCivil(d: Date)
    requires -32767 <= d.year <= 32767
    ensures var next := if d.month == 12 then Date(d.year + 1, 1, 1) else Date(d.year, d.month + 1, 1);
            IsDate(d) <==> 1 <= d.month <= 12 && 1 <= d.day && CivilDays(d) < CivilDays(next)
  {
    if 1 <= d.month <= 12 {
      CivilMonth(d.year, d.month);
    }
  }

  lemma CivilMonth(y: int, m: int)
    requires 1 <= m <= 12
    ensures var next := if m == 12 then Date(y + 1, 1, 1) else Date(y, m + 1, 1);
            CivilDays(next) == CivilDays(Date(y, m, 1)) + MonthLength(y, m)
  {
    if m < 12 {
      CivilNext(y, m);
    } else {
      CivilDecember(y);
    }
  }

  lemma CivilNext(y: int, m: int)
    requires 1 <= m <= 11
    ensures CivilDays(Date(y, m + 1, 1)) == CivilDays(Date(y, m, 1)) + MonthLength(y, m)
  {
    CivilFirst(y, m);
    CivilFirst(y, m + 1);
  }

  lemma CivilDecember(y: int)
    ensures CivilDays(Date(y + 1, 1, 1)) == CivilDays(Date(y, 12, 1)) + MonthLength(y, 12)
  {
    CivilFirst(y, 12);
    CivilFirst(y + 1, 1);
    YearStep(y);
    TwelveMonths(y);
  }

  /** The formula in years from March. */
  lemma CivilYears(d: Date)
    ensures var y := d.year - if d.month <= 2 then 1 else 0;
            CivilDays(d) == 365 * y + Leaps(y) + MarchDays(d.month) + d.day - 1 - 719468
  {
    EraYears(d.year - if d.month <= 2 then 1 else 0);
  }

  lemma YearStartIs(y: int)
    ensures YearStart(y) == 365 * y + Leaps(y - 1) - 719527
  {
  }

  /** The two counts of days agree, given what they are made of. */
  lemma CountsAgree(y: int, leaps: int, before: int, leap: bool, early: bool, march: int, start: int, day: int,
                    days: int)
    requires start == 365 * y + before - 719527 && leaps == before + if leap then 1 else 0
    requires days == march + if early then -306 else if leap then 60 else 59
    ensures early ==> start + days + day == 365 * (y - 1) + before + march + day - 719468
    ensures !early ==> start + days + day == 365 * y + leaps + march + day - 719468
  {
  }

  /** The first of a month, by the formula and by counting. */
  lemma CivilFirst(y: int, m: int)
    requires 1 <= m <= 12
    ensures CivilDays(Date(y, m, 1)) == YearStart(y) + DaysBeforeMonth(y, m)
  {
    CivilYears(Date(y, m, 1));
    YearStartIs(y);
    LeapsStep(y);
    MonthsFromMarch(y, m);
    CountsAgree(y, Leaps(y), Leaps(y - 1), IsLeap(y), m <= 2, MarchDays(m), YearStart(y), 0, DaysBeforeMonth(y, m));
  }

  // ---------- Expiries ----------

  const NANOS_PER_HOUR: int := 3_600_000_000_000
  const NANOS_PER_DAY: int := 24 * NANOS_PER_HOUR
  const EXPIRY_HOUR_UTC: int := 8

  /** 08:00 UTC on the date, in nanoseconds since the epoch. */
  function ExpiryOf(d: Date): int
    requires IsDate(d)
  {
    DayNumber(d) * NANOS_PER_DAY + EXPIRY_HOUR_UTC * NANOS_PER_HOUR
  }

  lemma PastDayBoundary(n: int, day: int, past: int)
    requires 0 <= past < day && 1 < day
    ensures (n * day + past) % day == past
  {
    assert n * day == day * n;
    Quotient(n * day + past, day, n);
  }

  lemma ScaleOrder(m: int, n: int)
    ensures m < n <==> m * NANOS_PER_DAY < n * NANOS_PER_DAY
  {
  }

  /** Over the years a symbol can name, an expiry fits a signed 64-bit count of nanoseconds. */
  lemma ExpiryFits(d: Date)
    requires IsDate(d) && 2000 <= d.year <= 2099
    ensures 0 < ExpiryOf(d) < 0x7FFF_FFFF_FFFF_FFFF
  {
    DayRange(d);
  }

  lemma CenturyStarts()
    ensures YearStart(2000) == 10957 && YearStart(2100) == 47482
  {
  }

  lemma DayRange(d: Date)
    requires IsDate(d) && 2000 <= d.year <= 2099
    ensures 10957 <= DayNumber(d) < 47482
  {
    InYear(d);
    CenturyStarts();
    if d.year > 2000 {
      YearsAdvance(2000, d.year);
    }
    YearsAdvance(d.year, 2100);
  }

  /** Expiry order is date order, and every expiry is 8 hours past a day boundary. */
  lemma ExpiryOrder(a: Date, b: Date)
    requires IsDate(a) && IsDate(b)
    ensures Before(a, b) <==> ExpiryOf(a) < ExpiryOf(b)
    ensures a == b <==> ExpiryOf(a) == ExpiryOf(b)
    ensures ExpiryOf(a) % NANOS_PER_DAY == 8 * NANOS_PER_HOUR
  {
    DateOrder(a, b);
    DateOrder(b, a);
    ScaleOrder(DayNumber(a), DayNumber(b));
    ScaleOrder(DayNumber(b), DayNumber(a));
    PastDayBoundary(DayNumber(a), NANOS_PER_DAY, 8 * NANOS_PER_HOUR);
  }

  /** The two instants the repository's tests spell out: 4 September 2026 and 27 June 2025, 08:00 UTC. */
  lemma SpelledOutExpiries()
    ensures ExpiryOf(Date(2026, 9, 4)) == 1788508800 * 1_000_000_000
    ensures ExpiryOf(Date(2025, 6, 27)) == 1751011200 * 1_000_000_000
  {
    assert DaysBeforeMonth(2026, 5) == 120 && DaysBeforeMonth(2026, 9) == 243;
    assert DaysBeforeMonth(2025, 6) == 151;
  }
}
