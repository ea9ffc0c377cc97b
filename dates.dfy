/**
 * The proleptic Gregorian calendar that Python's `date` and `datetime` use:
 * dates as (year, month, day), ordinal day numbers (0001-01-01 is day 1, as
 * `date.toordinal`), `date + timedelta(days = k)`, comparison, and naive
 * timestamps as a date plus the seconds elapsed since midnight.
 */
module Dates {

  datatype Date = Date(year: int, month: int, day: int)

  /** A naive `datetime` with whole-second precision. */
  datatype Timestamp = Timestamp(date: Date, seconds: int)

  predicate IsLeapYear(y: int) {
    y % 4 == 0 && (y % 100 != 0 || y % 400 == 0)
  }

  function DaysInMonth(y: int, m: int): (n: int)
    requires 1 <= m <= 12
    ensures 28 <= n <= 31
  {
    if m == 2 then (if IsLeapYear(y) then 29 else 28)
    else if m == 4 || m == 6 || m == 9 || m == 11 then 30
    else 31
  }

  predicate ValidDate(d: Date) {
    1 <= d.month <= 12 && 1 <= d.day <= DaysInMonth(d.year, d.month)
  }

  predicate ValidTimestamp(t: Timestamp) {
    ValidDate(t.date) && 0 <= t.seconds < 86400
  }

  /** Days in the months of year `y` that come before month `m` (m = 13: the whole year). */
  function DaysBeforeMonth(y: int, m: int): nat
    requires 1 <= m <= 13
  {
    if m == 1 then 0 else DaysBeforeMonth(y, m - 1) + DaysInMonth(y, m - 1)
  }

  function DaysInYear(y: int): nat {
    DaysBeforeMonth(y, 13)
  }

  /** Days from 0001-01-01 up to January 1 of year `y` (negative before year 1). */
  function DaysBeforeYear(y: int): int
    decreases if y >= 1 then y - 1 else 1 - y
  {
    if y == 1 then 0
    else if y > 1 then DaysBeforeYear(y - 1) + DaysInYear(y - 1)
    else DaysBeforeYear(y + 1) - DaysInYear(y)
  }

  /** Python's `date.toordinal()`. */
  function Ordinal(d: Date): int
    requires 1 <= d.month <= 12
  {
    DaysBeforeYear(d.year) + DaysBeforeMonth(d.year, d.month) + d.day
  }

  /** Python's `date < date`: the (year, month, day) tuples compared in order. */
  predicate Before(a: Date, b: Date) {
    a.year < b.year
    || (a.year == b.year && (a.month < b.month || (a.month == b.month && a.day < b.day)))
  }

  predicate NotAfter(a: Date, b: Date) {
    Before(a, b) || a == b
  }

  /** `datetime < datetime` for naive timestamps. */
  predicate StampBefore(a: Timestamp, b: Timestamp) {
    Before(a.date, b.date) || (a.date == b.date && a.seconds < b.seconds)
  }

  /** `datetime.combine(d, datetime.min.time())`. */
  function Midnight(d: Date): Timestamp {
    Timestamp(d, 0)
  }

  /** The day after `d`. */
  function NextDay(d: Date): (r: Date)
    requires ValidDate(d)
    ensures ValidDate(r) && Ordinal(r) == Ordinal(d) + 1
  {
    NextDayOrdinal(d);
    if d.day < DaysInMonth(d.year, d.month) then Date(d.year, d.month, d.day + 1)
    else if d.month < 12 then Date(d.year, d.month + 1, 1)
    else Date(d.year + 1, 1, 1)
  }

  lemma NextDayOrdinal(d: Date)
    requires ValidDate(d)
    ensures d.day < DaysInMonth(d.year, d.month) ==>
      Ordinal(Date(d.year, d.month, d.day + 1)) == Ordinal(d) + 1
    ensures d.day == DaysInMonth(d.year, d.month) && d.month < 12 ==>
      Ordinal(Date(d.year, d.month + 1, 1)) == Ordinal(d) + 1
    ensures d.day == DaysInMonth(d.year, d.month) && d.month == 12 ==>
      Ordinal(Date(d.year + 1, 1, 1)) == Ordinal(d) + 1
  {
    if d.day == DaysInMonth(d.year, d.month) && d.month == 12 {
      NewYearOrdinal(d.year);
    }
  }

  /** January 1 follows December 31 of the year before. */
  lemma NewYearOrdinal(y: int)
    ensures Ordinal(Date(y + 1, 1, 1)) == Ordinal(Date(y, 12, 31)) + 1
  {
    YearLength(y);
    assert DaysInYear(y) == DaysBeforeMonth(y, 12) + 31;
  }

  /** `d + timedelta(days = k)` for k >= 0. */
  function AddDays(d: Date, k: nat): (r: Date)
    requires ValidDate(d)
    ensures ValidDate(r) && Ordinal(r) == Ordinal(d) + k
    decreases k
  {
    if k == 0 then d else AddDays(NextDay(d), k - 1)
  }

  /** A year's days take the ordinal from its January 1 to the next year's. */
  lemma YearLength(y: int)
    ensures DaysBeforeYear(y + 1) == DaysBeforeYear(y) + DaysInYear(y)
  {
    if y < 0 {
      assert DaysBeforeYear(y) == DaysBeforeYear(y + 1) - DaysInYear(y);
    }
  }

  /** Every day of year `y` has an ordinal within that year's span. */
  lemma OrdinalWithinYear(d: Date)
    requires ValidDate(d)
    ensures DaysBeforeYear(d.year) < Ordinal(d) <= DaysBeforeYear(d.year + 1)
  {
    MonthsBeforeGrow(d.year, d.month, 13);
    YearLength(d.year);
  }

  lemma {:induction false} MonthsBeforeGrow(y: int, m1: int, m2: int)
    requires 1 <= m1 < m2 <= 13
    ensures DaysBeforeMonth(y, m1) + DaysInMonth(y, m1) <= DaysBeforeMonth(y, m2)
  {
    if m1 + 1 < m2 {
      MonthsBeforeGrow(y, m1, m2 - 1);
    }
  }

  lemma {:induction false} YearsBeforeGrow(y1: int, y2: int)
    requires y1 < y2
    ensures DaysBeforeYear(y1 + 1) <= DaysBeforeYear(y2)
    decreases y2 - y1
  {
    if y1 + 1 < y2 {
      YearsBeforeGrow(y1, y2 - 1);
      YearLength(y2 - 1);
    }
  }

  /** Python's tuple comparison of dates agrees with comparing their ordinals. */
  lemma BeforeIsOrdinalOrder(a: Date, b: Date)
    requires ValidDate(a) && ValidDate(b)
    ensures Before(a, b) <==> Ordinal(a) < Ordinal(b)
    ensures a == b <==> Ordinal(a) == Ordinal(b)
  {
    if Before(a, b) {
      EarlierOrdinal(a, b);
    } else if Before(b, a) {
      EarlierOrdinal(b, a);
    } else {
      assert a == b;
    }
  }

  lemma EarlierOrdinal(a: Date, b: Date)
    requires ValidDate(a) && ValidDate(b) && Before(a, b)
    ensures Ordinal(a) < Ordinal(b)
  {
    if a.year < b.year {
      OrdinalWithinYear(a);
      OrdinalWithinYear(b);
      YearsBeforeGrow(a.year, b.year);
    } else if a.month < b.month {
      MonthsBeforeGrow(a.year, a.month, b.month);
    }
  }

  lemma NotAfterIsOrdinalOrder(a: Date, b: Date)
    requires ValidDate(a) && ValidDate(b)
    ensures NotAfter(a, b) <==> Ordinal(a) <= Ordinal(b)
  {
    BeforeIsOrdinalOrder(a, b);
  }

  /** Adding a positive number of days moves strictly forward. */
  lemma AddDaysMovesForward(d: Date, k: nat)
    requires ValidDate(d) && k > 0
    ensures Before(d, AddDays(d, k))
  {
    BeforeIsOrdinalOrder(d, AddDays(d, k));
  }

  /** `datetime >= combine(d, midnight)` holds exactly when the timestamp's date is not before `d`. */
  lemma FromMidnight(t: Timestamp, d: Date)
    requires ValidTimestamp(t)
    ensures !StampBefore(t, Midnight(d)) <==> NotAfter(d, t.date)
  {
  }

  /** `datetime < combine(d, midnight)` holds exactly when the timestamp's date is before `d`. */
  lemma BeforeMidnight(t: Timestamp, d: Date)
    requires ValidTimestamp(t)
    ensures StampBefore(t, Midnight(d)) <==> Before(t.date, d)
  {
  }

  /** The months since year 0, counting from 0: the `year * 12 + month` index a calendar month is known by. */
  function MonthIndex(d: Date): int {
    d.year * 12 + (d.month - 1)
  }

  /** Day 1 of the month with index `i`. */
  function MonthOfIndex(i: int): (r: Date)
    ensures ValidDate(r) && r.day == 1 && MonthIndex(r) == i
  {
    Date(i / 12, i % 12 + 1, 1)
  }

  /** Calendar months follow the date order. */
  lemma MonthIndexMonotone(a: Date, b: Date)
    requires ValidDate(a) && ValidDate(b) && NotAfter(a, b)
    ensures MonthIndex(a) <= MonthIndex(b)
  {
  }

  /** Two valid dates share their (year, month) exactly when they share their month index. */
  lemma MonthIndexInjective(a: Date, b: Date)
    requires 1 <= a.month <= 12 && 1 <= b.month <= 12
    ensures MonthIndex(a) == MonthIndex(b) <==> (a.year == b.year && a.month == b.month)
  {
  }

  /** A month with a smaller index is an earlier month. */
  lemma MonthIndexBefore(a: Date, b: Date)
    requires 1 <= a.month <= 12 && 1 <= b.month <= 12
    requires MonthIndex(a) < MonthIndex(b)
    ensures Before(a, b)
  {
  }
}
