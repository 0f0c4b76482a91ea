/**
 * Budget periods on the proleptic Gregorian calendar in UTC: the start and the exclusive
 * end of a monthly, weekly or daily period, and the bucket label of its Redis counter.
 * An instant is a number of nanoseconds since 0001-01-01T00:00:00Z, the zero of time.Time;
 * a day number counts days since that date, which was a Monday.
 */
module Calendar {
  import opened Basics

  const DAY: int := 86_400_000_000_000

  type Instant = int

  datatype Period = Monthly | Weekly | Daily

  datatype Date = Date(year: int, month: int, day: int)

  /** The year/month/day, or ISO year/week, part of a Redis counter key. */
  datatype Bucket =
    | MonthOf(year: int, month: int)
    | WeekOf(isoYear: int, week: int)
    | DayOf(year: int, month: int, day: int)

  // ---------------------------------------------------------------- Gregorian calendar

  predicate IsLeap(y: int) {
    y % 4 == 0 && (y % 100 != 0 || y % 400 == 0)
  }

  function YearLength(y: int): int {
    if IsLeap(y) then 366 else 365
  }

  /** Days from 0001-01-01 to January 1 of year y. */
  function NewYear(y: int): int {
    365 * (y - 1) + (y - 1) / 4 - (y - 1) / 100 + (y - 1) / 400
  }

  /** Days of year y before the first of month m; month 13 is the next January. */
  function DaysBefore(y: int, m: int): int
    requires 1 <= m <= 13
  {
    var common := [0, 31, 59, 90, 120, 151, 181, 212, 243, 273, 304, 334, 365][m - 1];
    if m > 2 && IsLeap(y) then common + 1 else common
  }

  /** time.Date at midnight: a day past the end of the month normalises into the next one. */
  function DayNumber(d: Date): int
    requires 1 <= d.month <= 13
  {
    NewYear(d.year) + DaysBefore(d.year, d.month) + d.day - 1
  }

  predicate ValidDate(d: Date) {
    1 <= d.month <= 12 && 1 <= d.day <= DaysBefore(d.year, d.month + 1) - DaysBefore(d.year, d.month)
  }

  /** The year of a day, by 400-, 100-, 4- and 1-year cycles. */
  function Year(n: int): int {
    var r := n % 146_097;
    var c := if r / 36_524 == 4 then 3 else r / 36_524;
    var r1 := r - 36_524 * c;
    var r2 := r1 % 1_461;
    var y := if r2 / 365 == 4 then 3 else r2 / 365;
    400 * (n / 146_097) + 100 * c + 4 * (r1 / 1_461) + y + 1
  }

  /** The month in which day `yday` (from 0) of year y falls. */
  function Month(y: int, yday: int): int {
    if yday < DaysBefore(y, 2) then 1 else if yday < DaysBefore(y, 3) then 2
    else if yday < DaysBefore(y, 4) then 3 else if yday < DaysBefore(y, 5) then 4
    else if yday < DaysBefore(y, 6) then 5 else if yday < DaysBefore(y, 7) then 6
    else if yday < DaysBefore(y, 8) then 7 else if yday < DaysBefore(y, 9) then 8
    else if yday < DaysBefore(y, 10) then 9 else if yday < DaysBefore(y, 11) then 10
    else if yday < DaysBefore(y, 12) then 11 else 12
  }

  function CivilDate(n: int): Date {
    var y := Year(n);
    var yday := n - NewYear(y);
    var m := Month(y, yday);
    Date(y, m, yday - DaysBefore(y, m) + 1)
  }

  /** Multiples of 400 are multiples of 100, and those are multiples of 4. */
  lemma Multiples(y: int)
    ensures y % 400 == 0 ==> y % 100 == 0
    ensures y % 100 == 0 ==> y % 4 == 0
  {
    if y % 400 == 0 { QuotientUnique(y, 100, 4 * (y / 400), 0); }
    if y % 100 == 0 { QuotientUnique(y, 4, 25 * (y / 100), 0); }
  }

  /** Stepping over a multiple of k raises the quotient by one. */
  lemma QuotientStep(x: int, k: int)
    requires k > 1
    ensures (x + 1) / k == x / k + (if (x + 1) % k == 0 then 1 else 0)
  {
    var q, r := x / k, x % k;
    assert x + 1 == q * k + (r + 1);
    if r + 1 == k {
      assert x + 1 == (q + 1) * k;
      QuotientUnique(x + 1, k, q + 1, 0);
    } else {
      QuotientUnique(x + 1, k, q, r + 1);
    }
  }

  lemma NewYearStep(y: int)
    ensures NewYear(y + 1) == NewYear(y) + YearLength(y)
  {
    Multiples(y);
    QuotientStep(y - 1, 4);
    QuotientStep(y - 1, 100);
    QuotientStep(y - 1, 400);
  }

  lemma {:induction false} NewYearMonotone(a: int, b: int)
    requires a < b
    ensures NewYear(a) + 365 <= NewYear(b)
    decreases b - a
  {
    NewYearStep(b - 1);
    if a < b - 1 {
      NewYearMonotone(a, b - 1);
    }
  }

  /** The day number of January 1, in terms of whole 400-, 100-, 4- and 1-year cycles. */
  lemma NewYearOfCycles(a: int, c: int, q: int, y: int)
    requires 0 <= c <= 3 && 0 <= q <= 24 && 0 <= y <= 3
    ensures NewYear(400 * a + 100 * c + 4 * q + y + 1) == 146_097 * a + 36_524 * c + 1_461 * q + 365 * y
  {
    var x := 400 * a + 100 * c + 4 * q + y;
    assert x / 4 == 100 * a + 25 * c + q;
    assert x / 100 == 4 * a + c;
    assert x / 400 == a;
  }

  /** A day falls in its year: between that year's January 1 and the next one's. */
  lemma YearBounds(n: int)
    ensures NewYear(Year(n)) <= n < NewYear(Year(n) + 1)
  {
    hide NewYear;
    var a, r := n / 146_097, n % 146_097;
    var c := if r / 36_524 == 4 then 3 else r / 36_524;
    var r1 := r - 36_524 * c;
    var q, r2 := r1 / 1_461, r1 % 1_461;
    var y := if r2 / 365 == 4 then 3 else r2 / 365;
    assert 0 <= c <= 3 && 0 <= q <= 24 && 0 <= y <= 3;
    NewYearOfCycles(a, c, q, y);
    if y < 3 {
      NewYearOfCycles(a, c, q, y + 1);
    } else if q < 24 {
      NewYearOfCycles(a, c, q + 1, 0);
    } else if c < 3 {
      NewYearOfCycles(a, c + 1, 0, 0);
    } else {
      NewYearOfCycles(a + 1, 0, 0, 0);
    }
  }

  lemma YearUnique(n: int, y: int)
    requires NewYear(y) <= n < NewYear(y + 1)
    ensures Year(n) == y
  {
    YearBounds(n);
    if Year(n) < y {
      if Year(n) + 1 < y { NewYearMonotone(Year(n) + 1, y); }
    } else if y < Year(n) {
      if y + 1 < Year(n) { NewYearMonotone(y + 1, Year(n)); }
    }
  }

  lemma MonthBounds(y: int, yday: int)
    requires 0 <= yday < YearLength(y)
    ensures 1 <= Month(y, yday) <= 12
    ensures DaysBefore(y, Month(y, yday)) <= yday < DaysBefore(y, Month(y, yday) + 1)
  {}

  lemma DaysBeforeMonotone(y: int, a: int, b: int)
    requires 1 <= a < b <= 13
    ensures DaysBefore(y, a) + 28 <= DaysBefore(y, b) <= YearLength(y)
  {}

  /** Every day number is the number of exactly one valid calendar date. */
  lemma CivilDateCorrect(n: int)
    ensures ValidDate(CivilDate(n)) && DayNumber(CivilDate(n)) == n
    ensures forall d: Date :: ValidDate(d) && DayNumber(d) == n ==> d == CivilDate(n)
  {
    YearBounds(n);
    var y := Year(n);
    NewYearStep(y);
    MonthBounds(y, n - NewYear(y));
    forall d: Date | ValidDate(d) && DayNumber(d) == n
      ensures d == CivilDate(n)
    {
      CivilDateUnique(d);
    }
  }

  lemma CivilDateUnique(d: Date)
    requires ValidDate(d)
    ensures CivilDate(DayNumber(d)) == d
  {
    hide NewYear;
    var n := DayNumber(d);
    NewYearStep(d.year);
    if d.month < 12 { DaysBeforeMonotone(d.year, d.month + 1, 13); }
    if d.month > 1 { DaysBeforeMonotone(d.year, 1, d.month); }
    YearUnique(n, d.year);
    MonthBounds(d.year, n - NewYear(d.year));
    var m := Month(d.year, n - NewYear(d.year));
    if m < d.month && m + 1 < d.month { DaysBeforeMonotone(d.year, m + 1, d.month); }
    if d.month < m && d.month + 1 < m { DaysBeforeMonotone(d.year, d.month + 1, m); }
  }

  // ---------------------------------------------------------------- ISO 8601 weeks

  /** time.Weekday: Sunday is 0. Day number 0 is a Monday. */
  function Weekday(n: int): int {
    (n + 1) % 7
  }

  function Monday(n: int): int {
    n - n % 7
  }

  /** time.ISOWeek: the ISO year is the calendar year of the week's Thursday. */
  function IsoYear(n: int): int {
    Year(Monday(n) + 3)
  }

  function IsoWeek(n: int): int {
    (Monday(n) + 3 - NewYear(IsoYear(n))) / 7 + 1
  }

  /** The Monday of week 01 of a year: the week that contains January 4. */
  function WeekOneMonday(y: int): int {
    Monday(NewYear(y) + 3)
  }

  /**
   * Section 4.1.4 of ISO 8601:2004: weeks run from Monday, and week 01 of a year is the week
   * holding January 4. The ISO year of a day is the one whose weeks cover the day, and the
   * week number counts whole weeks from that year's week 01.
   */
  lemma IsoWeekCorrect(n: int)
    ensures WeekOneMonday(IsoYear(n)) <= Monday(n) < WeekOneMonday(IsoYear(n) + 1)
    ensures Monday(n) == WeekOneMonday(IsoYear(n)) + 7 * (IsoWeek(n) - 1)
    ensures 1 <= IsoWeek(n) <= 53
  {
    hide Year, NewYear, IsLeap;
    var thursday, y := Monday(n) + 3, IsoYear(n);
    YearBounds(thursday);
    NewYearStep(y);
    var k := thursday - NewYear(y);
    assert 0 <= k < 366;
    assert Monday(NewYear(y) + 3) + 3 == thursday - 7 * (k / 7);
  }

  /** Two days carry the same (ISO year, week) exactly when they share a Monday. */
  lemma SameIsoWeekIffSameMonday(m: int, n: int)
    ensures IsoYear(m) == IsoYear(n) && IsoWeek(m) == IsoWeek(n) <==> Monday(m) == Monday(n)
  {
    IsoWeekCorrect(m);
    IsoWeekCorrect(n);
  }

  /** Where the calendar stands in the world: the Unix epoch is Thursday, January 1, 1970, in ISO week 1970-W01. */
  lemma UnixEpoch()
    ensures CivilDate(719_162) == Date(1970, 1, 1) && Weekday(719_162) == 4
    ensures IsoYear(719_162) == 1970 && IsoWeek(719_162) == 1
  {
    assert Year(719_162) == 1970 && NewYear(1970) == 719_162;
  }

  // ---------------------------------------------------------------- budget periods

  function DayIndex(t: Instant): int {
    t / DAY
  }

  function Midnight(n: int): Instant {
    n * DAY
  }

  /** time.Truncate(24h): down to a multiple of 24 hours since the zero time. */
  function Truncate(t: Instant): Instant {
    t - t % DAY
  }

  /** Days since the week's Monday, from time.Weekday with Sunday counted as 7. */
  function SinceMonday(weekday: int): int {
    (if weekday == 0 then 7 else weekday) - 1
  }

  function PeriodStart(p: Period, t: Instant): Instant {
    var d := CivilDate(DayIndex(t));
    match p
    case Monthly => Midnight(DayNumber(d.(day := 1)))
    case Weekly => Truncate(t - SinceMonday(Weekday(DayIndex(t))) * DAY)
    case Daily => Midnight(DayNumber(d))
  }

  function PeriodEnd(p: Period, t: Instant): Instant {
    var d := CivilDate(DayIndex(t));
    match p
    case Monthly => Midnight(DayNumber(Date(d.year, d.month + 1, 1)))
    case Weekly => PeriodStart(Weekly, t) + 7 * DAY
    case Daily => Midnight(DayNumber(d.(day := d.day + 1)))
  }

  function BucketOf(p: Period, t: Instant): Bucket {
    var d := CivilDate(DayIndex(t));
    match p
    case Monthly => MonthOf(d.year, d.month)
    case Weekly => WeekOf(IsoYear(DayIndex(t)), IsoWeek(DayIndex(t)))
    case Daily => DayOf(d.year, d.month, d.day)
  }

  /** A daily period lasts 24 hours, a weekly one seven days, a monthly one 28 to 31 days. */
  lemma PeriodLengths(t: Instant)
    ensures PeriodEnd(Daily, t) - PeriodStart(Daily, t) == 24 * 60 * 60 * 1_000_000_000
    ensures PeriodEnd(Weekly, t) - PeriodStart(Weekly, t) == 7 * 24 * 60 * 60 * 1_000_000_000
    ensures 28 * 24 * 60 * 60 * 1_000_000_000 <= PeriodEnd(Monthly, t) - PeriodStart(Monthly, t) <= 31 * 24 * 60 * 60 * 1_000_000_000
  {
    hide CivilDate, NewYear, PeriodStart, PeriodEnd, DayIndex, IsLeap;
    var a, b := PeriodDays(Daily, t);
    var c, d := PeriodDays(Weekly, t);
    var e, f := PeriodDays(Monthly, t);
    CivilDateCorrect(DayIndex(t));
  }

  /** Start and end are midnights, expressed as day numbers. */
  lemma PeriodDays(p: Period, t: Instant) returns (first: int, past: int)
    ensures PeriodStart(p, t) == Midnight(first) && PeriodEnd(p, t) == Midnight(past)
    ensures first <= DayIndex(t) < past
    ensures p == Weekly ==> first == Monday(DayIndex(t)) && past == first + 7
    ensures p == Daily ==> first == DayIndex(t) && past == first + 1
    ensures p == Monthly ==>
              var d := CivilDate(DayIndex(t));
              first == NewYear(d.year) + DaysBefore(d.year, d.month) &&
              past == NewYear(d.year) + DaysBefore(d.year, d.month + 1)
  {
    hide CivilDate, NewYear, DaysBefore;
    var n := DayIndex(t);
    CivilDateCorrect(n);
    var d := CivilDate(n);
    match p
    case Monthly =>
      first, past := DayNumber(d.(day := 1)), DayNumber(Date(d.year, d.month + 1, 1));
    case Weekly =>
      first, past := Monday(n), Monday(n) + 7;
      assert SinceMonday(Weekday(n)) == n % 7;
      assert t - (n % 7) * DAY == Monday(n) * DAY + t % DAY;
    case Daily =>
      first, past := n, n + 1;
  }

  /** Two days lie in the same calendar month exactly when one lies within the other's month. */
  lemma SameMonthIff(m: int, n: int)
    ensures var d := CivilDate(n);
            var e := CivilDate(m);
            1 <= d.month <= 12 &&
            (e.year == d.year && e.month == d.month <==>
             NewYear(d.year) + DaysBefore(d.year, d.month) <= m < NewYear(d.year) + DaysBefore(d.year, d.month + 1))
  {
    CivilDateCorrect(m);
    CivilDateCorrect(n);
    var d := CivilDate(n);
    var first := NewYear(d.year) + DaysBefore(d.year, d.month);
    if first <= m < NewYear(d.year) + DaysBefore(d.year, d.month + 1) {
      CivilDateUnique(Date(d.year, d.month, m - first + 1));
    }
  }

  /** A period contains its own instant, and its bucket holds exactly the instants of the period. */
  lemma BucketIsPeriod(p: Period, t: Instant, u: Instant)
    ensures PeriodStart(p, t) <= t < PeriodEnd(p, t)
    ensures BucketOf(p, u) == BucketOf(p, t) <==> PeriodStart(p, t) <= u < PeriodEnd(p, t)
  {
    hide CivilDate, NewYear, DaysBefore, IsoYear, IsoWeek, PeriodStart, PeriodEnd, DayIndex, Midnight;
    var first, past := PeriodDays(p, t);
    Between(first, past, t);
    Between(first, past, u);
    match p
    case Monthly => SameMonthIff(DayIndex(u), DayIndex(t));
    case Weekly => SameIsoWeekIffSameMonday(DayIndex(u), DayIndex(t));
    case Daily =>
      CivilDateCorrect(DayIndex(u));
      CivilDateCorrect(DayIndex(t));
  }

  lemma Between(first: int, past: int, t: Instant)
    ensures Midnight(first) <= t < Midnight(past) <==> first <= DayIndex(t) < past
  {}

  /** Two instants share a Redis bucket label exactly when they share a period start. */
  lemma SameBucketIffSameStart(p: Period, t: Instant, u: Instant)
    ensures BucketOf(p, t) == BucketOf(p, u) <==> PeriodStart(p, t) == PeriodStart(p, u)
  {
    BucketIsPeriod(p, t, u);
    BucketIsPeriod(p, u, t);
    if PeriodStart(p, t) == PeriodStart(p, u) {
      BucketIsPeriod(p, t, PeriodStart(p, t));
      BucketIsPeriod(p, u, PeriodStart(p, u));
    }
    if BucketOf(p, t) == BucketOf(p, u) {
      SameBucketSameStart(p, t, u);
    }
  }

  lemma SameBucketSameStart(p: Period, t: Instant, u: Instant)
    requires BucketOf(p, t) == BucketOf(p, u)
    ensures PeriodStart(p, t) == PeriodStart(p, u)
  {
    var first, past := PeriodDays(p, t);
    var first', past' := PeriodDays(p, u);
    match p
    case Monthly =>
    case Weekly => SameIsoWeekIffSameMonday(DayIndex(u), DayIndex(t));
    case Daily =>
      CivilDateCorrect(DayIndex(u));
      CivilDateCorrect(DayIndex(t));
  }

  /** The periods tile the time line: the end of one is the start of the next. */
  lemma EndStartsNextPeriod(p: Period, t: Instant)
    ensures PeriodStart(p, PeriodEnd(p, t)) == PeriodEnd(p, t)
  {
    hide CivilDate, NewYear, IsLeap, PeriodStart, PeriodEnd;
    var first, past := PeriodDays(p, t);
    var end := PeriodEnd(p, t);
    assert DayIndex(end) == past && end % DAY == 0;
    var first', past' := PeriodDays(p, end);
    if p == Monthly {
      var d := CivilDate(DayIndex(t));
      CivilDateCorrect(DayIndex(t));
      NewYearStep(d.year);
      CivilDateUnique(if d.month == 12 then Date(d.year + 1, 1, 1) else Date(d.year, d.month + 1, 1));
    }
  }

  // ---------------------------------------------------------------- other time zones

  /** The weekly start for a clock `zone` nanoseconds east of UTC: weekday local, truncation UTC. */
  function ZonedWeekStart(zone: int, t: Instant): Instant {
    Truncate(t - SinceMonday(Weekday(DayIndex(t + zone))) * DAY)
  }

  function ZonedWeekBucket(zone: int, t: Instant): Bucket {
    BucketOf(Weekly, t + zone)
  }

  ghost predicate ZonedWeeksAgree(zone: int) {
    forall t: Instant, u: Instant ::
      ZonedWeekBucket(zone, t) == ZonedWeekBucket(zone, u) <==> ZonedWeekStart(zone, t) == ZonedWeekStart(zone, u)
  }

  /**
   * Weekly labels and weekly starts agree only where local midnight is a UTC midnight:
   * for every other zone two instants of one local Monday get different starts.
   */
  lemma ZonedWeeksAgreeIffUtcMidnight(zone: int)
    ensures ZonedWeeksAgree(zone) <==> zone % DAY == 0
  {
    hide PeriodStart, BucketOf, ZonedWeekStart;
    if zone % DAY == 0 {
      forall t: Instant, u: Instant
        ensures ZonedWeekBucket(zone, t) == ZonedWeekBucket(zone, u) <==> ZonedWeekStart(zone, t) == ZonedWeekStart(zone, u)
      {
        ZonedStart(zone, t);
        ZonedStart(zone, u);
        SameBucketIffSameStart(Weekly, t + zone, u + zone);
      }
    } else {
      var t, u := MondaySplit(zone);
    }
  }

  lemma ZonedStart(zone: int, t: Instant)
    requires zone % DAY == 0
    ensures ZonedWeekStart(zone, t) == PeriodStart(Weekly, t + zone) - zone
  {
    var x := t - SinceMonday(Weekday(DayIndex(t + zone))) * DAY;
    assert (x + zone) % DAY == x % DAY;
  }

  /** In such a zone, local Monday has an early and a late instant with different starts. */
  lemma MondaySplit(zone: int) returns (t: Instant, u: Instant)
    requires zone % DAY != 0
    ensures ZonedWeekBucket(zone, t) == ZonedWeekBucket(zone, u)
    ensures ZonedWeekStart(zone, t) != ZonedWeekStart(zone, u)
  {
    hide IsoYear, IsoWeek, CivilDate;
    t := -zone;
    u := t + zone % DAY;
    assert DayIndex(t + zone) == 0 && DayIndex(u + zone) == 0;
    assert SinceMonday(Weekday(0)) == 0;
    assert Truncate(u) == u && Truncate(t) < u;
  }
}
