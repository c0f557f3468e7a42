/**
 * ISO calendar dates as used by the schedule generator: a (year, month, day)
 * triple that is always a real calendar day, the arithmetic the generator needs
 * (adding months with end-of-month clamping, stepping by days), the day of the
 * week, and the chronological order.
 */
module Dates {

  function IsLeapYear(year: int): bool {
    year % 4 == 0 && (year % 100 != 0 || year % 400 == 0)
  }

  function LengthOfMonth(year: int, month: int): (n: int)
    requires 1 <= month <= 12
    ensures 28 <= n <= 31
    ensures n == 29 <==> month == 2 && IsLeapYear(year)
  {
    if month == 2 then (if IsLeapYear(year) then 29 else 28)
    else if month == 4 || month == 6 || month == 9 || month == 11 then 30
    else 31
  }

  datatype Date = Date(year: int, month: int, day: int) {
    predicate IsValid() {
      1 <= month <= 12 && 1 <= day <= LengthOfMonth(year, month)
    }
  }

  /** A date that exists in the calendar. */
  type LocalDate = d: Date | d.IsValid() witness Date(1970, 1, 1)

  /** Number of the month (year * 12 + month), so that consecutive months differ by one. */
  function MonthIndex(d: LocalDate): int {
    d.year * 12 + d.month
  }

  /**
   * A number that orders dates chronologically. It is not a day count: it
   * leaves gaps at the end of short months, but it is strictly monotone.
   */
  function Key(d: LocalDate): int {
    MonthIndex(d) * 32 + d.day
  }

  predicate IsBefore(a: LocalDate, b: LocalDate) {
    Key(a) < Key(b)
  }

  predicate IsAfter(a: LocalDate, b: LocalDate) {
    Key(b) < Key(a)
  }

  /** The key determines the date, so the order is a total order on dates. */
  lemma KeyInjective(a: LocalDate, b: LocalDate)
    requires Key(a) == Key(b)
    ensures a == b
  {
  }

  /** Of two dates, one is before the other or they are the same. */
  lemma Trichotomy(a: LocalDate, b: LocalDate)
    ensures IsBefore(a, b) || a == b || IsBefore(b, a)
  {
    if Key(a) == Key(b) {
      KeyInjective(a, b);
    }
  }

  /** Dates of an earlier month are before dates of a later month, whatever their days. */
  lemma EarlierMonthIsBefore(a: LocalDate, b: LocalDate)
    requires MonthIndex(a) < MonthIndex(b)
    ensures IsBefore(a, b)
  {
    assert Key(a) <= MonthIndex(a) * 32 + 31 < (MonthIndex(a) + 1) * 32 <= Key(b);
  }

  lemma BeforeMeansNotLaterMonth(a: LocalDate, b: LocalDate)
    requires IsBefore(a, b)
    ensures MonthIndex(a) <= MonthIndex(b)
  {
    if MonthIndex(b) < MonthIndex(a) {
      EarlierMonthIsBefore(b, a);
    }
  }

  function Min(a: int, b: int): int {
    if a <= b then a else b
  }

  /** The date in the given month on the given day, clamped to the length of the month. */
  function ClampedDate(year: int, month: int, day: int): (r: LocalDate)
    requires 1 <= month <= 12 && 1 <= day
    ensures r.year == year && r.month == month
    ensures r.day == day || (day > LengthOfMonth(year, month) && r.day == LengthOfMonth(year, month))
  {
    Date(year, month, Min(day, LengthOfMonth(year, month)))
  }

  function LastDayOfMonth(d: LocalDate): (r: LocalDate)
    ensures r.year == d.year && r.month == d.month && !IsBefore(r, d)
    ensures forall e: LocalDate {:trigger IsBefore(r, e)} :: MonthIndex(e) == MonthIndex(d) ==> !IsBefore(r, e)
  {
    Date(d.year, d.month, LengthOfMonth(d.year, d.month))
  }

  predicate IsLastDayOfMonth(d: LocalDate) {
    d.day == LengthOfMonth(d.year, d.month)
  }

  /**
   * Adds a number of months (negative to subtract), keeping the day of month
   * and clamping it to the length of the resulting month, as java.time does.
   */
  function PlusMonths(d: LocalDate, months: int): (r: LocalDate)
    ensures MonthIndex(r) == MonthIndex(d) + months
    ensures r.day == Min(d.day, LengthOfMonth(r.year, r.month))
  {
    var total := d.year * 12 + (d.month - 1) + months;
    ClampedDate(total / 12, total % 12 + 1, d.day)
  }

  lemma PlusMonthsIsAfter(d: LocalDate, months: int)
    requires months > 0
    ensures IsAfter(PlusMonths(d, months), d)
  {
    EarlierMonthIsBefore(d, PlusMonths(d, months));
  }

  lemma MinusMonthsIsBefore(d: LocalDate, months: int)
    requires months > 0
    ensures IsBefore(PlusMonths(d, -months), d)
  {
    EarlierMonthIsBefore(PlusMonths(d, -months), d);
  }

  /** The day after, in the calendar. */
  function NextDay(d: LocalDate): (r: LocalDate)
    ensures IsAfter(r, d)
  {
    if d.day < LengthOfMonth(d.year, d.month) then Date(d.year, d.month, d.day + 1)
    else if d.month < 12 then Date(d.year, d.month + 1, 1)
    else Date(d.year + 1, 1, 1)
  }

  /** The day before, in the calendar. */
  function PreviousDay(d: LocalDate): (r: LocalDate)
    ensures IsBefore(r, d)
  {
    if d.day > 1 then Date(d.year, d.month, d.day - 1)
    else if d.month > 1 then Date(d.year, d.month - 1, LengthOfMonth(d.year, d.month - 1))
    else Date(d.year - 1, 12, 31)
  }

  /** No date lies strictly between a date and the day after. */
  lemma NextDayIsImmediate(d: LocalDate, e: LocalDate)
    requires IsBefore(d, e)
    ensures !IsBefore(e, NextDay(d))
  {
    BeforeMeansNotLaterMonth(d, e);
    if MonthIndex(e) == MonthIndex(d) {
      assert e.year == d.year && e.month == d.month && e.day > d.day;
      assert NextDay(d) == Date(d.year, d.month, d.day + 1);
    } else {
      var n := NextDay(d);
      assert MonthIndex(n) <= MonthIndex(d) + 1;
      assert MonthIndex(n) == MonthIndex(d) + 1 ==> n.day == 1;
    }
  }

  /** No date lies strictly between the day before a date and the date. */
  lemma PreviousDayIsImmediate(d: LocalDate, e: LocalDate)
    requires IsBefore(e, d)
    ensures !IsBefore(PreviousDay(d), e)
  {
    BeforeMeansNotLaterMonth(e, d);
    if MonthIndex(e) == MonthIndex(d) {
      assert e.year == d.year && e.month == d.month && e.day < d.day;
      assert PreviousDay(d) == Date(d.year, d.month, d.day - 1);
    } else {
      var p := PreviousDay(d);
      assert MonthIndex(p) >= MonthIndex(d) - 1;
      assert MonthIndex(p) == MonthIndex(d) - 1 ==> p.day == LengthOfMonth(p.year, p.month);
    }
  }

  function PlusDays(d: LocalDate, days: nat): (r: LocalDate)
    ensures days > 0 ==> IsAfter(r, d)
    ensures days == 0 ==> r == d
    decreases days
  {
    if days == 0 then d else PlusDays(NextDay(d), days - 1)
  }

  function MinusDays(d: LocalDate, days: nat): (r: LocalDate)
    ensures days > 0 ==> IsBefore(r, d)
    ensures days == 0 ==> r == d
    decreases days
  {
    if days == 0 then d else MinusDays(PreviousDay(d), days - 1)
  }

  /** Days in the months of a March-based year before the given one (0 = March, 11 = February). */
  function DaysBeforeMonth(mp: int): int {
    if mp <= 0 then 0 else if mp == 1 then 31 else if mp == 2 then 61 else if mp == 3 then 92
    else if mp == 4 then 122 else if mp == 5 then 153 else if mp == 6 then 184 else if mp == 7 then 214
    else if mp == 8 then 245 else if mp == 9 then 275 else if mp == 10 then 306 else 337
  }

  /** The number of leap days in the years 1 to y of the proleptic Gregorian calendar. */
  function LeapDays(y: int): int {
    y / 4 - y / 100 + y / 400
  }

  /**
   * Days since 1970-01-01 (the proleptic Gregorian calendar counted with a
   * March-based year so that the leap day is last).
   */
  function EpochDay(d: LocalDate): int {
    var y := if d.month <= 2 then d.year - 1 else d.year;
    var mp := if d.month <= 2 then d.month + 9 else d.month - 3;
    365 * y + LeapDays(y) + DaysBeforeMonth(mp) + d.day - 719469
  }

  /** A year has a leap day at its end (in its February) exactly when it is a leap year. */
  lemma LeapDaysStep(y: int)
    ensures LeapDays(y) - LeapDays(y - 1) == if IsLeapYear(y) then 1 else 0
  {
    QuotientStep4(y);
    QuotientStep100(y);
    QuotientStep400(y);
    if y % 100 == 0 {
      assert y == 4 * (25 * (y / 100));
    }
    if y % 400 == 0 {
      assert y == 100 * (4 * (y / 400));
    }
  }

  // One more than a number is a multiple of k exactly when the quotient by k goes up.
  lemma QuotientStep4(y: int)
    ensures y / 4 - (y - 1) / 4 == if y % 4 == 0 then 1 else 0
  {
    var q := (y - 1) / 4;
    var r := (y - 1) % 4;
    assert y - 1 == 4 * q + r && 0 <= r < 4;
    if r == 3 {
      assert y == 4 * (q + 1);
    } else {
      assert y == 4 * q + (r + 1);
    }
  }

  lemma QuotientStep100(y: int)
    ensures y / 100 - (y - 1) / 100 == if y % 100 == 0 then 1 else 0
  {
    var q := (y - 1) / 100;
    var r := (y - 1) % 100;
    assert y - 1 == 100 * q + r && 0 <= r < 100;
    if r == 99 {
      assert y == 100 * (q + 1);
    } else {
      assert y == 100 * q + (r + 1);
    }
  }

  lemma QuotientStep400(y: int)
    ensures y / 400 - (y - 1) / 400 == if y % 400 == 0 then 1 else 0
  {
    var q := (y - 1) / 400;
    var r := (y - 1) % 400;
    assert y - 1 == 400 * q + r && 0 <= r < 400;
    if r == 399 {
      assert y == 400 * (q + 1);
    } else {
      assert y == 400 * q + (r + 1);
    }
  }

  /** Consecutive calendar days have consecutive day numbers. */
  lemma EpochDayOfNextDay(d: LocalDate)
    ensures EpochDay(NextDay(d)) == EpochDay(d) + 1
  {
    if d.day < LengthOfMonth(d.year, d.month) {
      NextDayInMonth(d);
    } else if d.month == 2 {
      NextDayAfterFebruary(d);
    } else if d.month < 12 {
      NextDayInNextMonth(d);
    } else {
      NextDayInNextYear(d);
    }
  }

  lemma NextDayInMonth(d: LocalDate)
    requires d.day < LengthOfMonth(d.year, d.month)
    ensures EpochDay(NextDay(d)) == EpochDay(d) + 1
  {
  }

  lemma NextDayAfterFebruary(d: LocalDate)
    requires d.day == LengthOfMonth(d.year, d.month) && d.month == 2
    ensures EpochDay(NextDay(d)) == EpochDay(d) + 1
  {
    LeapDaysStep(d.year);
  }

  lemma NextDayInNextMonth(d: LocalDate)
    requires d.day == LengthOfMonth(d.year, d.month) && d.month != 2 && d.month < 12
    ensures EpochDay(NextDay(d)) == EpochDay(d) + 1
  {
  }

  lemma NextDayInNextYear(d: LocalDate)
    requires d.day == LengthOfMonth(d.year, d.month) && d.month == 12
    ensures EpochDay(NextDay(d)) == EpochDay(d) + 1
  {
  }

  /** Stepping back a day and then forward a day is the identity. */
  lemma NextDayOfPreviousDay(d: LocalDate)
    ensures NextDay(PreviousDay(d)) == d
  {
    var p := PreviousDay(d);
    if d.day == 1 && d.month > 1 {
      assert p.day == LengthOfMonth(d.year, d.month - 1);
    }
  }

  lemma {:induction false} EpochDayPlusDays(d: LocalDate, days: nat)
    ensures EpochDay(PlusDays(d, days)) == EpochDay(d) + days
    decreases days
  {
    if days > 0 {
      EpochDayOfNextDay(d);
      EpochDayPlusDays(NextDay(d), days - 1);
    }
  }

  /** Stepping forward a number of days is the last step after stepping one day fewer. */
  lemma {:induction false} PlusDaysStepsLast(d: LocalDate, days: nat)
    ensures PlusDays(d, days + 1) == NextDay(PlusDays(d, days))
    decreases days
  {
    if days > 0 {
      PlusDaysStepsLast(NextDay(d), days - 1);
    }
  }

  /** Stepping back a number of days and then forward as many is the identity. */
  lemma {:induction false} PlusDaysOfMinusDays(d: LocalDate, days: nat)
    ensures PlusDays(MinusDays(d, days), days) == d
    decreases days
  {
    if days > 0 {
      var p := PreviousDay(d);
      var m := MinusDays(p, days - 1);
      assert MinusDays(d, days) == m;
      PlusDaysOfMinusDays(p, days - 1);
      PlusDaysStepsLast(m, days - 1);
      NextDayOfPreviousDay(d);
    }
  }

  lemma EpochDayMinusDays(d: LocalDate, days: nat)
    ensures EpochDay(MinusDays(d, days)) == EpochDay(d) - days
  {
    PlusDaysOfMinusDays(d, days);
    EpochDayPlusDays(MinusDays(d, days), days);
  }

  /** The day of the week, 1 (Monday) to 7 (Sunday); 1970-01-01 was a Thursday. */
  function DayOfWeek(d: LocalDate): (w: int)
    ensures 1 <= w <= 7
  {
    (EpochDay(d) + 3) % 7 + 1
  }

  predicate IsWeekend(d: LocalDate) {
    DayOfWeek(d) >= 6
  }

  /** Dates a fixed number of days apart are that many days apart in the week too. */
  lemma DayOfWeekShift(d: LocalDate, r: LocalDate, k: int)
    requires EpochDay(r) == EpochDay(d) + k
    ensures DayOfWeek(r) == (DayOfWeek(d) - 1 + k) % 7 + 1
  {
    var a := EpochDay(d) + 3;
    ModSevenShift(a, k);
    assert DayOfWeek(d) - 1 == a % 7;
    assert DayOfWeek(r) == (a + k) % 7 + 1;
  }

  lemma ModSevenShift(a: int, k: int)
    ensures (a + k) % 7 == (a % 7 + k) % 7
  {
    var q := a / 7;
    assert a == 7 * q + a % 7;
    assert a + k == 7 * q + (a % 7 + k);
  }
}
