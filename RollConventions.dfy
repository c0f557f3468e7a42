/**
 * Roll conventions: the rule that fixes the day within the month on which
 * regular period boundaries fall. A convention snaps a date to its anchor
 * ('adjust') and steps to the next or previous boundary by a frequency.
 */
module RollConventions {
  import opened Dates
  import opened Frequencies

  type DayOfMonthNumber = n: int | 1 <= n <= 30 witness 1

  const Wednesday: int := 3

  datatype RollConvention =
    /** RollConventions.NONE: no anchor, dates are only stepped by the frequency. */
    | NoRoll
    /** DAY_1 to DAY_30: the given day of month, clamped to the length of short months. */
    | DayOfMonth(day: DayOfMonthNumber)
    /** EOM: the last day of the month. */
    | EndOfMonth
    /** IMM: the third Wednesday of the month. */
    | Imm
    /**
     * A caller-supplied convention whose 'adjust' is the identity and whose
     * 'next' returns its argument unchanged for the first 'stallsLeft' calls
     * and adds the frequency afterwards; the convention keeps that count as
     * state. Stalling(1) is the convention with the 'seen' flag used to
     * provoke duplicate unadjusted dates.
     */
    | Stalling(stallsLeft: nat)

  /** RollConvention.ofDayOfMonth: day 31 is the end-of-month convention. */
  function OfDayOfMonth(day: int): (r: RollConvention)
    requires 1 <= day <= 31
    ensures day == 31 <==> r == EndOfMonth
    ensures day < 31 ==> r == DayOfMonth(day)
  {
    if day == 31 then EndOfMonth else DayOfMonth(day)
  }

  /** Two weeks after the first Wednesday of a month that starts on weekday w is a Wednesday. */
  lemma FirstWednesdayOffset(w: int, k: int, x: int)
    requires 1 <= w <= 7 && k == 1 + (Wednesday - w + 7) % 7 + 13 && x == (w - 1 + k) % 7 + 1
    ensures x == Wednesday
  {
    if w == 1 {} else if w == 2 {} else if w == 3 {} else if w == 4 {}
    else if w == 5 {} else if w == 6 {} else {}
  }

  /** The day of the month of the first Wednesday of the month of the given date. */
  function FirstWednesday(d: LocalDate): (n: int)
    ensures 1 <= n <= 7
  {
    1 + (Wednesday - DayOfWeek(Date(d.year, d.month, 1)) + 7) % 7
  }

  /** The third Wednesday of the month of the given date: two weeks after the first. */
  function ThirdWednesday(d: LocalDate): (r: LocalDate)
    ensures r.year == d.year && r.month == d.month && 15 <= r.day <= 21
  {
    Date(d.year, d.month, FirstWednesday(d) + 14)
  }

  /** The third Wednesday is a Wednesday, the only one between the 15th and the 21st. */
  lemma ThirdWednesdayIsWednesday(d: LocalDate)
    ensures DayOfWeek(ThirdWednesday(d)) == Wednesday
  {
    var first := Date(d.year, d.month, 1);
    var r := ThirdWednesday(d);
    var k := FirstWednesday(d) + 13;
    ThirdWednesdayDayNumber(d);
    DayOfWeekShift(first, r, k);
    FirstWednesdayOffset(DayOfWeek(first), k, DayOfWeek(r));
  }

  /** The third Wednesday is two weeks after the first, counted in days from the first of the month. */
  lemma ThirdWednesdayDayNumber(d: LocalDate)
    ensures EpochDay(ThirdWednesday(d)) == EpochDay(Date(d.year, d.month, 1)) + FirstWednesday(d) + 13
  {
    var first := Date(d.year, d.month, 1);
    var r := ThirdWednesday(d);
    var k := FirstWednesday(d) + 13;
    DayCountWithinMonth(first, r);
    assert r == PlusDays(first, k);
    EpochDayPlusDays(first, k);
  }

  /** Within one month, the n-th day is n - 1 days after the first. */
  lemma DayCountWithinMonth(first: LocalDate, r: LocalDate)
    requires first.day == 1 && r.year == first.year && r.month == first.month
    ensures r == PlusDays(first, r.day - 1)
    decreases r.day
  {
    if r.day > 1 {
      var q := Date(r.year, r.month, r.day - 1);
      DayCountWithinMonth(first, q);
      PlusDaysStepsLast(first, r.day - 2);
      assert NextDay(q) == r;
    }
  }

  /** RollConvention.adjust: snap a date to the convention's anchor in the same month. */
  function Adjust(roll: RollConvention, d: LocalDate): (r: LocalDate)
    ensures r.year == d.year && r.month == d.month
  {
    match roll
    case NoRoll => d
    case DayOfMonth(n) => ClampedDate(d.year, d.month, n)
    case EndOfMonth => LastDayOfMonth(d)
    case Imm => ThirdWednesday(d)
    case Stalling(_) => d
  }

  /** RollConvention.matches: the date is already on the convention's anchor. */
  predicate Matches(roll: RollConvention, d: LocalDate) {
    Adjust(roll, d) == d
  }

  /** Snapping is idempotent: an adjusted date matches the convention. */
  lemma AdjustIdempotent(roll: RollConvention, d: LocalDate)
    ensures Matches(roll, Adjust(roll, d))
  {
    if roll.Imm? {
      assert Date(d.year, d.month, 1) == Date(Adjust(roll, d).year, Adjust(roll, d).month, 1);
    }
  }

  /** How many more calls of Next may leave the date where it is. */
  function StallsLeft(roll: RollConvention): nat {
    if roll.Stalling? then roll.stallsLeft else 0
  }

  /**
   * The convention once its stalls are used up: the one that does move the
   * date forward. Only the stateful convention changes.
   */
  function Settled(roll: RollConvention): (r: RollConvention)
    ensures StallsLeft(r) == 0
    ensures !roll.Stalling? ==> r == roll
  {
    if roll.Stalling? then Stalling(0) else roll
  }

  /**
   * RollConvention.next: the next boundary after the date, as the (possibly
   * updated) convention returns it. The default rule snaps date + frequency
   * and, if that does not move forward, snaps date + 1 month instead.
   */
  function Next(roll: RollConvention, d: LocalDate, f: Frequency): (r: (LocalDate, RollConvention))
    ensures IsAfter(r.0, d) || (r.0 == d && StallsLeft(r.1) < StallsLeft(roll))
    ensures StallsLeft(r.1) <= StallsLeft(roll)
    ensures Matches(r.1, r.0)
    ensures !roll.Stalling? ==> r.1 == roll
  {
    match roll
    case Stalling(k) =>
      if k > 0 then (d, Stalling(k - 1)) else (f.AddTo(d), roll)
    case _ =>
      var calculated := Adjust(roll, f.AddTo(d));
      AdjustIdempotent(roll, f.AddTo(d));
      if IsAfter(calculated, d) then (calculated, roll)
      else
        var fallback := Adjust(roll, PlusMonths(d, 1));
        EarlierMonthIsBefore(d, fallback);
        AdjustIdempotent(roll, PlusMonths(d, 1));
        (fallback, roll)
  }

  /**
   * RollConvention.previous: the previous boundary before the date. The
   * default rule snaps date - frequency and, if that does not move back,
   * snaps date - 1 month instead. No convention overrides it.
   */
  function Previous(roll: RollConvention, d: LocalDate, f: Frequency): (r: LocalDate)
    ensures IsBefore(r, d)
    ensures Matches(roll, r)
  {
    var calculated := Adjust(roll, f.SubtractFrom(d));
    AdjustIdempotent(roll, f.SubtractFrom(d));
    if IsBefore(calculated, d) then calculated
    else
      var fallback := Adjust(roll, PlusMonths(d, -1));
      EarlierMonthIsBefore(fallback, d);
      AdjustIdempotent(roll, PlusMonths(d, -1));
      fallback
  }

  /**
   * A day-of-month convention re-anchors: whatever day the date has (for
   * instance the 28th of February under DAY_30), the next boundary is the
   * convention's day in the month 'months' later, clamped to that month.
   */
  lemma DayOfMonthNextReanchors(n: DayOfMonthNumber, d: LocalDate, months: Positive)
    ensures var r := Next(DayOfMonth(n), d, Months(months)).0;
      MonthIndex(r) == MonthIndex(d) + months && r.day == Min(n, LengthOfMonth(r.year, r.month))
  {
    var c := Adjust(DayOfMonth(n), Months(months).AddTo(d));
    EarlierMonthIsBefore(d, c);
  }

  /** Under EOM the next boundary is the last day of the month 'months' later. */
  lemma EndOfMonthNextIsMonthEnd(d: LocalDate, months: Positive)
    ensures var r := Next(EndOfMonth, d, Months(months)).0;
      MonthIndex(r) == MonthIndex(d) + months && IsLastDayOfMonth(r)
  {
    var c := Adjust(EndOfMonth, Months(months).AddTo(d));
    EarlierMonthIsBefore(d, c);
  }

  /** Under IMM the next boundary is the third Wednesday of the month 'months' later. */
  lemma ImmNextIsThirdWednesday(d: LocalDate, months: Positive)
    ensures var r := Next(Imm, d, Months(months)).0;
      MonthIndex(r) == MonthIndex(d) + months && DayOfWeek(r) == Wednesday && 15 <= r.day <= 21
  {
    var c := Adjust(Imm, Months(months).AddTo(d));
    EarlierMonthIsBefore(d, c);
    ThirdWednesdayIsWednesday(Months(months).AddTo(d));
  }

  /** Stepping back under a day-of-month convention lands on its day, 'months' earlier. */
  lemma DayOfMonthPreviousReanchors(n: DayOfMonthNumber, d: LocalDate, months: Positive)
    ensures var r := Previous(DayOfMonth(n), d, Months(months));
      MonthIndex(r) == MonthIndex(d) - months && r.day == Min(n, LengthOfMonth(r.year, r.month))
  {
    var c := Adjust(DayOfMonth(n), Months(months).SubtractFrom(d));
    EarlierMonthIsBefore(c, d);
  }
}
