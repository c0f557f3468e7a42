/**
 * Business-day adjustment: a business-day convention applied against a
 * holiday calendar. Only the calendars the schedule examples use are
 * modelled: no holidays at all, and Saturday/Sunday weekends (SAT_SUN).
 */
module BusinessDays {
  import opened Dates

  const Saturday: int := 6

  datatype HolidayCalendar = NoHolidays | SatSun {
    predicate IsHoliday(d: LocalDate) {
      SatSun? && IsWeekend(d)
    }

    predicate IsBusinessDay(d: LocalDate) {
      !IsHoliday(d)
    }

    /** The date itself if it is a business day, else the first business day after it. */
    function NextOrSame(d: LocalDate): (r: LocalDate)
      ensures !IsBefore(r, d)
      ensures IsBusinessDay(d) ==> r == d
    {
      if !IsHoliday(d) then d
      else if DayOfWeek(d) == Saturday then PlusDays(d, 2) else PlusDays(d, 1)
    }

    /** The date itself if it is a business day, else the last business day before it. */
    function PreviousOrSame(d: LocalDate): (r: LocalDate)
      ensures !IsAfter(r, d)
      ensures IsBusinessDay(d) ==> r == d
    {
      if !IsHoliday(d) then d
      else if DayOfWeek(d) == Saturday then MinusDays(d, 1) else MinusDays(d, 2)
    }
  }

  /** Stepping forward over a weekend reaches a business day at most two days later. */
  lemma NextOrSameIsNearBusinessDay(cal: HolidayCalendar, d: LocalDate)
    ensures var r := cal.NextOrSame(d); cal.IsBusinessDay(r) && 0 <= EpochDay(r) - EpochDay(d) <= 2
  {
    if cal.IsHoliday(d) {
      var w := DayOfWeek(d);
      var k := if w == Saturday then 2 else 1;
      var r := PlusDays(d, k);
      assert cal.NextOrSame(d) == r;
      EpochDayPlusDays(d, k);
      DayOfWeekShift(d, r, k);
      WeekendShift(w, k, DayOfWeek(r));
    }
  }

  /** Stepping back over a weekend reaches a business day at most two days earlier. */
  lemma PreviousOrSameIsNearBusinessDay(cal: HolidayCalendar, d: LocalDate)
    ensures var r := cal.PreviousOrSame(d); cal.IsBusinessDay(r) && 0 <= EpochDay(d) - EpochDay(r) <= 2
  {
    if cal.IsHoliday(d) {
      var w := DayOfWeek(d);
      var k := if w == Saturday then 1 else 2;
      var r := MinusDays(d, k);
      assert cal.PreviousOrSame(d) == r;
      EpochDayMinusDays(d, k);
      DayOfWeekShift(d, r, -k);
      WeekendShift(w, -k, DayOfWeek(r));
    }
  }

  /** Two days on from Saturday, or one from Sunday, is a Monday; one back from Saturday, or two from Sunday, a Friday. */
  lemma WeekendShift(w: int, k: int, x: int)
    requires (w == 6 && (k == 2 || k == -1)) || (w == 7 && (k == 1 || k == -2))
    requires x == (w - 1 + k) % 7 + 1
    ensures x == if k > 0 then 1 else 5
  {
  }

  datatype BusinessDayConvention =
    /** NO_ADJUST: the date is used as it is. */
    | NoAdjust
    /** FOLLOWING: the next business day on or after the date. */
    | Following
    /** MODIFIED_FOLLOWING: following, unless that leaves the month, then preceding. */
    | ModifiedFollowing
    /** PRECEDING: the last business day on or before the date. */
    | Preceding

  datatype BusinessDayAdjustment = BusinessDayAdjustment(convention: BusinessDayConvention, calendar: HolidayCalendar) {
    /** BusinessDayAdjustment.adjust. */
    function Adjust(d: LocalDate): (r: LocalDate)
    {
      match convention
      case NoAdjust => d
      case Following => calendar.NextOrSame(d)
      case ModifiedFollowing =>
        var following := calendar.NextOrSame(d);
        if following.year == d.year && following.month == d.month then following
        else calendar.PreviousOrSame(d)
      case Preceding => calendar.PreviousOrSame(d)
    }
  }

  /** BusinessDayAdjustment.NONE. */
  const NoAdjustment: BusinessDayAdjustment := BusinessDayAdjustment(NoAdjust, NoHolidays)

  /** Every convention except NO_ADJUST yields a business day of its calendar. */
  lemma AdjustIsBusinessDay(a: BusinessDayAdjustment, d: LocalDate)
    requires a.convention != NoAdjust
    ensures a.calendar.IsBusinessDay(a.Adjust(d))
  {
    NextOrSameIsNearBusinessDay(a.calendar, d);
    PreviousOrSameIsNearBusinessDay(a.calendar, d);
  }

  /** A business day is left where it is, so adjusting twice is adjusting once. */
  lemma AdjustIdempotent(a: BusinessDayAdjustment, d: LocalDate)
    ensures a.calendar.IsBusinessDay(d) ==> a.Adjust(d) == d
    ensures a.Adjust(a.Adjust(d)) == a.Adjust(d)
  {
    if a.convention != NoAdjust {
      AdjustIsBusinessDay(a, d);
    }
  }

  /**
   * Modified following never leaves the month of the date, and moves by at
   * most two days on a Saturday/Sunday calendar.
   */
  lemma ModifiedFollowingStaysInMonth(cal: HolidayCalendar, d: LocalDate)
    ensures var r := BusinessDayAdjustment(ModifiedFollowing, cal).Adjust(d);
      r.year == d.year && r.month == d.month && -2 <= EpochDay(r) - EpochDay(d) <= 2
  {
    var following := cal.NextOrSame(d);
    NextOrSameIsNearBusinessDay(cal, d);
    if !(following.year == d.year && following.month == d.month) {
      PreviousOrSameIsNearBusinessDay(cal, d);
      PrecedingWeekendInMonth(d);
    }
  }

  /**
   * If stepping forward over a weekend leaves the month, the date is one of
   * the last two days of the month, so stepping back over the weekend stays in it.
   */
  lemma PrecedingWeekendInMonth(d: LocalDate)
    requires var following := SatSun.NextOrSame(d); !(following.year == d.year && following.month == d.month)
    ensures var p := SatSun.PreviousOrSame(d); p.year == d.year && p.month == d.month
  {
    assert PlusDays(d, 1) == NextDay(d);
    assert PlusDays(d, 2) == NextDay(NextDay(d));
    assert d.day >= 27;
    assert MinusDays(d, 1) == PreviousDay(d);
    assert MinusDays(d, 2) == PreviousDay(PreviousDay(d));
  }
}
