/**
 * Worked examples of schedule generation, each a definition from the
 * generation table of the schedule tests with the dates it yields.
 */
module ScheduleExamples {
  import opened Wrappers
  import opened Dates
  import opened Frequencies
  import opened RollConventions
  import opened BusinessDays
  import opened StubConventions
  import opened ScheduleExceptions
  import opened PeriodicSchedules
  import opened DateSequences
  import opened ScheduleProperties

  const Bda: BusinessDayAdjustment := BusinessDayAdjustment(ModifiedFollowing, SatSun)
  const PrecedingSatSun: BusinessDayAdjustment := BusinessDayAdjustment(Preceding, SatSun)

  const Jun04: LocalDate := Date(2014, 6, 4)
  const Jun17: LocalDate := Date(2014, 6, 17)
  const Jul04: LocalDate := Date(2014, 7, 4)
  const Jul17: LocalDate := Date(2014, 7, 17)
  const Aug04: LocalDate := Date(2014, 8, 4)
  const Aug17: LocalDate := Date(2014, 8, 17)
  const Aug18: LocalDate := Date(2014, 8, 18)
  const Sep04: LocalDate := Date(2014, 9, 4)
  const Sep17: LocalDate := Date(2014, 9, 17)
  const Jun03: LocalDate := Date(2014, 6, 3)
  const Sep05: LocalDate := Date(2014, 9, 5)
  const Sep18: LocalDate := Date(2014, 9, 18)

  /** Dates of the 2015 examples, the 31st of May being a Sunday. */
  const May27y15: LocalDate := Date(2015, 5, 27)
  const May29y15: LocalDate := Date(2015, 5, 29)
  const May31y15: LocalDate := Date(2015, 5, 31)
  const Jun01y15: LocalDate := Date(2015, 6, 1)

  /** Dates of the end-of-month examples, from 30 November 2013 to 30 November 2014. */
  const Nov29y13: LocalDate := Date(2013, 11, 29)
  const Nov30y13: LocalDate := Date(2013, 11, 30)
  const Feb28: LocalDate := Date(2014, 2, 28)
  const May30: LocalDate := Date(2014, 5, 30)
  const May31: LocalDate := Date(2014, 5, 31)
  const Aug29: LocalDate := Date(2014, 8, 29)
  const Aug31: LocalDate := Date(2014, 8, 31)
  const Nov28: LocalDate := Date(2014, 11, 28)
  const Nov30: LocalDate := Date(2014, 11, 30)

  /** Dates of the quarterly examples from Saturday 4 October 2014 to Saturday 4 April 2015. */
  const Oct03: LocalDate := Date(2014, 10, 3)
  const Oct04: LocalDate := Date(2014, 10, 4)
  const Jan04y15: LocalDate := Date(2015, 1, 4)
  const Jan05y15: LocalDate := Date(2015, 1, 5)
  const Apr03y15: LocalDate := Date(2015, 4, 3)
  const Apr04y15: LocalDate := Date(2015, 4, 4)

  /** Dates of the IMM example. */
  const Oct01: LocalDate := Date(2014, 10, 1)
  const Oct15: LocalDate := Date(2014, 10, 15)

  /** A definition with the given stub and roll conventions and nothing else optional. */
  function Definition(start: LocalDate, end: LocalDate, f: Frequency, stub: Option<StubConvention>,
                      roll: Option<RollConvention>): PeriodicSchedule {
    PeriodicSchedule(start, end, f, Bda, None, None, stub, roll, None, None)
  }

  // The days of the week of the dates the examples adjust, one date at a time.

  lemma Jun04IsWednesday()
    ensures DayOfWeek(Jun04) == 3
  {
  }

  lemma Jun17IsTuesday()
    ensures DayOfWeek(Jun17) == 2
  {
  }

  lemma Jul04IsFriday()
    ensures DayOfWeek(Jul04) == 5
  {
  }

  lemma Jul17IsThursday()
    ensures DayOfWeek(Jul17) == 4
  {
  }

  lemma Aug04IsMonday()
    ensures DayOfWeek(Aug04) == 1
  {
  }

  lemma Aug17IsSunday()
    ensures DayOfWeek(Aug17) == 7
  {
  }

  lemma Sep04IsThursday()
    ensures DayOfWeek(Sep04) == 4
  {
  }

  lemma Sep17IsWednesday()
    ensures DayOfWeek(Sep17) == 3
  {
  }

  lemma May27y15IsWednesday()
    ensures DayOfWeek(May27y15) == 3
  {
  }

  lemma May29y15IsFriday()
    ensures DayOfWeek(May29y15) == 5
  {
  }

  lemma May31y15IsSunday()
    ensures DayOfWeek(May31y15) == 7
  {
  }

  lemma Nov30y13IsSaturday()
    ensures DayOfWeek(Nov30y13) == 6
  {
  }

  lemma Feb28IsFriday()
    ensures DayOfWeek(Feb28) == 5
  {
  }

  lemma May31IsSaturday()
    ensures DayOfWeek(May31) == 6
  {
  }

  lemma Aug31IsSunday()
    ensures DayOfWeek(Aug31) == 7
  {
  }

  lemma Nov30IsSunday()
    ensures DayOfWeek(Nov30) == 7
  {
  }

  lemma Sep01IsMonday()
    ensures DayOfWeek(Date(2014, 9, 1)) == 1
  {
  }

  lemma Oct01IsWednesday()
    ensures DayOfWeek(Date(2014, 10, 1)) == 3
  {
  }

  /** Modified following on a Saturday/Sunday calendar leaves weekdays alone. */
  lemma AdjustWeekday(d: LocalDate)
    requires DayOfWeek(d) <= 5
    ensures Bda.Adjust(d) == d
  {
  }

  /** A Sunday before the last day of its month adjusts to the Monday after it. */
  lemma AdjustSundayInMonth(d: LocalDate)
    requires DayOfWeek(d) == 7 && d.day < LengthOfMonth(d.year, d.month)
    ensures Bda.Adjust(d) == Date(d.year, d.month, d.day + 1)
  {
    assert PlusDays(d, 1) == NextDay(d);
  }

  /**
   * A weekend day at the end of its month (a Saturday on one of the last two
   * days, a Sunday on the last) adjusts back to the Friday before it under
   * modified following, the following business day being in the next month.
   */
  lemma AdjustWeekendAtMonthEnd(d: LocalDate)
    requires || (DayOfWeek(d) == 6 && d.day >= LengthOfMonth(d.year, d.month) - 1)
             || (DayOfWeek(d) == 7 && d.day == LengthOfMonth(d.year, d.month))
    ensures d.day > 2 && Bda.Adjust(d) == Date(d.year, d.month, d.day + 5 - DayOfWeek(d))
  {
    assert MinusDays(d, 1) == PreviousDay(d);
    assert MinusDays(d, 2) == PreviousDay(PreviousDay(d));
    var following := SatSun.NextOrSame(d);
    if DayOfWeek(d) == 7 {
      assert PlusDays(d, 1) == NextDay(d);
      assert following == NextDay(d);
    } else {
      assert PlusDays(d, 2) == PlusDays(NextDay(d), 1);
      assert PlusDays(NextDay(d), 1) == NextDay(NextDay(d));
    }
    assert !(following.year == d.year && following.month == d.month);
  }

  /** The dates of the monthly examples under modified following: only Sunday 17 August moves. */
  lemma ShortInitialAdjusts()
    ensures Bda.Adjust(Jun04) == Jun04 && Bda.Adjust(Jun17) == Jun17 && Bda.Adjust(Jul17) == Jul17
    ensures Bda.Adjust(Aug17) == Aug18 && Bda.Adjust(Sep17) == Sep17
  {
    Jun04IsWednesday();
    AdjustWeekday(Jun04);
    Jun17IsTuesday();
    AdjustWeekday(Jun17);
    Jul17IsThursday();
    AdjustWeekday(Jul17);
    Aug17IsSunday();
    AdjustSundayInMonth(Aug17);
    Sep17IsWednesday();
    AdjustWeekday(Sep17);
  }

  lemma ShortFinalAdjusts()
    ensures Bda.Adjust(Jun04) == Jun04 && Bda.Adjust(Jul04) == Jul04 && Bda.Adjust(Aug04) == Aug04
    ensures Bda.Adjust(Sep04) == Sep04 && Bda.Adjust(Sep17) == Sep17
  {
    Jun04IsWednesday();
    AdjustWeekday(Jun04);
    Jul04IsFriday();
    AdjustWeekday(Jul04);
    Aug04IsMonday();
    AdjustWeekday(Aug04);
    Sep04IsThursday();
    AdjustWeekday(Sep04);
    Sep17IsWednesday();
    AdjustWeekday(Sep17);
  }

  /** Friday 29 May 2015 stays, Sunday 31 May 2015 moves back to it. */
  lemma EndOfMay2015Adjusts()
    ensures Bda.Adjust(May27y15) == May27y15 && Bda.Adjust(May29y15) == May29y15 && Bda.Adjust(May31y15) == May29y15
  {
    May27y15IsWednesday();
    AdjustWeekday(May27y15);
    May29y15IsFriday();
    AdjustWeekday(May29y15);
    May31y15IsSunday();
    AdjustWeekendAtMonthEnd(May31y15);
  }

  lemma ThreeDistinct(ds: seq<LocalDate>)
    requires |ds| == 3 && IsBefore(ds[0], ds[1]) && IsBefore(ds[1], ds[2])
    ensures Distinct(ds)
  {
  }

  lemma FiveDistinct(d0: LocalDate, d1: LocalDate, d2: LocalDate, d3: LocalDate, d4: LocalDate)
    requires IsBefore(d0, d1) && IsBefore(d1, d2) && IsBefore(d2, d3) && IsBefore(d3, d4)
    ensures Distinct([d0, d1, d2, d3, d4])
  {
  }

  /** Five dates adjusted one by one, all by the main adjustment, are the adjusted dates. */
  lemma AdjustsFive(s: PeriodicSchedule, d0: LocalDate, d1: LocalDate, d2: LocalDate, d3: LocalDate, d4: LocalDate,
                    a0: LocalDate, a1: LocalDate, a2: LocalDate, a3: LocalDate, a4: LocalDate)
    requires s.startDateBusinessDayAdjustment.None? && s.endDateBusinessDayAdjustment.None?
    requires var a := s.businessDayAdjustment;
      && a.Adjust(d0) == a0 && a.Adjust(d1) == a1 && a.Adjust(d2) == a2 && a.Adjust(d3) == a3 && a.Adjust(d4) == a4
    ensures ApplyAdjustments(s, [d0, d1, d2, d3, d4]) == [a0, a1, a2, a3, a4]
  {
    var r := ApplyAdjustments(s, [d0, d1, d2, d3, d4]);
    assert r[1] == a1 && r[2] == a2 && r[3] == a3;
  }

  /** Generated dates without duplicates, before and after adjustment, are the schedule's dates. */
  lemma DatesOf(s: PeriodicSchedule, ds: seq<LocalDate>, adj: seq<LocalDate>)
    requires IsValid(s) && Generate(s) == Success(ds) && Distinct(ds)
    requires |ds| >= 2 && ApplyAdjustments(s, ds) == adj && Distinct(adj)
    ensures UnadjustedDates(s) == Success(ds) && AdjustedDates(s) == Success(adj)
  {
  }

  /** Generated dates without duplicates are the schedule's unadjusted dates. */
  lemma UnadjustedFromGenerated(s: PeriodicSchedule, ds: seq<LocalDate>)
    requires IsValid(s) && Generate(s) == Success(ds) && Distinct(ds)
    ensures UnadjustedDates(s) == Success(ds)
  {
  }

  /** Two dates in order are distinct. */
  lemma TwoAscendingDistinct(a: LocalDate, b: LocalDate)
    requires IsBefore(a, b)
    ensures Distinct([a, b])
  {
  }

  /** The dates of a schedule with three dates rolled between its first and last. */
  lemma ThreeBetween(a: LocalDate, b: LocalDate, c: LocalDate, d: LocalDate, e: LocalDate)
    ensures [a] + [b, c, d] + [e] == [a, b, c, d, e]
  {
  }

  // Rolling steps of the examples.

  /** Monthly on day n (up to the 28th), the next boundary is day n of the next month. */
  lemma NextMonthlyOnDay(n: DayOfMonthNumber, d: LocalDate)
    requires d.day == n <= 28 && d.month < 12
    ensures Next(DayOfMonth(n), d, P1M) == (Date(d.year, d.month + 1, n), DayOfMonth(n))
  {
    DayOfMonthNextReanchors(n, d, 1);
  }

  /** Monthly on day n (up to the 28th), the previous boundary is day n of the month before. */
  lemma PreviousMonthlyOnDay(n: DayOfMonthNumber, d: LocalDate)
    requires d.day == n <= 28 && d.month > 1
    ensures Previous(DayOfMonth(n), d, P1M) == Date(d.year, d.month - 1, n)
  {
    DayOfMonthPreviousReanchors(n, d, 1);
  }

  /** Rolling forward from a date before the end collects it and goes on from the next one. */
  lemma RollForwardFrom(roll: RollConvention, temp: LocalDate, next: LocalDate, end: LocalDate, f: Frequency)
    requires IsBefore(temp, end) && Next(roll, temp, f) == (next, roll)
    ensures var rest := RollForward(roll, next, end, f);
      RollForward(roll, temp, end, f) == Rolled([temp] + rest.dates, rest.stop)
  {
  }

  /** Rolling forward from a date not before the end collects nothing and stops there. */
  lemma RollForwardAtEnd(roll: RollConvention, temp: LocalDate, end: LocalDate, f: Frequency)
    requires !IsBefore(temp, end)
    ensures RollForward(roll, temp, end, f) == Rolled([], temp)
  {
  }

  /** Rolling backward from a date after the start collects it after the dates before it. */
  lemma RollBackwardFrom(roll: RollConvention, temp: LocalDate, previous: LocalDate, start: LocalDate, f: Frequency)
    requires IsAfter(temp, start) && Previous(roll, temp, f) == previous
    ensures var rest := RollBackward(roll, previous, start, f);
      RollBackward(roll, temp, start, f) == Rolled(rest.dates + [temp], rest.stop)
  {
  }

  /** Generation backwards, given where the first roll back lands and what rolling on from there collects. */
  lemma BackwardsFromRolled(start: LocalDate, end: LocalDate, roll: RollConvention, f: Frequency, stub: StubConvention,
                            previous: LocalDate, rolled: Rolled)
    requires IsBefore(start, end) && Matches(roll, end) && !stub.IsLong()
    requires Previous(roll, end, f) == previous && RollBackward(roll, previous, start, f) == rolled
    ensures GenerateBackwards(start, end, roll, f, stub) == Success([start] + rolled.dates + [end])
  {
    GenerateBackwardsMatching(start, end, roll, f, stub);
  }

  /** Generation forwards, given where the first roll lands and what rolling on from there collects. */
  lemma ForwardsFromRolled(start: LocalDate, end: LocalDate, roll: RollConvention, f: Frequency, stub: StubConvention,
                           next: LocalDate, rolled: Rolled)
    requires IsBefore(start, end) && Matches(roll, start) && !stub.IsLong() && (stub.NoStub? ==> rolled.stop == end)
    requires Next(roll, start, f) == (next, roll) && RollForward(roll, next, end, f) == rolled
    ensures GenerateForwards(start, start, end, end, roll, f, stub) == Success([start] + rolled.dates + [end])
  {
    GenerateForwardsMatching(start, start, end, end, roll, f, stub);
    FinishForwardsWithoutExplicitStubs(start, end, stub, rolled);
  }

  /** Rolling back monthly on the 17th from 17 September to 4 June. */
  lemma RollsBackOnSeventeenth()
    ensures Matches(DayOfMonth(17), Sep17) && Previous(DayOfMonth(17), Sep17, P1M) == Aug17
    ensures RollBackward(DayOfMonth(17), Aug17, Jun04, P1M) == Rolled([Jun17, Jul17, Aug17], Date(2014, 5, 17))
  {
    var roll := DayOfMonth(17);
    var may17 := Date(2014, 5, 17);
    PreviousMonthlyOnDay(17, Sep17);
    PreviousMonthlyOnDay(17, Aug17);
    PreviousMonthlyOnDay(17, Jul17);
    PreviousMonthlyOnDay(17, Jun17);
    assert RollBackward(roll, may17, Jun04, P1M) == Rolled([], may17);
    RollBackwardFrom(roll, Jun17, may17, Jun04, P1M);
    RollBackwardFrom(roll, Jul17, Jun17, Jun04, P1M);
    RollBackwardFrom(roll, Aug17, Jul17, Jun04, P1M);
  }

  /** The short initial definition is valid, rolls on the 17th, and generates backwards from 17 September. */
  lemma ShortInitialMonthlyDefinition()
    ensures var s := Definition(Jun04, Sep17, P1M, Some(ShortInitial), None);
      && IsValid(s)
      && EffectiveRollConvention(s) == DayOfMonth(17)
      && Generate(s) == GenerateBackwards(Jun04, Sep17, DayOfMonth(17), P1M, ShortInitial)
  {
    var s := Definition(Jun04, Sep17, P1M, Some(ShortInitial), None);
    assert IsValid(s);
    assert RollAnchor(s) == Sep17;
    assert ImplicitStub(s) == Success(ShortInitial);
    GenerateBackwardsCase(s);
  }

  lemma ShortInitialMonthlyGenerates()
    ensures var s := Definition(Jun04, Sep17, P1M, Some(ShortInitial), None);
      && IsValid(s)
      && EffectiveRollConvention(s) == DayOfMonth(17)
      && Generate(s) == Success([Jun04, Jun17, Jul17, Aug17, Sep17])
  {
    ShortInitialMonthlyDefinition();
    RollsBackOnSeventeenth();
    BackwardsFromRolled(Jun04, Sep17, DayOfMonth(17), P1M, ShortInitial, Aug17, Rolled([Jun17, Jul17, Aug17], Date(2014, 5, 17)));
    ThreeBetween(Jun04, Jun17, Jul17, Aug17, Sep17);
  }

  /** Short initial stub: 4 June to 17 September monthly rolls on the 17th. */
  lemma ShortInitialMonthly()
    ensures var s := Definition(Jun04, Sep17, P1M, Some(ShortInitial), None);
      && EffectiveRollConvention(s) == DayOfMonth(17)
      && UnadjustedDates(s) == Success([Jun04, Jun17, Jul17, Aug17, Sep17])
      && AdjustedDates(s) == Success([Jun04, Jun17, Jul17, Aug18, Sep17])
  {
    var s := Definition(Jun04, Sep17, P1M, Some(ShortInitial), None);
    var ds := [Jun04, Jun17, Jul17, Aug17, Sep17];
    var adj := [Jun04, Jun17, Jul17, Aug18, Sep17];
    ShortInitialMonthlyGenerates();
    FiveDistinct(Jun04, Jun17, Jul17, Aug17, Sep17);
    ShortInitialAdjusts();
    AdjustsFive(s, Jun04, Jun17, Jul17, Aug17, Sep17, Jun04, Jun17, Jul17, Aug18, Sep17);
    FiveDistinct(Jun04, Jun17, Jul17, Aug18, Sep17);
    DatesOf(s, ds, adj);
  }

  /** Short final stub: 4 June to 17 September monthly rolls on the 4th. */
  lemma RollsForwardOnFourth()
    ensures Matches(DayOfMonth(4), Jun04) && Next(DayOfMonth(4), Jun04, P1M) == (Jul04, DayOfMonth(4))
    ensures RollForward(DayOfMonth(4), Jul04, Sep17, P1M) == Rolled([Jul04, Aug04, Sep04], Date(2014, 10, 4))
  {
    var roll := DayOfMonth(4);
    var oct04 := Date(2014, 10, 4);
    NextMonthlyOnDay(4, Jun04);
    NextMonthlyOnDay(4, Jul04);
    NextMonthlyOnDay(4, Aug04);
    NextMonthlyOnDay(4, Sep04);
    assert RollForward(roll, oct04, Sep17, P1M) == Rolled([], oct04);
    RollForwardFrom(roll, Sep04, oct04, Sep17, P1M);
    RollForwardFrom(roll, Aug04, Sep04, Sep17, P1M);
    RollForwardFrom(roll, Jul04, Aug04, Sep17, P1M);
  }

  /** The short final definition is valid, rolls on the 4th, and generates forwards from 4 June. */
  lemma ShortFinalMonthlyDefinition()
    ensures var s := Definition(Jun04, Sep17, P1M, Some(ShortFinal), None);
      && IsValid(s)
      && EffectiveRollConvention(s) == DayOfMonth(4)
      && Generate(s) == GenerateForwards(Jun04, Jun04, Sep17, Sep17, DayOfMonth(4), P1M, ShortFinal)
  {
    var s := Definition(Jun04, Sep17, P1M, Some(ShortFinal), None);
    assert IsValid(s);
    assert RollAnchor(s) == Jun04;
    assert ImplicitStub(s) == Success(ShortFinal);
    assert EffectiveFirstRegularStartDate(s) == Jun04 && EffectiveLastRegularEndDate(s) == Sep17;
    GenerateForwardsCase(s);
  }

  lemma ShortFinalMonthlyGenerates()
    ensures var s := Definition(Jun04, Sep17, P1M, Some(ShortFinal), None);
      && IsValid(s)
      && EffectiveRollConvention(s) == DayOfMonth(4)
      && Generate(s) == Success([Jun04, Jul04, Aug04, Sep04, Sep17])
  {
    ShortFinalMonthlyDefinition();
    RollsForwardOnFourth();
    ForwardsFromRolled(Jun04, Sep17, DayOfMonth(4), P1M, ShortFinal, Jul04, Rolled([Jul04, Aug04, Sep04], Date(2014, 10, 4)));
    ThreeBetween(Jun04, Jul04, Aug04, Sep04, Sep17);
  }

  lemma ShortFinalMonthly()
    ensures var s := Definition(Jun04, Sep17, P1M, Some(ShortFinal), None);
      && EffectiveRollConvention(s) == DayOfMonth(4)
      && UnadjustedDates(s) == Success([Jun04, Jul04, Aug04, Sep04, Sep17])
      && AdjustedDates(s) == Success([Jun04, Jul04, Aug04, Sep04, Sep17])
  {
    var s := Definition(Jun04, Sep17, P1M, Some(ShortFinal), None);
    var ds := [Jun04, Jul04, Aug04, Sep04, Sep17];
    ShortFinalMonthlyGenerates();
    FiveDistinct(Jun04, Jul04, Aug04, Sep04, Sep17);
    ShortFinalAdjusts();
    AdjustsFive(s, Jun04, Jul04, Aug04, Sep04, Sep17, Jun04, Jul04, Aug04, Sep04, Sep17);
    DatesOf(s, ds, ds);
  }

  lemma FourDistinct(d0: LocalDate, d1: LocalDate, d2: LocalDate, d3: LocalDate)
    requires IsBefore(d0, d1) && IsBefore(d1, d2) && IsBefore(d2, d3)
    ensures Distinct([d0, d1, d2, d3])
  {
  }

  /** Four dates adjusted one by one, all by the main adjustment and apart, are the adjusted dates. */
  lemma AdjustsFour(s: PeriodicSchedule, d0: LocalDate, d1: LocalDate, d2: LocalDate, d3: LocalDate,
                    a0: LocalDate, a1: LocalDate, a2: LocalDate, a3: LocalDate)
    requires IsValid(s) && UnadjustedDates(s) == Success([d0, d1, d2, d3])
    requires s.startDateBusinessDayAdjustment.None? && s.endDateBusinessDayAdjustment.None?
    requires var a := s.businessDayAdjustment;
      && a.Adjust(d0) == a0 && a.Adjust(d1) == a1 && a.Adjust(d2) == a2 && a.Adjust(d3) == a3
    requires IsBefore(a0, a1) && IsBefore(a1, a2) && IsBefore(a2, a3)
    ensures AdjustedDates(s) == Success([a0, a1, a2, a3])
  {
    var r := ApplyAdjustments(s, [d0, d1, d2, d3]);
    assert r[1] == a1 && r[2] == a2;
    assert r == [a0, a1, a2, a3];
    FourDistinct(a0, a1, a2, a3);
  }

  /** Two weekdays adjusted under modified following are the adjusted dates of a single period. */
  lemma SinglePeriodDates(s: PeriodicSchedule, start: LocalDate, end: LocalDate)
    requires IsValid(s) && s.businessDayAdjustment == Bda
    requires s.startDateBusinessDayAdjustment.None? && s.endDateBusinessDayAdjustment.None?
    requires IsBefore(start, end) && DayOfWeek(start) <= 5 && DayOfWeek(end) <= 5
    requires UnadjustedDates(s) == Success([start, end])
    ensures AdjustedDates(s) == Success([start, end])
  {
    AdjustWeekday(start);
    AdjustWeekday(end);
    assert ApplyAdjustments(s, [start, end]) == [start, end];
  }

  /**
   * The unadjusted dates of a long initial stub, from those of the short
   * initial stub when rolling back from its second date overshoots the start.
   */
  lemma LongInitialFromShort(s: PeriodicSchedule, roll: RollConvention, ds: seq<LocalDate>, long: seq<LocalDate>)
    requires IsValid(s) && !s.frequency.Term? && s.stubConvention == Some(ShortInitial) && s.firstRegularStartDate.None?
    requires EffectiveRollConvention(s) == roll && UnadjustedDates(s) == Success(ds) && |ds| >= 3
    requires Previous(roll, ds[1], s.frequency) != s.startDate && long == WithoutSecond(ds)
    ensures IsValid(s.(stubConvention := Some(LongInitial)))
    ensures UnadjustedDates(s.(stubConvention := Some(LongInitial))) == Success(long)
  {
    GenerateLongInitial(s);
    LongInitialMergesShortInitial(s);
  }

  /**
   * The unadjusted dates of a long final stub, from those of the short final
   * stub when rolling on from its penultimate date overshoots the end.
   */
  lemma LongFinalFromShort(s: PeriodicSchedule, roll: RollConvention, ds: seq<LocalDate>, long: seq<LocalDate>)
    requires IsValid(s) && !s.frequency.Term? && s.stubConvention == Some(ShortFinal) && s.lastRegularEndDate.None?
    requires EffectiveRollConvention(s) == roll && !roll.Stalling? && UnadjustedDates(s) == Success(ds) && |ds| >= 3
    requires Next(roll, ds[|ds| - 2], s.frequency).0 != s.endDate && long == WithoutPenultimate(ds)
    ensures IsValid(s.(stubConvention := Some(LongFinal)))
    ensures UnadjustedDates(s.(stubConvention := Some(LongFinal))) == Success(long)
  {
    GenerateLongFinal(s);
    LongFinalMergesShortFinal(s);
  }

  /** The two dates of a long stub: the three of the short stub less the middle one. */
  lemma WithoutMiddleOfThree(d0: LocalDate, d1: LocalDate, d2: LocalDate)
    ensures WithoutSecond([d0, d1, d2]) == [d0, d2]
    ensures WithoutPenultimate([d0, d1, d2]) == [d0, d2]
  {
  }

  /** The four dates of a long stub: the five of the short stub less the second. */
  lemma WithoutSecondOfFive(d0: LocalDate, d1: LocalDate, d2: LocalDate, d3: LocalDate, d4: LocalDate)
    ensures var ds := [d0, d1, d2, d3, d4]; WithoutSecond(ds) == [d0, d2, d3, d4]
  {
  }

  /** The four dates of a long stub: the five of the short stub less the fourth. */
  lemma WithoutFourthOfFive(d0: LocalDate, d1: LocalDate, d2: LocalDate, d3: LocalDate, d4: LocalDate)
    ensures var ds := [d0, d1, d2, d3, d4]; WithoutPenultimate(ds) == [d0, d1, d2, d4]
  {
  }

  /**
   * Long initial stub: the short initial stub from 4 June to 17 June is
   * merged into the first regular period, rolling back from 17 June reaching
   * 17 May, before the start.
   */
  lemma LongInitialMonthly()
    ensures var l := Definition(Jun04, Sep17, P1M, Some(LongInitial), None);
      && UnadjustedDates(l) == Success([Jun04, Jul17, Aug17, Sep17])
      && AdjustedDates(l) == Success([Jun04, Jul17, Aug18, Sep17])
  {
    var l := Definition(Jun04, Sep17, P1M, Some(LongInitial), None);
    LongInitialMonthlyGenerates();
    ShortInitialAdjusts();
    AdjustsFour(l, Jun04, Jul17, Aug17, Sep17, Jun04, Jul17, Aug18, Sep17);
  }

  lemma LongInitialMonthlyGenerates()
    ensures var l := Definition(Jun04, Sep17, P1M, Some(LongInitial), None);
      && IsValid(l) && UnadjustedDates(l) == Success([Jun04, Jul17, Aug17, Sep17])
  {
    var s := Definition(Jun04, Sep17, P1M, Some(ShortInitial), None);
    assert Definition(Jun04, Sep17, P1M, Some(LongInitial), None) == s.(stubConvention := Some(LongInitial));
    ShortInitialMonthlyDefinition();
    ShortInitialMonthly();
    PreviousMonthlyOnDay(17, Jun17);
    assert Previous(DayOfMonth(17), Jun17, P1M) == Date(2014, 5, 17) != Jun04;
    WithoutSecondOfFive(Jun04, Jun17, Jul17, Aug17, Sep17);
    LongInitialFromShort(s, DayOfMonth(17), [Jun04, Jun17, Jul17, Aug17, Sep17], [Jun04, Jul17, Aug17, Sep17]);
  }

  /**
   * Long final stub: the short final stub from 4 September to 17 September
   * is merged into the last regular period, rolling on from 4 September
   * reaching 4 October, after the end.
   */
  lemma LongFinalMonthly()
    ensures var l := Definition(Jun04, Sep17, P1M, Some(LongFinal), None);
      && UnadjustedDates(l) == Success([Jun04, Jul04, Aug04, Sep17])
      && AdjustedDates(l) == Success([Jun04, Jul04, Aug04, Sep17])
  {
    var l := Definition(Jun04, Sep17, P1M, Some(LongFinal), None);
    LongFinalMonthlyGenerates();
    ShortFinalAdjusts();
    AdjustsFour(l, Jun04, Jul04, Aug04, Sep17, Jun04, Jul04, Aug04, Sep17);
  }

  lemma LongFinalMonthlyGenerates()
    ensures var l := Definition(Jun04, Sep17, P1M, Some(LongFinal), None);
      && IsValid(l) && UnadjustedDates(l) == Success([Jun04, Jul04, Aug04, Sep17])
  {
    var s := Definition(Jun04, Sep17, P1M, Some(ShortFinal), None);
    assert Definition(Jun04, Sep17, P1M, Some(LongFinal), None) == s.(stubConvention := Some(LongFinal));
    ShortFinalMonthlyDefinition();
    ShortFinalMonthly();
    NextMonthlyOnDay(4, Sep04);
    assert Next(DayOfMonth(4), Sep04, P1M).0 == Oct04 != Sep17;
    WithoutFourthOfFive(Jun04, Jul04, Aug04, Sep04, Sep17);
    LongFinalFromShort(s, DayOfMonth(4), [Jun04, Jul04, Aug04, Sep04, Sep17], [Jun04, Jul04, Aug04, Sep17]);
  }

  /** 17 June to 4 August under a short initial stub rolls back on the 4th: one regular period and a stub. */
  lemma ShortInitialTwoMonths()
    ensures var s := Definition(Jun17, Aug04, P1M, Some(ShortInitial), None);
      && IsValid(s)
      && EffectiveRollConvention(s) == DayOfMonth(4)
      && UnadjustedDates(s) == Success([Jun17, Jul04, Aug04])
  {
    var s := Definition(Jun17, Aug04, P1M, Some(ShortInitial), None);
    assert IsValid(s);
    assert RollAnchor(s) == Aug04;
    assert ImplicitStub(s) == Success(ShortInitial);
    GenerateBackwardsCase(s);
    PreviousMonthlyOnDay(4, Aug04);
    PreviousMonthlyOnDay(4, Jul04);
    RollBackwardFrom(DayOfMonth(4), Jul04, Jun04, Jun17, P1M);
    assert RollBackward(DayOfMonth(4), Jun04, Jun17, P1M) == Rolled([], Jun04);
    BackwardsFromRolled(Jun17, Aug04, DayOfMonth(4), P1M, ShortInitial, Jul04, Rolled([Jul04], Jun04));
    assert [Jun17] + [Jul04] + [Aug04] == [Jun17, Jul04, Aug04];
    ThreeDistinct([Jun17, Jul04, Aug04]);
  }

  /** The long initial stub from 17 June to 4 August absorbs the only regular period. */
  lemma LongInitialTwoMonths()
    ensures var l := Definition(Jun17, Aug04, P1M, Some(LongInitial), None);
      && UnadjustedDates(l) == Success([Jun17, Aug04])
      && AdjustedDates(l) == Success([Jun17, Aug04])
  {
    LongInitialTwoMonthsGenerates();
    Jun17IsTuesday();
    Aug04IsMonday();
    SinglePeriodDates(Definition(Jun17, Aug04, P1M, Some(LongInitial), None), Jun17, Aug04);
  }

  lemma LongInitialTwoMonthsGenerates()
    ensures var l := Definition(Jun17, Aug04, P1M, Some(LongInitial), None);
      && IsValid(l) && UnadjustedDates(l) == Success([Jun17, Aug04])
  {
    var s := Definition(Jun17, Aug04, P1M, Some(ShortInitial), None);
    assert Definition(Jun17, Aug04, P1M, Some(LongInitial), None) == s.(stubConvention := Some(LongInitial));
    ShortInitialTwoMonths();
    PreviousMonthlyOnDay(4, Jul04);
    assert Previous(DayOfMonth(4), Jul04, P1M) == Jun04 != Jun17;
    WithoutMiddleOfThree(Jun17, Jul04, Aug04);
    LongInitialFromShort(s, DayOfMonth(4), [Jun17, Jul04, Aug04], [Jun17, Aug04]);
  }

  /** 17 June to 4 August under a short final stub rolls on the 17th: one regular period and a stub. */
  lemma ShortFinalTwoMonths()
    ensures var s := Definition(Jun17, Aug04, P1M, Some(ShortFinal), None);
      && IsValid(s)
      && EffectiveRollConvention(s) == DayOfMonth(17)
      && UnadjustedDates(s) == Success([Jun17, Jul17, Aug04])
  {
    var s := Definition(Jun17, Aug04, P1M, Some(ShortFinal), None);
    assert IsValid(s);
    assert RollAnchor(s) == Jun17;
    assert ImplicitStub(s) == Success(ShortFinal);
    assert EffectiveFirstRegularStartDate(s) == Jun17 && EffectiveLastRegularEndDate(s) == Aug04;
    GenerateForwardsCase(s);
    NextMonthlyOnDay(17, Jun17);
    NextMonthlyOnDay(17, Jul17);
    RollForwardAtEnd(DayOfMonth(17), Aug17, Aug04, P1M);
    RollForwardFrom(DayOfMonth(17), Jul17, Aug17, Aug04, P1M);
    ForwardsFromRolled(Jun17, Aug04, DayOfMonth(17), P1M, ShortFinal, Jul17, Rolled([Jul17], Aug17));
    assert [Jun17] + [Jul17] + [Aug04] == [Jun17, Jul17, Aug04];
    ThreeDistinct([Jun17, Jul17, Aug04]);
  }

  /** The long final stub from 17 June to 4 August absorbs the only regular period. */
  lemma LongFinalTwoMonths()
    ensures var l := Definition(Jun17, Aug04, P1M, Some(LongFinal), None);
      && UnadjustedDates(l) == Success([Jun17, Aug04])
      && AdjustedDates(l) == Success([Jun17, Aug04])
  {
    LongFinalTwoMonthsGenerates();
    Jun17IsTuesday();
    Aug04IsMonday();
    SinglePeriodDates(Definition(Jun17, Aug04, P1M, Some(LongFinal), None), Jun17, Aug04);
  }

  lemma LongFinalTwoMonthsGenerates()
    ensures var l := Definition(Jun17, Aug04, P1M, Some(LongFinal), None);
      && IsValid(l) && UnadjustedDates(l) == Success([Jun17, Aug04])
  {
    var s := Definition(Jun17, Aug04, P1M, Some(ShortFinal), None);
    assert Definition(Jun17, Aug04, P1M, Some(LongFinal), None) == s.(stubConvention := Some(LongFinal));
    ShortFinalTwoMonths();
    NextMonthlyOnDay(17, Jul17);
    assert Next(DayOfMonth(17), Jul17, P1M).0 == Aug17 != Aug04;
    WithoutMiddleOfThree(Jun17, Jul17, Aug04);
    LongFinalFromShort(s, DayOfMonth(17), [Jun17, Jul17, Aug04], [Jun17, Aug04]);
  }

  /** The six definitions whose dates are out of order are all refused when built. */
  lemma BuildRejectsDatesOutOfOrder()
    ensures Build(PeriodicSchedule(Sep17, Sep17, P1M, Bda, None, None, None, None, None, None)) == Failure(StartNotBeforeEnd)
    ensures Build(PeriodicSchedule(Sep17, Jun04, P1M, Bda, None, None, None, None, None, None)) == Failure(StartNotBeforeEnd)
    ensures Build(PeriodicSchedule(Jun04, Sep17, P1M, Bda, None, None, None, None, Some(Jun03), None)) == Failure(FirstRegularBeforeStart)
    ensures Build(PeriodicSchedule(Jun04, Sep17, P1M, Bda, None, None, None, None, None, Some(Sep18))) == Failure(LastRegularAfterEnd)
    ensures Build(PeriodicSchedule(Jun04, Sep17, P1M, Bda, None, None, None, None, Some(Sep05), Some(Sep05))) == Failure(FirstRegularNotBeforeLastRegular)
    ensures Build(PeriodicSchedule(Jun04, Sep17, P1M, Bda, None, None, None, None, Some(Sep05), Some(Sep04))) == Failure(FirstRegularNotBeforeLastRegular)
  {
  }

  /**
   * The factories: without a given convention the roll is on the end date's
   * day (rolling backwards) or on the start date's day (rolling forwards,
   * EOM not applying as 4 June is not a month end); a given DAY_17 stays.
   */
  lemma FactoriesDeriveRoll()
    ensures var r := OfEndOfMonth(Jun04, Sep17, P1M, Bda, ShortInitial, false);
      r.Success? && EffectiveRollConvention(r.value) == DayOfMonth(17)
    ensures var r := OfEndOfMonth(Jun04, Sep17, P1M, Bda, ShortFinal, true);
      r.Success? && EffectiveRollConvention(r.value) == DayOfMonth(4)
    ensures var r := OfRollConvention(Jun04, Sep17, P1M, Bda, ShortInitial, DayOfMonth(17));
      r.Success? && EffectiveRollConvention(r.value) == DayOfMonth(17)
  {
  }

  /** Definitions whose stub and roll conventions do not fit their dates. */
  lemma BadStubs()
    ensures UnadjustedDates(Definition(Jun17, Sep17, P1M, Some(Both), None).(firstRegularStartDate := Some(Jun17), lastRegularEndDate := Some(Sep17)))
      == Failure(BothNeedsExplicitStubs)
    ensures UnadjustedDates(Definition(Jun17, Sep17, P1M, Some(ShortInitial), Some(DayOfMonth(11)))) == Failure(RollMismatch(Sep17))
    ensures UnadjustedDates(Definition(Jun17, Sep17, P1M, Some(ShortFinal), Some(DayOfMonth(11)))) == Failure(RollMismatch(Jun17))
    ensures UnadjustedDates(Definition(Jun04, Sep17, Term, Some(NoStub), Some(DayOfMonth(4))).(firstRegularStartDate := Some(Jun17)))
      == Failure(TermWithInitialStub)
    ensures UnadjustedDates(Definition(Jun04, Sep17, Term, Some(NoStub), Some(DayOfMonth(4))).(lastRegularEndDate := Some(Sep04)))
      == Failure(TermWithFinalStub)
  {
    var both := Definition(Jun17, Sep17, P1M, Some(Both), None).(firstRegularStartDate := Some(Jun17), lastRegularEndDate := Some(Sep17));
    assert ImplicitStub(both) == Failure(BothNeedsExplicitStubs);
    var backwards := Definition(Jun17, Sep17, P1M, Some(ShortInitial), Some(DayOfMonth(11)));
    assert ImplicitStub(backwards) == Success(ShortInitial);
    GenerateBackwardsCase(backwards);
    var forwards := Definition(Jun17, Sep17, P1M, Some(ShortFinal), Some(DayOfMonth(11)));
    assert ImplicitStub(forwards) == Success(ShortFinal);
    GenerateForwardsCase(forwards);
    TermIsOnePeriod(Definition(Jun04, Sep17, Term, Some(NoStub), Some(DayOfMonth(4))).(firstRegularStartDate := Some(Jun17)));
    TermIsOnePeriod(Definition(Jun04, Sep17, Term, Some(NoStub), Some(DayOfMonth(4))).(lastRegularEndDate := Some(Sep04)));
  }

  /** Stub convention 'None' with rolls on the 4th cannot reach 17 September. */
  lemma NoStubOvershoots()
    ensures UnadjustedDates(Definition(Jun04, Sep17, P1M, Some(NoStub), Some(DayOfMonth(4)))) == Failure(StubNotAllowed)
  {
    var s := Definition(Jun04, Sep17, P1M, Some(NoStub), Some(DayOfMonth(4)));
    assert Next(DayOfMonth(4), Jun04, P1M) == (Jul04, DayOfMonth(4));
    RollsForwardOnFourth();
    NoStubFailsWhenRollingOvershoots(s);
  }

  /** A single term period from Friday 29 to Sunday 31 May 2015 vanishes when adjusted. */
  lemma TermVanishesWhenAdjusted()
    ensures var s := Definition(May29y15, May31y15, Term, None, None);
      && UnadjustedDates(s) == Success([May29y15, May31y15])
      && AdjustedDates(s) == Failure(DuplicateAdjustedDates)
      && ScheduleOf(s) == Failure(DuplicateAdjustedDates)
  {
    var s := Definition(May29y15, May31y15, Term, None, None);
    TermIsOnePeriod(s);
    EndOfMay2015Adjusts();
    assert ApplyAdjustments(s, [May29y15, May31y15]) == [May29y15, May29y15];
  }

  /** Two periods of two days from 27 May 2015, the last of which vanishes when adjusted. */
  lemma TwoDayPeriodsGenerate()
    ensures var s := Definition(May27y15, May31y15, Days(2), Some(NoStub), None);
      && IsValid(s)
      && EffectiveRollConvention(s) == NoRoll
      && Generate(s) == Success([May27y15, May29y15, May31y15])
  {
    var s := Definition(May27y15, May31y15, Days(2), Some(NoStub), None);
    assert IsValid(s);
    assert EffectiveRollConvention(s) == NoRoll;
    assert ImplicitStub(s) == Success(NoStub);
    assert EffectiveFirstRegularStartDate(s) == May27y15 && EffectiveLastRegularEndDate(s) == May31y15;
    GenerateForwardsCase(s);
    assert Generate(s) == GenerateForwards(May27y15, May27y15, May31y15, May31y15, NoRoll, Days(2), NoStub);
    assert PlusDays(May27y15, 2) == May29y15;
    assert PlusDays(May29y15, 2) == May31y15;
    assert Next(NoRoll, May27y15, Days(2)) == (May29y15, NoRoll);
    assert Next(NoRoll, May29y15, Days(2)) == (May31y15, NoRoll);
    assert RollForward(NoRoll, May31y15, May31y15, Days(2)) == Rolled([], May31y15);
    assert RollForward(NoRoll, May29y15, May31y15, Days(2)) == Rolled([May29y15], May31y15);
    assert GenerateForwards(May27y15, May27y15, May31y15, May31y15, NoRoll, Days(2), NoStub)
      == FinishForwards(May27y15, May27y15, May31y15, May31y15, NoStub, Rolled([May29y15], May31y15));
    FinishForwardsWithoutExplicitStubs(May27y15, May31y15, NoStub, Rolled([May29y15], May31y15));
    assert [May27y15] + [May29y15] + [May31y15] == [May27y15, May29y15, May31y15];
  }

  lemma TwoDayPeriodsVanishWhenAdjusted()
    ensures var s := Definition(May27y15, May31y15, Days(2), Some(NoStub), None);
      && UnadjustedDates(s) == Success([May27y15, May29y15, May31y15])
      && AdjustedDates(s) == Failure(DuplicateAdjustedDates)
      && ScheduleOf(s) == Failure(DuplicateAdjustedDates)
  {
    var s := Definition(May27y15, May31y15, Days(2), Some(NoStub), None);
    var ds := [May27y15, May29y15, May31y15];
    TwoDayPeriodsGenerate();
    ThreeDistinct(ds);
    EndOfMay2015Adjusts();
    var adj := ApplyAdjustments(s, ds);
    assert adj[1] == May29y15 && adj[2] == May29y15;
  }

  /** A roll convention whose first step stays on its date yields the start date twice. */
  lemma StallingRollDuplicates()
    ensures UnadjustedDates(Definition(May27y15, May31y15, Days(2), Some(NoStub), Some(Stalling(1)))) == Failure(DuplicateUnadjustedDates)
  {
    var s := Definition(May27y15, May31y15, Days(2), Some(NoStub), Some(Stalling(1)));
    var stalled := Stalling(0);
    assert IsValid(s);
    assert ImplicitStub(s) == Success(NoStub);
    GenerateForwardsCase(s);
    assert PlusDays(May27y15, 2) == May29y15;
    assert PlusDays(May29y15, 2) == May31y15;
    assert Next(Stalling(1), May27y15, Days(2)) == (May27y15, stalled);
    assert Next(stalled, May27y15, Days(2)) == (May29y15, stalled);
    assert Next(stalled, May29y15, Days(2)) == (May31y15, stalled);
    assert RollForward(stalled, May31y15, May31y15, Days(2)) == Rolled([], May31y15);
    assert RollForward(stalled, May29y15, May31y15, Days(2)) == Rolled([May29y15], May31y15);
    assert RollForward(stalled, May27y15, May31y15, Days(2)) == Rolled([May27y15, May29y15], May31y15);
    assert GenerateForwards(May27y15, May27y15, May31y15, May31y15, Stalling(1), Days(2), NoStub)
      == FinishForwards(May27y15, May27y15, May31y15, May31y15, NoStub, Rolled([May27y15, May29y15], May31y15));
    FinishForwardsWithoutExplicitStubs(May27y15, May31y15, NoStub, Rolled([May27y15, May29y15], May31y15));
    var ds := Generate(s).value;
    assert ds[0] == ds[1];
  }

  lemma MonthEndsAdjust()
    ensures Bda.Adjust(Nov30y13) == Nov29y13 && Bda.Adjust(Feb28) == Feb28 && Bda.Adjust(May31) == May30
    ensures Bda.Adjust(Aug31) == Aug29 && Bda.Adjust(Nov30) == Nov28
  {
    Nov30y13IsSaturday();
    AdjustWeekendAtMonthEnd(Nov30y13);
    Feb28IsFriday();
    AdjustWeekday(Feb28);
    May31IsSaturday();
    AdjustWeekendAtMonthEnd(May31);
    Aug31IsSunday();
    AdjustWeekendAtMonthEnd(Aug31);
    Nov30IsSunday();
    AdjustWeekendAtMonthEnd(Nov30);
  }

  /** Quarterly at month end, the next boundary is the last day of the month three months on. */
  lemma NextQuarterAtMonthEnd(d: LocalDate, next: LocalDate)
    requires MonthIndex(next) == MonthIndex(d) + 3 && IsLastDayOfMonth(next)
    ensures Next(EndOfMonth, d, P3M) == (next, EndOfMonth)
  {
    EndOfMonthNextIsMonthEnd(d, 3);
  }

  /** Rolling quarterly at month end from 30 November 2013. */
  lemma RollsAtMonthEnd()
    ensures Matches(EndOfMonth, Nov30y13) && Next(EndOfMonth, Nov30y13, P3M) == (Feb28, EndOfMonth)
    ensures RollForward(EndOfMonth, Feb28, Nov30, P3M) == Rolled([Feb28, May31, Aug31], Nov30)
  {
    var roll := EndOfMonth;
    NextQuarterAtMonthEnd(Nov30y13, Feb28);
    NextQuarterAtMonthEnd(Feb28, May31);
    NextQuarterAtMonthEnd(May31, Aug31);
    NextQuarterAtMonthEnd(Aug31, Nov30);
    assert RollForward(roll, Nov30, Nov30, P3M) == Rolled([], Nov30);
    RollForwardFrom(roll, Aug31, Nov30, Nov30, P3M);
    RollForwardFrom(roll, May31, Aug31, Nov30, P3M);
    RollForwardFrom(roll, Feb28, May31, Nov30, P3M);
  }

  /** The month-end definition is valid, rolls at month end, and generates forwards from its start. */
  lemma EndOfMonthQuarterlyDefinition()
    ensures var s := Definition(Nov30y13, Nov30, P3M, Some(NoStub), Some(EndOfMonth));
      && IsValid(s)
      && EffectiveRollConvention(s) == EndOfMonth
      && Generate(s) == GenerateForwards(Nov30y13, Nov30y13, Nov30, Nov30, EndOfMonth, P3M, NoStub)
  {
    var s := Definition(Nov30y13, Nov30, P3M, Some(NoStub), Some(EndOfMonth));
    assert IsValid(s);
    assert EffectiveRollConvention(s) == EndOfMonth;
    assert ImplicitStub(s) == Success(NoStub);
    assert EffectiveFirstRegularStartDate(s) == Nov30y13 && EffectiveLastRegularEndDate(s) == Nov30;
    GenerateForwardsCase(s);
  }

  lemma EndOfMonthQuarterlyGenerates()
    ensures var s := Definition(Nov30y13, Nov30, P3M, Some(NoStub), Some(EndOfMonth));
      && IsValid(s)
      && EffectiveRollConvention(s) == EndOfMonth
      && Generate(s) == Success([Nov30y13, Feb28, May31, Aug31, Nov30])
  {
    EndOfMonthQuarterlyDefinition();
    RollsAtMonthEnd();
    ForwardsFromRolled(Nov30y13, Nov30, EndOfMonth, P3M, NoStub, Feb28, Rolled([Feb28, May31, Aug31], Nov30));
    ThreeBetween(Nov30y13, Feb28, May31, Aug31, Nov30);
  }

  /**
   * EOM preferred and the start a month end: the quarterly rolls are on month
   * ends, and adjusted back to the Friday where a month ends on a weekend.
   */
  lemma EndOfMonthQuarterly()
    ensures var s := Definition(Nov30y13, Nov30, P3M, Some(NoStub), Some(EndOfMonth));
      && EffectiveRollConvention(s) == EndOfMonth
      && UnadjustedDates(s) == Success([Nov30y13, Feb28, May31, Aug31, Nov30])
      && AdjustedDates(s) == Success([Nov29y13, Feb28, May30, Aug29, Nov28])
  {
    var s := Definition(Nov30y13, Nov30, P3M, Some(NoStub), Some(EndOfMonth));
    var ds := [Nov30y13, Feb28, May31, Aug31, Nov30];
    var adj := [Nov29y13, Feb28, May30, Aug29, Nov28];
    EndOfMonthQuarterlyGenerates();
    FiveDistinct(Nov30y13, Feb28, May31, Aug31, Nov30);
    MonthEndsAdjust();
    AdjustsFive(s, Nov30y13, Feb28, May31, Aug31, Nov30, Nov29y13, Feb28, May30, Aug29, Nov28);
    FiveDistinct(Nov29y13, Feb28, May30, Aug29, Nov28);
    DatesOf(s, ds, adj);
  }

  // Start and end date adjustments: quarterly from Saturday 4 October 2014
  // to Saturday 4 April 2015, both ends adjusted by PRECEDING.

  lemma Oct04IsSaturday()
    ensures DayOfWeek(Oct04) == 6
  {
  }

  lemma Jan04y15IsSunday()
    ensures DayOfWeek(Jan04y15) == 7
  {
  }

  lemma Apr04y15IsSaturday()
    ensures DayOfWeek(Apr04y15) == 6
  {
  }

  /** Preceding on a Saturday/Sunday calendar moves a Saturday back to the Friday. */
  lemma PrecedingSaturday(d: LocalDate)
    requires DayOfWeek(d) == 6 && d.day > 1
    ensures PrecedingSatSun.Adjust(d) == Date(d.year, d.month, d.day - 1)
  {
    assert MinusDays(d, 1) == PreviousDay(d);
  }

  /** Quarterly on the 4th, the next boundary is the 4th three months on. */
  lemma NextQuarterOnFourth(d: LocalDate, next: LocalDate)
    requires d.day == 4 && next.day == 4 && MonthIndex(next) == MonthIndex(d) + 3
    ensures Next(DayOfMonth(4), d, P3M) == (next, DayOfMonth(4))
  {
    DayOfMonthNextReanchors(4, d, 3);
  }

  /** Rolling quarterly on the 4th from 4 October 2014 reaches the end date after one regular date. */
  lemma RollsQuarterlyOnFourth()
    ensures Matches(DayOfMonth(4), Oct04) && Next(DayOfMonth(4), Oct04, P3M) == (Jan04y15, DayOfMonth(4))
    ensures RollForward(DayOfMonth(4), Jan04y15, Apr04y15, P3M) == Rolled([Jan04y15], Apr04y15)
  {
    NextQuarterOnFourth(Oct04, Jan04y15);
    NextQuarterOnFourth(Jan04y15, Apr04y15);
    RollForwardAtEnd(DayOfMonth(4), Apr04y15, Apr04y15, P3M);
    RollForwardFrom(DayOfMonth(4), Jan04y15, Apr04y15, Apr04y15, P3M);
    assert [Jan04y15] + [] == [Jan04y15];
  }

  /** The definition with its own start and end date adjustments. */
  function StartEndDefinition(): PeriodicSchedule {
    PeriodicSchedule(Oct04, Apr04y15, P3M, Bda, Some(PrecedingSatSun), Some(PrecedingSatSun), Some(NoStub), None, None, None)
  }

  lemma StartEndAdjustDefinition()
    ensures var s := StartEndDefinition();
      && IsValid(s)
      && EffectiveRollConvention(s) == DayOfMonth(4)
      && Generate(s) == GenerateForwards(Oct04, Oct04, Apr04y15, Apr04y15, DayOfMonth(4), P3M, NoStub)
  {
    var s := StartEndDefinition();
    assert IsValid(s);
    assert RollAnchor(s) == Oct04;
    assert ImplicitStub(s) == Success(NoStub);
    assert EffectiveFirstRegularStartDate(s) == Oct04 && EffectiveLastRegularEndDate(s) == Apr04y15;
    GenerateForwardsCase(s);
  }

  lemma StartEndAdjustGenerates()
    ensures var s := StartEndDefinition();
      && IsValid(s)
      && Generate(s) == Success([Oct04, Jan04y15, Apr04y15])
  {
    StartEndAdjustDefinition();
    RollsQuarterlyOnFourth();
    ForwardsFromRolled(Oct04, Apr04y15, DayOfMonth(4), P3M, NoStub, Jan04y15, Rolled([Jan04y15], Apr04y15));
    assert [Oct04] + [Jan04y15] + [Apr04y15] == [Oct04, Jan04y15, Apr04y15];
  }

  /**
   * The start and end dates get their own adjustment: Saturday 4 October and
   * Saturday 4 April move back to the Friday, while Sunday 4 January moves on
   * to the Monday under the main modified following adjustment.
   */
  lemma StartEndAdjust()
    ensures var s := StartEndDefinition();
      && UnadjustedDates(s) == Success([Oct04, Jan04y15, Apr04y15])
      && AdjustedDates(s) == Success([Oct03, Jan05y15, Apr03y15])
  {
    var s := StartEndDefinition();
    var ds := [Oct04, Jan04y15, Apr04y15];
    var adj := [Oct03, Jan05y15, Apr03y15];
    StartEndAdjustGenerates();
    ThreeDistinct(ds);
    Oct04IsSaturday();
    PrecedingSaturday(Oct04);
    Jan04y15IsSunday();
    AdjustSundayInMonth(Jan04y15);
    Apr04y15IsSaturday();
    PrecedingSaturday(Apr04y15);
    var a := ApplyAdjustments(s, ds);
    assert a[0] == Oct03 && a[1] == Jan05y15 && a[2] == Apr03y15;
    assert a == adj;
    ThreeDistinct(adj);
    DatesOf(s, ds, adj);
  }

  lemma ThirdWednesdayOfSeptember2014(d: LocalDate)
    requires d.year == 2014 && d.month == 9
    ensures ThirdWednesday(d) == Sep17
  {
    Sep01IsMonday();
  }

  lemma ThirdWednesdayOfOctober2014(d: LocalDate)
    requires d.year == 2014 && d.month == 10
    ensures ThirdWednesday(d) == Oct15
  {
    Oct01IsWednesday();
  }

  /**
   * Two days after 17 September is still September, whose IMM date is not
   * after it, so the roll falls back to one month on: 15 October.
   */
  lemma ImmNextFromSep17()
    ensures Matches(Imm, Sep17) && Next(Imm, Sep17, Days(2)) == (Oct15, Imm)
  {
    ThirdWednesdayOfSeptember2014(Sep17);
    assert PlusDays(Sep17, 2) == Date(2014, 9, 19);
    ThirdWednesdayOfSeptember2014(Date(2014, 9, 19));
    assert PlusMonths(Sep17, 1) == Date(2014, 10, 17);
    ThirdWednesdayOfOctober2014(Date(2014, 10, 17));
  }

  /** With nothing rolled between them, the start and the end are the only dates. */
  lemma FinishesWithoutRolledDates(start: LocalDate, end: LocalDate, stub: StubConvention, stop: LocalDate)
    ensures FinishForwards(start, start, end, end, stub, Rolled([], stop)) == Success([start, end])
  {
    assert [] + [start] + [] + [end] + [] == [start, end];
  }

  /** When the first roll already reaches the end, generation forwards yields a single period. */
  lemma SinglePeriodForwards(start: LocalDate, end: LocalDate, roll: RollConvention, f: Frequency, stub: StubConvention, next: LocalDate)
    requires IsBefore(start, end) && Matches(roll, start) && Next(roll, start, f) == (next, roll) && !IsBefore(next, end)
    ensures GenerateForwards(start, start, end, end, roll, f, stub) == Success([start, end])
  {
    GenerateForwardsMatching(start, start, end, end, roll, f, stub);
    RollForwardAtEnd(roll, next, end, f);
    FinishesWithoutRolledDates(start, end, stub, next);
  }

  /** The IMM definition is valid, rolls on IMM dates, and generates forwards from its start. */
  lemma ImmDefinition()
    ensures var s := Definition(Sep17, Oct01, Days(2), Some(NoStub), Some(Imm));
      && IsValid(s)
      && EffectiveRollConvention(s) == Imm
      && Generate(s) == GenerateForwards(Sep17, Sep17, Oct01, Oct01, Imm, Days(2), NoStub)
  {
    var s := Definition(Sep17, Oct01, Days(2), Some(NoStub), Some(Imm));
    assert IsValid(s);
    assert EffectiveRollConvention(s) == Imm;
    assert ImplicitStub(s) == Success(NoStub);
    assert EffectiveFirstRegularStartDate(s) == Sep17 && EffectiveLastRegularEndDate(s) == Oct01;
    GenerateForwardsCase(s);
  }

  /**
   * IMM with a two-day frequency: the next IMM date after 17 September 2014
   * is 15 October, beyond the end date, so there is a single period.
   */
  lemma ImmWithShortFrequency()
    ensures var s := Definition(Sep17, Oct01, Days(2), Some(NoStub), Some(Imm));
      && IsValid(s)
      && Generate(s) == Success([Sep17, Oct01])
  {
    ImmDefinition();
    ImmNextFromSep17();
    SinglePeriodForwards(Sep17, Oct01, Imm, Days(2), NoStub, Oct15);
  }

  /** Neither date of the IMM example moves under modified following. */
  lemma ImmShortFrequencyDates()
    ensures var s := Definition(Sep17, Oct01, Days(2), Some(NoStub), Some(Imm));
      && UnadjustedDates(s) == Success([Sep17, Oct01])
      && AdjustedDates(s) == Success([Sep17, Oct01])
  {
    var s := Definition(Sep17, Oct01, Days(2), Some(NoStub), Some(Imm));
    var ds := [Sep17, Oct01];
    ImmWithShortFrequency();
    Sep17IsWednesday();
    AdjustWeekday(Sep17);
    Oct01IsWednesday();
    AdjustWeekday(Oct01);
    assert ApplyAdjustments(s, ds) == ds;
    DatesOf(s, ds, ds);
  }

  /** TERM from 4 June to 17 September 2014: the single period of the whole schedule, both dates Wednesdays. */
  lemma TermSinglePeriod()
    ensures var s := Definition(Jun04, Sep17, Term, Some(NoStub), None);
      && UnadjustedDates(s) == Success([Jun04, Sep17])
      && AdjustedDates(s) == Success([Jun04, Sep17])
  {
    var s := Definition(Jun04, Sep17, Term, Some(NoStub), None);
    assert IsValid(s);
    TermIsOnePeriod(s);
    Jun04IsWednesday();
    Sep17IsWednesday();
    SinglePeriodDates(s, Jun04, Sep17);
  }

  lemma Oct15IsWednesday()
    ensures DayOfWeek(Oct15) == 3
  {
  }

  /** Monthly from the September IMM date, the next boundary is the October IMM date. */
  lemma ImmNextMonthFromSep17()
    ensures Matches(Imm, Sep17) && Next(Imm, Sep17, P1M) == (Oct15, Imm)
  {
    ThirdWednesdayOfSeptember2014(Sep17);
    assert PlusMonths(Sep17, 1) == Date(2014, 10, 17);
    ThirdWednesdayOfOctober2014(Date(2014, 10, 17));
  }

  /** Both IMM dates, 17 September and 15 October 2014, are left alone by modified following. */
  lemma ImmDatesAdjust(s: PeriodicSchedule)
    requires IsValid(s) && s.businessDayAdjustment == Bda
    requires s.startDateBusinessDayAdjustment.None? && s.endDateBusinessDayAdjustment.None?
    requires UnadjustedDates(s) == Success([Sep17, Oct15])
    ensures AdjustedDates(s) == Success([Sep17, Oct15])
  {
    Sep17IsWednesday();
    Oct15IsWednesday();
    SinglePeriodDates(s, Sep17, Oct15);
  }

  /** A valid IMM definition from 17 September to 15 October 2014 with NONE generates forwards from its start. */
  lemma ImmToOct15Definition(f: Frequency)
    requires !f.Term?
    ensures var s := Definition(Sep17, Oct15, f, Some(NoStub), Some(Imm));
      && IsValid(s)
      && Generate(s) == GenerateForwards(Sep17, Sep17, Oct15, Oct15, Imm, f, NoStub)
  {
    var s := Definition(Sep17, Oct15, f, Some(NoStub), Some(Imm));
    assert IsValid(s);
    assert EffectiveRollConvention(s) == Imm;
    assert ImplicitStub(s) == Success(NoStub);
    assert EffectiveFirstRegularStartDate(s) == Sep17 && EffectiveLastRegularEndDate(s) == Oct15;
    GenerateForwardsCase(s);
  }

  /** IMM monthly from 17 September to 15 October 2014: one roll reaches the end, a single period. */
  lemma ImmMonthly()
    ensures var s := Definition(Sep17, Oct15, P1M, Some(NoStub), Some(Imm));
      && UnadjustedDates(s) == Success([Sep17, Oct15])
      && AdjustedDates(s) == Success([Sep17, Oct15])
  {
    ImmNextMonthFromSep17();
    ImmSinglePeriod(P1M);
    ImmDatesAdjust(Definition(Sep17, Oct15, P1M, Some(NoStub), Some(Imm)));
  }

  /** When the first roll from 17 September reaches 15 October, the IMM schedule to that date is one period. */
  lemma ImmSinglePeriod(f: Frequency)
    requires !f.Term? && Matches(Imm, Sep17) && Next(Imm, Sep17, f) == (Oct15, Imm)
    ensures var s := Definition(Sep17, Oct15, f, Some(NoStub), Some(Imm));
      IsValid(s) && UnadjustedDates(s) == Success([Sep17, Oct15])
  {
    ImmSingleGenerated(f);
    TwoAscendingDistinct(Sep17, Oct15);
    UnadjustedFromGenerated(Definition(Sep17, Oct15, f, Some(NoStub), Some(Imm)), [Sep17, Oct15]);
  }

  /** The generated list of the single-period IMM schedule, before the duplicate check. */
  lemma ImmSingleGenerated(f: Frequency)
    requires !f.Term? && Matches(Imm, Sep17) && Next(Imm, Sep17, f) == (Oct15, Imm)
    ensures var s := Definition(Sep17, Oct15, f, Some(NoStub), Some(Imm));
      IsValid(s) && Generate(s) == Success([Sep17, Oct15])
  {
    ImmToOct15Definition(f);
    SinglePeriodForwards(Sep17, Oct15, Imm, f, NoStub, Oct15);
  }

  /** IMM with TERM over the same dates: the roll convention plays no part, a single period. */
  lemma ImmTerm()
    ensures var s := Definition(Sep17, Oct15, Term, Some(NoStub), Some(Imm));
      && UnadjustedDates(s) == Success([Sep17, Oct15])
      && AdjustedDates(s) == Success([Sep17, Oct15])
  {
    var s := Definition(Sep17, Oct15, Term, Some(NoStub), Some(Imm));
    assert IsValid(s);
    TermIsOnePeriod(s);
    ImmDatesAdjust(s);
  }

  /** IMM with a two-day frequency to 15 October 2014: the fallback roll lands on the end, a single period. */
  lemma ImmShortFrequencyToOct15()
    ensures var s := Definition(Sep17, Oct15, Days(2), Some(NoStub), Some(Imm));
      && UnadjustedDates(s) == Success([Sep17, Oct15])
      && AdjustedDates(s) == Success([Sep17, Oct15])
  {
    ImmNextFromSep17();
    ImmSinglePeriod(Days(2));
    ImmDatesAdjust(Definition(Sep17, Oct15, Days(2), Some(NoStub), Some(Imm)));
  }
}
