/**
 * What the schedule generator promises, stated across its operations: the
 * build rules, the Term frequency, the stub conventions and their failures,
 * long stubs against short ones, rolls that do not advance, and the
 * start and end date adjustments.
 */
module ScheduleProperties {
  import opened Wrappers
  import opened Dates
  import opened Frequencies
  import opened RollConventions
  import opened BusinessDays
  import opened StubConventions
  import opened ScheduleExceptions
  import opened DateSequences
  import opened PeriodicSchedules

  /** The stub convention left after the explicit stubs of a definition. */
  function ImplicitStub(s: PeriodicSchedule): Result<StubConvention, ScheduleError> {
    ImplicitStubConvention(s.stubConvention,
                           EffectiveFirstRegularStartDate(s) != s.startDate,
                           EffectiveLastRegularEndDate(s) != s.endDate)
  }

  /** Generation under a convention that rolls forwards, from the start of the regular periods. */
  lemma GenerateForwardsCase(s: PeriodicSchedule)
    requires IsValid(s) && !s.frequency.Term?
    requires ImplicitStub(s).Success? && !ImplicitStub(s).value.IsCalculateBackwards()
    ensures Generate(s) == GenerateForwards(s.startDate, EffectiveFirstRegularStartDate(s), EffectiveLastRegularEndDate(s), s.endDate,
                                            EffectiveRollConvention(s), s.frequency, ImplicitStub(s).value)
  {
  }

  /**
   * Generation under a convention that rolls backwards, which only happens
   * when there are no explicit stubs, from the end date.
   */
  lemma GenerateBackwardsCase(s: PeriodicSchedule)
    requires IsValid(s) && !s.frequency.Term?
    requires ImplicitStub(s).Success? && ImplicitStub(s).value.IsCalculateBackwards()
    ensures EffectiveFirstRegularStartDate(s) == s.startDate && EffectiveLastRegularEndDate(s) == s.endDate
    ensures Generate(s) == GenerateBackwards(s.startDate, s.endDate, EffectiveRollConvention(s), s.frequency, ImplicitStub(s).value)
  {
  }

  /** Backward generation from a date the convention matches: the rolled dates, finished. */
  lemma GenerateBackwardsMatching(start: LocalDate, end: LocalDate, roll: RollConvention, f: Frequency, stub: StubConvention)
    requires IsBefore(start, end) && Matches(roll, end)
    ensures GenerateBackwards(start, end, roll, f, stub) == Success(FinishBackwards(start, end, stub, RollBackward(roll, Previous(roll, end, f), start, f)))
  {
  }

  /** Forward generation from a date the convention matches: the rolled dates, finished. */
  lemma GenerateForwardsMatching(start: LocalDate, regStart: LocalDate, regEnd: LocalDate, end: LocalDate,
                                 roll: RollConvention, f: Frequency, stub: StubConvention)
    requires !IsBefore(regStart, start) && IsBefore(regStart, regEnd) && !IsAfter(regEnd, end) && Matches(roll, regStart)
    ensures var next := Next(roll, regStart, f);
      GenerateForwards(start, regStart, regEnd, end, roll, f, stub)
        == FinishForwards(start, regStart, regEnd, end, stub, RollForward(next.1, next.0, regEnd, f))
  {
  }

  /** Generation fails with the stub conventions' error when they disagree with the explicit stubs. */
  lemma GenerateStubFailureCase(s: PeriodicSchedule)
    requires IsValid(s) && !s.frequency.Term? && ImplicitStub(s).Failure?
    ensures Generate(s) == Failure(ImplicitStub(s).error)
  {
  }

  /**
   * Another stub convention that generates in the same direction keeps the
   * validity, the regular periods and the roll convention of a definition.
   */
  lemma SameDirectionKeepsRoll(s: PeriodicSchedule, c: StubConvention)
    requires s.stubConvention.Some? && s.stubConvention.value.IsCalculateBackwards() == c.IsCalculateBackwards()
    ensures var l := s.(stubConvention := Some(c));
      && (IsValid(l) <==> IsValid(s))
      && EffectiveFirstRegularStartDate(l) == EffectiveFirstRegularStartDate(s)
      && EffectiveLastRegularEndDate(l) == EffectiveLastRegularEndDate(s)
      && EffectiveRollConvention(l) == EffectiveRollConvention(s)
  {
    var first, last := EffectiveFirstRegularStartDate(s), EffectiveLastRegularEndDate(s);
    var b := s.stubConvention.value;
    assert ToRollConvention(c, first, last, s.frequency, true) == ToRollConvention(b, first, last, s.frequency, true);
    assert ToRollConvention(c, first, last, s.frequency, false) == ToRollConvention(b, first, last, s.frequency, false);
  }

  /** A long convention takes the place of the short one on the same side when the explicit stubs leave it in place. */
  lemma ImplicitLongForShort(short: StubConvention, long: StubConvention, explicitInitial: bool, explicitFinal: bool)
    requires (short, long) in {(ShortInitial, LongInitial), (ShortFinal, LongFinal)}
    ensures var r := ImplicitStubConvention(Some(short), explicitInitial, explicitFinal);
      ImplicitStubConvention(Some(long), explicitInitial, explicitFinal) == if r == Success(short) then Success(long) else r
  {
  }

  /** Without explicit stubs, forward generation keeps all rolled dates unless a long stub absorbs the last. */
  lemma FinishForwardsWithoutExplicitStubs(start: LocalDate, end: LocalDate, stub: StubConvention, rolled: Rolled)
    requires FinishForwards(start, start, end, end, stub, rolled).Success?
    ensures var ds := FinishForwards(start, start, end, end, stub, rolled).value;
      if rolled.stop != end && |rolled.dates| > 0 && stub.IsLong()
      then ds == [start] + rolled.dates[..|rolled.dates| - 1] + [end]
      else ds == [start] + rolled.dates + [end]
  {
  }

  /**
   * A definition builds exactly when the start date, the regular periods and
   * the end date come in that order, the regular periods being non-empty.
   */
  lemma BuildIffRegularPeriodsInside(fields: PeriodicSchedule)
    ensures Build(fields).Success? <==>
      && !IsBefore(EffectiveFirstRegularStartDate(fields), fields.startDate)
      && IsBefore(EffectiveFirstRegularStartDate(fields), EffectiveLastRegularEndDate(fields))
      && !IsAfter(EffectiveLastRegularEndDate(fields), fields.endDate)
  {
  }

  /**
   * Term frequency gives the single period from start to end, unless the
   * regular periods are set apart from the start or end date, which fails.
   */
  lemma TermIsOnePeriod(s: PeriodicSchedule)
    requires IsValid(s) && s.frequency.Term?
    ensures UnadjustedDates(s).Success? <==>
      EffectiveFirstRegularStartDate(s) == s.startDate && EffectiveLastRegularEndDate(s) == s.endDate
    ensures UnadjustedDates(s).Success? ==> UnadjustedDates(s).value == [s.startDate, s.endDate]
    ensures EffectiveFirstRegularStartDate(s) != s.startDate ==> UnadjustedDates(s) == Failure(TermWithInitialStub)
    ensures EffectiveFirstRegularStartDate(s) == s.startDate && EffectiveLastRegularEndDate(s) != s.endDate ==>
      UnadjustedDates(s) == Failure(TermWithFinalStub)
  {
    assert Generate(s) == TermDates(s);
  }

  /**
   * Explicit stubs on a side the stub convention does not permit, or a 'Both'
   * convention without both stubs explicit, make generation fail.
   */
  lemma ExplicitStubsMustAgree(s: PeriodicSchedule)
    requires IsValid(s) && !s.frequency.Term? && s.stubConvention.Some?
    requires !AgreesWithExplicitStubs(s.stubConvention.value,
                                      EffectiveFirstRegularStartDate(s) != s.startDate,
                                      EffectiveLastRegularEndDate(s) != s.endDate)
    ensures UnadjustedDates(s) == Failure(ExplicitStubConflict) || UnadjustedDates(s) == Failure(BothNeedsExplicitStubs)
    ensures s.stubConvention == Some(Both) && !(EffectiveFirstRegularStartDate(s) != s.startDate && EffectiveLastRegularEndDate(s) != s.endDate) ==>
      UnadjustedDates(s) == Failure(BothNeedsExplicitStubs)
  {
    var ei := EffectiveFirstRegularStartDate(s) != s.startDate;
    var ef := EffectiveLastRegularEndDate(s) != s.endDate;
    assert Generate(s) == Failure(ImplicitStubConvention(s.stubConvention, ei, ef).error);
  }

  /**
   * With stub convention 'None' the dates must be whole regular periods: when
   * rolling from the start overshoots the end after at least one regular
   * date, generation fails.
   */
  lemma NoStubFailsWhenRollingOvershoots(s: PeriodicSchedule)
    requires IsValid(s) && !s.frequency.Term? && s.stubConvention == Some(NoStub)
    requires EffectiveFirstRegularStartDate(s) == s.startDate && EffectiveLastRegularEndDate(s) == s.endDate
    requires var roll := EffectiveRollConvention(s);
      && Matches(roll, s.startDate)
      && var rolled := RollForward(Next(roll, s.startDate, s.frequency).1, Next(roll, s.startDate, s.frequency).0, s.endDate, s.frequency);
         rolled.stop != s.endDate && |rolled.dates| > 0
    ensures UnadjustedDates(s) == Failure(StubNotAllowed)
  {
    var roll := EffectiveRollConvention(s);
    assert Generate(s) == GenerateForwards(s.startDate, s.startDate, s.endDate, s.endDate, roll, s.frequency, NoStub);
  }

  /**
   * Conversely, a schedule generated under stub convention 'None' by a
   * stateless roll convention ends on a regular period: when there is more
   * than one period, the end date is the roll of the date before it.
   */
  lemma NoStubEndsOnRegularPeriod(s: PeriodicSchedule)
    requires IsValid(s) && !s.frequency.Term? && s.stubConvention == Some(NoStub)
    requires !EffectiveRollConvention(s).Stalling?
    requires UnadjustedDates(s).Success? && |UnadjustedDates(s).value| > 2
    ensures var ds := UnadjustedDates(s).value;
      ds[|ds| - 1] == Next(EffectiveRollConvention(s), ds[|ds| - 2], s.frequency).0
  {
    var roll := EffectiveRollConvention(s);
    assert EffectiveFirstRegularStartDate(s) == s.startDate && EffectiveLastRegularEndDate(s) == s.endDate;
    GenerateForwardsCase(s);
    NoStubForwardsEndsOnRoll(s.startDate, s.endDate, roll, s.frequency);
  }

  /** Generating forwards under stub convention 'None' with a stateless roll ends on a roll. */
  lemma NoStubForwardsEndsOnRoll(start: LocalDate, end: LocalDate, roll: RollConvention, f: Frequency)
    requires IsBefore(start, end) && !roll.Stalling?
    requires var r := GenerateForwards(start, start, end, end, roll, f, NoStub); r.Success? && |r.value| > 2
    ensures var ds := GenerateForwards(start, start, end, end, roll, f, NoStub).value;
      ds[|ds| - 1] == Next(roll, ds[|ds| - 2], f).0
  {
    var first := Next(roll, start, f).0;
    GenerateForwardsMatching(start, start, end, end, roll, f, NoStub);
    var rolled := RollForward(roll, first, end, f);
    RollForwardStopsOnRoll(roll, first, end, f);
    FinishForwardsWithoutExplicitStubs(start, end, NoStub, rolled);
    assert |rolled.dates| > 0 && rolled.stop == end;
    LastTwoOfFramed(start, rolled.dates, end);
  }

  /** The last two dates of a list framed by a first and a last date. */
  lemma LastTwoOfFramed(first: LocalDate, middle: seq<LocalDate>, last: LocalDate)
    requires |middle| > 0
    ensures var ds := [first] + middle + [last];
      ds[|ds| - 2] == middle[|middle| - 1] && ds[|ds| - 1] == last
  {
  }

  /**
   * When generation does start (the stub conventions agree with the dates),
   * it fails if the roll convention does not land on the date it starts from:
   * the end of the regular periods for an initial stub, their start otherwise.
   */
  lemma RollMustMatchAnchor(s: PeriodicSchedule)
    requires IsValid(s) && !s.frequency.Term?
    requires var stub := ImplicitStubConvention(s.stubConvention,
                                                 EffectiveFirstRegularStartDate(s) != s.startDate,
                                                 EffectiveLastRegularEndDate(s) != s.endDate);
      && stub.Success?
      && var anchor := if stub.value.IsCalculateBackwards() then EffectiveLastRegularEndDate(s) else EffectiveFirstRegularStartDate(s);
         !Matches(EffectiveRollConvention(s), anchor)
    ensures UnadjustedDates(s).Failure? && UnadjustedDates(s).error.RollMismatch?
  {
  }

  /**
   * A roll convention the schedule derives itself (none given, NONE, or EOM)
   * always lands on the date generation starts from, so when the dates give
   * no explicit stub, a month-based schedule never fails on a roll mismatch.
   */
  lemma DerivedRollNeverMismatches(s: PeriodicSchedule)
    requires IsValid(s) && s.frequency.IsMonthBased()
    requires s.rollConvention in {None, Some(NoRoll), Some(EndOfMonth)}
    requires EffectiveFirstRegularStartDate(s) == s.startDate && EffectiveLastRegularEndDate(s) == s.endDate
    ensures !(UnadjustedDates(s).Failure? && UnadjustedDates(s).error.RollMismatch?)
  {
    var stub := ImplicitStubConvention(s.stubConvention, false, false);
    if stub.Success? {
      assert stub.value == s.stubConvention.GetOr(NoStub);
      assert Matches(EffectiveRollConvention(s), RollAnchor(s));
      if stub.value.IsCalculateBackwards() {
        assert Generate(s) == GenerateBackwards(s.startDate, s.endDate, EffectiveRollConvention(s), s.frequency, stub.value);
      } else {
        assert Generate(s) == GenerateForwards(s.startDate, s.startDate, s.endDate, s.endDate, EffectiveRollConvention(s), s.frequency, stub.value);
      }
    }
  }

  /**
   * Backwards, a long initial stub absorbs the first regular period exactly
   * when there is a stub: when rolling back from the first regular start date
   * (the second date) does not land on the start date. Otherwise the dates
   * are those of the short initial stub.
   */
  lemma LongBackwardsDropsFirstRegular(start: LocalDate, end: LocalDate, roll: RollConvention, f: Frequency)
    requires IsBefore(start, end)
    ensures var short, long := GenerateBackwards(start, end, roll, f, ShortInitial), GenerateBackwards(start, end, roll, f, LongInitial);
      && (short.Success? <==> long.Success?)
      && (short.Success? ==> var ds := short.value;
            long.value == if |ds| >= 3 && Previous(roll, ds[1], f) != start then WithoutSecond(ds) else ds)
  {
    if Matches(roll, end) {
      GenerateBackwardsMatching(start, end, roll, f, ShortInitial);
      GenerateBackwardsMatching(start, end, roll, f, LongInitial);
      var rolled := RollBackward(roll, Previous(roll, end, f), start, f);
      RollBackwardStopsOnPrevious(roll, Previous(roll, end, f), start, f);
      FinishLongInitial(start, end, rolled);
    }
  }

  /** Finishing with a long initial stub leaves out the first rolled date exactly when rolling overshot the start. */
  lemma FinishLongInitial(start: LocalDate, end: LocalDate, rolled: Rolled)
    ensures var short, long := FinishBackwards(start, end, ShortInitial, rolled), FinishBackwards(start, end, LongInitial, rolled);
      && short == [start] + rolled.dates + [end]
      && (|rolled.dates| > 0 ==> short[1] == rolled.dates[0])
      && long == if rolled.stop != start && |rolled.dates| > 0 then [short[0]] + short[2..] else short
  {
    var ds := [start] + rolled.dates + [end];
    if rolled.stop != start && |rolled.dates| > 0 {
      assert WithoutSecond(ds) == [start] + rolled.dates[1..] + [end];
    }
  }

  /** Finishing with a long final stub leaves out the last rolled date exactly when rolling overshot the end. */
  lemma FinishLongFinal(start: LocalDate, end: LocalDate, rolled: Rolled)
    ensures var short, long := FinishForwards(start, start, end, end, ShortFinal, rolled), FinishForwards(start, start, end, end, LongFinal, rolled);
      && short.Success? && long.Success?
      && short.value == [start] + rolled.dates + [end]
      && long.value == if rolled.stop != end && |rolled.dates| > 0 then WithoutPenultimate(short.value) else short.value
  {
    var d := rolled.dates;
    var ds := [start] + d + [end];
    assert FinishForwards(start, start, end, end, ShortFinal, rolled).value == [] + [start] + d + [end] + [];
    if rolled.stop != end && |d| > 0 {
      assert FinishForwards(start, start, end, end, LongFinal, rolled).value == [] + [start] + d[..|d| - 1] + [end] + [];
      assert ds[..|ds| - 2] == [start] + d[..|d| - 1];
      assert WithoutPenultimate(ds) == [start] + d[..|d| - 1] + [end];
    }
  }

  /**
   * Forwards, a long final stub absorbs the last regular period exactly when
   * there is a stub: when rolling on from the last regular end date (the
   * penultimate date) does not land on the end date. Otherwise the dates are
   * those of the short final stub.
   */
  lemma LongForwardsDropsLastRegular(start: LocalDate, end: LocalDate, roll: RollConvention, f: Frequency)
    requires IsBefore(start, end)
    ensures var short, long := GenerateForwards(start, start, end, end, roll, f, ShortFinal), GenerateForwards(start, start, end, end, roll, f, LongFinal);
      short.Success? <==> long.Success?
    ensures var short, long := GenerateForwards(start, start, end, end, roll, f, ShortFinal), GenerateForwards(start, start, end, end, roll, f, LongFinal);
      short.Success? ==> var ds := short.value;
        long.value == if |ds| >= 3 && Next(Settled(roll), ds[|ds| - 2], f).0 != end then WithoutPenultimate(ds) else ds
  {
    if Matches(roll, start) {
      var next := Next(roll, start, f);
      GenerateForwardsMatching(start, start, end, end, roll, f, ShortFinal);
      GenerateForwardsMatching(start, start, end, end, roll, f, LongFinal);
      var rolled := RollForward(next.1, next.0, end, f);
      FinishLongFinal(start, end, rolled);
      PenultimateRollsToStop(start, end, next.1, next.0, f, roll);
    }
  }

  /** Rolling on from the date before the end of the finished dates gives where the rolling stopped. */
  lemma PenultimateRollsToStop(start: LocalDate, end: LocalDate, roll: RollConvention, temp: LocalDate, f: Frequency,
                               original: RollConvention)
    requires Settled(roll) == Settled(original)
    ensures var rolled := RollForward(roll, temp, end, f);
      var ds := [start] + rolled.dates + [end];
      && (|ds| >= 3 <==> |rolled.dates| > 0)
      && (|rolled.dates| > 0 ==> Next(Settled(original), ds[|ds| - 2], f).0 == rolled.stop)
  {
    var rolled := RollForward(roll, temp, end, f);
    RollForwardStopsOnRoll(roll, temp, end, f);
    var ds := [start] + rolled.dates + [end];
    if |rolled.dates| > 0 {
      assert ds[|ds| - 2] == rolled.dates[|rolled.dates| - 1];
    }
  }

  /**
   * Over a whole definition, a long initial stub generates the dates of the
   * short initial stub, less the first regular start date exactly when no
   * explicit initial stub is given and rolling back from that date does not
   * land on the start date. The roll convention is the same.
   */
  lemma GenerateLongInitial(s: PeriodicSchedule)
    requires IsValid(s) && !s.frequency.Term? && s.stubConvention == Some(ShortInitial)
    ensures var l := s.(stubConvention := Some(LongInitial));
      && IsValid(l)
      && EffectiveRollConvention(l) == EffectiveRollConvention(s)
      && (Generate(s).Success? <==> Generate(l).Success?)
      && (Generate(s).Success? ==>
            var ds := Generate(s).value;
            Generate(l).value == if LongInitialDrops(s, ds) then WithoutSecond(ds) else ds)
  {
    var l := s.(stubConvention := Some(LongInitial));
    SameDirectionKeepsRoll(s, LongInitial);
    ImplicitLongForShort(ShortInitial, LongInitial, EffectiveFirstRegularStartDate(s) != s.startDate, EffectiveLastRegularEndDate(s) != s.endDate);
    if ImplicitStub(s).Failure? {
      GenerateStubFailureCase(s);
      GenerateStubFailureCase(l);
    } else if ImplicitStub(s).value == ShortInitial {
      GenerateBackwardsCase(s);
      GenerateBackwardsCase(l);
      LongBackwardsDropsFirstRegular(s.startDate, s.endDate, EffectiveRollConvention(s), s.frequency);
    } else {
      GenerateForwardsCase(s);
      GenerateForwardsCase(l);
    }
  }

  /**
   * Whether a long initial stub drops the second of the short initial stub's
   * dates: there is no explicit initial stub, and rolling back from the first
   * regular start date overshoots the start date.
   */
  predicate LongInitialDrops(s: PeriodicSchedule, ds: seq<LocalDate>) {
    && EffectiveFirstRegularStartDate(s) == s.startDate
    && |ds| >= 3
    && Previous(EffectiveRollConvention(s), ds[1], s.frequency) != s.startDate
  }

  /**
   * Whether a long final stub drops the penultimate of the short final stub's
   * dates: there is no explicit final stub, and rolling on from the last
   * regular end date overshoots the end date.
   */
  predicate LongFinalDrops(s: PeriodicSchedule, ds: seq<LocalDate>) {
    && EffectiveLastRegularEndDate(s) == s.endDate
    && |ds| >= 3
    && Next(Settled(EffectiveRollConvention(s)), ds[|ds| - 2], s.frequency).0 != s.endDate
  }

  /**
   * A long initial stub merges the short initial stub into the first regular
   * period: when the short initial stub's unadjusted dates exist, so do the
   * long one's, and they lack the first regular start date exactly when there
   * is a stub. The roll convention is the same.
   */
  lemma LongInitialMergesShortInitial(s: PeriodicSchedule)
    requires IsValid(s) && !s.frequency.Term? && s.stubConvention == Some(ShortInitial)
    ensures var l := s.(stubConvention := Some(LongInitial));
      EffectiveRollConvention(l) == EffectiveRollConvention(s)
    ensures var l := s.(stubConvention := Some(LongInitial));
      UnadjustedDates(s).Success? ==>
        var ds := UnadjustedDates(s).value;
        && UnadjustedDates(l).Success?
        && UnadjustedDates(l).value == if LongInitialDrops(s, ds) then WithoutSecond(ds) else ds
  {
    var l := s.(stubConvention := Some(LongInitial));
    GenerateLongInitial(s);
    if UnadjustedDates(s).Success? {
      var ds := UnadjustedDates(s).value;
      var drop := LongInitialDrops(s, ds);
      DistinctUnlessDropped(ds, drop, true);
    }
  }

  /**
   * Over a whole definition, a long final stub generates the dates of the
   * short final stub, less the last regular end date exactly when no explicit
   * final stub is given and rolling on from that date does not land on the
   * end date. The roll convention is the same.
   */
  lemma GenerateLongFinal(s: PeriodicSchedule)
    requires IsValid(s) && !s.frequency.Term? && s.stubConvention == Some(ShortFinal)
    ensures IsValid(s.(stubConvention := Some(LongFinal)))
    ensures EffectiveRollConvention(s.(stubConvention := Some(LongFinal))) == EffectiveRollConvention(s)
    ensures Generate(s).Success? <==> Generate(s.(stubConvention := Some(LongFinal))).Success?
    ensures Generate(s).Success? ==>
      var ds := Generate(s).value;
      Generate(s.(stubConvention := Some(LongFinal))).value == if LongFinalDrops(s, ds) then WithoutPenultimate(ds) else ds
  {
    var l := s.(stubConvention := Some(LongFinal));
    SameDirectionKeepsRoll(s, LongFinal);
    ImplicitLongForShort(ShortFinal, LongFinal, EffectiveFirstRegularStartDate(s) != s.startDate, EffectiveLastRegularEndDate(s) != s.endDate);
    if ImplicitStub(s).Failure? {
      GenerateStubFailureCase(s);
      GenerateStubFailureCase(l);
    } else if ImplicitStub(s).value == ShortFinal {
      LongFinalWithoutExplicitStub(s);
      LongForwardsDropsLastRegular(s.startDate, s.endDate, EffectiveRollConvention(s), s.frequency);
    } else {
      LongFinalAfterExplicitStub(s);
    }
  }

  /** Without explicit stubs, the long final stub generates forwards like the short one, from the start date. */
  lemma LongFinalWithoutExplicitStub(s: PeriodicSchedule)
    requires IsValid(s) && !s.frequency.Term? && s.stubConvention == Some(ShortFinal) && ImplicitStub(s) == Success(ShortFinal)
    ensures var l := s.(stubConvention := Some(LongFinal));
      && EffectiveLastRegularEndDate(s) == s.endDate
      && Generate(s) == GenerateForwards(s.startDate, s.startDate, s.endDate, s.endDate, EffectiveRollConvention(s), s.frequency, ShortFinal)
      && Generate(l) == GenerateForwards(s.startDate, s.startDate, s.endDate, s.endDate, EffectiveRollConvention(s), s.frequency, LongFinal)
  {
    var l := s.(stubConvention := Some(LongFinal));
    SameDirectionKeepsRoll(s, LongFinal);
    assert EffectiveFirstRegularStartDate(s) == s.startDate && EffectiveLastRegularEndDate(s) == s.endDate;
    assert ImplicitStub(l) == Success(LongFinal);
    GenerateForwardsCase(s);
    GenerateForwardsCase(l);
  }

  /** After an explicit final stub, a long final stub generates what the short one does. */
  lemma LongFinalAfterExplicitStub(s: PeriodicSchedule)
    requires IsValid(s) && !s.frequency.Term? && s.stubConvention == Some(ShortFinal)
    requires ImplicitStub(s).Success? && ImplicitStub(s).value != ShortFinal
    ensures EffectiveLastRegularEndDate(s) != s.endDate
    ensures Generate(s.(stubConvention := Some(LongFinal))) == Generate(s)
  {
    var l := s.(stubConvention := Some(LongFinal));
    SameDirectionKeepsRoll(s, LongFinal);
    ImplicitLongForShort(ShortFinal, LongFinal, EffectiveFirstRegularStartDate(s) != s.startDate, EffectiveLastRegularEndDate(s) != s.endDate);
    assert ImplicitStub(l) == ImplicitStub(s);
    GenerateForwardsCase(s);
    GenerateForwardsCase(l);
  }

  /**
   * A long final stub merges the short final stub into the last regular
   * period: when the short final stub's unadjusted dates exist, so do the
   * long one's, and they lack the last regular end date exactly when there
   * is a stub. The roll convention is the same.
   */
  lemma LongFinalMergesShortFinal(s: PeriodicSchedule)
    requires IsValid(s) && !s.frequency.Term? && s.stubConvention == Some(ShortFinal)
    ensures var l := s.(stubConvention := Some(LongFinal));
      EffectiveRollConvention(l) == EffectiveRollConvention(s)
    ensures var l := s.(stubConvention := Some(LongFinal));
      UnadjustedDates(s).Success? ==>
        var ds := UnadjustedDates(s).value;
        && UnadjustedDates(l).Success?
        && UnadjustedDates(l).value == if LongFinalDrops(s, ds) then WithoutPenultimate(ds) else ds
  {
    var l := s.(stubConvention := Some(LongFinal));
    GenerateLongFinal(s);
    if UnadjustedDates(s).Success? {
      var ds := UnadjustedDates(s).value;
      var drop := LongFinalDrops(s, ds);
      DistinctUnlessDropped(ds, drop, false);
    }
  }

  /** Dropping the second (initially) or the penultimate date keeps dates distinct. */
  lemma DistinctUnlessDropped(ds: seq<LocalDate>, drop: bool, initial: bool)
    requires Distinct(ds) && (drop ==> |ds| >= 3)
    ensures drop && initial ==> Distinct(WithoutSecond(ds))
    ensures drop && !initial ==> Distinct(WithoutPenultimate(ds))
  {
    if drop && initial {
      DistinctWithoutSecond(ds);
    } else if drop {
      DistinctWithoutPenultimate(ds);
    }
  }

  /** Forward generation that keeps its first rolled date, being the regular start, repeats it. */
  lemma RepeatedRegularStart(start: LocalDate, regStart: LocalDate, regEnd: LocalDate, end: LocalDate,
                             stub: StubConvention, rolled: Rolled)
    requires stub in {NoStub, ShortFinal} && |rolled.dates| > 0 && rolled.dates[0] == regStart
    requires FinishForwards(start, regStart, regEnd, end, stub, rolled).Success?
    ensures !Distinct(FinishForwards(start, regStart, regEnd, end, stub, rolled).value)
  {
    var pre := if start != regStart then [start] else [];
    var ds := FinishForwards(start, regStart, regEnd, end, stub, rolled).value;
    assert ds == pre + [regStart] + rolled.dates + [regEnd] + (if regEnd != end then [end] else []);
    assert ds[|pre|] == regStart && ds[|pre| + 1] == regStart;
  }

  /**
   * A roll convention whose next date can be the date it was given (a
   * convention that has not yet used up its stalls) never yields unadjusted
   * dates when generating forwards without a long stub: the first regular
   * start date comes out twice, or the stub check fails first.
   */
  lemma StallingRollNeverSucceeds(s: PeriodicSchedule, k: nat)
    requires IsValid(s) && !s.frequency.Term? && k > 0
    requires EffectiveRollConvention(s) == Stalling(k)
    requires ImplicitStub(s).Success? && ImplicitStub(s).value in {NoStub, ShortFinal}
    ensures UnadjustedDates(s) == Failure(DuplicateUnadjustedDates) || UnadjustedDates(s) == Failure(StubNotAllowed)
  {
    var regStart := EffectiveFirstRegularStartDate(s);
    var regEnd := EffectiveLastRegularEndDate(s);
    var stub := ImplicitStub(s).value;
    GenerateForwardsCase(s);
    assert Next(Stalling(k), regStart, s.frequency) == (regStart, Stalling(k - 1));
    var rolled := RollForward(Stalling(k - 1), regStart, regEnd, s.frequency);
    RollForwardProperties(Stalling(k - 1), regStart, regEnd, s.frequency);
    assert Generate(s) == FinishForwards(s.startDate, regStart, regEnd, s.endDate, stub, rolled);
    if Generate(s).Success? {
      RepeatedRegularStart(s.startDate, regStart, regEnd, s.endDate, stub, rolled);
    }
  }

  /**
   * The start and end date adjustments change only the first and the last
   * adjusted date: the unadjusted dates do not depend on them, and every
   * other date is adjusted by the main adjustment either way.
   */
  lemma StartEndAdjustmentsOnlyAffectEnds(s: PeriodicSchedule, startAdj: Option<BusinessDayAdjustment>, endAdj: Option<BusinessDayAdjustment>)
    requires IsValid(s)
    ensures var t := s.(startDateBusinessDayAdjustment := startAdj, endDateBusinessDayAdjustment := endAdj);
      && IsValid(t)
      && UnadjustedDates(t) == UnadjustedDates(s)
      && (UnadjustedDates(s).Success? ==>
            var u := UnadjustedDates(s).value;
            forall i | 0 < i < |u| - 1 :: ApplyAdjustments(t, u)[i] == ApplyAdjustments(s, u)[i])
  {
    var t := s.(startDateBusinessDayAdjustment := startAdj, endDateBusinessDayAdjustment := endAdj);
    assert EffectiveRollConvention(t) == EffectiveRollConvention(s);
    assert Generate(t) == Generate(s);
  }

  /**
   * The adjusted dates fail on duplicates exactly when the unadjusted dates
   * succeed and two of them adjust to the same day; the unadjusted dates are
   * unaffected, and so is a failure of their own.
   */
  lemma AdjustmentCollisionFailsOnlyAdjusted(s: PeriodicSchedule)
    requires IsValid(s) && UnadjustedDates(s).Success?
    requires var u := UnadjustedDates(s).value;
      exists i, j | 0 <= i < j < |u| :: ApplyAdjustments(s, u)[i] == ApplyAdjustments(s, u)[j]
    ensures AdjustedDates(s) == Failure(DuplicateAdjustedDates)
    ensures ScheduleOf(s) == Failure(DuplicateAdjustedDates)
  {
  }
}
