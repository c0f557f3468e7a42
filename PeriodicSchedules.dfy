/**
 * PeriodicSchedule: the definition of a schedule of periods between a start
 * and an end date, and its expansion into unadjusted boundary dates, adjusted
 * boundary dates and a Schedule of SchedulePeriods.
 *
 * Each generation step is a specification function here; the loops that roll
 * dates forward and backward, and the operations that create the dates and the
 * schedule, are methods proved equal to those functions.
 */
module PeriodicSchedules {
  import opened Wrappers
  import opened Dates
  import opened Frequencies
  import opened RollConventions
  import opened BusinessDays
  import opened StubConventions
  import opened ScheduleExceptions
  import opened DateSequences

  /** The definition of a schedule; absent optional properties are None. */
  datatype PeriodicSchedule = PeriodicSchedule(
    startDate: LocalDate,
    endDate: LocalDate,
    frequency: Frequency,
    businessDayAdjustment: BusinessDayAdjustment,
    startDateBusinessDayAdjustment: Option<BusinessDayAdjustment>,
    endDateBusinessDayAdjustment: Option<BusinessDayAdjustment>,
    stubConvention: Option<StubConvention>,
    rollConvention: Option<RollConvention>,
    firstRegularStartDate: Option<LocalDate>,
    lastRegularEndDate: Option<LocalDate>)

  /** The rules a definition satisfies once built. */
  predicate IsValid(s: PeriodicSchedule) {
    && IsBefore(s.startDate, s.endDate)
    && (s.firstRegularStartDate.Some? ==>
          !IsBefore(s.firstRegularStartDate.value, s.startDate) && IsBefore(s.firstRegularStartDate.value, s.endDate))
    && (s.lastRegularEndDate.Some? ==>
          IsBefore(s.startDate, s.lastRegularEndDate.value) && !IsAfter(s.lastRegularEndDate.value, s.endDate))
    && (s.firstRegularStartDate.Some? && s.lastRegularEndDate.Some? ==>
          IsBefore(s.firstRegularStartDate.value, s.lastRegularEndDate.value))
  }

  /** The rule of validity an argument error names is broken. */
  predicate Violates(s: PeriodicSchedule, e: BuildError) {
    match e
    case StartNotBeforeEnd => !IsBefore(s.startDate, s.endDate)
    case FirstRegularBeforeStart =>
      s.firstRegularStartDate.Some? && IsBefore(s.firstRegularStartDate.value, s.startDate)
    case FirstRegularNotBeforeEnd =>
      s.firstRegularStartDate.Some? && !IsBefore(s.firstRegularStartDate.value, s.endDate)
    case LastRegularNotAfterStart =>
      s.lastRegularEndDate.Some? && !IsBefore(s.startDate, s.lastRegularEndDate.value)
    case LastRegularAfterEnd =>
      s.lastRegularEndDate.Some? && IsAfter(s.lastRegularEndDate.value, s.endDate)
    case FirstRegularNotBeforeLastRegular =>
      s.firstRegularStartDate.Some? && s.lastRegularEndDate.Some?
      && !IsBefore(s.firstRegularStartDate.value, s.lastRegularEndDate.value)
  }

  /**
   * PeriodicSchedule.Builder.build: the properties set on the builder become
   * the definition, or the first broken rule is reported.
   */
  function Build(fields: PeriodicSchedule): (r: Result<PeriodicSchedule, BuildError>)
    ensures r.Success? <==> IsValid(fields)
    ensures r.Success? ==> r.value == fields
    ensures r.Failure? ==> Violates(fields, r.error)
  {
    var first := fields.firstRegularStartDate;
    var last := fields.lastRegularEndDate;
    if !IsBefore(fields.startDate, fields.endDate) then Failure(StartNotBeforeEnd)
    else if first.Some? && IsBefore(first.value, fields.startDate) then Failure(FirstRegularBeforeStart)
    else if first.Some? && !IsBefore(first.value, fields.endDate) then Failure(FirstRegularNotBeforeEnd)
    else if last.Some? && !IsBefore(fields.startDate, last.value) then Failure(LastRegularNotAfterStart)
    else if last.Some? && IsAfter(last.value, fields.endDate) then Failure(LastRegularAfterEnd)
    else if first.Some? && last.Some? && !IsBefore(first.value, last.value) then Failure(FirstRegularNotBeforeLastRegular)
    else Success(fields)
  }

  /**
   * PeriodicSchedule.of with an end-of-month flag: the flag asks for the EOM
   * roll convention (which is advisory), otherwise no roll convention is set.
   */
  function OfEndOfMonth(startDate: LocalDate, endDate: LocalDate, frequency: Frequency, businessDayAdjustment: BusinessDayAdjustment,
                        stubConvention: StubConvention, preferEndOfMonth: bool): (r: Result<PeriodicSchedule, BuildError>)
    ensures r.Success? <==> IsBefore(startDate, endDate)
    ensures r.Success? ==>
      && r.value.startDate == startDate && r.value.endDate == endDate
      && r.value.frequency == frequency && r.value.businessDayAdjustment == businessDayAdjustment
      && r.value.startDateBusinessDayAdjustment.None? && r.value.endDateBusinessDayAdjustment.None?
      && r.value.stubConvention == Some(stubConvention)
      && r.value.rollConvention == (if preferEndOfMonth then Some(EndOfMonth) else None)
      && EffectiveFirstRegularStartDate(r.value) == startDate
      && EffectiveLastRegularEndDate(r.value) == endDate
  {
    Build(PeriodicSchedule(startDate, endDate, frequency, businessDayAdjustment, None, None,
                           Some(stubConvention), if preferEndOfMonth then Some(EndOfMonth) else None, None, None))
  }

  /** PeriodicSchedule.of with a roll convention. */
  function OfRollConvention(startDate: LocalDate, endDate: LocalDate, frequency: Frequency, businessDayAdjustment: BusinessDayAdjustment,
                            stubConvention: StubConvention, rollConvention: RollConvention): (r: Result<PeriodicSchedule, BuildError>)
    ensures r.Success? <==> IsBefore(startDate, endDate)
    ensures r.Success? ==>
      && r.value.startDate == startDate && r.value.endDate == endDate
      && r.value.frequency == frequency && r.value.businessDayAdjustment == businessDayAdjustment
      && r.value.startDateBusinessDayAdjustment.None? && r.value.endDateBusinessDayAdjustment.None?
      && r.value.stubConvention == Some(stubConvention) && r.value.rollConvention == Some(rollConvention)
      && EffectiveFirstRegularStartDate(r.value) == startDate
      && EffectiveLastRegularEndDate(r.value) == endDate
  {
    Build(PeriodicSchedule(startDate, endDate, frequency, businessDayAdjustment, None, None,
                           Some(stubConvention), Some(rollConvention), None, None))
  }

  /** The start of the regular periods: the first regular start date, defaulting to the start date. */
  function EffectiveFirstRegularStartDate(s: PeriodicSchedule): LocalDate {
    s.firstRegularStartDate.GetOr(s.startDate)
  }

  /** The end of the regular periods: the last regular end date, defaulting to the end date. */
  function EffectiveLastRegularEndDate(s: PeriodicSchedule): LocalDate {
    s.lastRegularEndDate.GetOr(s.endDate)
  }

  /** The date generation anchors the roll convention on, by the declared stub convention. */
  function RollAnchor(s: PeriodicSchedule): LocalDate {
    if s.stubConvention.GetOr(NoStub).IsCalculateBackwards() then EffectiveLastRegularEndDate(s)
    else EffectiveFirstRegularStartDate(s)
  }

  /**
   * The roll convention generation uses. A given convention is used as it is,
   * except that EOM is only a preference (it applies when the anchor date is a
   * month end) and that NONE, like an absent convention, is replaced by the
   * convention the anchor date implies, where the frequency is month-based.
   */
  function EffectiveRollConvention(s: PeriodicSchedule): (r: RollConvention)
    ensures s.rollConvention.Some? && s.rollConvention.value !in {NoRoll, EndOfMonth} ==> r == s.rollConvention.value
    ensures s.rollConvention in {None, Some(NoRoll), Some(EndOfMonth)} && s.frequency.IsMonthBased() ==>
      Matches(r, RollAnchor(s))
    ensures s.rollConvention in {None, Some(NoRoll)} && s.frequency.IsMonthBased() && RollAnchor(s).day < 31 ==>
      r == DayOfMonth(RollAnchor(s).day)
    ensures s.rollConvention == Some(EndOfMonth) && s.frequency.IsMonthBased() && IsLastDayOfMonth(RollAnchor(s)) ==>
      r == EndOfMonth
    ensures (&& s.rollConvention in {None, Some(NoRoll), Some(EndOfMonth)} && s.frequency.IsMonthBased()
             && !(s.rollConvention == Some(EndOfMonth) && IsLastDayOfMonth(RollAnchor(s)))) ==>
      r == OfDayOfMonth(RollAnchor(s).day)
    ensures s.rollConvention in {None, Some(NoRoll)} && !s.frequency.IsMonthBased() ==> r == NoRoll
    ensures s.rollConvention == Some(EndOfMonth) && !s.frequency.IsMonthBased() ==> r == EndOfMonth
  {
    var stub := s.stubConvention.GetOr(NoStub);
    var first := EffectiveFirstRegularStartDate(s);
    var last := EffectiveLastRegularEndDate(s);
    match s.rollConvention
    case Some(EndOfMonth) =>
      var derived := ToRollConvention(stub, first, last, s.frequency, true);
      if derived == NoRoll then EndOfMonth else derived
    case Some(NoRoll) => ToRollConvention(stub, first, last, s.frequency, false)
    case None => ToRollConvention(stub, first, last, s.frequency, false)
    case Some(roll) => roll
  }

  /** The convention generation follows once the explicit stubs are taken into account. */
  function ImplicitStubConvention(stub: Option<StubConvention>, explicitInitial: bool, explicitFinal: bool): (r: Result<StubConvention, ScheduleError>)
    ensures r.Success? <==> stub.None? || AgreesWithExplicitStubs(stub.value, explicitInitial, explicitFinal)
    ensures r.Success? && (stub.None? || explicitInitial || explicitFinal) ==> r.value == NoStub
    ensures r.Success? && stub.Some? && !explicitInitial && !explicitFinal ==> r.value == stub.value
  {
    match stub
    case None => Success(NoStub)
    case Some(c) => ToImplicit(c, explicitInitial, explicitFinal)
  }

  /** Dates reached by rolling, and the first date reached beyond the bound. */
  datatype Rolled = Rolled(dates: seq<LocalDate>, stop: LocalDate)

  /**
   * The dates reached from 'temp' (included) by rolling forward while they are
   * before 'end', and the first date reached that is not. The convention may
   * change as it rolls.
   */
  function RollForward(roll: RollConvention, temp: LocalDate, end: LocalDate, f: Frequency): Rolled
    decreases Key(end) - Key(temp), StallsLeft(roll)
  {
    if !IsBefore(temp, end) then Rolled([], temp)
    else
      var (next, nextRoll) := Next(roll, temp, f);
      var rest := RollForward(nextRoll, next, end, f);
      Rolled([temp] + rest.dates, rest.stop)
  }

  /**
   * Rolling forward collects ascending dates from 'temp' up to (not including)
   * 'end' and stops on or after 'end'.
   */
  lemma {:induction false} RollForwardProperties(roll: RollConvention, temp: LocalDate, end: LocalDate, f: Frequency)
    ensures var r := RollForward(roll, temp, end, f);
      && Ascending(r.dates)
      && (forall i | 0 <= i < |r.dates| :: !IsBefore(r.dates[i], temp) && IsBefore(r.dates[i], end))
      && !IsBefore(r.stop, end) && !IsBefore(r.stop, temp)
      && (IsBefore(temp, end) <==> |r.dates| > 0)
      && (|r.dates| > 0 ==> r.dates[0] == temp)
    decreases Key(end) - Key(temp), StallsLeft(roll)
  {
    if IsBefore(temp, end) {
      var (next, nextRoll) := Next(roll, temp, f);
      RollForwardProperties(nextRoll, next, end, f);
      var rest := RollForward(nextRoll, next, end, f);
      var dates := [temp] + rest.dates;
      assert RollForward(roll, temp, end, f) == Rolled(dates, rest.stop);
      assert !IsBefore(next, temp);
      AscendingAppend([temp], rest.dates);
      assert forall i | 1 <= i < |dates| :: dates[i] == rest.dates[i - 1];
    }
  }

  /**
   * When the convention keeps no state, each date collected by rolling
   * forward is the roll of the date before.
   */
  lemma {:induction false} RollForwardFollowsRoll(roll: RollConvention, temp: LocalDate, end: LocalDate, f: Frequency)
    requires !roll.Stalling?
    ensures var r := RollForward(roll, temp, end, f);
      && (forall i | 0 <= i < |r.dates| - 1 :: r.dates[i + 1] == Next(roll, r.dates[i], f).0)
      && (|r.dates| > 0 ==> r.dates[0] == temp)
    decreases Key(end) - Key(temp)
  {
    if IsBefore(temp, end) {
      var next := Next(roll, temp, f).0;
      RollForwardFollowsRoll(roll, next, end, f);
      var rest := RollForward(roll, next, end, f);
      var dates := [temp] + rest.dates;
      assert RollForward(roll, temp, end, f) == Rolled(dates, rest.stop);
      forall i | 0 <= i < |dates| - 1
        ensures dates[i + 1] == Next(roll, dates[i], f).0
      {
        if i > 0 {
          assert dates[i] == rest.dates[i - 1] && dates[i + 1] == rest.dates[i];
        }
      }
    }
  }

  /**
   * Rolling forward stops on the roll of the last date collected, or where it
   * started if it collected none. The last roll moves the date past the end,
   * so a stateful convention has used up its stalls by then.
   */
  lemma {:induction false} RollForwardStopsOnRoll(roll: RollConvention, temp: LocalDate, end: LocalDate, f: Frequency)
    ensures var r := RollForward(roll, temp, end, f);
      && (|r.dates| == 0 ==> r.stop == temp)
      && (|r.dates| > 0 ==> r.stop == Next(Settled(roll), r.dates[|r.dates| - 1], f).0)
    decreases Key(end) - Key(temp), StallsLeft(roll)
  {
    if IsBefore(temp, end) {
      var n := Next(roll, temp, f);
      RollForwardStopsOnRoll(n.1, n.0, end, f);
      if |RollForward(n.1, n.0, end, f).dates| > 0 {
        StopAfterSteps(roll, temp, end, f);
      } else {
        StopAfterOneStep(roll, temp, end, f);
      }
    }
  }

  /** Rolling that goes on after the next date stops where rolling on from there stops. */
  lemma StopAfterSteps(roll: RollConvention, temp: LocalDate, end: LocalDate, f: Frequency)
    requires IsBefore(temp, end)
    requires var n := Next(roll, temp, f);
      var rest := RollForward(n.1, n.0, end, f);
      |rest.dates| > 0 && rest.stop == Next(Settled(n.1), rest.dates[|rest.dates| - 1], f).0
    ensures var r := RollForward(roll, temp, end, f);
      |r.dates| > 0 && r.stop == Next(Settled(roll), r.dates[|r.dates| - 1], f).0
  {
    var n := Next(roll, temp, f);
    var rest := RollForward(n.1, n.0, end, f);
    var dates := [temp] + rest.dates;
    assert RollForward(roll, temp, end, f) == Rolled(dates, rest.stop);
    assert Settled(n.1) == Settled(roll);
    assert dates[|dates| - 1] == rest.dates[|rest.dates| - 1];
  }

  /** Rolling that collects only the given date stops on the next one. */
  lemma StopAfterOneStep(roll: RollConvention, temp: LocalDate, end: LocalDate, f: Frequency)
    requires IsBefore(temp, end)
    requires var n := Next(roll, temp, f);
      |RollForward(n.1, n.0, end, f).dates| == 0
    ensures var r := RollForward(roll, temp, end, f);
      r.dates == [temp] && r.stop == Next(Settled(roll), temp, f).0
  {
    var n := Next(roll, temp, f);
    RollForwardProperties(n.1, n.0, end, f);
    assert !IsBefore(n.0, end);
    assert roll == Settled(roll);
  }

  /**
   * The dates reached from 'temp' (included) by rolling backward while they are
   * after 'start', in ascending order, and the first date reached that is not.
   */
  function RollBackward(roll: RollConvention, temp: LocalDate, start: LocalDate, f: Frequency): Rolled
    decreases Key(temp) - Key(start)
  {
    if !IsAfter(temp, start) then Rolled([], temp)
    else
      var rest := RollBackward(roll, Previous(roll, temp, f), start, f);
      Rolled(rest.dates + [temp], rest.stop)
  }

  /**
   * Rolling backward collects strictly ascending dates after 'start', up to
   * and including 'temp', and stops on or before 'start'.
   */
  lemma {:induction false} RollBackwardProperties(roll: RollConvention, temp: LocalDate, start: LocalDate, f: Frequency)
    ensures var r := RollBackward(roll, temp, start, f);
      && StrictlyAscending(r.dates)
      && (forall i | 0 <= i < |r.dates| :: IsBefore(start, r.dates[i]) && !IsAfter(r.dates[i], temp))
      && !IsAfter(r.stop, start) && !IsAfter(r.stop, temp)
      && (IsAfter(temp, start) <==> |r.dates| > 0)
      && (|r.dates| > 0 ==> r.dates[|r.dates| - 1] == temp)
    decreases Key(temp) - Key(start)
  {
    if IsAfter(temp, start) {
      var previous := Previous(roll, temp, f);
      RollBackwardProperties(roll, previous, start, f);
      var rest := RollBackward(roll, previous, start, f);
      var dates := rest.dates + [temp];
      assert RollBackward(roll, temp, start, f) == Rolled(dates, rest.stop);
      assert forall i | 0 <= i < |rest.dates| :: dates[i] == rest.dates[i];
    }
  }

  /**
   * Rolling backward stops on the roll back of the first date collected, or
   * where it started if it collected none.
   */
  lemma {:induction false} RollBackwardStopsOnPrevious(roll: RollConvention, temp: LocalDate, start: LocalDate, f: Frequency)
    ensures var r := RollBackward(roll, temp, start, f);
      && (|r.dates| == 0 ==> r.stop == temp)
      && (|r.dates| > 0 ==> r.stop == Previous(roll, r.dates[0], f))
    decreases Key(temp) - Key(start)
  {
    if IsAfter(temp, start) {
      var previous := Previous(roll, temp, f);
      RollBackwardStopsOnPrevious(roll, previous, start, f);
      var rest := RollBackward(roll, previous, start, f);
      var dates := rest.dates + [temp];
      assert RollBackward(roll, temp, start, f) == Rolled(dates, rest.stop);
      assert dates[0] == if |rest.dates| > 0 then rest.dates[0] else temp;
    }
  }

  /**
   * The end of forward generation: a stub is present when rolling overshot the
   * end of the regular periods. Convention 'None' then fails; a long stub
   * absorbs the last regular period. Explicit stub dates go round the outside.
   */
  function FinishForwards(start: LocalDate, regStart: LocalDate, regEnd: LocalDate, end: LocalDate,
                          stub: StubConvention, rolled: Rolled): Result<seq<LocalDate>, ScheduleError>
  {
    var stubPresent := rolled.stop != regEnd;
    if stubPresent && |rolled.dates| > 0 && stub.NoStub? then Failure(StubNotAllowed)
    else
      var regular := if stubPresent && |rolled.dates| > 0 && stub.IsLong() then rolled.dates[..|rolled.dates| - 1] else rolled.dates;
      Success((if start != regStart then [start] else []) + [regStart] + regular + [regEnd] + (if regEnd != end then [end] else []))
  }

  /** Generation forwards from the start of the regular periods, which the convention must match. */
  function GenerateForwards(start: LocalDate, regStart: LocalDate, regEnd: LocalDate, end: LocalDate,
                            roll: RollConvention, f: Frequency, stub: StubConvention): (r: Result<seq<LocalDate>, ScheduleError>)
    requires !IsBefore(regStart, start) && IsBefore(regStart, regEnd) && !IsAfter(regEnd, end)
    ensures r.Success? ==> var ds := r.value;
      && |ds| >= 2 && ds[0] == start && ds[|ds| - 1] == end && Ascending(ds)
      && regStart in ds && regEnd in ds
  {
    if !Matches(roll, regStart) then Failure(RollMismatch(regStart))
    else
      var (first, nextRoll) := Next(roll, regStart, f);
      var rolled := RollForward(nextRoll, first, regEnd, f);
      RollForwardProperties(nextRoll, first, regEnd, f);
      var r := FinishForwards(start, regStart, regEnd, end, stub, rolled);
      if r.Success? then
        ForwardsAscending(start, regStart, regEnd, end, stub, rolled);
        r
      else r
  }

  lemma ForwardsAscending(start: LocalDate, regStart: LocalDate, regEnd: LocalDate, end: LocalDate,
                          stub: StubConvention, rolled: Rolled)
    requires !IsBefore(regStart, start) && IsBefore(regStart, regEnd) && !IsAfter(regEnd, end)
    requires Ascending(rolled.dates)
    requires forall i | 0 <= i < |rolled.dates| :: !IsBefore(rolled.dates[i], regStart) && IsBefore(rolled.dates[i], regEnd)
    requires FinishForwards(start, regStart, regEnd, end, stub, rolled).Success?
    ensures var ds := FinishForwards(start, regStart, regEnd, end, stub, rolled).value;
      |ds| >= 2 && ds[0] == start && ds[|ds| - 1] == end && Ascending(ds) && regStart in ds && regEnd in ds
  {
    var stubPresent := rolled.stop != regEnd;
    var regular := if stubPresent && |rolled.dates| > 0 && stub.IsLong() then rolled.dates[..|rolled.dates| - 1] else rolled.dates;
    var pre: seq<LocalDate> := if start != regStart then [start] else [];
    var post: seq<LocalDate> := if regEnd != end then [end] else [];
    var ds := pre + [regStart] + regular + [regEnd] + post;
    assert ds == FinishForwards(start, regStart, regEnd, end, stub, rolled).value;
    RegularBetween(rolled.dates, regular, regStart, regEnd);
    FramedAscending(pre, regStart, regular, regEnd, post);
    assert ds[0] == start && ds[|ds| - 1] == end;
  }

  /** Regular dates framed by their bounds, and by the start and end dates around those, ascend. */
  lemma FramedAscending(pre: seq<LocalDate>, regStart: LocalDate, regular: seq<LocalDate>, regEnd: LocalDate, post: seq<LocalDate>)
    requires |pre| <= 1 && |post| <= 1
    requires |pre| == 1 ==> !IsBefore(regStart, pre[0])
    requires |post| == 1 ==> !IsBefore(post[0], regEnd)
    requires IsBefore(regStart, regEnd) && Ascending(regular)
    requires forall i | 0 <= i < |regular| :: !IsBefore(regular[i], regStart) && IsBefore(regular[i], regEnd)
    ensures var ds := pre + [regStart] + regular + [regEnd] + post;
      && Ascending(ds) && |ds| == |pre| + |regular| + |post| + 2
      && ds[|pre|] == regStart && ds[|ds| - 1 - |post|] == regEnd
      && (|pre| == 1 ==> ds[0] == pre[0]) && (|post| == 1 ==> ds[|ds| - 1] == post[0])
  {
    var a := pre + [regStart];
    AscendingAppend(pre, [regStart]);
    var b := a + regular;
    AscendingAppend(a, regular);
    var c := b + [regEnd];
    AscendingAppend(b, [regEnd]);
    AscendingAppend(c, post);
    assert c[|c| - 1] == regEnd;
  }

  /** The regular dates kept are a prefix of the rolled ones, so they lie between the same bounds. */
  lemma RegularBetween(dates: seq<LocalDate>, regular: seq<LocalDate>, regStart: LocalDate, regEnd: LocalDate)
    requires Ascending(dates) && regular <= dates
    requires forall i | 0 <= i < |dates| :: !IsBefore(dates[i], regStart) && IsBefore(dates[i], regEnd)
    ensures Ascending(regular)
    ensures forall i | 0 <= i < |regular| :: !IsBefore(regular[i], regStart) && IsBefore(regular[i], regEnd)
  {
    assert forall i | 0 <= i < |regular| :: regular[i] == dates[i];
  }

  /** The end of backward generation: a long stub absorbs the first regular period. */
  function FinishBackwards(start: LocalDate, end: LocalDate, stub: StubConvention, rolled: Rolled): seq<LocalDate> {
    var stubPresent := rolled.stop != start;
    var regular := if stubPresent && |rolled.dates| > 0 && stub.IsLong() then rolled.dates[1..] else rolled.dates;
    [start] + regular + [end]
  }

  /** Generation backwards from the end of the regular periods, which the convention must match. */
  function GenerateBackwards(start: LocalDate, end: LocalDate, roll: RollConvention, f: Frequency, stub: StubConvention): (r: Result<seq<LocalDate>, ScheduleError>)
    requires IsBefore(start, end)
    ensures r.Success? ==> var ds := r.value;
      |ds| >= 2 && ds[0] == start && ds[|ds| - 1] == end && StrictlyAscending(ds)
  {
    if !Matches(roll, end) then Failure(RollMismatch(end))
    else
      var rolled := RollBackward(roll, Previous(roll, end, f), start, f);
      RollBackwardProperties(roll, Previous(roll, end, f), start, f);
      BackwardsAscending(start, end, stub, rolled);
      Success(FinishBackwards(start, end, stub, rolled))
  }

  lemma BackwardsAscending(start: LocalDate, end: LocalDate, stub: StubConvention, rolled: Rolled)
    requires IsBefore(start, end) && StrictlyAscending(rolled.dates)
    requires forall i | 0 <= i < |rolled.dates| :: IsBefore(start, rolled.dates[i]) && IsBefore(rolled.dates[i], end)
    ensures var ds := FinishBackwards(start, end, stub, rolled);
      |ds| >= 2 && ds[0] == start && ds[|ds| - 1] == end && StrictlyAscending(ds)
  {
    var stubPresent := rolled.stop != start;
    var regular := if stubPresent && |rolled.dates| > 0 && stub.IsLong() then rolled.dates[1..] else rolled.dates;
    var ds := [start] + regular + [end];
    assert forall i | 0 <= i < |regular| :: regular[i] in rolled.dates;
    assert forall i | 1 <= i < |ds| - 1 :: ds[i] == regular[i - 1];
  }

  /** The generated dates of a Term schedule: one period, allowed no stub. */
  function TermDates(s: PeriodicSchedule): Result<seq<LocalDate>, ScheduleError> {
    if EffectiveFirstRegularStartDate(s) != s.startDate then Failure(TermWithInitialStub)
    else if EffectiveLastRegularEndDate(s) != s.endDate then Failure(TermWithFinalStub)
    else Success([s.startDate, s.endDate])
  }

  /** The unadjusted dates as generated, before the duplicate check. */
  function Generate(s: PeriodicSchedule): (r: Result<seq<LocalDate>, ScheduleError>)
    requires IsValid(s)
    ensures r.Success? ==> var ds := r.value;
      && |ds| >= 2 && ds[0] == s.startDate && ds[|ds| - 1] == s.endDate && Ascending(ds)
      && EffectiveFirstRegularStartDate(s) in ds && EffectiveLastRegularEndDate(s) in ds
  {
    var regStart := EffectiveFirstRegularStartDate(s);
    var regEnd := EffectiveLastRegularEndDate(s);
    if s.frequency.Term? then TermDates(s)
    else
      var stub :- ImplicitStubConvention(s.stubConvention, regStart != s.startDate, regEnd != s.endDate);
      if stub.IsCalculateBackwards() then
        GenerateBackwards(regStart, regEnd, EffectiveRollConvention(s), s.frequency, stub)
      else
        GenerateForwards(s.startDate, regStart, regEnd, s.endDate, EffectiveRollConvention(s), s.frequency, stub)
  }

  /**
   * PeriodicSchedule.createUnadjustedDates: the boundary dates of the periods
   * before business-day adjustment. They run from the start date to the end
   * date in strictly ascending order, through both ends of the regular periods.
   */
  function UnadjustedDates(s: PeriodicSchedule): (r: Result<seq<LocalDate>, ScheduleError>)
    requires IsValid(s)
    ensures r.Success? ==> var ds := r.value;
      && |ds| >= 2 && ds[0] == s.startDate && ds[|ds| - 1] == s.endDate && StrictlyAscending(ds)
      && EffectiveFirstRegularStartDate(s) in ds && EffectiveLastRegularEndDate(s) in ds
    ensures r.Success? <==> Generate(s).Success? && Distinct(Generate(s).value)
    ensures r.Success? ==> r.value == Generate(s).value
    ensures Generate(s).Failure? ==> r == Failure(Generate(s).error)
    ensures Generate(s).Success? && !Distinct(Generate(s).value) ==> r == Failure(DuplicateUnadjustedDates)
  {
    var ds :- Generate(s);
    if HasDuplicates(ds) then Failure(DuplicateUnadjustedDates)
    else
      AscendingDistinctIsStrict(ds);
      Success(ds)
  }

  /** The adjustment of the first date: the start date's own, or the main one. */
  function StartAdjustment(s: PeriodicSchedule): BusinessDayAdjustment {
    s.startDateBusinessDayAdjustment.GetOr(s.businessDayAdjustment)
  }

  /** The adjustment of the last date: the end date's own, or the main one. */
  function EndAdjustment(s: PeriodicSchedule): BusinessDayAdjustment {
    s.endDateBusinessDayAdjustment.GetOr(s.businessDayAdjustment)
  }

  /** The adjustment of the i-th of n dates: the start's for the first, the end's for the last. */
  function AdjustmentAt(s: PeriodicSchedule, i: int, n: int): BusinessDayAdjustment {
    if i == 0 then StartAdjustment(s) else if i == n - 1 then EndAdjustment(s) else s.businessDayAdjustment
  }

  /** Each date adjusted: the first and last by their own adjustments, the others by the main one. */
  function ApplyAdjustments(s: PeriodicSchedule, unadj: seq<LocalDate>): (adj: seq<LocalDate>)
    requires |unadj| >= 2
    ensures |adj| == |unadj|
    ensures adj[0] == StartAdjustment(s).Adjust(unadj[0])
    ensures adj[|adj| - 1] == EndAdjustment(s).Adjust(unadj[|unadj| - 1])
    ensures forall i | 0 < i < |unadj| - 1 :: adj[i] == s.businessDayAdjustment.Adjust(unadj[i])
  {
    seq(|unadj|, i requires 0 <= i < |unadj| => AdjustmentAt(s, i, |unadj|).Adjust(unadj[i]))
  }

  /**
   * PeriodicSchedule.createAdjustedDates: the unadjusted dates, each adjusted,
   * failing when two of them adjust to the same date.
   */
  function AdjustedDates(s: PeriodicSchedule): (r: Result<seq<LocalDate>, ScheduleError>)
    requires IsValid(s)
    ensures UnadjustedDates(s).Failure? ==> r == Failure(UnadjustedDates(s).error)
    ensures r.Success? ==> r.value == ApplyAdjustments(s, UnadjustedDates(s).value) && Distinct(r.value)
    ensures r == Failure(DuplicateAdjustedDates) <==>
      UnadjustedDates(s).Success? && !Distinct(ApplyAdjustments(s, UnadjustedDates(s).value))
  {
    var unadj :- UnadjustedDates(s);
    var adj := ApplyAdjustments(s, unadj);
    if HasDuplicates(adj) then Failure(DuplicateAdjustedDates) else Success(adj)
  }

  /** SchedulePeriod: one period, by its adjusted and unadjusted boundary dates. */
  datatype SchedulePeriod = SchedulePeriod(
    startDate: LocalDate,
    endDate: LocalDate,
    unadjustedStartDate: LocalDate,
    unadjustedEndDate: LocalDate)

  /** Schedule: the periods with the frequency and the roll convention that generated them. */
  datatype Schedule = Schedule(periods: seq<SchedulePeriod>, frequency: Frequency, rollConvention: RollConvention)

  /**
   * The periods between consecutive boundary dates, adjusted and unadjusted:
   * one fewer than there are dates, each ending where the next one starts.
   */
  function Periods(unadj: seq<LocalDate>, adj: seq<LocalDate>): (ps: seq<SchedulePeriod>)
    requires |unadj| == |adj| >= 1
    ensures |ps| == |unadj| - 1
    ensures forall i | 0 <= i < |ps| :: ps[i] == SchedulePeriod(adj[i], adj[i + 1], unadj[i], unadj[i + 1])
  {
    seq(|unadj| - 1, i requires 0 <= i < |unadj| - 1 => SchedulePeriod(adj[i], adj[i + 1], unadj[i], unadj[i + 1]))
  }

  /** Consecutive periods meet: each ends, adjusted and unadjusted, where the next one starts. */
  lemma PeriodsAreContiguous(u: seq<LocalDate>, a: seq<LocalDate>)
    requires |u| == |a| >= 1
    ensures var ps := Periods(u, a); forall i | 0 <= i < |ps| - 1 ::
      ps[i].unadjustedEndDate == ps[i + 1].unadjustedStartDate && ps[i].endDate == ps[i + 1].startDate
  {
    var ps := Periods(u, a);
    forall i | 0 <= i < |ps| - 1
      ensures ps[i].unadjustedEndDate == ps[i + 1].unadjustedStartDate && ps[i].endDate == ps[i + 1].startDate
    {
      assert ps[i] == SchedulePeriod(a[i], a[i + 1], u[i], u[i + 1]);
      assert ps[i + 1] == SchedulePeriod(a[i + 1], a[i + 2], u[i + 1], u[i + 2]);
    }
  }

  /** Over strictly ascending dates, the periods run forward from the first date to the last. */
  lemma PeriodsRunForward(u: seq<LocalDate>, a: seq<LocalDate>)
    requires |u| == |a| >= 2 && StrictlyAscending(u)
    ensures var ps := Periods(u, a);
      && |ps| >= 1
      && ps[0].unadjustedStartDate == u[0] && ps[|ps| - 1].unadjustedEndDate == u[|u| - 1]
      && (forall i | 0 <= i < |ps| :: IsBefore(ps[i].unadjustedStartDate, ps[i].unadjustedEndDate))
  {
    var ps := Periods(u, a);
    assert ps[0] == SchedulePeriod(a[0], a[1], u[0], u[1]);
    assert ps[|ps| - 1] == SchedulePeriod(a[|u| - 2], a[|u| - 1], u[|u| - 2], u[|u| - 1]);
  }

  /**
   * PeriodicSchedule.createSchedule: the periods between the boundary dates,
   * with the frequency and the effective roll convention. The unadjusted
   * periods run strictly forward from the start date to the end date.
   */
  function ScheduleOf(s: PeriodicSchedule): (r: Result<Schedule, ScheduleError>)
    requires IsValid(s)
    ensures r.Success? <==> AdjustedDates(s).Success?
    ensures AdjustedDates(s).Failure? ==> r == Failure(AdjustedDates(s).error)
    ensures r.Success? ==>
      && r.value.periods == Periods(UnadjustedDates(s).value, AdjustedDates(s).value)
      && r.value.frequency == s.frequency && r.value.rollConvention == EffectiveRollConvention(s)
    ensures r.Success? ==> var ps := r.value.periods;
      && |ps| >= 1
      && ps[0].unadjustedStartDate == s.startDate && ps[|ps| - 1].unadjustedEndDate == s.endDate
      && (forall i | 0 <= i < |ps| :: IsBefore(ps[i].unadjustedStartDate, ps[i].unadjustedEndDate))
  {
    var adj := AdjustedDates(s);
    if adj.Failure? then Failure(adj.error)
    else
      var u := UnadjustedDates(s).value;
      PeriodsRunForward(u, adj.value);
      Success(Schedule(Periods(u, adj.value), s.frequency, EffectiveRollConvention(s)))
  }

  // ---------------------------------------------------------------------------
  // The operations as the generator performs them.

  /** One step of rolling forward, after the dates collected so far. */
  lemma RollForwardStep(roll: RollConvention, temp: LocalDate, end: LocalDate, f: Frequency, dates: seq<LocalDate>)
    requires IsBefore(temp, end)
    ensures var next := Next(roll, temp, f); var rest := RollForward(next.1, next.0, end, f);
      && dates + RollForward(roll, temp, end, f).dates == (dates + [temp]) + rest.dates
      && RollForward(roll, temp, end, f).stop == rest.stop
  {
    var next := Next(roll, temp, f);
    var rest := RollForward(next.1, next.0, end, f);
    assert RollForward(roll, temp, end, f) == Rolled([temp] + rest.dates, rest.stop);
    ConcatAssociates(dates, [temp], rest.dates);
  }

  /** One step of rolling backward, before the dates collected so far. */
  lemma RollBackwardStep(roll: RollConvention, temp: LocalDate, start: LocalDate, f: Frequency, dates: seq<LocalDate>)
    requires IsAfter(temp, start)
    ensures var rest := RollBackward(roll, Previous(roll, temp, f), start, f);
      && RollBackward(roll, temp, start, f).dates + dates == rest.dates + ([temp] + dates)
      && RollBackward(roll, temp, start, f).stop == rest.stop
  {
    var rest := RollBackward(roll, Previous(roll, temp, f), start, f);
    assert RollBackward(roll, temp, start, f) == Rolled(rest.dates + [temp], rest.stop);
    ConcatAssociates(rest.dates, [temp], dates);
  }

  /** The forward rolling loop. */
  method CollectForward(roll0: RollConvention, temp0: LocalDate, end: LocalDate, f: Frequency) returns (rolled: Rolled)
    ensures rolled == RollForward(roll0, temp0, end, f)
  {
    ghost var all := RollForward(roll0, temp0, end, f);
    var dates: seq<LocalDate> := [];
    var temp, roll := temp0, roll0;
    while IsBefore(temp, end)
      invariant all.dates == dates + RollForward(roll, temp, end, f).dates
      invariant all.stop == RollForward(roll, temp, end, f).stop
      decreases Key(end) - Key(temp), StallsLeft(roll)
    {
      var next := Next(roll, temp, f);
      RollForwardStep(roll, temp, end, f, dates);
      dates := dates + [temp];
      temp, roll := next.0, next.1;
    }
    rolled := Rolled(dates, temp);
  }

  /** The backward rolling loop, collecting the dates in ascending order. */
  method CollectBackward(roll: RollConvention, temp0: LocalDate, start: LocalDate, f: Frequency) returns (rolled: Rolled)
    ensures rolled == RollBackward(roll, temp0, start, f)
  {
    ghost var all := RollBackward(roll, temp0, start, f);
    var dates: seq<LocalDate> := [];
    var temp := temp0;
    while IsAfter(temp, start)
      invariant all.dates == RollBackward(roll, temp, start, f).dates + dates
      invariant all.stop == RollBackward(roll, temp, start, f).stop
      decreases Key(temp) - Key(start)
    {
      var previous := Previous(roll, temp, f);
      RollBackwardStep(roll, temp, start, f, dates);
      dates := [temp] + dates;
      temp := previous;
    }
    rolled := Rolled(dates, temp);
  }

  /** PeriodicSchedule.createUnadjustedDates. */
  method CreateUnadjustedDates(s: PeriodicSchedule) returns (r: Result<seq<LocalDate>, ScheduleError>)
    requires IsValid(s)
    ensures r == UnadjustedDates(s)
  {
    var regStart := EffectiveFirstRegularStartDate(s);
    var regEnd := EffectiveLastRegularEndDate(s);
    var roll := EffectiveRollConvention(s);
    var generated: Result<seq<LocalDate>, ScheduleError>;
    if s.frequency.Term? {
      generated := TermDates(s);
    } else {
      var stub := ImplicitStubConvention(s.stubConvention, regStart != s.startDate, regEnd != s.endDate);
      if stub.Failure? {
        generated := Failure(stub.error);
      } else if stub.value.IsCalculateBackwards() {
        if !Matches(roll, regEnd) {
          generated := Failure(RollMismatch(regEnd));
        } else {
          var rolled := CollectBackward(roll, Previous(roll, regEnd, s.frequency), regStart, s.frequency);
          generated := Success(FinishBackwards(regStart, regEnd, stub.value, rolled));
        }
      } else {
        if !Matches(roll, regStart) {
          generated := Failure(RollMismatch(regStart));
        } else {
          var next := Next(roll, regStart, s.frequency);
          var rolled := CollectForward(next.1, next.0, regEnd, s.frequency);
          generated := FinishForwards(s.startDate, regStart, regEnd, s.endDate, stub.value, rolled);
        }
      }
    }
    assert generated == Generate(s);
    if generated.Success? && HasDuplicates(generated.value) {
      r := Failure(DuplicateUnadjustedDates);
    } else {
      r := generated;
    }
  }

  /** The adjusting loop of createAdjustedDates: the first date by the start's adjustment, the last by the end's. */
  method AdjustEach(s: PeriodicSchedule, u: seq<LocalDate>) returns (adj: seq<LocalDate>)
    requires |u| >= 2
    ensures adj == ApplyAdjustments(s, u)
  {
    var a := s.businessDayAdjustment;
    adj := [StartAdjustment(s).Adjust(u[0])];
    for i := 1 to |u| - 1
      invariant |adj| == i && adj[0] == StartAdjustment(s).Adjust(u[0])
      invariant forall k | 1 <= k < i :: adj[k] == a.Adjust(u[k])
    {
      adj := adj + [a.Adjust(u[i])];
    }
    adj := adj + [EndAdjustment(s).Adjust(u[|u| - 1])];
    assert forall k | 0 <= k < |u| :: adj[k] == ApplyAdjustments(s, u)[k];
  }

  /** PeriodicSchedule.createAdjustedDates. */
  method CreateAdjustedDates(s: PeriodicSchedule) returns (r: Result<seq<LocalDate>, ScheduleError>)
    requires IsValid(s)
    ensures r == AdjustedDates(s)
  {
    var unadj := CreateUnadjustedDates(s);
    if unadj.Failure? {
      return Failure(unadj.error);
    }
    var adj := AdjustEach(s, unadj.value);
    if HasDuplicates(adj) {
      r := Failure(DuplicateAdjustedDates);
    } else {
      r := Success(adj);
    }
  }

  /** The loop of createSchedule: one period between each pair of consecutive dates. */
  method CollectPeriods(u: seq<LocalDate>, a: seq<LocalDate>) returns (periods: seq<SchedulePeriod>)
    requires |u| == |a| >= 1
    ensures periods == Periods(u, a)
  {
    periods := [];
    for i := 0 to |u| - 1
      invariant |periods| == i
      invariant forall k | 0 <= k < i :: periods[k] == SchedulePeriod(a[k], a[k + 1], u[k], u[k + 1])
    {
      periods := periods + [SchedulePeriod(a[i], a[i + 1], u[i], u[i + 1])];
    }
  }

  /** PeriodicSchedule.createSchedule. */
  method CreateSchedule(s: PeriodicSchedule) returns (r: Result<Schedule, ScheduleError>)
    requires IsValid(s)
    ensures r == ScheduleOf(s)
  {
    var unadj := CreateUnadjustedDates(s);
    if unadj.Failure? {
      return Failure(unadj.error);
    }
    var adj := CreateAdjustedDates(s);
    if adj.Failure? {
      return Failure(adj.error);
    }
    var periods := CollectPeriods(unadj.value, adj.value);
    r := Success(Schedule(periods, s.frequency, EffectiveRollConvention(s)));
  }
}
