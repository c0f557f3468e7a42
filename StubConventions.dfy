/**
 * Stub conventions: where the irregular period (the stub) of a schedule goes
 * when the dates do not divide into whole periods, whether it is short or
 * long, and which roll convention the stub position implies.
 */
module StubConventions {
  import opened Wrappers
  import opened Dates
  import opened Frequencies
  import opened RollConventions
  import opened ScheduleExceptions

  datatype StubConvention =
    /** NONE: there must be no stub. */
    | NoStub
    | ShortInitial
    | LongInitial
    | ShortFinal
    | LongFinal
    /** BOTH: an initial and a final stub, both given by explicit dates. */
    | Both
  {
    /** The initial conventions generate backwards from the end date. */
    predicate IsCalculateBackwards() {
      ShortInitial? || LongInitial?
    }

    predicate IsLong() {
      LongInitial? || LongFinal?
    }

    /** The convention permits a stub at the start of the schedule. */
    predicate PermitsInitialStub() {
      ShortInitial? || LongInitial? || Both?
    }

    /** The convention permits a stub at the end of the schedule. */
    predicate PermitsFinalStub() {
      ShortFinal? || LongFinal? || Both?
    }
  }

  /**
   * Explicit stubs agree with a convention when each explicit stub is on a side
   * the convention permits, and 'Both' has both of them.
   */
  predicate AgreesWithExplicitStubs(stub: StubConvention, explicitInitial: bool, explicitFinal: bool) {
    (explicitInitial ==> stub.PermitsInitialStub())
    && (explicitFinal ==> stub.PermitsFinalStub())
    && (stub.Both? ==> explicitInitial && explicitFinal)
  }

  /**
   * StubConvention.toImplicit: the convention left for generation once the
   * explicit stubs given by the dates are taken into account. An explicit stub
   * is already in place, so generation then needs no stub of its own.
   */
  function ToImplicit(stub: StubConvention, explicitInitial: bool, explicitFinal: bool): (r: Result<StubConvention, ScheduleError>)
    ensures r.Success? <==> AgreesWithExplicitStubs(stub, explicitInitial, explicitFinal)
    ensures r.Success? && (explicitInitial || explicitFinal) ==> r.value == NoStub
    ensures r.Success? && !explicitInitial && !explicitFinal ==> r.value == stub
  {
    match stub
    case NoStub =>
      if explicitInitial || explicitFinal then Failure(ExplicitStubConflict) else Success(NoStub)
    case ShortInitial | LongInitial =>
      if explicitFinal then Failure(ExplicitStubConflict)
      else if explicitInitial then Success(NoStub) else Success(stub)
    case ShortFinal | LongFinal =>
      if explicitInitial then Failure(ExplicitStubConflict)
      else if explicitFinal then Success(NoStub) else Success(stub)
    case Both =>
      if explicitInitial && explicitFinal then Success(NoStub) else Failure(BothNeedsExplicitStubs)
  }

  /**
   * StubConvention.toRollConvention: the roll convention implied by the date
   * generation starts from (the end of the regular periods when generating
   * backwards, their start otherwise). Only month-based frequencies have one;
   * end-of-month is implied only when it is preferred and the date is a month end.
   */
  function ToRollConvention(stub: StubConvention, start: LocalDate, end: LocalDate, frequency: Frequency, preferEndOfMonth: bool): (r: RollConvention)
    ensures var anchor := if stub.IsCalculateBackwards() then end else start;
      && (frequency.IsMonthBased() ==> Matches(r, anchor))
      && (frequency.IsMonthBased() && preferEndOfMonth && IsLastDayOfMonth(anchor) ==> r == EndOfMonth)
      && (frequency.IsMonthBased() && anchor.day < 31 && !(preferEndOfMonth && IsLastDayOfMonth(anchor)) ==> r == DayOfMonth(anchor.day))
      && (frequency.IsMonthBased() && !(preferEndOfMonth && IsLastDayOfMonth(anchor)) ==> r == OfDayOfMonth(anchor.day))
      && (!frequency.IsMonthBased() ==> r == NoRoll)
  {
    var anchor := if stub.IsCalculateBackwards() then end else start;
    if frequency.IsMonthBased() then
      if preferEndOfMonth && IsLastDayOfMonth(anchor) then EndOfMonth else OfDayOfMonth(anchor.day)
    else NoRoll
  }
}
