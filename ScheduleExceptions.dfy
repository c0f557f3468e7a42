/**
 * The ways schedule generation fails (ScheduleException), one variant per
 * distinct cause, and the argument errors a schedule definition is refused
 * with when it is built (IllegalArgumentException).
 */
module ScheduleExceptions {
  import opened Dates

  datatype ScheduleError =
    /** Term frequency, but the first regular start date differs from the start date. */
    | TermWithInitialStub
    /** Term frequency, but the last regular end date differs from the end date. */
    | TermWithFinalStub
    /** The dates give an explicit stub on a side the stub convention does not allow. */
    | ExplicitStubConflict
    /** Stub convention 'Both', but the dates do not give both stubs explicitly. */
    | BothNeedsExplicitStubs
    /** The roll convention does not land on the date generation starts from. */
    | RollMismatch(date: LocalDate)
    /** Stub convention 'None', but the regular periods do not fill the schedule. */
    | StubNotAllowed
    | DuplicateUnadjustedDates
    | DuplicateAdjustedDates

  datatype BuildError =
    | StartNotBeforeEnd
    | FirstRegularBeforeStart
    | FirstRegularNotBeforeEnd
    | LastRegularNotAfterStart
    | LastRegularAfterEnd
    | FirstRegularNotBeforeLastRegular
}
