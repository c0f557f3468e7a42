# Strata periodic schedules and the end-interpolated inflation observation, in Dafny

This project models two parts of the Strata financial library and proves
properties of them.

**Periodic schedules.** A `PeriodicSchedule` is the definition of a schedule: start and end
dates, a frequency (months, days or `TERM`), a business-day adjustment with optional separate
adjustments for the start and end dates, an optional stub convention (`NONE`, `SHORT_INITIAL`,
`LONG_INITIAL`, `SHORT_FINAL`, `LONG_FINAL`, `BOTH`), an optional roll convention and optional
first regular start and last regular end dates. Building it checks the order of the dates.
`createUnadjustedDates` generates the period boundaries:
- The effective roll convention is derived from the stub convention's anchor date. EOM is only a preference, and NONE is replaced by the derived convention.
- Explicit stubs turn the stub convention into its implicit form (`toImplicit`).
- Initial conventions roll backwards from the end of the regular periods. All other conventions roll forwards from their start. The roll convention must match the date it starts from.
- A long stub absorbs the neighbouring regular period. `NONE` fails when rolling overshoots the end after at least one regular date.
- Duplicates are refused.

`createAdjustedDates` adjusts each boundary and refuses dates that collide.
`createSchedule` zips both lists into `SchedulePeriod`s of a `Schedule`.

The implementation file of `PeriodicSchedule` is not part of this model. The generator is
reconstructed from the assertions of
`basics/src/test/java/com/opengamma/basics/schedule/PeriodicScheduleTest.java`, and that file is
cited throughout. The rows of the test file that are replayed as lemmas are listed in the table
below; the others are listed under "Left out".

Support modules:
- calendar dates (`Dates`);
- frequencies (`Frequencies`);
- roll conventions `DAY_1`..`DAY_30`, `EOM`, `IMM`, `NONE` and a stateful test convention (`RollConventions`);
- business-day conventions on a Saturday/Sunday calendar (`BusinessDays`);
- stub conventions (`StubConventions`);
- the failures (`ScheduleExceptions`);
- sorted date lists (`DateSequences`).

`PeriodicSchedules` holds the definition, the generation, specification functions for every
step, and the methods with loops that perform them. Each method is proved equal to its function.
`ScheduleProperties` proves properties across operations:
- the build rules;
- `TERM`;
- the stub failures;
- long stubs against short stubs;
- non-advancing rolls;
- the start and end adjustments.

`ScheduleExamples` replays rows and failure tests of the test file as lemmas about concrete dates.

**Inflation observation.** `InflationEndInterpolatedRateObservation` holds a start index value,
two observations of a price index, and an interpolation weight. Construction and validation
refuse the following:
- a start index value that is not positive;
- a missing observation;
- a negative weight;
- observations of different indices;
- fixing months that are not strictly increasing.

`of` builds the second observation one month after the first. `getIndex`, `collectIndices` and
the builder round trip are modelled as well. These are in `InflationObservations`.

Where the prose description of the generator and the test assertions differ, the model follows the tests:
- Only `NONE` fails when rolling overshoots the end of the regular periods, and only after at least one regular date has been rolled: when the first roll already passes the end, the whole schedule is one period (test lines 341-343). The short and long conventions produce a stub instead (test lines 204-272).
- A given EOM convention is not used as it is: it applies only when the anchor date is a month end, otherwise the day-of-month convention of the anchor is used (test lines 99-111, 316-319).
- The collapsing example with the 29 and 31 May 2015 dates uses `TERM`, not a quarterly frequency (test lines 518-561).

## Model

| member | source | states |
|---|---|---|
| PeriodicSchedules.Build | basics/src/test/java/com/opengamma/basics/schedule/PeriodicScheduleTest.java:163-184 | a definition builds exactly when start < end, the first regular start date lies in [start, end), the last regular end date in (start, end] and the first is before the last; otherwise the failure names the rule that is broken |
| PeriodicSchedules.OfEndOfMonth | basics/src/test/java/com/opengamma/basics/schedule/PeriodicScheduleTest.java:82-114 | `of` with the end-of-month flag succeeds exactly when start < end, sets every given property, leaves the optional ones empty, records EOM only when the flag is set, and the effective regular dates are the start and end dates |
| PeriodicSchedules.OfRollConvention | basics/src/test/java/com/opengamma/basics/schedule/PeriodicScheduleTest.java:130-145 | `of` with a roll convention records it as given, with the other properties as for the flag variant |
| PeriodicSchedules.EffectiveRollConvention | basics/src/test/java/com/opengamma/basics/schedule/PeriodicScheduleTest.java:82-145 | a given convention other than NONE and EOM is used as it is; otherwise, for a monthly frequency, the convention matches the anchor date, is EOM when EOM was given and the anchor is a month end, and in every other case (including EOM given on an anchor that is not a month end) is the day-of-month convention of the anchor's day, EOM for the 31st; for other frequencies it is NONE, or EOM when EOM was given |
| PeriodicSchedules.ImplicitStubConvention | basics/src/test/java/com/opengamma/basics/schedule/PeriodicScheduleTest.java:274-305 | generation may go ahead exactly when no convention is given or the convention agrees with the explicit stubs; explicit stubs leave nothing for it to do (NONE), otherwise the convention is kept |
| PeriodicSchedules.RollForwardProperties | basics/src/test/java/com/opengamma/basics/schedule/PeriodicScheduleTest.java:191-343 | the dates rolled forward ascend, start with the first date, all lie in [first, end), exist exactly when the first date is before the end, and rolling stops on or after the end |
| PeriodicSchedules.RollForwardFollowsRoll | basics/src/test/java/com/opengamma/basics/schedule/PeriodicScheduleTest.java:240-258 | with a stateless convention each rolled date is `next` of the date before it |
| PeriodicSchedules.RollForwardStopsOnRoll | basics/src/test/java/com/opengamma/basics/schedule/PeriodicScheduleTest.java:426-439 | with a stateless convention rolling stops at `next` of the last date collected, or where it started |
| PeriodicSchedules.RollBackwardProperties | basics/src/test/java/com/opengamma/basics/schedule/PeriodicScheduleTest.java:203-224 | the dates rolled backward ascend strictly, all lie in (start, first], end with the first date, exist exactly when the first date is after the start, and rolling stops on or before the start |
| PeriodicSchedules.GenerateForwards | basics/src/test/java/com/opengamma/basics/schedule/PeriodicScheduleTest.java:240-258 | forward generation either fails or yields ascending dates from the start to the end date that include both ends of the regular periods |
| PeriodicSchedules.GenerateBackwards | basics/src/test/java/com/opengamma/basics/schedule/PeriodicScheduleTest.java:203-238 | backward generation either fails or yields strictly ascending dates from the start to the end date |
| PeriodicSchedules.Generate | basics/src/test/java/com/opengamma/basics/schedule/PeriodicScheduleTest.java:191-343 | every generated sequence runs from the start date to the end date, ascends and includes the effective first and last regular dates |
| PeriodicSchedules.UnadjustedDates | basics/src/test/java/com/opengamma/basics/schedule/PeriodicScheduleTest.java:374-390 | createUnadjustedDates succeeds exactly when generation succeeds without duplicates, then with strictly ascending dates from start to end through the regular bounds; otherwise with generation's error or 'duplicate unadjusted dates' |
| PeriodicSchedules.ApplyAdjustments | basics/src/test/java/com/opengamma/basics/schedule/PeriodicScheduleTest.java:411-423 | the first date is adjusted by the start date's adjustment, the last by the end date's, every date between by the main adjustment, and no date is lost |
| PeriodicSchedules.AdjustedDates | basics/src/test/java/com/opengamma/basics/schedule/PeriodicScheduleTest.java:392-408 | createAdjustedDates propagates a failure of the unadjusted dates, otherwise yields the adjusted unadjusted dates when they are distinct, and fails with 'duplicate adjusted dates' exactly when two of them coincide |
| PeriodicSchedules.Periods | basics/src/test/java/com/opengamma/basics/schedule/PeriodicScheduleTest.java:361-369 | there is one period fewer than dates, period i running from date i to date i+1 in both the adjusted and the unadjusted view |
| PeriodicSchedules.PeriodsAreContiguous | basics/src/test/java/com/opengamma/basics/schedule/PeriodicScheduleTest.java:361-369 | each period ends, adjusted and unadjusted, where the next one starts |
| PeriodicSchedules.PeriodsRunForward | basics/src/test/java/com/opengamma/basics/schedule/PeriodicScheduleTest.java:361-369 | over strictly ascending dates the periods run from the first date to the last and each unadjusted period is non-empty |
| PeriodicSchedules.ScheduleOf | basics/src/test/java/com/opengamma/basics/schedule/PeriodicScheduleTest.java:347-372 | createSchedule succeeds exactly when createAdjustedDates does, carries the periods of both date lists, the frequency and the effective roll convention, and its unadjusted periods run strictly forward from start to end |
| PeriodicSchedules.CollectForward | basics/src/test/java/com/opengamma/basics/schedule/PeriodicScheduleTest.java:610-628 | the rolling loop, threading the state the convention keeps, collects exactly the dates and the stopping date of RollForward |
| PeriodicSchedules.CollectBackward | basics/src/test/java/com/opengamma/basics/schedule/PeriodicScheduleTest.java:203-224 | the backward rolling loop collects exactly the dates, in ascending order, and the stopping date of RollBackward |
| PeriodicSchedules.CreateUnadjustedDates | basics/src/test/java/com/opengamma/basics/schedule/PeriodicScheduleTest.java:374-390 | the method returns exactly UnadjustedDates |
| PeriodicSchedules.AdjustEach | basics/src/test/java/com/opengamma/basics/schedule/PeriodicScheduleTest.java:411-423 | the adjusting loop returns exactly ApplyAdjustments |
| PeriodicSchedules.CreateAdjustedDates | basics/src/test/java/com/opengamma/basics/schedule/PeriodicScheduleTest.java:392-408 | the method returns exactly AdjustedDates |
| PeriodicSchedules.CollectPeriods | basics/src/test/java/com/opengamma/basics/schedule/PeriodicScheduleTest.java:361-369 | the zipping loop returns exactly Periods |
| PeriodicSchedules.CreateSchedule | basics/src/test/java/com/opengamma/basics/schedule/PeriodicScheduleTest.java:347-372 | the method returns exactly ScheduleOf |
| StubConventions.ToImplicit | basics/src/test/java/com/opengamma/basics/schedule/PeriodicScheduleTest.java:441-454 | toImplicit succeeds exactly when every explicit stub is on a side the convention permits and BOTH has both; after an explicit stub the convention becomes NONE, otherwise it is unchanged |
| StubConventions.ToRollConvention | basics/src/test/java/com/opengamma/basics/schedule/PeriodicScheduleTest.java:82-114 | for monthly frequencies the implied convention matches the anchor (end date for initial stubs, start date otherwise): EOM when preferred at a month end, otherwise the day-of-month convention of the anchor's day, EOM for the 31st; NONE for other frequencies |
| RollConventions.Next | basics/src/test/java/com/opengamma/basics/schedule/PeriodicScheduleTest.java:610-628 | `next` moves strictly forward, or stays put while using up one stall of a stateful convention; the result matches the convention, and a stateless convention keeps itself |
| RollConventions.Previous | basics/src/test/java/com/opengamma/basics/schedule/PeriodicScheduleTest.java:203-224 | `previous` moves strictly backward and lands on a date the convention matches |
| RollConventions.DayOfMonthNextReanchors | basics/src/test/java/com/opengamma/basics/schedule/PeriodicScheduleTest.java:253-258 | under DAY_n the next boundary is day n, clamped to the month's length, in the month the frequency reaches, whatever day the date had (29th to 28 February to 29 May) |
| RollConventions.DayOfMonthPreviousReanchors | basics/src/test/java/com/opengamma/basics/schedule/PeriodicScheduleTest.java:216-224 | rolling back under DAY_n lands on day n, clamped, the frequency's months earlier |
| RollConventions.EndOfMonthNextIsMonthEnd | basics/src/test/java/com/opengamma/basics/schedule/PeriodicScheduleTest.java:312-315 | under EOM the next boundary is the last day of the month the frequency reaches |
| RollConventions.ImmNextIsThirdWednesday | basics/src/test/java/com/opengamma/basics/schedule/PeriodicScheduleTest.java:330-343 | under IMM the next boundary is a Wednesday between the 15th and the 21st of the month the frequency reaches |
| RollConventions.ThirdWednesdayIsWednesday | basics/src/test/java/com/opengamma/basics/schedule/PeriodicScheduleTest.java:330-343 | the IMM date of a month is a Wednesday |
| BusinessDays.NextOrSameIsNearBusinessDay | basics/src/test/java/com/opengamma/basics/schedule/PeriodicScheduleTest.java:57-58 | stepping forward over a Saturday/Sunday weekend reaches a business day at most two days later |
| BusinessDays.PreviousOrSameIsNearBusinessDay | basics/src/test/java/com/opengamma/basics/schedule/PeriodicScheduleTest.java:411-423 | stepping back over a weekend reaches a business day at most two days earlier |
| BusinessDays.AdjustIsBusinessDay | basics/src/test/java/com/opengamma/basics/schedule/PeriodicScheduleTest.java:57-58 | every convention but NO_ADJUST yields a business day of its calendar |
| BusinessDays.AdjustIdempotent | basics/src/test/java/com/opengamma/basics/schedule/PeriodicScheduleTest.java:57-58 | a business day is left alone, so adjusting twice is adjusting once |
| BusinessDays.ModifiedFollowingStaysInMonth | basics/src/test/java/com/opengamma/basics/schedule/PeriodicScheduleTest.java:57-58 | modified following stays in the month of the date and moves it by at most two days |
| Frequencies.Frequency.AddTo | basics/src/test/java/com/opengamma/basics/schedule/PeriodicScheduleTest.java:621-624 | `date.plus(frequency)` is strictly later, by the frequency's number of months for a monthly frequency |
| Frequencies.DaysFrequencyCountsDays | basics/src/test/java/com/opengamma/basics/schedule/PeriodicScheduleTest.java:563-576 | a frequency in days moves a date by that many calendar days, either way |
| DateSequences.HasDuplicates | basics/src/test/java/com/opengamma/basics/schedule/PeriodicScheduleTest.java:608-641 | the duplicate check finds a repeated date exactly when the dates are not distinct |
| DateSequences.AscendingDistinctIsStrict | basics/src/test/java/com/opengamma/basics/schedule/PeriodicScheduleTest.java:191-343 | ascending dates without duplicates ascend strictly |
| ScheduleProperties.BuildIffRegularPeriodsInside | basics/src/test/java/com/opengamma/basics/schedule/PeriodicScheduleTest.java:163-173 | a definition builds exactly when start, effective first regular date, effective last regular date and end come in order, the regular periods being non-empty |
| ScheduleProperties.GenerateForwardsCase | basics/src/test/java/com/opengamma/basics/schedule/PeriodicScheduleTest.java:240-258 | a convention that is not initial generates forwards from the effective first regular start date |
| ScheduleProperties.GenerateBackwardsCase | basics/src/test/java/com/opengamma/basics/schedule/PeriodicScheduleTest.java:203-224 | an initial convention only survives without explicit stubs, and then generates backwards from the end date |
| ScheduleProperties.GenerateStubFailureCase | basics/src/test/java/com/opengamma/basics/schedule/PeriodicScheduleTest.java:441-454 | generation fails with the stub conventions' own error when they disagree with the explicit stubs |
| ScheduleProperties.TermIsOnePeriod | basics/src/test/java/com/opengamma/basics/schedule/PeriodicScheduleTest.java:487-515 | TERM yields exactly [start, end] when the regular periods are the whole schedule, and otherwise fails with the initial-stub or the final-stub error |
| ScheduleProperties.ExplicitStubsMustAgree | basics/src/test/java/com/opengamma/basics/schedule/PeriodicScheduleTest.java:441-454 | explicit stubs on a side the convention does not permit, or BOTH without both, make createUnadjustedDates fail, BOTH with its own error |
| ScheduleProperties.NoStubFailsWhenRollingOvershoots | basics/src/test/java/com/opengamma/basics/schedule/PeriodicScheduleTest.java:426-439 | under NONE, when rolling from the start overshoots the end after at least one regular date, createUnadjustedDates fails with the stub error |
| ScheduleProperties.NoStubEndsOnRegularPeriod | basics/src/test/java/com/opengamma/basics/schedule/PeriodicScheduleTest.java:195-201 | conversely a schedule generated under NONE with a stateless roll and more than one period ends on `next` of the date before the end |
| ScheduleProperties.RollMustMatchAnchor | basics/src/test/java/com/opengamma/basics/schedule/PeriodicScheduleTest.java:456-484 | when the stub conventions agree, generation fails with a roll mismatch if the convention does not land on the date generation starts from |
| ScheduleProperties.DerivedRollNeverMismatches | basics/src/test/java/com/opengamma/basics/schedule/PeriodicScheduleTest.java:191-224 | a derived roll convention (none given, NONE or EOM) never causes a roll mismatch for a monthly schedule without explicit stubs |
| ScheduleProperties.SameDirectionKeepsRoll | basics/src/test/java/com/opengamma/basics/schedule/PeriodicScheduleTest.java:226-272 | another stub convention generating in the same direction keeps validity, the regular bounds and the effective roll convention |
| ScheduleProperties.ImplicitLongForShort | basics/src/test/java/com/opengamma/basics/schedule/PeriodicScheduleTest.java:226-238 | a long convention takes the short one's place on the same side whatever the explicit stubs |
| ScheduleProperties.LongBackwardsDropsFirstRegular | basics/src/test/java/com/opengamma/basics/schedule/PeriodicScheduleTest.java:227-229 | backwards, LONG_INITIAL succeeds exactly when SHORT_INITIAL does; it yields SHORT_INITIAL's dates without the second one (the first regular start date) exactly when there are at least three dates and rolling back from that date does not land on the start, and SHORT_INITIAL's dates otherwise |
| ScheduleProperties.LongForwardsDropsLastRegular | basics/src/test/java/com/opengamma/basics/schedule/PeriodicScheduleTest.java:261-263 | forwards, LONG_FINAL succeeds exactly when SHORT_FINAL does; it yields SHORT_FINAL's dates without the last but one (the last regular end date) exactly when there are at least three dates and rolling on from that date does not land on the end, and SHORT_FINAL's dates otherwise |
| ScheduleProperties.GenerateLongInitial | basics/src/test/java/com/opengamma/basics/schedule/PeriodicScheduleTest.java:226-238 | over a whole definition, LONG_INITIAL is valid and generates with the same roll convention as SHORT_INITIAL, succeeds exactly when it does, and yields its dates without the first regular start date exactly when there is no explicit initial stub, there are at least three dates and rolling back from that date does not land on the start; otherwise the same dates |
| ScheduleProperties.LongInitialMergesShortInitial | basics/src/test/java/com/opengamma/basics/schedule/PeriodicScheduleTest.java:204-229 | when SHORT_INITIAL's unadjusted dates exist, LONG_INITIAL's exist too: SHORT_INITIAL's without the first regular start date under the same condition as for generation, otherwise the same |
| ScheduleProperties.GenerateLongFinal | basics/src/test/java/com/opengamma/basics/schedule/PeriodicScheduleTest.java:260-272 | over a whole definition, LONG_FINAL is valid and generates with the same roll convention as SHORT_FINAL, succeeds exactly when it does, and yields its dates without the last regular end date exactly when there is no explicit final stub, there are at least three dates and rolling on from that date does not land on the end; otherwise the same dates |
| ScheduleProperties.LongFinalMergesShortFinal | basics/src/test/java/com/opengamma/basics/schedule/PeriodicScheduleTest.java:241-263 | when SHORT_FINAL's unadjusted dates exist, LONG_FINAL's exist too: SHORT_FINAL's without the last regular end date under the same condition as for generation, otherwise the same |
| ScheduleProperties.StallingRollNeverSucceeds | basics/src/test/java/com/opengamma/basics/schedule/PeriodicScheduleTest.java:608-641 | a roll convention whose `next` can stay on its date never yields unadjusted dates forwards without a long stub: duplicate unadjusted dates, or the stub error first |
| ScheduleProperties.StartEndAdjustmentsOnlyAffectEnds | basics/src/test/java/com/opengamma/basics/schedule/PeriodicScheduleTest.java:411-423 | start and end date adjustments leave validity and the unadjusted dates unchanged and change no adjusted date but the first and the last |
| ScheduleProperties.AdjustmentCollisionFailsOnlyAdjusted | basics/src/test/java/com/opengamma/basics/schedule/PeriodicScheduleTest.java:518-606 | when two unadjusted dates adjust to the same day, createAdjustedDates and createSchedule fail with 'duplicate adjusted dates' |
| ScheduleExamples.BuildRejectsDatesOutOfOrder | basics/src/test/java/com/opengamma/basics/schedule/PeriodicScheduleTest.java:163-173 | the six definitions with dates out of order are refused, each with its rule |
| ScheduleExamples.FactoriesDeriveRoll | basics/src/test/java/com/opengamma/basics/schedule/PeriodicScheduleTest.java:82-145 | the three `of` examples: DAY_17 for the initial stub, DAY_4 for the final stub despite EOM, DAY_17 when given |
| ScheduleExamples.ShortInitialMonthly | basics/src/test/java/com/opengamma/basics/schedule/PeriodicScheduleTest.java:204-206 | 4 June to 17 September 2014 monthly, SHORT_INITIAL: rolls on the 17th, with the test's unadjusted and adjusted dates |
| ScheduleExamples.ShortFinalMonthly | basics/src/test/java/com/opengamma/basics/schedule/PeriodicScheduleTest.java:241-243 | the same dates with SHORT_FINAL: rolls on the 4th, with the test's unadjusted and adjusted dates |
| ScheduleExamples.LongInitialMonthly | basics/src/test/java/com/opengamma/basics/schedule/PeriodicScheduleTest.java:227-229 | 4 June to 17 September 2014 monthly, LONG_INITIAL: the short stub to 17 June is merged, with the test's unadjusted and adjusted dates |
| ScheduleExamples.LongInitialTwoMonths | basics/src/test/java/com/opengamma/basics/schedule/PeriodicScheduleTest.java:236-238 | 17 June to 4 August 2014 monthly, LONG_INITIAL: the stub absorbs the only regular period, leaving [17 June, 4 August] before and after adjustment |
| ScheduleExamples.LongFinalMonthly | basics/src/test/java/com/opengamma/basics/schedule/PeriodicScheduleTest.java:261-263 | 4 June to 17 September 2014 monthly, LONG_FINAL: the short stub from 4 September is merged, with the test's unadjusted and adjusted dates |
| ScheduleExamples.LongFinalTwoMonths | basics/src/test/java/com/opengamma/basics/schedule/PeriodicScheduleTest.java:270-272 | 17 June to 4 August 2014 monthly, LONG_FINAL: the stub absorbs the only regular period, leaving [17 June, 4 August] before and after adjustment |
| ScheduleExamples.TermSinglePeriod | basics/src/test/java/com/opengamma/basics/schedule/PeriodicScheduleTest.java:326-328 | TERM from 4 June to 17 September 2014 is the single period [4 June, 17 September], unchanged by adjustment |
| ScheduleExamples.ImmMonthly | basics/src/test/java/com/opengamma/basics/schedule/PeriodicScheduleTest.java:331-333 | IMM monthly from 17 September to 15 October 2014 is the single period between the two IMM dates, unchanged by adjustment |
| ScheduleExamples.ImmTerm | basics/src/test/java/com/opengamma/basics/schedule/PeriodicScheduleTest.java:334-336 | IMM with TERM over the same dates gives the same single period |
| ScheduleExamples.ImmShortFrequencyToOct15 | basics/src/test/java/com/opengamma/basics/schedule/PeriodicScheduleTest.java:338-340 | IMM with a two-day frequency over the same dates gives the same single period |
| ScheduleExamples.EndOfMonthQuarterly | basics/src/test/java/com/opengamma/basics/schedule/PeriodicScheduleTest.java:313-315 | 30 November 2013 to 30 November 2014 quarterly with EOM: month-end dates, adjusted back to Fridays |
| ScheduleExamples.ImmWithShortFrequency | basics/src/test/java/com/opengamma/basics/schedule/PeriodicScheduleTest.java:341-343 | IMM from 17 September to 1 October 2014 with a two-day frequency is a single period |
| ScheduleExamples.ImmShortFrequencyDates | basics/src/test/java/com/opengamma/basics/schedule/PeriodicScheduleTest.java:341-343 | the same example's unadjusted and adjusted dates are both [17 September, 1 October] |
| ScheduleExamples.StartEndAdjust | basics/src/test/java/com/opengamma/basics/schedule/PeriodicScheduleTest.java:411-423 | 4 October 2014 to 4 April 2015 quarterly, PRECEDING at both ends: the test's unadjusted and adjusted dates |
| ScheduleExamples.NoStubOvershoots | basics/src/test/java/com/opengamma/basics/schedule/PeriodicScheduleTest.java:426-439 | NONE with DAY_4 from 4 June to 17 September fails with the stub error |
| ScheduleExamples.BadStubs | basics/src/test/java/com/opengamma/basics/schedule/PeriodicScheduleTest.java:441-515 | the BOTH, backwards, forwards and two TERM failure tests each fail with its error |
| ScheduleExamples.TermVanishesWhenAdjusted | basics/src/test/java/com/opengamma/basics/schedule/PeriodicScheduleTest.java:518-561 | TERM from Friday 29 to Sunday 31 May 2015: unadjusted dates exist, adjusted dates and the schedule fail with duplicates |
| ScheduleExamples.TwoDayPeriodsVanishWhenAdjusted | basics/src/test/java/com/opengamma/basics/schedule/PeriodicScheduleTest.java:563-606 | two-day periods from 27 to 31 May 2015: three unadjusted dates, adjusted dates and the schedule fail with duplicates |
| ScheduleExamples.StallingRollDuplicates | basics/src/test/java/com/opengamma/basics/schedule/PeriodicScheduleTest.java:608-641 | the convention whose first `next` stays put makes createUnadjustedDates fail with duplicates |
| InflationObservations.Create | modules/product/src/main/java/com/opengamma/strata/product/rate/InflationEndInterpolatedRateObservation.java:161-175 | the constructor with validate succeeds exactly when the start index value is positive, the weight not negative, both observations of one index and the first fixing month before the second; each refusal names a broken rule, start index value first, then weight |
| InflationObservations.Build | modules/product/src/main/java/com/opengamma/strata/product/rate/InflationEndInterpolatedRateObservation.java:512-519 | build succeeds exactly when both observations are set and the fields are valid, keeps every field, and reports a missing observation after the start index value check |
| InflationObservations.ToBuilder | modules/product/src/main/java/com/opengamma/strata/product/rate/InflationEndInterpolatedRateObservation.java:245-247 | toBuilder sets both observations |
| InflationObservations.BuildOfToBuilder | modules/product/src/main/java/com/opengamma/strata/product/rate/InflationEndInterpolatedRateObservation.java:443-448 | toBuilder().build() gives back the same observation |
| InflationObservations.Of | modules/product/src/main/java/com/opengamma/strata/product/rate/InflationEndInterpolatedRateObservation.java:96-108 | `of` succeeds exactly when the start index value is positive and the weight not negative; the end observation is the index in the reference month and the second the index one month later |
| InflationObservations.OfMeetsValidator | modules/product/src/main/java/com/opengamma/strata/product/rate/InflationEndInterpolatedRateObservation.java:110-116 | the observations `of` makes always meet the validator, so only the two numbers can make it fail |
| InflationObservations.PlusMonths | modules/product/src/main/java/com/opengamma/strata/product/rate/InflationEndInterpolatedRateObservation.java:105 | YearMonth.plusMonths counts months across year ends |
| InflationObservations.PlusMonthsAdds | modules/product/src/main/java/com/opengamma/strata/product/rate/InflationEndInterpolatedRateObservation.java:105 | adding months twice adds their sum, and adding none changes nothing |
| InflationObservations.GetIndex | modules/product/src/main/java/com/opengamma/strata/product/rate/InflationEndInterpolatedRateObservation.java:124-126 | getIndex is the index of both observations |
| InflationObservations.CollectIndices | modules/product/src/main/java/com/opengamma/strata/product/rate/InflationEndInterpolatedRateObservation.java:129-132 | collectIndices adds the observation's index and nothing else: at most one more index |
| InflationObservations.CollectIndicesIdempotent | modules/product/src/main/java/com/opengamma/strata/product/rate/InflationEndInterpolatedRateObservation.java:129-132 | collecting the same observation twice adds nothing the second time |

## Left out

- The `PeriodicSchedule`, `Schedule`, `SchedulePeriod`, `RollConvention`, `StubConvention`, `Frequency`, `BusinessDayAdjustment` and `HolidayCalendar` implementation files are not part of this model.
  - Their behaviour is reconstructed from the test assertions and from the names the tests use.
  - Where two reconstructions would both fit the tests, the model picks one. An example is which date a long stub drops: the boundary between the stub and its neighbouring regular period.
- RollConventions.Previous: the tests never call `previous`. It is modelled by the rule that mirrors `next`: snap the date one period back, or one month back when that does not move back.
- RollConventions.Next: the test's roll convention keeps a mutable `seen` flag (test lines 610-628).
  - It is modelled as `Stalling(k)`, a convention value returned along with each next date and threaded through the rolling loop.
  - Object identity and aliasing of a shared convention object are not modelled.
- Other roll conventions are left out: `SFE`, day-of-week conventions and `DAY_31` other than as `EOM`.
- Other calendars are left out. Holiday calendars are limited to none and Saturday/Sunday weekends, because only `SAT_SUN` is used. Business-day conventions are limited to `NO_ADJUST`, `FOLLOWING`, `MODIFIED_FOLLOWING` and `PRECEDING`.
- Other frequencies are left out: week-based, year-based and period-plus-days frequencies. Months and days cover every row. `TERM` is a period of 10,000 years.
- StubConventions.ToRollConvention: a `Days` frequency whose count is a multiple of seven is treated like any other day count, so the roll convention it implies is NONE. It is not treated as week-based with a day-of-week roll convention.
- Some rows of the generation table are not replayed as concrete lemmas: the rows of test lines 191-201, 207-224, 230-235, 244-258, 264-269, 274-305, 309-311 and 317-323.
  - The general lemmas about those cases are `EffectiveRollConvention`, `DayOfMonthNextReanchors`, `EndOfMonthNextIsMonthEnd`, the long-stub lemmas, `ImplicitStubConvention` and `NoStubEndsOnRegularPeriod`. The dates of those rows are not derived from them.
- Null checks are left out, both the null arguments (test lines 116-160) and the null setters of the observation's builder (InflationEndInterpolatedRateObservation.java:544, 558). Optional properties are `Option` values, and required ones are always present.
- Joda-Beans machinery is left out: meta-beans, property maps, `equals`, `hashCode`, `toString` and serialization (InflationEndInterpolatedRateObservation.java:134-594 apart from the constructor, `toBuilder` and `build`; test lines 643-734).
- The start index value and the weight are doubles that are only compared with zero. They are modelled as reals, so NaN and infinities are not modelled.
- InflationObservations.CollectIndices: the `ImmutableSet.Builder` the source adds to is modelled as a set value passed in and returned.
- InflationObservations.PlusMonths: the year range of `java.time.YearMonth`, and the exception `plusMonths` throws outside it, are not modelled. Years are unbounded.
- Dates: the year range of `java.time.LocalDate` is not modelled. Years are unbounded.
- Concurrency: the generator has no shared state. The model is sequential.
