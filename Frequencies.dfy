/**
 * The periodic frequency of a schedule: a number of months, a number of days,
 * or the single-period 'Term' frequency.
 */
module Frequencies {
  import opened Dates

  type Positive = n: int | n > 0 witness 1

  /** 'Term' behaves as a period of 10,000 years, so that one period covers any schedule. */
  const TermMonths: int := 12 * 10000

  datatype Frequency = Term | Months(months: Positive) | Days(days: Positive) {

    predicate IsMonthBased() {
      Months?
    }

    /** The date one period later (date.plus(frequency)). */
    function AddTo(d: LocalDate): (r: LocalDate)
      ensures IsAfter(r, d)
      ensures Months? ==> MonthIndex(r) == MonthIndex(d) + months
    {
      match this
      case Term =>
        PlusMonthsIsAfter(d, TermMonths);
        PlusMonths(d, TermMonths)
      case Months(n) =>
        PlusMonthsIsAfter(d, n);
        PlusMonths(d, n)
      case Days(n) => PlusDays(d, n)
    }

    /** The date one period earlier (date.minus(frequency)). */
    function SubtractFrom(d: LocalDate): (r: LocalDate)
      ensures IsBefore(r, d)
      ensures Months? ==> MonthIndex(r) == MonthIndex(d) - months
    {
      match this
      case Term =>
        MinusMonthsIsBefore(d, TermMonths);
        PlusMonths(d, -TermMonths)
      case Months(n) =>
        MinusMonthsIsBefore(d, n);
        PlusMonths(d, -(n as int))
      case Days(n) => MinusDays(d, n)
    }
  }

  /** A frequency in days moves the date by that many calendar days, either way. */
  lemma DaysFrequencyCountsDays(f: Frequency, d: LocalDate)
    requires f.Days?
    ensures EpochDay(f.AddTo(d)) == EpochDay(d) + f.days
    ensures EpochDay(f.SubtractFrom(d)) == EpochDay(d) - f.days
  {
    EpochDayPlusDays(d, f.days);
    EpochDayMinusDays(d, f.days);
  }

  const P1M: Frequency := Months(1)
  const P2M: Frequency := Months(2)
  const P3M: Frequency := Months(3)
}
