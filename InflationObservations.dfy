/**
 * The observation of an inflation rate from a price index, interpolated at
 * the end, where the start index value is already known: a start index
 * value, two observations of the same index in increasing fixing months, and
 * an interpolation weight. The value is only created through a validating
 * constructor, so every observation satisfies its rules.
 */
module InflationObservations {
  import opened Wrappers

  /** A year and a month of it (java.time.YearMonth). */
  datatype YearMonth = YearMonth(year: int, month: int) {
    predicate IsValid() {
      1 <= month <= 12
    }
  }

  type Month = ym: YearMonth | ym.IsValid() witness YearMonth(2000, 1)

  /** Months since January of year 0, so that consecutive months differ by one. */
  function MonthCount(ym: Month): int {
    ym.year * 12 + ym.month - 1
  }

  predicate IsBefore(a: Month, b: Month) {
    MonthCount(a) < MonthCount(b)
  }

  /** YearMonth.plusMonths: the month 'months' later, rolling over the year. */
  function PlusMonths(ym: Month, months: int): (r: Month)
    ensures MonthCount(r) == MonthCount(ym) + months
  {
    var total := MonthCount(ym) + months;
    YearMonth(total / 12, total % 12 + 1)
  }

  /** Two months with the same count are the same month. */
  lemma MonthCountInjective(a: Month, b: Month)
    requires MonthCount(a) == MonthCount(b)
    ensures a == b
  {
    assert a.year == MonthCount(a) / 12;
    assert b.year == MonthCount(b) / 12;
  }

  /** Adding months twice adds their sum; adding none is the identity. */
  lemma PlusMonthsAdds(ym: Month, a: int, b: int)
    ensures PlusMonths(PlusMonths(ym, a), b) == PlusMonths(ym, a + b)
    ensures PlusMonths(ym, 0) == ym
  {
    MonthCountInjective(PlusMonths(PlusMonths(ym, a), b), PlusMonths(ym, a + b));
    MonthCountInjective(PlusMonths(ym, 0), ym);
  }

  /** A price index, identified by its name. */
  datatype PriceIndex = PriceIndex(name: string)

  /** PriceIndexObservation: an index observed for a fixing month. */
  datatype PriceIndexObservation = PriceIndexObservation(index: PriceIndex, fixingMonth: Month)

  /** Why construction refuses its arguments, in the order the checks are made. */
  datatype ObservationError =
    | NonPositiveStartIndexValue
    | MissingEndObservation
    | MissingEndSecondObservation
    | NegativeWeight
    | DifferentIndices
    | MonthsNotInOrder

  /**
   * The fields. The start index value and the weight are doubles in the
   * source; they are only compared with zero, so reals stand for them.
   */
  datatype Fields = Fields(
    startIndexValue: real,
    endObservation: PriceIndexObservation,
    endSecondObservation: PriceIndexObservation,
    weight: real)
  {
    /** The rules of construction: the field checks and the validator. */
    predicate IsValid() {
      && startIndexValue > 0.0
      && weight >= 0.0
      && endObservation.index == endSecondObservation.index
      && IsBefore(endObservation.fixingMonth, endSecondObservation.fixingMonth)
    }
  }

  /** InflationEndInterpolatedRateObservation: fields that passed construction. */
  type Observation = o: Fields | o.IsValid()
    witness Fields(1.0, PriceIndexObservation(PriceIndex("GB-RPI"), YearMonth(2000, 1)),
                   PriceIndexObservation(PriceIndex("GB-RPI"), YearMonth(2000, 2)), 0.0)

  /** The single rule a field set breaks, for each refusal of fields that are all present. */
  predicate Breaks(f: Fields, e: ObservationError) {
    match e
    case NonPositiveStartIndexValue => f.startIndexValue <= 0.0
    case NegativeWeight => f.weight < 0.0
    case DifferentIndices => f.endObservation.index != f.endSecondObservation.index
    case MonthsNotInOrder => !IsBefore(f.endObservation.fixingMonth, f.endSecondObservation.fixingMonth)
    case _ => false
  }

  /**
   * The private constructor with validate(): the start index value must be
   * positive, the weight not negative, both observations of the same index,
   * and the end fixing month strictly before the second one.
   */
  function Create(f: Fields): (r: Result<Observation, ObservationError>)
    ensures r.Success? <==> f.IsValid()
    ensures r.Success? ==> r.value == f
    ensures r.Failure? ==> Breaks(f, r.error)
    ensures f.startIndexValue <= 0.0 ==> r == Failure(NonPositiveStartIndexValue)
    ensures f.startIndexValue > 0.0 && f.weight < 0.0 ==> r == Failure(NegativeWeight)
  {
    if f.startIndexValue <= 0.0 then Failure(NonPositiveStartIndexValue)
    else if f.weight < 0.0 then Failure(NegativeWeight)
    else if f.endObservation.index != f.endSecondObservation.index then Failure(DifferentIndices)
    else if !IsBefore(f.endObservation.fixingMonth, f.endSecondObservation.fixingMonth) then Failure(MonthsNotInOrder)
    else Success(f)
  }

  /**
   * The bean builder: the fields set so far. The observations are absent
   * until set (null in the source); the two doubles start at zero.
   */
  datatype Builder = Builder(
    startIndexValue: real,
    endObservation: Option<PriceIndexObservation>,
    endSecondObservation: Option<PriceIndexObservation>,
    weight: real)

  /** builder(): nothing set yet. */
  const EmptyBuilder: Builder := Builder(0.0, None, None, 0.0)

  /**
   * Builder.build: the constructor on the builder's fields. The start index
   * value is checked first, then that both observations are present, then the
   * remaining rules.
   */
  function Build(b: Builder): (r: Result<Observation, ObservationError>)
    ensures r.Success? <==>
      b.endObservation.Some? && b.endSecondObservation.Some?
      && Fields(b.startIndexValue, b.endObservation.value, b.endSecondObservation.value, b.weight).IsValid()
    ensures r.Success? ==>
      && r.value.startIndexValue == b.startIndexValue && r.value.weight == b.weight
      && Some(r.value.endObservation) == b.endObservation && Some(r.value.endSecondObservation) == b.endSecondObservation
    ensures b.startIndexValue > 0.0 && b.endObservation.None? ==> r == Failure(MissingEndObservation)
    ensures b.startIndexValue > 0.0 && b.endObservation.Some? && b.endSecondObservation.None? ==> r == Failure(MissingEndSecondObservation)
  {
    if b.startIndexValue <= 0.0 then Failure(NonPositiveStartIndexValue)
    else if b.endObservation.None? then Failure(MissingEndObservation)
    else if b.endSecondObservation.None? then Failure(MissingEndSecondObservation)
    else Create(Fields(b.startIndexValue, b.endObservation.value, b.endSecondObservation.value, b.weight))
  }

  /** toBuilder: a builder holding the observation's fields. */
  function ToBuilder(o: Observation): (b: Builder)
    ensures b.endObservation.Some? && b.endSecondObservation.Some?
  {
    Builder(o.startIndexValue, Some(o.endObservation), Some(o.endSecondObservation), o.weight)
  }

  /** toBuilder().build() gives back an equal observation, field for field. */
  lemma BuildOfToBuilder(o: Observation)
    ensures Build(ToBuilder(o)) == Success(o)
  {
  }

  /**
   * of: observations of the index in the reference end month and the month
   * after it, built with the given start index value and weight.
   */
  function Of(index: PriceIndex, startIndexValue: real, referenceEndMonth: Month, weight: real): (r: Result<Observation, ObservationError>)
    ensures r.Success? <==> startIndexValue > 0.0 && weight >= 0.0
    ensures r.Success? ==>
      && r.value.startIndexValue == startIndexValue && r.value.weight == weight
      && r.value.endObservation == PriceIndexObservation(index, referenceEndMonth)
      && r.value.endSecondObservation.index == index
      && MonthCount(r.value.endSecondObservation.fixingMonth) == MonthCount(referenceEndMonth) + 1
    ensures r.Failure? ==> r.error in {NonPositiveStartIndexValue, NegativeWeight}
  {
    Build(EmptyBuilder.(startIndexValue := startIndexValue,
                        endObservation := Some(PriceIndexObservation(index, referenceEndMonth)),
                        endSecondObservation := Some(PriceIndexObservation(index, PlusMonths(referenceEndMonth, 1))),
                        weight := weight))
  }

  /** getIndex: the index of the end observation, which both observations share. */
  function GetIndex(o: Observation): (r: PriceIndex)
    ensures r == o.endObservation.index && r == o.endSecondObservation.index
  {
    o.endObservation.index
  }

  /** collectIndices: adds the observation's one index to those collected so far, and nothing else. */
  function CollectIndices(o: Observation, collected: set<PriceIndex>): (r: set<PriceIndex>)
    ensures collected <= r && GetIndex(o) in r
    ensures forall i <- r :: i in collected || i == GetIndex(o)
    ensures |r| <= |collected| + 1
  {
    collected + {GetIndex(o)}
  }

  /**
   * Whatever the start index value and the weight, the observations of 'of'
   * meet the validator: the same index, and the second month after the first.
   * So 'of' fails only on the start index value or the weight.
   */
  lemma OfMeetsValidator(index: PriceIndex, startIndexValue: real, referenceEndMonth: Month, weight: real)
    ensures var f := Fields(startIndexValue, PriceIndexObservation(index, referenceEndMonth),
                            PriceIndexObservation(index, PlusMonths(referenceEndMonth, 1)), weight);
      f.IsValid() <==> startIndexValue > 0.0 && weight >= 0.0
    ensures Of(index, startIndexValue, referenceEndMonth, weight).Success? ==>
      Of(index, startIndexValue, referenceEndMonth, weight).value
      == Fields(startIndexValue, PriceIndexObservation(index, referenceEndMonth),
                PriceIndexObservation(index, PlusMonths(referenceEndMonth, 1)), weight)
  {
  }

  /** Collecting the indices of the same observation twice adds nothing the second time. */
  lemma CollectIndicesIdempotent(o: Observation, collected: set<PriceIndex>)
    ensures CollectIndices(o, CollectIndices(o, collected)) == CollectIndices(o, collected)
  {
  }
}
