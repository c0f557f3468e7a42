/**
 * Properties of lists of dates: ordering, distinctness, and the duplicate
 * check the generator makes.
 */
module DateSequences {
  import opened Dates

  /** Each date is on or after every date before it. */
  predicate Ascending(ds: seq<LocalDate>) {
    forall i, j | 0 <= i < j < |ds| :: !IsBefore(ds[j], ds[i])
  }

  /** Each date is after every date before it. */
  predicate StrictlyAscending(ds: seq<LocalDate>) {
    forall i, j | 0 <= i < j < |ds| :: IsBefore(ds[i], ds[j])
  }

  /** No date occurs twice. */
  predicate Distinct(ds: seq<LocalDate>) {
    forall i, j | 0 <= i < j < |ds| :: ds[i] != ds[j]
  }

  /** The duplicate check: does some date occur again later in the list. */
  function HasDuplicates(ds: seq<LocalDate>): (r: bool)
    ensures r <==> !Distinct(ds)
  {
    if |ds| == 0 then false
    else
      var rest := ds[1..];
      assert forall i, j | 1 <= i < j < |ds| :: ds[i] == rest[i - 1] && ds[j] == rest[j - 1];
      assert ds[0] in rest <==> exists j | 1 <= j < |ds| :: ds[0] == ds[j] by {
        if ds[0] in rest {
          var k :| 0 <= k < |rest| && rest[k] == ds[0];
          assert ds[k + 1] == ds[0];
        }
      }
      ds[0] in rest || HasDuplicates(rest)
  }

  /** An ascending list without duplicates is strictly ascending. */
  lemma AscendingDistinctIsStrict(ds: seq<LocalDate>)
    requires Ascending(ds) && Distinct(ds)
    ensures StrictlyAscending(ds)
  {
    forall i, j | 0 <= i < j < |ds|
      ensures IsBefore(ds[i], ds[j])
    {
      if Key(ds[i]) == Key(ds[j]) {
        KeyInjective(ds[i], ds[j]);
      }
    }
  }

  /** Two ascending lists joined where the second starts no earlier than the first ends. */
  lemma AscendingAppend(a: seq<LocalDate>, b: seq<LocalDate>)
    requires Ascending(a) && Ascending(b)
    requires |a| > 0 && |b| > 0 ==> !IsBefore(b[0], a[|a| - 1])
    ensures Ascending(a + b)
  {
    var ab := a + b;
    forall i, j | 0 <= i < j < |ab|
      ensures !IsBefore(ab[j], ab[i])
    {
      if i < |a| && |a| <= j {
        assert !IsBefore(a[|a| - 1], a[i]) || i == |a| - 1;
        assert !IsBefore(b[j - |a|], b[0]) || j == |a|;
      }
    }
  }

  /** Joining lists of dates is associative. */
  lemma ConcatAssociates(a: seq<LocalDate>, b: seq<LocalDate>, c: seq<LocalDate>)
    ensures (a + b) + c == a + (b + c)
  {
  }

  /** Leaving one date out of a list without duplicates leaves none. */
  lemma DistinctWithout(ds: seq<LocalDate>, k: nat)
    requires Distinct(ds) && k < |ds|
    ensures Distinct(ds[..k] + ds[k + 1..])
  {
    var t := ds[..k] + ds[k + 1..];
    assert forall i | 0 <= i < |t| :: t[i] == ds[if i < k then i else i + 1];
  }

  /** The list without its second date. */
  function WithoutSecond(ds: seq<LocalDate>): seq<LocalDate>
    requires |ds| >= 2
  {
    [ds[0]] + ds[2..]
  }

  /** The list without its last date but one. */
  function WithoutPenultimate(ds: seq<LocalDate>): seq<LocalDate>
    requires |ds| >= 2
  {
    ds[..|ds| - 2] + [ds[|ds| - 1]]
  }

  /** Leaving out the second date of a list without duplicates leaves none. */
  lemma DistinctWithoutSecond(ds: seq<LocalDate>)
    requires Distinct(ds) && |ds| >= 3
    ensures Distinct(WithoutSecond(ds))
  {
    DistinctWithout(ds, 1);
    assert ds[..1] + ds[2..] == WithoutSecond(ds);
  }

  /** Leaving out the last date but one of a list without duplicates leaves none. */
  lemma DistinctWithoutPenultimate(ds: seq<LocalDate>)
    requires Distinct(ds) && |ds| >= 3
    ensures Distinct(WithoutPenultimate(ds))
  {
    DistinctWithout(ds, |ds| - 2);
    assert ds[..|ds| - 2] + ds[|ds| - 1..] == WithoutPenultimate(ds);
  }
}
