/**
 * The aggregator: normalises contract-level records and rolls them up into
 * enrollment-weighted parent aggregates, per (year, measure, parent) and
 * per (year, parent).
 */
module Aggregate {
  import opened Wrappers
  import opened Seqs
  import opened Strings
  import opened Fields

  // ---------------------------------------------------------------------
  // Weighted mean
  // ---------------------------------------------------------------------

  /** One (value, weight) pair read from a row for `weightedAvg`. */
  datatype Observation = Observation(value: RawField, weight: RawField)

  /** A row takes part in the mean when its value parses and its weight parses and is positive. */
  predicate Contributes(o: Observation) {
    ParseNum(o.value).Some? && ParseNum(o.weight).Some? && ParseNum(o.weight).value > 0.0
  }

  /** What a row adds to the denominator: its weight if it contributes. */
  function WeightTerm(o: Observation): real {
    if Contributes(o) then ParseNum(o.weight).value else 0.0
  }

  /** What a row adds to the numerator: value times weight if it contributes. */
  function ProductTerm(o: Observation): real {
    if Contributes(o) then ParseNum(o.value).value * ParseNum(o.weight).value else 0.0
  }

  /** The sum of the contributing weights. */
  function Den(obs: seq<Observation>): real {
    if obs == [] then 0.0 else Den(obs[..|obs| - 1]) + WeightTerm(obs[|obs| - 1])
  }

  /** The sum of value times weight over the contributing rows. */
  function Num(obs: seq<Observation>): real {
    if obs == [] then 0.0 else Num(obs[..|obs| - 1]) + ProductTerm(obs[|obs| - 1])
  }

  /** The enrollment-weighted mean, or null when the weight sum is not positive. */
  function WeightedMean(obs: seq<Observation>): Option<real> {
    if Den(obs) > 0.0 then Some(Num(obs) / Den(obs)) else None
  }

  /** `weightedAvg`: accumulates `den` and `num` in row order. */
  method WeightedAvg(obs: seq<Observation>) returns (r: Option<real>)
    ensures r == WeightedMean(obs)
  {
    var den, num := 0.0, 0.0;
    for i := 0 to |obs|
      invariant den == Den(obs[..i]) && num == Num(obs[..i])
    {
      assert obs[..i + 1][..i] == obs[..i];
      var v := ParseNum(obs[i].value);
      var w := ParseNum(obs[i].weight);
      if v.None? || w.None? || w.value <= 0.0 {
        continue;
      }
      den := den + w.value;
      num := num + v.value * w.value;
    }
    assert obs[..|obs|] == obs;
    r := if den > 0.0 then Some(num / den) else None;
  }

  lemma {:induction false} DenPositiveIff(obs: seq<Observation>)
    ensures Den(obs) >= 0.0
    ensures Den(obs) > 0.0 <==> exists i :: 0 <= i < |obs| && Contributes(obs[i])
  {
    if obs != [] {
      var init := obs[..|obs| - 1];
      DenPositiveIff(init);
      assert forall i :: 0 <= i < |init| ==> init[i] == obs[i];
      if exists i :: 0 <= i < |init| && Contributes(init[i]) {
        var i :| 0 <= i < |init| && Contributes(init[i]);
        assert Contributes(obs[i]);
      }
    }
  }

  /** The mean is null exactly when no row has a value and a positive weight. */
  lemma WeightedMeanNullIff(obs: seq<Observation>)
    ensures WeightedMean(obs).None? <==> forall i :: 0 <= i < |obs| ==> !Contributes(obs[i])
  {
    DenPositiveIff(obs);
  }

  lemma TermAbove(o: Observation, lo: real)
    requires Contributes(o) ==> lo <= ParseNum(o.value).value
    ensures lo * WeightTerm(o) <= ProductTerm(o)
  {
    if Contributes(o) {
      var v, w := ParseNum(o.value).value, ParseNum(o.weight).value;
      assert (v - lo) * w >= 0.0;
    }
  }

  lemma TermBelow(o: Observation, hi: real)
    requires Contributes(o) ==> ParseNum(o.value).value <= hi
    ensures ProductTerm(o) <= hi * WeightTerm(o)
  {
    if Contributes(o) {
      var v, w := ParseNum(o.value).value, ParseNum(o.weight).value;
      assert (hi - v) * w >= 0.0;
    }
  }

  /** The weight sum with every weight scaled by `c`, summed term by term. */
  function ScaledDen(obs: seq<Observation>, c: real): real {
    if obs == [] then 0.0 else ScaledDen(obs[..|obs| - 1], c) + c * WeightTerm(obs[|obs| - 1])
  }

  /** Scaling each weight scales the sum. */
  lemma {:induction false} ScaledDenIsProduct(obs: seq<Observation>, c: real)
    ensures ScaledDen(obs, c) == c * Den(obs)
  {
    if obs != [] {
      var init, o := obs[..|obs| - 1], obs[|obs| - 1];
      ScaledDenIsProduct(init, c);
      var d, w := Den(init), WeightTerm(o);
      assert c * (d + w) == c * d + c * w;
    }
  }

  /** The weighted sum is at least `lo` times the weight sum when no contributing value is below `lo`. */
  lemma {:induction false} NumAbove(obs: seq<Observation>, lo: real)
    requires forall i :: 0 <= i < |obs| && Contributes(obs[i]) ==> lo <= ParseNum(obs[i].value).value
    ensures ScaledDen(obs, lo) <= Num(obs)
  {
    if obs != [] {
      var init := obs[..|obs| - 1];
      assert forall i :: 0 <= i < |init| ==> init[i] == obs[i];
      var o := obs[|obs| - 1];
      NumAbove(init, lo);
      TermAbove(o, lo);
      assert ScaledDen(obs, lo) == ScaledDen(init, lo) + lo * WeightTerm(o);
      assert Num(obs) == Num(init) + ProductTerm(o);
    }
  }

  /** The weighted sum is at most `hi` times the weight sum when no contributing value is above `hi`. */
  lemma {:induction false} NumBelow(obs: seq<Observation>, hi: real)
    requires forall i :: 0 <= i < |obs| && Contributes(obs[i]) ==> ParseNum(obs[i].value).value <= hi
    ensures Num(obs) <= ScaledDen(obs, hi)
  {
    if obs != [] {
      var init := obs[..|obs| - 1];
      assert forall i :: 0 <= i < |init| ==> init[i] == obs[i];
      var o := obs[|obs| - 1];
      NumBelow(init, hi);
      TermBelow(o, hi);
      assert ScaledDen(obs, hi) == ScaledDen(init, hi) + hi * WeightTerm(o);
      assert Num(obs) == Num(init) + ProductTerm(o);
    }
  }

  /** The weighted sum lies between `lo` and `hi` times the weight sum when every contributing value does. */
  lemma NumBetween(obs: seq<Observation>, lo: real, hi: real)
    requires forall i :: 0 <= i < |obs| && Contributes(obs[i]) ==> lo <= ParseNum(obs[i].value).value <= hi
    ensures lo * Den(obs) <= Num(obs) <= hi * Den(obs)
  {
    NumAbove(obs, lo);
    NumBelow(obs, hi);
    ScaledDenIsProduct(obs, lo);
    ScaledDenIsProduct(obs, hi);
  }

  lemma QuotientAbove(n: real, d: real, lo: real)
    requires d > 0.0 && lo * d <= n
    ensures lo <= n / d
  {
    var q := n / d;
    assert q * d == n;
    if q < lo {
      assert (lo - q) * d > 0.0;
    }
  }

  lemma QuotientBelow(n: real, d: real, hi: real)
    requires d > 0.0 && n <= hi * d
    ensures n / d <= hi
  {
    var q := n / d;
    assert q * d == n;
    if q > hi {
      assert (q - hi) * d > 0.0;
    }
  }

  /**
   * Whenever the mean exists it lies between any lower and upper bound of
   * the contributing values, in particular between their minimum and maximum.
   */
  lemma WeightedMeanBounds(obs: seq<Observation>, lo: real, hi: real)
    requires forall i :: 0 <= i < |obs| && Contributes(obs[i]) ==> lo <= ParseNum(obs[i].value).value <= hi
    ensures WeightedMean(obs).Some? ==> lo <= WeightedMean(obs).value <= hi
  {
    NumBetween(obs, lo, hi);
    if Den(obs) > 0.0 {
      QuotientAbove(Num(obs), Den(obs), lo);
      QuotientBelow(Num(obs), Den(obs), hi);
    }
  }

  // ---------------------------------------------------------------------
  // Grouping
  // ---------------------------------------------------------------------

  /** The elements of `xs` whose key is `k`, in their original order. */
  function WithKey<T(!new), K(==)>(xs: seq<T>, key: T -> K, k: K): seq<T> {
    if xs == [] then []
    else
      var init := xs[..|xs| - 1];
      var x := xs[|xs| - 1];
      assert xs == init + [x];
      WithKey(init, key, k) + (if key(x) == k then [x] else [])
  }

  /** A group holds exactly the rows with its key, each no more often than the input does. */
  lemma {:induction false} WithKeyMembers<T(!new), K>(xs: seq<T>, key: T -> K, k: K)
    ensures forall x :: x in WithKey(xs, key, k) <==> x in xs && key(x) == k
    ensures multiset(WithKey(xs, key, k)) <= multiset(xs)
  {
    if xs != [] {
      var init, x := xs[..|xs| - 1], xs[|xs| - 1];
      assert xs == init + [x];
      WithKeyMembers(init, key, k);
    }
  }

  lemma WithKeyAppend<T(!new), K>(xs: seq<T>, x: T, key: T -> K, k: K)
    ensures WithKey(xs + [x], key, k) == WithKey(xs, key, k) + (if key(x) == k then [x] else [])
  {
    assert (xs + [x])[..|xs|] == xs;
  }

  lemma WithKeyAbsent<T(!new), K>(xs: seq<T>, key: T -> K, k: K)
    requires k !in MapSeq(xs, key)
    ensures WithKey(xs, key, k) == []
  {
  }

  lemma DedupMapAppend<T(!new), K(!new)>(xs: seq<T>, x: T, key: T -> K)
    ensures Dedup(MapSeq(xs + [x], key))
         == var d := Dedup(MapSeq(xs, key)); if key(x) in d then d else d + [key(x)]
  {
    var m := MapSeq(xs + [x], key);
    assert m[..|xs|] == MapSeq(xs, key);
  }

  /** The state of the grouping loop after the rows `xs`. */
  ghost predicate GroupedState<T(!new), K(!new)>(xs: seq<T>, key: T -> K, keys: seq<K>, groups: map<K, seq<T>>) {
    && keys == Dedup(MapSeq(xs, key))
    && (forall k :: k in groups <==> k in keys)
    && (forall k :: k in groups ==> groups[k] == WithKey(xs, key, k) && groups[k] != [])
  }

  lemma GroupStep<T(!new), K(!new)>(xs: seq<T>, x: T, key: T -> K, keys: seq<K>, groups: map<K, seq<T>>)
    requires GroupedState(xs, key, keys, groups)
    ensures var k := key(x);
      var keys' := if k in groups then keys else keys + [k];
      var groups' := groups[k := (if k in groups then groups[k] else []) + [x]];
      GroupedState(xs + [x], key, keys', groups')
  {
    var k := key(x);
    var keys' := if k in groups then keys else keys + [k];
    var groups' := groups[k := (if k in groups then groups[k] else []) + [x]];
    DedupMapAppend(xs, x, key);
    assert keys' == Dedup(MapSeq(xs + [x], key));
    assert forall k' :: k' in groups' <==> k' in keys';
    forall k' | k' in groups'
      ensures groups'[k'] == WithKey(xs + [x], key, k') && groups'[k'] != []
    {
      WithKeyAppend(xs, x, key, k');
      if k' == k && k !in groups {
        WithKeyAbsent(xs, key, k);
      }
    }
  }

  /**
   * The grouping loops: a JavaScript `Map` from key to the rows with that
   * key, keys kept in order of first appearance.
   */
  method GroupBy<T(!new), K(==,!new)>(xs: seq<T>, key: T -> K) returns (keys: seq<K>, groups: map<K, seq<T>>)
    ensures keys == Dedup(MapSeq(xs, key))
    ensures forall k :: k in groups <==> k in keys
    ensures forall k :: k in groups ==> groups[k] == WithKey(xs, key, k) && groups[k] != []
  {
    keys, groups := [], map[];
    for i := 0 to |xs|
      invariant GroupedState(xs[..i], key, keys, groups)
    {
      var x := xs[i];
      var k := key(x);
      assert xs[..i + 1] == xs[..i] + [x];
      GroupStep(xs[..i], x, key, keys, groups);
      var group := if k in groups then groups[k] else [];
      if k !in groups {
        keys := keys + [k];
      }
      groups := groups[k := group + [x]];
    }
    assert xs[..|xs|] == xs;
  }

  /** The rows of all groups of `keys`, counted with multiplicity. */
  function GroupUnion<T(!new), K(==)>(xs: seq<T>, key: T -> K, keys: seq<K>): multiset<T> {
    if keys == [] then multiset{}
    else GroupUnion(xs, key, keys[..|keys| - 1]) + multiset(WithKey(xs, key, keys[|keys| - 1]))
  }

  lemma {:induction false} GroupUnionOfNothing<T(!new), K>(key: T -> K, keys: seq<K>)
    ensures GroupUnion([], key, keys) == multiset{}
  {
    if keys != [] {
      GroupUnionOfNothing(key, keys[..|keys| - 1]);
    }
  }

  lemma {:induction false} GroupUnionAppend<T(!new), K>(xs: seq<T>, x: T, key: T -> K, keys: seq<K>)
    requires NoDuplicates(keys)
    ensures GroupUnion(xs + [x], key, keys)
         == GroupUnion(xs, key, keys) + (if key(x) in keys then multiset{x} else multiset{})
  {
    if keys != [] {
      var init, k := keys[..|keys| - 1], keys[|keys| - 1];
      assert keys == init + [k];
      assert NoDuplicates(init) by {
        forall i, j | 0 <= i < j < |init| ensures init[i] != init[j] {
          assert init[i] == keys[i] && init[j] == keys[j];
        }
      }
      GroupUnionAppend(xs, x, key, init);
      WithKeyAppend(xs, x, key, k);
      var before := multiset(WithKey(xs, key, k));
      var added: multiset<T> := if key(x) == k then multiset{x} else multiset{};
      assert multiset(WithKey(xs + [x], key, k)) == before + added;
      if key(x) == k {
        assert key(x) !in init;
      }
    }
  }

  /**
   * Grouping loses and duplicates nothing: with distinct keys covering every
   * row, the groups together hold exactly the rows, with multiplicity.
   */
  lemma {:induction false} GroupsPartition<T(!new), K>(xs: seq<T>, key: T -> K, keys: seq<K>)
    requires NoDuplicates(keys)
    requires forall i :: 0 <= i < |xs| ==> key(xs[i]) in keys
    ensures GroupUnion(xs, key, keys) == multiset(xs)
  {
    if xs == [] {
      GroupUnionOfNothing(key, keys);
    } else {
      var init, x := xs[..|xs| - 1], xs[|xs| - 1];
      assert xs == init + [x];
      GroupsPartition(init, key, keys);
      GroupUnionAppend(init, x, key, keys);
    }
  }

  /**
   * Every row lands in exactly one group: the group of its own key, which
   * holds only rows with that key, and the groups of the first-appearance
   * keys together hold every row exactly as often as the input does.
   */
  lemma EachRowInOneGroup<T(!new), K(!new)>(xs: seq<T>, key: T -> K)
    ensures var keys := Dedup(MapSeq(xs, key));
      && (forall i :: 0 <= i < |xs| ==> key(xs[i]) in keys && xs[i] in WithKey(xs, key, key(xs[i])))
      && (forall k, x :: k in keys && x in WithKey(xs, key, k) ==> key(x) == k)
      && GroupUnion(xs, key, keys) == multiset(xs)
  {
    var keys := Dedup(MapSeq(xs, key));
    forall i | 0 <= i < |xs|
      ensures key(xs[i]) in keys && xs[i] in WithKey(xs, key, key(xs[i]))
    {
      assert MapSeq(xs, key)[i] == key(xs[i]);
      WithKeyMembers(xs, key, key(xs[i]));
    }
    forall k, x | k in keys && x in WithKey(xs, key, k)
      ensures key(x) == k
    {
      WithKeyMembers(xs, key, k);
    }
    GroupsPartition(xs, key, keys);
  }

  // ---------------------------------------------------------------------
  // Per-group summaries
  // ---------------------------------------------------------------------

  /** The (rating year, measure key, parent) a contract record is grouped by. */
  datatype AggKey = AggKey(ratingYear: int, measureKey: string, parentOrganization: string)

  /** The (rating year, parent) a contract-year total is grouped by. */
  datatype TotalKey = TotalKey(ratingYear: int, parentOrganization: string)

  function AggKeyOf(r: ContractRecord): AggKey {
    AggKey(r.ratingYear, r.measureKey, ParentName(r.parentOrganization))
  }

  function TotalKeyOf(r: ContractYearTotal): TotalKey {
    TotalKey(r.ratingYear, ParentName(r.parentOrganization))
  }

  /** The (value, enrollment) pairs `weightedAvg` reads for one per-measure field. */
  function MeasureObservations(rows: seq<ContractRecord>, m: Metric): (obs: seq<Observation>)
    ensures |obs| == |rows|
    ensures forall i :: 0 <= i < |rows| ==> obs[i] == Observation(RecordField(rows[i], m), rows[i].enrollmentLives)
  {
    seq(|rows|, i requires 0 <= i < |rows| => Observation(RecordField(rows[i], m), rows[i].enrollmentLives))
  }

  /** The (total score, enrollment) pairs `weightedAvg` reads for the year totals. */
  function TotalObservations(rows: seq<ContractYearTotal>): (obs: seq<Observation>)
    ensures |obs| == |rows|
    ensures forall i :: 0 <= i < |rows| ==> obs[i] == Observation(rows[i].totalRawStarsScore, rows[i].enrollmentLives)
  {
    seq(|rows|, i requires 0 <= i < |rows| => Observation(rows[i].totalRawStarsScore, rows[i].enrollmentLives))
  }

  /** `parseNum(enrollment_lives) || 0`. */
  function EnrollmentOrZero(e: RawField): real {
    ParseNum(e).GetOr(0.0)
  }

  /** The `members_included` reduction: every row's enrollment, null counting as 0. */
  function SumEnrollment(es: seq<RawField>): real {
    if es == [] then 0.0 else SumEnrollment(es[..|es| - 1]) + EnrollmentOrZero(es[|es| - 1])
  }

  lemma {:induction false} SumEnrollmentAppend(a: seq<RawField>, b: seq<RawField>)
    ensures SumEnrollment(a + b) == SumEnrollment(a) + SumEnrollment(b)
  {
    if b != [] {
      assert (a + b)[..|a + b| - 1] == a + b[..|b| - 1];
      assert (a + b)[|a + b| - 1] == b[|b| - 1];
      SumEnrollmentAppend(a, b[..|b| - 1]);
    } else {
      assert a + b == a;
    }
  }

  /**
   * The enrollment total does not depend on which rows a mean uses: with
   * no negative enrollment it covers the weight of every field's mean, and
   * it equals that weight when every row contributes.
   */
  lemma {:induction false} MembersCoverWeights(obs: seq<Observation>, es: seq<RawField>)
    requires |es| == |obs|
    requires forall i :: 0 <= i < |obs| ==> obs[i].weight == es[i]
    requires forall i :: 0 <= i < |es| ==> EnrollmentOrZero(es[i]) >= 0.0
    ensures Den(obs) <= SumEnrollment(es)
    ensures (forall i :: 0 <= i < |obs| ==> Contributes(obs[i])) ==> Den(obs) == SumEnrollment(es)
  {
    if obs != [] {
      var n := |obs| - 1;
      MembersCoverWeights(obs[..n], es[..n]);
    }
  }

  /** `contracts_included` is the number of distinct contract ids of the group. */
  lemma ContractsIncludedIsDistinctCount(ids: seq<string>)
    ensures |Dedup(ids)| == |set i | 0 <= i < |ids| :: ids[i]|
  {
    DedupCount(ids);
    assert (set x | x in ids) == (set i | 0 <= i < |ids| :: ids[i]);
  }

  /** The observed codes, `filter(Boolean)`: missing and empty codes are dropped. */
  function ObservedCodes(rows: seq<ContractRecord>): (codes: seq<string>)
    ensures forall c :: c in codes <==> c != "" && exists i :: 0 <= i < |rows| && rows[i].measureCodeObserved == Some(c)
  {
    if rows == [] then []
    else
      var init, r := rows[..|rows| - 1], rows[|rows| - 1];
      assert forall i :: 0 <= i < |init| ==> init[i] == rows[i];
      ObservedCodes(init)
        + (match r.measureCodeObserved case Some(c) => if c != "" then [c] else [] case None => [])
  }

  /** The distinct observed codes in ascending order. */
  function CodeList(rows: seq<ContractRecord>): seq<string> {
    SortStrings(Dedup(ObservedCodes(rows)))
  }

  /**
   * The code list holds every non-empty observed code exactly once, in
   * strictly ascending order; when no code contains '|', splitting the
   * joined text recovers it.
   */
  lemma CodeListSpec(rows: seq<ContractRecord>)
    ensures forall c :: c in CodeList(rows) <==> c != "" && exists i :: 0 <= i < |rows| && rows[i].measureCodeObserved == Some(c)
    ensures forall i, j :: 0 <= i < j < |CodeList(rows)| ==> StrLt(CodeList(rows)[i], CodeList(rows)[j])
    ensures CodeList(rows) != [] && (forall c :: c in CodeList(rows) ==> '|' !in c)
        ==> Split(Join(CodeList(rows), "|"), '|') == CodeList(rows)
  {
    var d := Dedup(ObservedCodes(rows));
    var l := CodeList(rows);
    assert multiset(l) == multiset(d);
    forall c
      ensures c in l <==> c in ObservedCodes(rows)
    {
      assert c in l <==> c in multiset(l);
      assert c in d <==> c in multiset(d);
    }
    SortKeepsNoDuplicates(d);
    StrictlyIncreasing(l);
    if l != [] && forall c :: c in l ==> '|' !in c {
      SplitJoin(l, '|');
    }
  }

  /** One parent aggregate row from a non-empty group (app.js lines 86-102). */
  function SummarizeMeasureGroup(rows: seq<ContractRecord>): ParentAggregate
    requires rows != []
  {
    var first := rows[0];
    ParentAggregate(
      first.ratingYear,
      ParentName(first.parentOrganization),
      first.measureName,
      first.measureKey,
      Join(CodeList(rows), "|"),
      WeightedMean(MeasureObservations(rows, RawMeasureData)),
      WeightedMean(MeasureObservations(rows, MeasureStars)),
      WeightedMean(MeasureObservations(rows, StarWeight)),
      WeightedMean(MeasureObservations(rows, CalculatedRawStarsScore)),
      SumEnrollment(MapSeq(rows, (r: ContractRecord) => r.enrollmentLives)),
      |Dedup(MapSeq(rows, (r: ContractRecord) => r.contractId))|)
  }

  /** One parent year-total row from a non-empty group (app.js lines 114-123). */
  function SummarizeTotalGroup(rows: seq<ContractYearTotal>): ParentYearTotal
    requires rows != []
  {
    var first := rows[0];
    ParentYearTotal(
      first.ratingYear,
      ParentName(first.parentOrganization),
      WeightedMean(TotalObservations(rows)),
      SumEnrollment(MapSeq(rows, (r: ContractYearTotal) => r.enrollmentLives)),
      |Dedup(MapSeq(rows, (r: ContractYearTotal) => r.contractId))|)
  }

  /** `aggs` is the per-(year, measure, parent) rollup of `records`, in key order of first appearance. */
  ghost predicate ParentAggregatesOf(records: seq<ContractRecord>, aggs: seq<ParentAggregate>) {
    var keys := Dedup(MapSeq(records, AggKeyOf));
    && |aggs| == |keys|
    && forall i :: 0 <= i < |aggs| ==>
         WithKey(records, AggKeyOf, keys[i]) != []
         && aggs[i] == SummarizeMeasureGroup(WithKey(records, AggKeyOf, keys[i]))
  }

  /** `totals` is the per-(year, parent) rollup of `rows`, in key order of first appearance. */
  ghost predicate ParentYearTotalsOf(rows: seq<ContractYearTotal>, totals: seq<ParentYearTotal>) {
    var keys := Dedup(MapSeq(rows, TotalKeyOf));
    && |totals| == |keys|
    && forall i :: 0 <= i < |totals| ==>
         WithKey(rows, TotalKeyOf, keys[i]) != []
         && totals[i] == SummarizeTotalGroup(WithKey(rows, TotalKeyOf, keys[i]))
  }

  /** The four weighted means and the counts of one per-measure group. */
  method SummarizeMeasure(rows: seq<ContractRecord>) returns (a: ParentAggregate)
    requires rows != []
    ensures a == SummarizeMeasureGroup(rows)
  {
    var first := rows[0];
    var rawMeasureData := WeightedAvg(MeasureObservations(rows, RawMeasureData));
    var measureStars := WeightedAvg(MeasureObservations(rows, MeasureStars));
    var starWeight := WeightedAvg(MeasureObservations(rows, StarWeight));
    var calculated := WeightedAvg(MeasureObservations(rows, CalculatedRawStarsScore));
    a := ParentAggregate(
      first.ratingYear,
      ParentName(first.parentOrganization),
      first.measureName,
      first.measureKey,
      Join(CodeList(rows), "|"),
      rawMeasureData, measureStars, starWeight, calculated,
      SumEnrollment(MapSeq(rows, (r: ContractRecord) => r.enrollmentLives)),
      |Dedup(MapSeq(rows, (r: ContractRecord) => r.contractId))|);
  }

  /** The weighted total score and the counts of one (year, parent) group. */
  method SummarizeTotal(rows: seq<ContractYearTotal>) returns (t: ParentYearTotal)
    requires rows != []
    ensures t == SummarizeTotalGroup(rows)
  {
    var first := rows[0];
    var total := WeightedAvg(TotalObservations(rows));
    t := ParentYearTotal(
      first.ratingYear,
      ParentName(first.parentOrganization),
      total,
      SumEnrollment(MapSeq(rows, (r: ContractYearTotal) => r.enrollmentLives)),
      |Dedup(MapSeq(rows, (r: ContractYearTotal) => r.contractId))|);
  }

  /** `out` holds, in key order, `f` of the groups of the first `|out|` keys. */
  ghost predicate SummarizedUpTo<T(!new), K, A>(xs: seq<T>, key: T -> K, keys: seq<K>, f: seq<T> --> A, out: seq<A>) {
    && |out| <= |keys|
    && forall j :: 0 <= j < |out| ==>
         WithKey(xs, key, keys[j]) != [] && f.requires(WithKey(xs, key, keys[j]))
         && out[j] == f(WithKey(xs, key, keys[j]))
  }

  lemma SummarizedStep<T(!new), K, A>(xs: seq<T>, key: T -> K, keys: seq<K>, f: seq<T> --> A, out: seq<A>, g: seq<T>, a: A)
    requires SummarizedUpTo(xs, key, keys, f, out) && |out| < |keys|
    requires g == WithKey(xs, key, keys[|out|]) && g != [] && f.requires(g) && a == f(g)
    ensures SummarizedUpTo(xs, key, keys, f, out + [a])
  {
    var out' := out + [a];
    forall j | 0 <= j < |out'|
      ensures WithKey(xs, key, keys[j]) != [] && f.requires(WithKey(xs, key, keys[j]))
      ensures out'[j] == f(WithKey(xs, key, keys[j]))
    {
      if j < |out| {
        assert out'[j] == out[j];
      }
    }
  }

  /** The first grouping loop and the summary loop over its groups. */
  method BuildParentAggregates(records: seq<ContractRecord>) returns (aggs: seq<ParentAggregate>)
    ensures ParentAggregatesOf(records, aggs)
  {
    var keys, groups := GroupBy(records, AggKeyOf);
    aggs := [];
    for i := 0 to |keys|
      invariant |aggs| == i && SummarizedUpTo(records, AggKeyOf, keys, SummarizeMeasureGroup, aggs)
    {
      assert keys[i] in keys;
      var g := groups[keys[i]];
      assert g == WithKey(records, AggKeyOf, keys[i]) && g != [];
      var a := SummarizeMeasure(g);
      SummarizedStep(records, AggKeyOf, keys, SummarizeMeasureGroup, aggs, g, a);
      aggs := aggs + [a];
    }
  }

  /** The second grouping loop and the summary loop over its groups. */
  method BuildParentYearTotals(rows: seq<ContractYearTotal>) returns (totals: seq<ParentYearTotal>)
    ensures ParentYearTotalsOf(rows, totals)
  {
    var keys, groups := GroupBy(rows, TotalKeyOf);
    totals := [];
    for i := 0 to |keys|
      invariant |totals| == i && SummarizedUpTo(rows, TotalKeyOf, keys, SummarizeTotalGroup, totals)
    {
      assert keys[i] in keys;
      var g := groups[keys[i]];
      assert g == WithKey(rows, TotalKeyOf, keys[i]) && g != [];
      var t := SummarizeTotal(g);
      SummarizedStep(rows, TotalKeyOf, keys, SummarizeTotalGroup, totals, g, t);
      totals := totals + [t];
    }
  }

  /**
   * `buildNormalizedData`: normalises both contract-level tables, derives
   * the two parent tables from them and passes the market tables through.
   */
  method BuildNormalizedData(raw: RawData) returns (d: Dataset)
    ensures d.contractRecords == MapSeq(raw.contractRecords, NormalizeContractRecord)
    ensures d.contractYearTotals == MapSeq(raw.contractYearTotals, NormalizeContractYearTotal)
    ensures ParentAggregatesOf(d.contractRecords, d.parentAggregates)
    ensures ParentYearTotalsOf(d.contractYearTotals, d.parentYearTotals)
    ensures d.allMaAggregates == raw.allMaAggregates && d.allMaYearTotals == raw.allMaYearTotals
  {
    var records := MapSeq(raw.contractRecords, NormalizeContractRecord);
    var totals := MapSeq(raw.contractYearTotals, NormalizeContractYearTotal);
    var aggs := BuildParentAggregates(records);
    var yearTotals := BuildParentYearTotals(totals);
    d := Dataset(records, totals, aggs, yearTotals, raw.allMaAggregates, raw.allMaYearTotals);
  }

  /**
   * Each derived row is keyed by its group's (year, measure, parent): the
   * rows of a group all share it, so the rollup has one row per distinct
   * key and the rows' keys are pairwise different.
   */
  lemma ParentAggregateKeys(records: seq<ContractRecord>, aggs: seq<ParentAggregate>)
    requires ParentAggregatesOf(records, aggs)
    ensures forall i :: 0 <= i < |aggs| ==>
      AggKey(aggs[i].ratingYear, aggs[i].measureKey, aggs[i].parentOrganization) == Dedup(MapSeq(records, AggKeyOf))[i]
    ensures forall i, j :: 0 <= i < j < |aggs| ==>
      AggKey(aggs[i].ratingYear, aggs[i].measureKey, aggs[i].parentOrganization)
      != AggKey(aggs[j].ratingYear, aggs[j].measureKey, aggs[j].parentOrganization)
  {
    var keys := Dedup(MapSeq(records, AggKeyOf));
    forall i | 0 <= i < |aggs|
      ensures AggKey(aggs[i].ratingYear, aggs[i].measureKey, aggs[i].parentOrganization) == keys[i]
    {
      var g := WithKey(records, AggKeyOf, keys[i]);
      WithKeyMembers(records, AggKeyOf, keys[i]);
      assert g[0] in g;
    }
  }

  /** The same for the (year, parent) totals. */
  lemma ParentYearTotalKeys(rows: seq<ContractYearTotal>, totals: seq<ParentYearTotal>)
    requires ParentYearTotalsOf(rows, totals)
    ensures forall i :: 0 <= i < |totals| ==>
      TotalKey(totals[i].ratingYear, totals[i].parentOrganization) == Dedup(MapSeq(rows, TotalKeyOf))[i]
  {
    var keys := Dedup(MapSeq(rows, TotalKeyOf));
    forall i | 0 <= i < |totals|
      ensures TotalKey(totals[i].ratingYear, totals[i].parentOrganization) == keys[i]
    {
      var g := WithKey(rows, TotalKeyOf, keys[i]);
      WithKeyMembers(rows, TotalKeyOf, keys[i]);
      assert g[0] in g;
    }
  }

  /** Grouping after normalisation puts an aliased parent's rows under the canonical name. */
  lemma NormalizedGroupKey(r: ContractRecord)
    ensures AggKeyOf(NormalizeContractRecord(r)).parentOrganization == NormalizeParentOrganization(r.parentOrganization)
    ensures r.parentOrganization == Some(AetnaAlias) ==> AggKeyOf(NormalizeContractRecord(r)).parentOrganization == CvsParent
  {
  }

  // ---------------------------------------------------------------------
  // The text grouping key as written
  // ---------------------------------------------------------------------

  /** The grouping key as app.js line 79 builds it: the three parts joined by '|'. */
  function AggKeyText(k: AggKey): (t: string)
    ensures |t| == |IntText(k.ratingYear)| + |k.measureKey| + |k.parentOrganization| + 2
  {
    IntText(k.ratingYear) + "|" + k.measureKey + "|" + k.parentOrganization
  }

  /**
   * Two different (year, measure, parent) triples can share one text key,
   * which would merge their groups into one aggregate row.
   */
  lemma AggKeyTextCollides()
    ensures AggKey(2019, "a|b", "c") != AggKey(2019, "a", "b|c")
    ensures AggKeyText(AggKey(2019, "a|b", "c")) == AggKeyText(AggKey(2019, "a", "b|c"))
  {
    var y := IntText(2019);
    assert y + "|" + "a|b" + "|" + "c" == y + "|" + "a" + "|" + "b|c";
  }
}
