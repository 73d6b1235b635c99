/**
 * The series extractor: for one selected series, the rows of the matching
 * source table, overlaid onto a dense map of the ten rating years.
 */
module Series {
  import opened Wrappers
  import opened Seqs
  import opened Fields
  import opened Selections

  /**
   * One point of a series. Contract rows carry the contract's enrollment
   * and parent; parent and market rows carry the member and contract counts;
   * a placeholder carries none of them.
   */
  datatype SeriesPoint = SeriesPoint(
    year: int,
    value: Option<real>,
    entity: string,
    scope: Scope,
    enrollmentLives: Option<real>,
    parentOrganization: Option<string>,
    membersIncluded: Option<real>,
    contractsIncluded: Option<real>,
    code: string)

  /** A selection together with its ten points. */
  datatype SeriesData = SeriesData(selection: SeriesSelection, rows: seq<SeriesPoint>)

  /** `r.measure_code_observed || ''`. */
  function CodeText(c: Option<string>): string {
    c.GetOr("")
  }

  function ContractTotalPoint(r: ContractYearTotal): SeriesPoint {
    SeriesPoint(r.ratingYear, ParseNum(r.totalRawStarsScore), r.contractId, Contract,
      ParseNum(r.enrollmentLives), r.parentOrganization, None, None, "")
  }

  function ContractRecordPoint(r: ContractRecord, metric: Metric): SeriesPoint {
    SeriesPoint(r.ratingYear, ParseNum(RecordField(r, metric)), r.contractId, Contract,
      ParseNum(r.enrollmentLives), r.parentOrganization, None, None, CodeText(r.measureCodeObserved))
  }

  function ParentTotalPoint(r: ParentYearTotal): SeriesPoint {
    SeriesPoint(r.ratingYear, r.weightedTotalRawStarsScore, r.parentOrganization, Parent,
      None, None, Some(r.membersIncluded), Some(r.contractsIncluded as real), "")
  }

  function ParentAggregatePoint(r: ParentAggregate, metric: Metric): SeriesPoint {
    SeriesPoint(r.ratingYear, AggregateField(r, metric), r.parentOrganization, Parent,
      None, None, Some(r.membersIncluded), Some(r.contractsIncluded as real), r.measureCodeObserved)
  }

  function MarketTotalPoint(r: MarketYearTotal): SeriesPoint {
    SeriesPoint(r.ratingYear, ParseNum(r.weightedTotalRawStarsScore), "All MA", AllMa,
      None, None, ParseNum(r.membersIncluded), ParseNum(r.contractsIncluded), "")
  }

  function MarketAggregatePoint(r: MarketAggregate, metric: Metric): SeriesPoint {
    SeriesPoint(r.ratingYear, ParseNum(MarketField(r, metric)), "All MA", AllMa,
      None, None, ParseNum(r.membersIncluded), ParseNum(r.contractsIncluded), CodeText(r.measureCodeObserved))
  }

  /**
   * The source rows of a selection: one of six tables, picked by scope and
   * by whether the metric is a total, filtered to the entity and, for a
   * per-measure metric, to the chosen measure.
   */
  function SourceRows(d: Dataset, scope: Scope, entityKey: string, metric: Metric, measureKey: string): seq<SeriesPoint> {
    match scope
    case Contract =>
      if metric.IsTotal() then
        MapSeq(Filter(d.contractYearTotals, (r: ContractYearTotal) => r.contractId == entityKey),
               ContractTotalPoint)
      else
        MapSeq(Filter(d.contractRecords,
                      (r: ContractRecord) => r.contractId == entityKey && r.measureKey == measureKey),
               (r: ContractRecord) => ContractRecordPoint(r, metric))
    case Parent =>
      if metric.IsTotal() then
        MapSeq(Filter(d.parentYearTotals, (r: ParentYearTotal) => r.parentOrganization == entityKey),
               ParentTotalPoint)
      else
        MapSeq(Filter(d.parentAggregates,
                      (r: ParentAggregate) => r.parentOrganization == entityKey && r.measureKey == measureKey),
               (r: ParentAggregate) => ParentAggregatePoint(r, metric))
    case AllMa =>
      if metric.IsTotal() then
        MapSeq(d.allMaYearTotals, MarketTotalPoint)
      else
        MapSeq(Filter(d.allMaAggregates, (r: MarketAggregate) => r.measureKey == measureKey),
               (r: MarketAggregate) => MarketAggregatePoint(r, metric))
  }

  /**
   * Every source row belongs to the selection: it has the selection's
   * scope, and for a contract or parent its entity is the selected key.
   */
  lemma SourceRowsBelong(d: Dataset, scope: Scope, entityKey: string, metric: Metric, measureKey: string)
    ensures forall p :: p in SourceRows(d, scope, entityKey, metric, measureKey) ==>
      p.scope == scope && p.entity == (if scope == AllMa then "All MA" else entityKey)
  {
    var rows := SourceRows(d, scope, entityKey, metric, measureKey);
    forall p | p in rows
      ensures p.scope == scope && p.entity == (if scope == AllMa then "All MA" else entityKey)
    {
      var i :| 0 <= i < |rows| && rows[i] == p;
      match scope
      case Contract =>
        if metric.IsTotal() {
          var ys := Filter(d.contractYearTotals, (r: ContractYearTotal) => r.contractId == entityKey);
          assert ys[i] in ys;
        } else {
          var ys := Filter(d.contractRecords,
                           (r: ContractRecord) => r.contractId == entityKey && r.measureKey == measureKey);
          assert ys[i] in ys;
        }
      case Parent =>
        if metric.IsTotal() {
          var ys := Filter(d.parentYearTotals, (r: ParentYearTotal) => r.parentOrganization == entityKey);
          assert ys[i] in ys;
        } else {
          var ys := Filter(d.parentAggregates,
                           (r: ParentAggregate) => r.parentOrganization == entityKey && r.measureKey == measureKey);
          assert ys[i] in ys;
        }
      case AllMa =>
    }
  }

  /** The null point a year without data shows, labelled with the selection. */
  function Placeholder(year: int, caption: string, scope: Scope): SeriesPoint {
    SeriesPoint(year, None, caption, scope, None, None, None, None, "")
  }

  /** The last row of the year, if any: later `set`s on one key overwrite earlier ones. */
  function LastForYear(rows: seq<SeriesPoint>, year: int): (r: Option<SeriesPoint>)
    ensures r.Some? ==> r.value.year == year
  {
    if rows == [] then None
    else
      var n := |rows| - 1;
      if rows[n].year == year then Some(rows[n]) else LastForYear(rows[..n], year)
  }

  /**
   * There is no row of the year exactly when no row has that year, and the
   * row found is the last one with that year.
   */
  lemma {:induction false} LastForYearSpec(rows: seq<SeriesPoint>, year: int)
    ensures LastForYear(rows, year).None? <==> forall i :: 0 <= i < |rows| ==> rows[i].year != year
    ensures LastForYear(rows, year).Some? ==> exists i ::
      && 0 <= i < |rows| && rows[i] == LastForYear(rows, year).value
      && forall k :: i < k < |rows| ==> rows[k].year != year
  {
    if rows != [] {
      var n := |rows| - 1;
      var init := rows[..n];
      if rows[n].year != year {
        LastForYearSpec(init, year);
        assert forall i :: 0 <= i < n ==> init[i] == rows[i];
        if LastForYear(init, year).Some? {
          var i :| 0 <= i < n && init[i] == LastForYear(init, year).value
            && forall k :: i < k < n ==> init[k].year != year;
          assert rows[i] == LastForYear(rows, year).value;
        }
      }
    }
  }

  /** The point shown for one year of the window. */
  function PointFor(rows: seq<SeriesPoint>, year: int, caption: string, scope: Scope): (p: SeriesPoint)
    ensures p.year == year
    ensures p in rows || p == Placeholder(year, caption, scope)
  {
    LastForYearSpec(rows, year);
    match LastForYear(rows, year)
    case Some(p) => p
    case None => Placeholder(year, caption, scope)
  }

  /** The ten points, one per rating year in ascending order. */
  function DenseRows(rows: seq<SeriesPoint>, caption: string, scope: Scope): (dense: seq<SeriesPoint>)
    ensures |dense| == YearMax - YearMin + 1
    ensures forall i :: 0 <= i < |dense| ==> dense[i] == PointFor(rows, YearMin + i, caption, scope)
  {
    seq(YearMax - YearMin + 1, i requires 0 <= i <= YearMax - YearMin => PointFor(rows, YearMin + i, caption, scope))
  }

  /**
   * The dense series has exactly one point per year 2017..2026, ascending;
   * a year no source row has is a null placeholder; every point is either a
   * placeholder or an in-range source row.
   */
  lemma DenseRowsSpec(rows: seq<SeriesPoint>, caption: string, scope: Scope)
    ensures |DenseRows(rows, caption, scope)| == YearMax - YearMin + 1 == 10
    ensures forall i :: 0 <= i < 10 ==> DenseRows(rows, caption, scope)[i].year == YearMin + i
    ensures forall i :: 0 <= i < 10 && (forall k :: 0 <= k < |rows| ==> rows[k].year != YearMin + i) ==>
      DenseRows(rows, caption, scope)[i] == Placeholder(YearMin + i, caption, scope)
      && DenseRows(rows, caption, scope)[i].value.None?
    ensures forall p :: p in DenseRows(rows, caption, scope) ==>
      (p in rows && YearMin <= p.year <= YearMax) || p == Placeholder(p.year, caption, scope)
  {
    var dense := DenseRows(rows, caption, scope);
    forall y | YearMin <= y <= YearMax {
      LastForYearSpec(rows, y);
    }
    forall p | p in dense
      ensures (p in rows && YearMin <= p.year <= YearMax) || p == Placeholder(p.year, caption, scope)
    {
      var i :| 0 <= i < |dense| && dense[i] == p;
      assert p.year == YearMin + i;
    }
  }

  /** Among the rows of one in-range year, the last one in source order is the one shown. */
  lemma LastRowWins(rows: seq<SeriesPoint>, j: nat, caption: string, scope: Scope)
    requires j < |rows| && YearMin <= rows[j].year <= YearMax
    requires forall k :: j < k < |rows| ==> rows[k].year != rows[j].year
    ensures DenseRows(rows, caption, scope)[rows[j].year - YearMin] == rows[j]
  {
    var y := rows[j].year;
    var r := LastForYear(rows, y);
    LastForYearSpec(rows, y);
    var i :| 0 <= i < |rows| && rows[i] == r.value && r.value.year == y
      && forall k :: i < k < |rows| ==> rows[k].year != y;
    assert i == j;
    assert DenseRows(rows, caption, scope)[y - YearMin] == PointFor(rows, y, caption, scope);
  }

  /** Overlaying one more row changes only the point of its own year. */
  lemma PointForStep(rows: seq<SeriesPoint>, i: nat, year: int, caption: string, scope: Scope)
    requires i < |rows|
    ensures PointFor(rows[..i + 1], year, caption, scope)
         == if rows[i].year == year then rows[i] else PointFor(rows[..i], year, caption, scope)
  {
    assert rows[..i + 1][..i] == rows[..i];
  }

  /** The first loop of `getSeriesForSelection`: a placeholder for every year of the window. */
  method PlaceholderYears(caption: string, scope: Scope) returns (byYear: map<int, SeriesPoint>)
    ensures forall x :: x in byYear <==> YearMin <= x <= YearMax
    ensures forall x :: YearMin <= x <= YearMax ==> byYear[x] == Placeholder(x, caption, scope)
  {
    byYear := map[];
    for y := YearMin to YearMax + 1
      invariant forall x :: x in byYear <==> YearMin <= x < y
      invariant forall x :: YearMin <= x < y ==> byYear[x] == Placeholder(x, caption, scope)
    {
      byYear := byYear[y := Placeholder(y, caption, scope)];
    }
  }

  /** The second loop: each in-range row, in order, overwrites the point of its year. */
  method OverlayRows(rows: seq<SeriesPoint>, byYear0: map<int, SeriesPoint>, caption: string, scope: Scope)
    returns (byYear: map<int, SeriesPoint>)
    requires forall x :: x in byYear0 <==> YearMin <= x <= YearMax
    requires forall x :: YearMin <= x <= YearMax ==> byYear0[x] == Placeholder(x, caption, scope)
    ensures forall x :: x in byYear <==> YearMin <= x <= YearMax
    ensures forall x :: YearMin <= x <= YearMax ==> byYear[x] == PointFor(rows, x, caption, scope)
  {
    byYear := byYear0;
    for i := 0 to |rows|
      invariant forall x :: x in byYear <==> YearMin <= x <= YearMax
      invariant forall x :: YearMin <= x <= YearMax ==> byYear[x] == PointFor(rows[..i], x, caption, scope)
    {
      var r := rows[i];
      forall x | YearMin <= x <= YearMax {
        PointForStep(rows, i, x, caption, scope);
      }
      if YearMin <= r.year <= YearMax {
        byYear := byYear[r.year := r];
      }
    }
    assert rows[..|rows|] == rows;
  }

  /**
   * `getSeriesForSelection`: fills a year map with placeholders, overlays the
   * in-range source rows in order, and reads the ten years back in order.
   */
  method GetSeriesForSelection(d: Dataset, sel: SeriesSelection, metric: Metric, measureKey: string)
    returns (s: SeriesData)
    ensures s.selection == sel
    ensures s.rows == DenseRows(SourceRows(d, sel.scope, sel.entityKey, metric, measureKey), sel.caption, sel.scope)
  {
    var rows := SourceRows(d, sel.scope, sel.entityKey, metric, measureKey);
    var placeholders := PlaceholderYears(sel.caption, sel.scope);
    var byYear := OverlayRows(rows, placeholders, sel.caption, sel.scope);
    var out: seq<SeriesPoint> := [];
    for y := YearMin to YearMax + 1
      invariant |out| == y - YearMin
      invariant forall k :: 0 <= k < |out| ==> out[k] == PointFor(rows, YearMin + k, sel.caption, sel.scope)
    {
      out := out + [byYear[y]];
    }
    s := SeriesData(sel, out);
  }
}
