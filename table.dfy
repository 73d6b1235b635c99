/**
 * The data table under the chart: one row per numeric point of every
 * visible series, ordered by year, then scope title, then entity.
 */
module Table {
  import opened Wrappers
  import opened Seqs
  import opened Strings
  import opened Fields
  import opened Selections
  import opened Series

  /** A table cell that holds either a number or the empty string. */
  datatype Cell = NumberCell(n: real) | EmptyCell

  /** One table row, with the columns of the table and of the export. */
  datatype TableRow = TableRow(
    year: int,
    scope: string,
    entity: string,
    metric: string,
    value: real,
    membersOrLives: Cell,
    contracts: Cell,
    codes: string)

  /** JavaScript truthiness of an optional number: present and not zero. */
  predicate Truthy(o: Option<real>) {
    o.Some? && o.value != 0.0
  }

  /** `members_included || enrollment_lives || ''`. */
  function MembersOrLives(p: SeriesPoint): (c: Cell)
    ensures Truthy(p.membersIncluded) ==> c == NumberCell(p.membersIncluded.value)
    ensures !Truthy(p.membersIncluded) && Truthy(p.enrollmentLives) ==> c == NumberCell(p.enrollmentLives.value)
    ensures c == EmptyCell <==> !Truthy(p.membersIncluded) && !Truthy(p.enrollmentLives)
  {
    if Truthy(p.membersIncluded) then NumberCell(p.membersIncluded.value)
    else if Truthy(p.enrollmentLives) then NumberCell(p.enrollmentLives.value)
    else EmptyCell
  }

  /** `contracts_included || ''`. */
  function ContractsCell(p: SeriesPoint): (c: Cell)
    ensures c == EmptyCell <==> !Truthy(p.contractsIncluded)
    ensures c.NumberCell? ==> Some(c.n) == p.contractsIncluded && c.n != 0.0
  {
    if Truthy(p.contractsIncluded) then NumberCell(p.contractsIncluded.value) else EmptyCell
  }

  /** The row shown for a numeric point of a series. */
  function RowOf(s: SeriesData, p: SeriesPoint, metric: Metric): TableRow
    requires p.value.Some?
  {
    TableRow(p.year, s.selection.scope.Title(), s.selection.caption, metric.Label(),
             p.value.value, MembersOrLives(p), ContractsCell(p), p.code)
  }

  /** The rows of one series: its numeric points, in order. */
  function PointRows(s: SeriesData, points: seq<SeriesPoint>, metric: Metric): seq<TableRow> {
    if points == [] then []
    else
      var n := |points| - 1;
      PointRows(s, points[..n], metric) + (if points[n].value.Some? then [RowOf(s, points[n], metric)] else [])
  }

  /** The rows of every series not hidden, series by series, before sorting. */
  function Projection(seriesList: seq<SeriesData>, hidden: set<SeriesId>, metric: Metric): seq<TableRow> {
    if seriesList == [] then []
    else
      var n := |seriesList| - 1;
      var s := seriesList[n];
      Projection(seriesList[..n], hidden, metric)
        + (if s.selection.Id() in hidden then [] else PointRows(s, s.rows, metric))
  }

  lemma {:induction false} PointRowsMembers(s: SeriesData, points: seq<SeriesPoint>, metric: Metric, row: TableRow)
    ensures row in PointRows(s, points, metric) <==>
      exists j :: 0 <= j < |points| && points[j].value.Some? && row == RowOf(s, points[j], metric)
  {
    if points != [] {
      var n := |points| - 1;
      PointRowsMembers(s, points[..n], metric, row);
      if exists j :: 0 <= j < n && points[..n][j].value.Some? && row == RowOf(s, points[..n][j], metric) {
        var j :| 0 <= j < n && points[..n][j].value.Some? && row == RowOf(s, points[..n][j], metric);
        assert points[j] == points[..n][j];
      }
      if exists j :: 0 <= j < |points| && points[j].value.Some? && row == RowOf(s, points[j], metric) {
        var j :| 0 <= j < |points| && points[j].value.Some? && row == RowOf(s, points[j], metric);
        if j < n {
          assert points[..n][j] == points[j];
        }
      }
    }
  }

  /** The series is not hidden and `row` is one of its rows. */
  predicate ShownIn(s: SeriesData, hidden: set<SeriesId>, metric: Metric, row: TableRow) {
    s.selection.Id() !in hidden && row in PointRows(s, s.rows, metric)
  }

  /** Every projected row is a row of some series that is not hidden. */
  lemma {:induction false} ProjectionSound(seriesList: seq<SeriesData>, hidden: set<SeriesId>, metric: Metric, row: TableRow)
    requires row in Projection(seriesList, hidden, metric)
    ensures exists i :: 0 <= i < |seriesList| && ShownIn(seriesList[i], hidden, metric, row)
  {
    var n := |seriesList| - 1;
    var init := seriesList[..n];
    var s := seriesList[n];
    if row in Projection(init, hidden, metric) {
      ProjectionSound(init, hidden, metric, row);
      var i :| 0 <= i < n && ShownIn(init[i], hidden, metric, row);
      assert seriesList[i] == init[i];
    } else {
      assert ShownIn(seriesList[n], hidden, metric, row);
    }
  }

  /** Every row of a series that is not hidden is projected. */
  lemma {:induction false} ProjectionComplete(seriesList: seq<SeriesData>, hidden: set<SeriesId>, metric: Metric, row: TableRow, i: nat)
    requires i < |seriesList| && ShownIn(seriesList[i], hidden, metric, row)
    ensures row in Projection(seriesList, hidden, metric)
  {
    var n := |seriesList| - 1;
    var init := seriesList[..n];
    var s := seriesList[n];
    var last := if s.selection.Id() in hidden then [] else PointRows(s, s.rows, metric);
    assert Projection(seriesList, hidden, metric) == Projection(init, hidden, metric) + last;
    if i < n {
      assert init[i] == seriesList[i];
      ProjectionComplete(init, hidden, metric, row, i);
    } else {
      assert row in last;
    }
  }

  /**
   * A row is projected exactly when it comes from a numeric point of a
   * series that is not hidden.
   */
  lemma ProjectionMembers(seriesList: seq<SeriesData>, hidden: set<SeriesId>, metric: Metric, row: TableRow)
    ensures row in Projection(seriesList, hidden, metric) <==>
      exists i, j :: 0 <= i < |seriesList| && seriesList[i].selection.Id() !in hidden
        && 0 <= j < |seriesList[i].rows| && seriesList[i].rows[j].value.Some?
        && row == RowOf(seriesList[i], seriesList[i].rows[j], metric)
  {
    if row in Projection(seriesList, hidden, metric) {
      ProjectionSound(seriesList, hidden, metric, row);
    }
    forall i | 0 <= i < |seriesList| && ShownIn(seriesList[i], hidden, metric, row) {
      ProjectionComplete(seriesList, hidden, metric, row, i);
    }
    forall i | 0 <= i < |seriesList|
      ensures ShownIn(seriesList[i], hidden, metric, row) <==> (seriesList[i].selection.Id() !in hidden
        && exists j :: 0 <= j < |seriesList[i].rows| && seriesList[i].rows[j].value.Some?
              && row == RowOf(seriesList[i], seriesList[i].rows[j], metric))
    {
      PointRowsMembers(seriesList[i], seriesList[i].rows, metric, row);
    }
  }

  /**
   * The comparator `(a.year - b.year) || a.scope.localeCompare(b.scope) ||
   * a.entity.localeCompare(b.entity)` as "a comes no later than b".
   */
  predicate RowLe(a: TableRow, b: TableRow) {
    || a.year < b.year
    || (a.year == b.year && StrLt(a.scope, b.scope))
    || (a.year == b.year && a.scope == b.scope && StrLe(a.entity, b.entity))
  }

  /** The comparator orders every pair of rows consistently. */
  lemma RowLeTotalPreorder()
    ensures TotalPreorder(RowLe)
  {
    forall a, b
      ensures RowLe(a, b) || RowLe(b, a)
    {
      StrLtTrichotomy(a.scope, b.scope);
      StrLtTrichotomy(a.entity, b.entity);
    }
    forall a, b, c | RowLe(a, b) && RowLe(b, c)
      ensures RowLe(a, c)
    {
      if a.year == b.year == c.year {
        if StrLt(a.scope, b.scope) && StrLt(b.scope, c.scope) {
          StrLtTransitive(a.scope, b.scope, c.scope);
        } else if a.scope == b.scope == c.scope && a.entity != b.entity && b.entity != c.entity {
          StrLtTransitive(a.entity, b.entity, c.entity);
        }
      }
    }
  }

  /** `buildTableRows`: the projected rows, sorted with the comparator. */
  function TableRows(seriesList: seq<SeriesData>, hidden: set<SeriesId>, metric: Metric): seq<TableRow> {
    InsertionSort(Projection(seriesList, hidden, metric), RowLe)
  }

  /**
   * The table holds exactly the projected rows, each as often as it is
   * projected, ordered by year, then scope title, then entity.
   */
  lemma TableRowsOrdered(seriesList: seq<SeriesData>, hidden: set<SeriesId>, metric: Metric)
    ensures var t := TableRows(seriesList, hidden, metric);
      && multiset(t) == multiset(Projection(seriesList, hidden, metric))
      && (forall i, j :: 0 <= i < j < |t| ==>
            t[i].year <= t[j].year
            && (t[i].year == t[j].year ==> StrLe(t[i].scope, t[j].scope))
            && (t[i].year == t[j].year && t[i].scope == t[j].scope ==> StrLe(t[i].entity, t[j].entity)))
  {
    var t := TableRows(seriesList, hidden, metric);
    RowLeTotalPreorder();
    SortIsSorted(Projection(seriesList, hidden, metric), RowLe);
    forall i, j | 0 <= i < j < |t|
      ensures t[i].year <= t[j].year
      ensures t[i].year == t[j].year ==> StrLe(t[i].scope, t[j].scope)
      ensures t[i].year == t[j].year && t[i].scope == t[j].scope ==> StrLe(t[i].entity, t[j].entity)
    {
      assert RowLe(t[i], t[j]);
      StrLtIrreflexive(t[i].scope);
    }
  }

  /**
   * A row is in the table exactly when it comes from a numeric point of a
   * series that is not hidden.
   */
  lemma TableRowsMembers(seriesList: seq<SeriesData>, hidden: set<SeriesId>, metric: Metric, row: TableRow)
    ensures row in TableRows(seriesList, hidden, metric) <==>
      exists i, j :: 0 <= i < |seriesList| && seriesList[i].selection.Id() !in hidden
        && 0 <= j < |seriesList[i].rows| && seriesList[i].rows[j].value.Some?
        && row == RowOf(seriesList[i], seriesList[i].rows[j], metric)
  {
    var p := Projection(seriesList, hidden, metric);
    var t := TableRows(seriesList, hidden, metric);
    assert row in t <==> row in multiset(t);
    assert row in p <==> row in multiset(p);
    ProjectionMembers(seriesList, hidden, metric, row);
  }

  /**
   * `buildTableRows`: walks the series, skips the hidden ones and the
   * points without a number, pushes a row per remaining point and sorts.
   */
  method BuildTableRows(seriesList: seq<SeriesData>, hidden: set<SeriesId>, metric: Metric)
    returns (rows: seq<TableRow>)
    ensures rows == TableRows(seriesList, hidden, metric)
  {
    rows := [];
    for i := 0 to |seriesList|
      invariant rows == Projection(seriesList[..i], hidden, metric)
    {
      var s := seriesList[i];
      assert seriesList[..i + 1][..i] == seriesList[..i];
      if s.selection.Id() in hidden {
        continue;
      }
      for j := 0 to |s.rows|
        invariant rows == Projection(seriesList[..i], hidden, metric) + PointRows(s, s.rows[..j], metric)
      {
        assert s.rows[..j + 1][..j] == s.rows[..j];
        var r := s.rows[j];
        if r.value.None? {
          continue;
        }
        rows := rows + [RowOf(s, r, metric)];
      }
      assert s.rows[..|s.rows|] == s.rows;
    }
    assert seriesList[..|seriesList|] == seriesList;
    rows := InsertionSort(rows, RowLe);
  }
}
