/**
 * The entity picker: which contracts or parents can be chosen for the
 * current scope, metric and measure, and which one is chosen by default.
 */
module Entities {
  import opened Seqs
  import opened Strings
  import opened Fields

  /** One entry of the picker list. */
  datatype EntityOption = EntityOption(value: string, caption: string)

  /**
   * The names the option loop adds to its set, in the order it visits the
   * rows: contract ids of the totals or of the chosen measure's records;
   * non-empty parent names of the parent totals or of the chosen measure's
   * aggregates. The market scope has no candidates.
   */
  function Candidates(d: Dataset, scope: Scope, metric: Metric, measureKey: string): seq<string> {
    match scope
    case Contract =>
      if metric.IsTotal() then
        MapSeq(d.contractYearTotals, (r: ContractYearTotal) => r.contractId)
      else
        MapSeq(Filter(d.contractRecords, (r: ContractRecord) => r.measureKey == measureKey),
               (r: ContractRecord) => r.contractId)
    case Parent =>
      if metric.IsTotal() then
        Filter(MapSeq(d.parentYearTotals, (r: ParentYearTotal) => r.parentOrganization),
               (p: string) => p != "")
      else
        Filter(MapSeq(Filter(d.parentAggregates, (r: ParentAggregate) => r.measureKey == measureKey),
                      (r: ParentAggregate) => r.parentOrganization),
               (p: string) => p != "")
    case AllMa => []
  }

  /** Which names can appear, stated against the data set's rows. */
  lemma CandidatesSpec(d: Dataset, scope: Scope, metric: Metric, measureKey: string, x: string)
    ensures scope == Contract && metric.IsTotal() ==>
      (x in Candidates(d, scope, metric, measureKey) <==> exists r :: r in d.contractYearTotals && r.contractId == x)
    ensures scope == Contract && !metric.IsTotal() ==>
      (x in Candidates(d, scope, metric, measureKey) <==>
       exists r :: r in d.contractRecords && r.measureKey == measureKey && r.contractId == x)
    ensures scope == Parent && metric.IsTotal() ==>
      (x in Candidates(d, scope, metric, measureKey) <==>
       x != "" && exists r :: r in d.parentYearTotals && r.parentOrganization == x)
    ensures scope == Parent && !metric.IsTotal() ==>
      (x in Candidates(d, scope, metric, measureKey) <==>
       x != "" && exists r :: r in d.parentAggregates && r.measureKey == measureKey && r.parentOrganization == x)
    ensures scope == AllMa ==> x !in Candidates(d, scope, metric, measureKey)
  {
    match scope
    case Contract =>
      if metric.IsTotal() {
        var ys := d.contractYearTotals;
        if x in Candidates(d, scope, metric, measureKey) {
          var i :| 0 <= i < |ys| && ys[i].contractId == x;
          assert ys[i] in ys;
        }
        if exists r :: r in ys && r.contractId == x {
          var r :| r in ys && r.contractId == x;
          var i :| 0 <= i < |ys| && ys[i] == r;
          assert MapSeq(ys, (r: ContractYearTotal) => r.contractId)[i] == x;
        }
      } else {
        var ys := Filter(d.contractRecords, (r: ContractRecord) => r.measureKey == measureKey);
        if x in Candidates(d, scope, metric, measureKey) {
          var i :| 0 <= i < |ys| && ys[i].contractId == x;
          assert ys[i] in ys;
        }
        if exists r :: r in d.contractRecords && r.measureKey == measureKey && r.contractId == x {
          var r :| r in d.contractRecords && r.measureKey == measureKey && r.contractId == x;
          assert r in ys;
          var i :| 0 <= i < |ys| && ys[i] == r;
          assert MapSeq(ys, (r: ContractRecord) => r.contractId)[i] == x;
        }
      }
    case Parent =>
      if metric.IsTotal() {
        var ys := d.parentYearTotals;
        var names := MapSeq(ys, (r: ParentYearTotal) => r.parentOrganization);
        if x in names {
          var i :| 0 <= i < |ys| && names[i] == x;
          assert ys[i] in ys;
        }
        if exists r :: r in ys && r.parentOrganization == x {
          var r :| r in ys && r.parentOrganization == x;
          var i :| 0 <= i < |ys| && ys[i] == r;
          assert names[i] == x;
        }
      } else {
        var ys := Filter(d.parentAggregates, (r: ParentAggregate) => r.measureKey == measureKey);
        var names := MapSeq(ys, (r: ParentAggregate) => r.parentOrganization);
        if x in names {
          var i :| 0 <= i < |ys| && names[i] == x;
          assert ys[i] in ys;
        }
        if exists r :: r in d.parentAggregates && r.measureKey == measureKey && r.parentOrganization == x {
          var r :| r in d.parentAggregates && r.measureKey == measureKey && r.parentOrganization == x;
          assert r in ys;
          var i :| 0 <= i < |ys| && ys[i] == r;
          assert names[i] == x;
        }
      }
    case AllMa =>
  }

  /** Each name becomes an option whose value and label are both the name. */
  function OptionsOf(names: seq<string>): (opts: seq<EntityOption>)
    ensures |opts| == |names|
    ensures forall i :: 0 <= i < |names| ==> opts[i] == EntityOption(names[i], names[i])
  {
    seq(|names|, i requires 0 <= i < |names| => EntityOption(names[i], names[i]))
  }

  /** The option list `getEntityOptions` returns. */
  function EntityOptions(d: Dataset, scope: Scope, metric: Metric, measureKey: string): seq<EntityOption> {
    if scope == AllMa then [EntityOption("all_ma", "All MA")]
    else OptionsOf(SortStrings(Dedup(Candidates(d, scope, metric, measureKey))))
  }

  /**
   * For a contract or parent scope, the options are exactly the candidate
   * names, each once, in strictly ascending order, captioned by themselves;
   * the market scope has the one fixed option.
   */
  lemma EntityOptionsSpec(d: Dataset, scope: Scope, metric: Metric, measureKey: string)
    ensures scope == AllMa ==> EntityOptions(d, scope, metric, measureKey) == [EntityOption("all_ma", "All MA")]
    ensures scope != AllMa ==>
      var opts := EntityOptions(d, scope, metric, measureKey);
      && (forall i :: 0 <= i < |opts| ==> opts[i].caption == opts[i].value)
      && (forall x :: (exists i :: 0 <= i < |opts| && opts[i].value == x) <==> x in Candidates(d, scope, metric, measureKey))
      && (forall i, j :: 0 <= i < j < |opts| ==> StrLt(opts[i].value, opts[j].value))
  {
    if scope != AllMa {
      var c := Candidates(d, scope, metric, measureKey);
      var dd := Dedup(c);
      var s := SortStrings(dd);
      var opts := EntityOptions(d, scope, metric, measureKey);
      assert opts == OptionsOf(s);
      SortKeepsNoDuplicates(dd);
      StrictlyIncreasing(s);
      forall x
        ensures (exists i :: 0 <= i < |opts| && opts[i].value == x) <==> x in c
      {
        assert x in s <==> x in multiset(s);
        assert x in dd <==> x in multiset(dd);
        if x in s {
          var i :| 0 <= i < |s| && s[i] == x;
          assert opts[i].value == x;
        }
      }
    }
  }

  /**
   * `getEntityOptions`: collects the candidate names into an insertion-ordered
   * set, sorts them, and turns each into an option.
   */
  method GetEntityOptions(d: Dataset, scope: Scope, metric: Metric, measureKey: string)
    returns (opts: seq<EntityOption>)
    ensures opts == EntityOptions(d, scope, metric, measureKey)
  {
    if scope == AllMa {
      return [EntityOption("all_ma", "All MA")];
    }
    var names := Candidates(d, scope, metric, measureKey);
    var ids: seq<string> := [];
    for i := 0 to |names|
      invariant ids == Dedup(names[..i])
    {
      assert names[..i + 1][..i] == names[..i];
      if names[i] !in ids {
        ids := ids + [names[i]];
      }
    }
    assert names[..|names|] == names;
    opts := OptionsOf(SortStrings(ids));
  }

  /** `getDefaultEntityForScope`: the first option's value, or the empty string when there is none. */
  function DefaultEntity(d: Dataset, scope: Scope, metric: Metric, measureKey: string): string {
    var opts := EntityOptions(d, scope, metric, measureKey);
    if |opts| > 0 then opts[0].value else ""
  }

  /**
   * The default for a contract or parent scope is the least candidate name,
   * and the empty string only when there is no candidate or the empty
   * contract id is itself the least; the market scope defaults to `all_ma`.
   */
  lemma DefaultEntityIsLeast(d: Dataset, scope: Scope, metric: Metric, measureKey: string)
    ensures scope == AllMa ==> DefaultEntity(d, scope, metric, measureKey) == "all_ma"
    ensures scope != AllMa && Candidates(d, scope, metric, measureKey) == [] ==>
      DefaultEntity(d, scope, metric, measureKey) == ""
    ensures scope != AllMa && Candidates(d, scope, metric, measureKey) != [] ==>
      && DefaultEntity(d, scope, metric, measureKey) in Candidates(d, scope, metric, measureKey)
      && forall c :: c in Candidates(d, scope, metric, measureKey) ==> StrLe(DefaultEntity(d, scope, metric, measureKey), c)
  {
    var opts := EntityOptions(d, scope, metric, measureKey);
    EntityOptionsSpec(d, scope, metric, measureKey);
    if scope != AllMa {
      var cs := Candidates(d, scope, metric, measureKey);
      if cs != [] {
        assert cs[0] in cs;
        var i :| 0 <= i < |opts| && opts[i].value == cs[0];
        forall c | c in cs
          ensures StrLe(opts[0].value, c)
        {
          var j :| 0 <= j < |opts| && opts[j].value == c;
          if j > 0 {
            assert StrLt(opts[0].value, opts[j].value);
          }
        }
      }
    }
  }
}
