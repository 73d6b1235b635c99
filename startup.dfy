/**
 * The start-up selection: the market series first, then the default
 * contract when there is one.
 */
module Startup {
  import opened Fields
  import opened Entities
  import opened Selections

  /** The two `addSelection` calls made once the data has loaded. */
  method InitialSelections(d: Dataset, metric: Metric, measureKey: string) returns (store: SelectionStore)
    ensures store.Valid()
    ensures store.hiddenSeries == {} && store.message == ""
    ensures var first := DefaultEntity(d, Contract, metric, measureKey);
      && (first == "" ==> store.selections == [SeriesSelection(AllMa, "all_ma", "All MA", Palette[0])])
      && (first != "" ==>
            store.selections == [SeriesSelection(AllMa, "all_ma", "All MA", Palette[0]),
                                 SeriesSelection(Contract, first, first, Palette[1])])
  {
    store := new SelectionStore();
    var _ := store.AddSelection(AllMa, "all_ma");
    var first := DefaultEntity(d, Contract, metric, measureKey);
    if first != "" {
      var _ := store.AddSelection(Contract, first);
    }
  }
}
