/**
 * The record schema of the rating data set, the closed metric and scope
 * enumerations, and the two leaf normalisations applied to raw fields:
 * parent-organisation aliasing and numeric coercion.
 */
module Fields {
  import opened Wrappers

  /** The fixed, inclusive ten-year window of rating years. */
  const YearMin: int := 2017
  const YearMax: int := 2026

  /**
   * A raw numeric field as it arrives in a record, already classified:
   * absent (`null`/`undefined`), a blank string, text or a number that is
   * not a finite number, or a finite number.
   */
  datatype RawField = Missing | Blank | NotFinite | Finite(x: real)

  /** `parseNum`: only a finite number survives; everything else becomes null. */
  function ParseNum(v: RawField): (r: Option<real>)
    ensures r.Some? <==> v.Finite?
    ensures v.Finite? ==> r.value == v.x
  {
    match v
    case Finite(x) => Some(x)
    case _ => None
  }

  const AetnaAlias: string := "Aetna Inc."
  const CvsParent: string := "CVS Health Corporation"

  /**
   * `normalizeParentOrganization`: the one known legacy alias is merged into
   * its acquiring parent, a missing or empty name becomes the empty string,
   * and every other name is kept.
   */
  function NormalizeParentOrganization(name: Option<string>): (r: string)
    ensures name == Some(AetnaAlias) ==> r == CvsParent
    ensures name == None || name == Some("") ==> r == ""
    ensures name.Some? && name.value != AetnaAlias ==> r == name.value
  {
    match name
    case Some(n) => if n == AetnaAlias then CvsParent else n
    case None => ""
  }

  /** Normalising an already normalised name changes nothing. */
  lemma NormalizeIdempotent(name: Option<string>)
    ensures NormalizeParentOrganization(Some(NormalizeParentOrganization(name)))
         == NormalizeParentOrganization(name)
  {
  }

  /** The aggregation level of a series. The market scope is `all_ma`. */
  datatype Scope = Contract | Parent | AllMa {

    /** The scope's identifier, as used in series ids. */
    function Name(): string {
      match this
      case Contract => "contract"
      case Parent => "parent"
      case AllMa => "all_ma"
    }

    /** `scopeTitle`: the scope's display title. */
    function Title(): string {
      match this
      case Parent => "Parent"
      case Contract => "Contract"
      case AllMa => "All MA"
    }
  }

  /** The closed set of metrics; only the total raw score is a total metric. */
  datatype Metric =
    | RawMeasureData
    | MeasureStars
    | StarWeight
    | CalculatedRawStarsScore
    | TotalRawStarsScore
  {
    predicate IsTotal() {
      this == TotalRawStarsScore
    }

    function Label(): string {
      match this
      case RawMeasureData => "Raw Measure Data"
      case MeasureStars => "Measure Stars"
      case StarWeight => "Star Weight"
      case CalculatedRawStarsScore => "Calculated Raw Stars Score"
      case TotalRawStarsScore => "Total Raw Stars Score"
    }
  }

  /** One (contract, rating year, measure) observation. */
  datatype ContractRecord = ContractRecord(
    contractId: string,
    ratingYear: int,
    measureKey: string,
    measureName: string,
    rawMeasureData: RawField,
    measureStars: RawField,
    starWeight: RawField,
    calculatedRawStarsScore: RawField,
    enrollmentLives: RawField,
    parentOrganization: Option<string>,
    measureCodeObserved: Option<string>)

  /** One (contract, rating year) total. */
  datatype ContractYearTotal = ContractYearTotal(
    contractId: string,
    ratingYear: int,
    totalRawStarsScore: RawField,
    enrollmentLives: RawField,
    parentOrganization: Option<string>)

  /** A derived (rating year, measure, parent) row of enrollment-weighted means. */
  datatype ParentAggregate = ParentAggregate(
    ratingYear: int,
    parentOrganization: string,
    measureName: string,
    measureKey: string,
    measureCodeObserved: string,
    weightedRawMeasureData: Option<real>,
    weightedMeasureStars: Option<real>,
    weightedStarWeight: Option<real>,
    weightedCalculatedRawStarsScore: Option<real>,
    membersIncluded: real,
    contractsIncluded: nat)

  /** A derived (rating year, parent) row of the weighted total score. */
  datatype ParentYearTotal = ParentYearTotal(
    ratingYear: int,
    parentOrganization: string,
    weightedTotalRawStarsScore: Option<real>,
    membersIncluded: real,
    contractsIncluded: nat)

  /** A supplied market-wide per-measure row, consumed as it is. */
  datatype MarketAggregate = MarketAggregate(
    ratingYear: int,
    measureKey: string,
    measureCodeObserved: Option<string>,
    weightedRawMeasureData: RawField,
    weightedMeasureStars: RawField,
    weightedStarWeight: RawField,
    weightedCalculatedRawStarsScore: RawField,
    membersIncluded: RawField,
    contractsIncluded: RawField)

  /** A supplied market-wide per-year total, consumed as it is. */
  datatype MarketYearTotal = MarketYearTotal(
    ratingYear: int,
    weightedTotalRawStarsScore: RawField,
    membersIncluded: RawField,
    contractsIncluded: RawField)

  /** The loaded collections the engine consumes. */
  datatype RawData = RawData(
    contractRecords: seq<ContractRecord>,
    contractYearTotals: seq<ContractYearTotal>,
    allMaAggregates: seq<MarketAggregate>,
    allMaYearTotals: seq<MarketYearTotal>)

  /** The six tables the series extractor reads. */
  datatype Dataset = Dataset(
    contractRecords: seq<ContractRecord>,
    contractYearTotals: seq<ContractYearTotal>,
    parentAggregates: seq<ParentAggregate>,
    parentYearTotals: seq<ParentYearTotal>,
    allMaAggregates: seq<MarketAggregate>,
    allMaYearTotals: seq<MarketYearTotal>)

  /** The per-contract field a metric reads; a record has no total field. */
  function RecordField(r: ContractRecord, m: Metric): RawField {
    match m
    case RawMeasureData => r.rawMeasureData
    case MeasureStars => r.measureStars
    case StarWeight => r.starWeight
    case CalculatedRawStarsScore => r.calculatedRawStarsScore
    case TotalRawStarsScore => Missing
  }

  /** The aggregate field a metric reads; an aggregate has no total field. */
  function AggregateField(r: ParentAggregate, m: Metric): Option<real> {
    match m
    case RawMeasureData => r.weightedRawMeasureData
    case MeasureStars => r.weightedMeasureStars
    case StarWeight => r.weightedStarWeight
    case CalculatedRawStarsScore => r.weightedCalculatedRawStarsScore
    case TotalRawStarsScore => None
  }

  function MarketField(r: MarketAggregate, m: Metric): RawField {
    match m
    case RawMeasureData => r.weightedRawMeasureData
    case MeasureStars => r.weightedMeasureStars
    case StarWeight => r.weightedStarWeight
    case CalculatedRawStarsScore => r.weightedCalculatedRawStarsScore
    case TotalRawStarsScore => Missing
  }

  /** The parent name a normalised record carries. */
  function ParentName(p: Option<string>): string {
    p.GetOr("")
  }

  /** A contract record with its parent organisation normalised; nothing else changes. */
  function NormalizeContractRecord(r: ContractRecord): (n: ContractRecord)
    ensures n.parentOrganization == Some(NormalizeParentOrganization(r.parentOrganization))
    ensures n.(parentOrganization := r.parentOrganization) == r
  {
    r.(parentOrganization := Some(NormalizeParentOrganization(r.parentOrganization)))
  }

  /** A contract-year total with its parent organisation normalised; nothing else changes. */
  function NormalizeContractYearTotal(r: ContractYearTotal): (n: ContractYearTotal)
    ensures n.parentOrganization == Some(NormalizeParentOrganization(r.parentOrganization))
    ensures n.(parentOrganization := r.parentOrganization) == r
  {
    r.(parentOrganization := Some(NormalizeParentOrganization(r.parentOrganization)))
  }
}
