/**
 * The y-axis scale. With no numeric value, and for `measure_stars` and
 * `calculated_raw_stars_score`, the scale is fixed; for `star_weight` it runs
 * from 0 to max(1, ceil(max)); otherwise it is a "nice" scale whose tick step
 * is 1, 2 or 5 times a power of ten.
 */
module Scale {
  import opened Wrappers
  import opened Fields
  import opened Series

  /** Ten to an integer power. */
  function Pow10(e: int): (r: real)
    ensures r > 0.0
    decreases if e < 0 then -e else e
  {
    if e == 0 then 1.0
    else if e > 0 then 10.0 * Pow10(e - 1)
    else Pow10(e + 1) / 10.0
  }

  lemma Pow10Succ(e: int)
    ensures Pow10(e + 1) == 10.0 * Pow10(e)
  {
    if e < -1 {
      assert Pow10(e + 1) == Pow10(e + 2) / 10.0;
    }
  }

  lemma {:induction false} Pow10Monotone(d: int, e: int)
    requires d <= e
    ensures Pow10(d) <= Pow10(e)
    decreases e - d
  {
    if d < e {
      Pow10Monotone(d, e - 1);
      Pow10Succ(e - 1);
    }
  }

  /**
   * `Math.floor(Math.log10(x))`, computed exactly: the integer `e` with
   * `10^e <= x < 10^(e+1)`.
   */
  function Decade(x: real): (e: int)
    requires x > 0.0
    ensures Pow10(e) <= x < 10.0 * Pow10(e)
    decreases if x >= 10.0 then x.Floor else if x < 1.0 then (1.0 / x).Floor else 0
  {
    if x >= 10.0 then
      var e := Decade(x / 10.0) + 1;
      Pow10Succ(e - 1);
      e
    else if x < 1.0 then
      DecadeShrinks(x);
      var e := Decade(x * 10.0) - 1;
      Pow10Succ(e);
      e
    else 0
  }

  lemma DecadeShrinks(x: real)
    requires 0.0 < x < 1.0
    ensures x * 10.0 < 1.0 ==> (1.0 / (x * 10.0)).Floor < (1.0 / x).Floor
    ensures (1.0 / x).Floor >= 1
  {
    var y := 1.0 / x;
    assert y * x == 1.0;
    assert y > 1.0;
    if x * 10.0 < 1.0 {
      assert y > 10.0;
      assert 1.0 / (x * 10.0) == y / 10.0;
    }
  }

  /** `r` is 1, 2 or 5 times a power of ten. */
  ghost predicate Nice(r: real) {
    exists e: int :: r == Pow10(e) || r == 2.0 * Pow10(e) || r == 5.0 * Pow10(e)
  }

  /**
   * `niceStep`: 1 for a non-positive input; otherwise the first of 1, 2, 5
   * and 10 times the input's decade `p` that reaches the input. The source
   * compares the mantissa `raw / p` with 1, 2 and 5; since `p > 0` that is
   * comparing `raw` with `p`, `2p` and `5p`.
   */
  function NiceStep(raw: real): (r: real)
    ensures raw <= 0.0 ==> r == 1.0
    ensures r > 0.0
  {
    if raw <= 0.0 then 1.0
    else
      var p := Pow10(Decade(raw));
      if raw <= p then p
      else if raw <= 2.0 * p then 2.0 * p
      else if raw <= 5.0 * p then 5.0 * p
      else 10.0 * p
  }

  /** A power of ten below the input's decade stays below a fifth of it. */
  lemma {:induction false} LowerDecade(e: int, d: int)
    ensures e < d ==> 10.0 * Pow10(e) <= Pow10(d)
  {
    if e < d {
      Pow10Succ(e);
      Pow10Monotone(e + 1, d);
    }
  }

  /** A power of ten above the input's decade is at least ten times it. */
  lemma HigherDecade(d: int, e: int)
    ensures d < e ==> Pow10(e) >= 10.0 * Pow10(d)
  {
    if d < e {
      Pow10Succ(d);
      Pow10Monotone(d + 1, e);
    }
  }

  /**
   * The step reaches the input by less than a factor 2.5, it is itself
   * nice, and no nice number reaches the input while staying below it.
   */
  lemma NiceStepIsLeastNice(raw: real)
    requires raw > 0.0
    ensures raw <= NiceStep(raw) < 2.5 * raw
    ensures Nice(NiceStep(raw))
    ensures forall e: int :: Pow10(e) >= raw ==> Pow10(e) >= NiceStep(raw)
    ensures forall e: int :: 2.0 * Pow10(e) >= raw ==> 2.0 * Pow10(e) >= NiceStep(raw)
    ensures forall e: int :: 5.0 * Pow10(e) >= raw ==> 5.0 * Pow10(e) >= NiceStep(raw)
  {
    var d := Decade(raw);
    Pow10Succ(d);
    forall e: int
      ensures Pow10(e) >= raw ==> Pow10(e) >= NiceStep(raw)
      ensures 2.0 * Pow10(e) >= raw ==> 2.0 * Pow10(e) >= NiceStep(raw)
      ensures 5.0 * Pow10(e) >= raw ==> 5.0 * Pow10(e) >= NiceStep(raw)
    {
      LowerDecade(e, d);
      HigherDecade(d, e);
    }
  }

  /** `Math.ceil`. */
  function Ceil(x: real): (c: int)
    ensures x <= c as real < x + 1.0
  {
    -((-x).Floor)
  }

  /** `Math.min(...xs)` of a non-empty list. */
  function SeqMin(xs: seq<real>): (m: real)
    requires xs != []
    ensures m in xs && forall x :: x in xs ==> m <= x
  {
    if |xs| == 1 then xs[0]
    else
      var rest := SeqMin(xs[1..]);
      assert forall x :: x in xs ==> x == xs[0] || x in xs[1..];
      if xs[0] <= rest then xs[0] else rest
  }

  /** `Math.max(...xs)` of a non-empty list. */
  function SeqMax(xs: seq<real>): (m: real)
    requires xs != []
    ensures m in xs && forall x :: x in xs ==> x <= m
  {
    if |xs| == 1 then xs[0]
    else
      var rest := SeqMax(xs[1..]);
      assert forall x :: x in xs ==> x == xs[0] || x in xs[1..];
      if xs[0] >= rest then xs[0] else rest
  }

  function Abs(x: real): real {
    if x < 0.0 then -x else x
  }

  function MaxReal(a: real, b: real): real {
    if a >= b then a else b
  }

  /** The axis bounds and its ticks. */
  datatype YScale = YScale(min: real, max: real, ticks: seq<real>)

  const QuarterTicks: seq<real> := [0.0, 0.25, 0.5, 0.75, 1.0]
  const StarTicks: seq<real> := [1.0, 2.0, 3.0, 4.0, 5.0]

  /** The integers 0..top as ticks. */
  function IntegerTicks(top: nat): (t: seq<real>)
    ensures |t| == top + 1 && forall i :: 0 <= i <= top ==> t[i] == i as real
  {
    seq(top + 1, i requires 0 <= i <= top => i as real)
  }

  /** `count` ticks from `start`, `step` apart. */
  function StepTicks(start: real, step: real, count: nat): (t: seq<real>)
    ensures |t| == count && forall i :: 0 <= i < count ==> t[i] == start + i as real * step
  {
    seq(count, i requires 0 <= i < count => start + i as real * step)
  }

  /** The span the general scale divides into about five steps; never zero. */
  function Span(lo: real, hi: real): (s: real)
    ensures s >= hi - lo && s >= 0.0001
  {
    MaxReal(MaxReal(hi - lo, Abs(hi) * 0.05), 0.0001)
  }

  /** The step of the general scale. */
  function GeneralStep(lo: real, hi: real): (step: real)
    ensures step > 0.0
  {
    NiceStep(Span(lo, hi) / 5.0)
  }

  /** Bounds snapped outwards to multiples of the step, ticks every step between them. */
  function SnapScale(lo: real, hi: real, step: real): YScale
    requires lo <= hi && step > 0.0
  {
    var a := (lo / step).Floor;
    var b := Ceil(hi / step);
    QuotientOrder(lo, hi, step);
    YScale(a as real * step, b as real * step, StepTicks(a as real * step, step, b - a + 1))
  }

  /** The general scale: snapped to the nice step of a fifth of the span. */
  function GeneralScale(lo: real, hi: real): YScale
    requires lo <= hi
  {
    SnapScale(lo, hi, GeneralStep(lo, hi))
  }

  lemma QuotientOrder(lo: real, hi: real, step: real)
    requires lo <= hi && step > 0.0
    ensures (lo / step).Floor <= Ceil(hi / step)
  {
    assert lo / step <= hi / step by {
      assert hi / step - lo / step == (hi - lo) / step;
    }
  }

  /** The scale for the collected numeric values, as `getYScale` chooses it. */
  function ScaleFor(values: seq<real>, metric: Metric): YScale {
    if values == [] then YScale(0.0, 1.0, QuarterTicks)
    else if metric == MeasureStars then YScale(1.0, 5.0, StarTicks)
    else if metric == CalculatedRawStarsScore then YScale(0.0, 1.0, QuarterTicks)
    else
      var lo, hi := SeqMin(values), SeqMax(values);
      if metric == StarWeight then
        var top := if Ceil(hi) > 1 then Ceil(hi) else 1;
        YScale(0.0, top as real, IntegerTicks(top))
      else GeneralScale(lo, hi)
  }

  lemma FloorBelow(x: real, step: real)
    requires step > 0.0
    ensures (x / step).Floor as real * step <= x
  {
    var q := x / step;
    assert q * step == x;
    assert q.Floor as real <= q;
  }

  lemma CeilAbove(x: real, step: real)
    requires step > 0.0
    ensures Ceil(x / step) as real * step >= x
  {
    var q := x / step;
    assert q * step == x;
    assert Ceil(q) as real >= q;
  }

  lemma Distrib(x: real, y: real, s: real)
    ensures x * s + y * s == (x + y) * s
  {
  }

  /** Stepped ticks start at `start`, end `count - 1` steps later and are one step apart. */
  lemma StepTicksShape(start: real, step: real, count: nat)
    requires count >= 1
    ensures StepTicks(start, step, count)[0] == start
    ensures StepTicks(start, step, count)[count - 1] == start + (count - 1) as real * step
    ensures forall i :: 0 < i < count ==>
      StepTicks(start, step, count)[i] - StepTicks(start, step, count)[i - 1] == step
  {
    var t := StepTicks(start, step, count);
    forall i | 0 < i < count
      ensures t[i] - t[i - 1] == step
    {
      Distrib((i - 1) as real, 1.0, step);
    }
  }

  /** A snapped scale encloses the range and its ticks run between its bounds one step apart. */
  lemma SnapScaleSpec(lo: real, hi: real, step: real)
    requires lo <= hi && step > 0.0
    ensures var s := SnapScale(lo, hi, step);
      && s.min <= lo && hi <= s.max
      && s.ticks != [] && s.ticks[0] == s.min && s.ticks[|s.ticks| - 1] == s.max
      && (forall i :: 0 < i < |s.ticks| ==> s.ticks[i] - s.ticks[i - 1] == step)
  {
    var a := (lo / step).Floor;
    var b := Ceil(hi / step);
    QuotientOrder(lo, hi, step);
    FloorBelow(lo, step);
    CeilAbove(hi, step);
    StepTicksShape(a as real * step, step, b - a + 1);
    Distrib(a as real, (b - a) as real, step);
  }

  /**
   * The general scale of a range: its bounds enclose the range, it has a
   * nice step, and its ticks run from the lower bound to the upper bound one
   * step apart.
   */
  lemma GeneralScaleSpec(lo: real, hi: real)
    requires lo <= hi
    ensures var s := GeneralScale(lo, hi);
      && s.min <= lo && hi <= s.max
      && s.ticks != [] && s.ticks[0] == s.min && s.ticks[|s.ticks| - 1] == s.max
      && (forall i :: 0 < i < |s.ticks| ==> s.ticks[i] - s.ticks[i - 1] == GeneralStep(lo, hi))
      && Nice(GeneralStep(lo, hi))
  {
    SnapScaleSpec(lo, hi, GeneralStep(lo, hi));
    NiceStepIsLeastNice(Span(lo, hi) / 5.0);
  }

  /** The general scale of the collected values covers every one of them. */
  lemma GeneralScaleCovers(values: seq<real>)
    requires values != []
    ensures var s := GeneralScale(SeqMin(values), SeqMax(values));
      && (forall v :: v in values ==> s.min <= v <= s.max)
      && s.ticks != [] && s.ticks[0] == s.min && s.ticks[|s.ticks| - 1] == s.max
  {
    GeneralScaleSpec(SeqMin(values), SeqMax(values));
  }

  /**
   * `getYScale`'s cases: the default scale without data, the fixed star and
   * score scales, integer ticks from 0 to `max(1, ceil(max))` for the star
   * weight, and the covering general scale otherwise.
   */
  lemma ScaleForSpec(values: seq<real>, metric: Metric)
    ensures values == [] ==> ScaleFor(values, metric) == YScale(0.0, 1.0, QuarterTicks)
    ensures values != [] && metric == MeasureStars ==> ScaleFor(values, metric) == YScale(1.0, 5.0, StarTicks)
    ensures values != [] && metric == CalculatedRawStarsScore ==> ScaleFor(values, metric) == YScale(0.0, 1.0, QuarterTicks)
    ensures values != [] && metric == StarWeight ==>
      var s := ScaleFor(values, metric);
      && s.min == 0.0 && s.max >= 1.0 && s.max < MaxReal(SeqMax(values), 1.0) + 1.0
      && (forall v :: v in values ==> v <= s.max)
      && |s.ticks| as real == s.max + 1.0
      && (forall i :: 0 <= i < |s.ticks| ==> s.ticks[i] == i as real)
    ensures values != [] && metric in {RawMeasureData, TotalRawStarsScore} ==>
      var s := ScaleFor(values, metric);
      && (forall v :: v in values ==> s.min <= v <= s.max)
      && s.ticks != [] && s.ticks[0] == s.min && s.ticks[|s.ticks| - 1] == s.max
  {
    if values != [] && metric in {RawMeasureData, TotalRawStarsScore} {
      GeneralScaleCovers(values);
    }
  }

  /** The numeric values of a list of points, in order. */
  function PointValues(rows: seq<SeriesPoint>): (vs: seq<real>)
    ensures forall v :: v in vs <==> exists i :: 0 <= i < |rows| && rows[i].value == Some(v)
  {
    if rows == [] then []
    else
      var n := |rows| - 1;
      assert forall i :: 0 <= i < n ==> rows[..n][i] == rows[i];
      PointValues(rows[..n]) + (match rows[n].value case Some(v) => [v] case None => [])
  }

  /** The numeric values of every point of every series, in order. */
  function AllValues(seriesList: seq<SeriesData>): seq<real> {
    if seriesList == [] then []
    else AllValues(seriesList[..|seriesList| - 1]) + PointValues(seriesList[|seriesList| - 1].rows)
  }

  /** The integer ticks loop of the star-weight scale. */
  method PushIntegerTicks(top: nat) returns (ticks: seq<real>)
    ensures ticks == IntegerTicks(top)
  {
    ticks := [];
    for i := 0 to top + 1
      invariant ticks == IntegerTicks(top)[..i]
    {
      ticks := ticks + [i as real];
    }
  }

  /** A tick is pushed exactly while it stays within half a step above the top. */
  lemma TickGuard(start: real, step: real, k: int, count: int)
    requires step > 0.0
    ensures start + k as real * step <= start + count as real * step + step / 2.0 <==> k <= count
  {
    var diff := (k - count) as real;
    assert start + k as real * step - (start + count as real * step) == diff * step;
    if k <= count {
      assert diff <= 0.0;
      assert diff * step <= 0.0;
    } else {
      assert diff >= 1.0;
      assert diff * step >= step;
    }
  }

  /** The stepping ticks loop of the general scale. */
  method PushStepTicks(yMin: real, yMax: real, step: real, ghost count: nat) returns (ticks: seq<real>)
    requires step > 0.0 && count >= 1 && yMax == yMin + (count - 1) as real * step
    ensures ticks == StepTicks(yMin, step, count)
  {
    ghost var all := StepTicks(yMin, step, count);
    ticks := [];
    var v := yMin;
    ghost var k := 0;
    TickGuard(yMin, step, 0, count - 1);
    while v <= yMax + step / 2.0
      invariant 0 <= k <= count
      invariant v == yMin + k as real * step
      invariant ticks == all[..k]
      invariant k == count ==> !(v <= yMax + step / 2.0)
      decreases count - k
    {
      TickGuard(yMin, step, k, count - 1);
      assert k < count;
      assert all[k] == v;
      assert all[..k + 1] == all[..k] + [v];
      ticks := ticks + [v];
      Distrib(k as real, 1.0, step);
      v := v + step;
      k := k + 1;
      TickGuard(yMin, step, k, count - 1);
    }
    TickGuard(yMin, step, k, count - 1);
    assert all[..count] == all;
  }

  /** The value collection loops of `getYScale`. */
  method CollectValues(seriesList: seq<SeriesData>) returns (valid: seq<real>)
    ensures valid == AllValues(seriesList)
  {
    valid := [];
    for i := 0 to |seriesList|
      invariant valid == AllValues(seriesList[..i])
    {
      var rows := seriesList[i].rows;
      for j := 0 to |rows|
        invariant valid == AllValues(seriesList[..i]) + PointValues(rows[..j])
      {
        assert rows[..j + 1][..j] == rows[..j];
        if rows[j].value.Some? {
          valid := valid + [rows[j].value.value];
        }
      }
      assert rows[..|rows|] == rows;
      assert seriesList[..i + 1][..i] == seriesList[..i];
    }
    assert seriesList[..|seriesList|] == seriesList;
  }

  /** `getYScale`: collects the numeric values, then picks the scale for the metric. */
  method GetYScale(seriesList: seq<SeriesData>, metric: Metric) returns (scale: YScale)
    ensures scale == ScaleFor(AllValues(seriesList), metric)
  {
    var valid := CollectValues(seriesList);
    if valid == [] {
      return YScale(0.0, 1.0, QuarterTicks);
    }
    if metric == MeasureStars {
      return YScale(1.0, 5.0, StarTicks);
    }
    if metric == CalculatedRawStarsScore {
      return YScale(0.0, 1.0, QuarterTicks);
    }
    var lo := SeqMin(valid);
    var hi := SeqMax(valid);
    if metric == StarWeight {
      var top := if Ceil(hi) > 1 then Ceil(hi) else 1;
      var ticks := PushIntegerTicks(top);
      return YScale(0.0, top as real, ticks);
    }
    assert lo <= hi by { assert lo in valid; }
    scale := GeneralScaleOf(lo, hi);
  }

  /** The general branch of `getYScale`, from the bounds of the values. */
  method GeneralScaleOf(lo: real, hi: real) returns (scale: YScale)
    requires lo <= hi
    ensures scale == GeneralScale(lo, hi)
  {
    var step := NiceStep(Span(lo, hi) / 5.0);
    assert step == GeneralStep(lo, hi);
    var a := (lo / step).Floor;
    var b := Ceil(hi / step);
    QuotientOrder(lo, hi, step);
    var yMin := a as real * step;
    var yMax := b as real * step;
    Distrib(a as real, (b - a) as real, step);
    var ticks := PushStepTicks(yMin, yMax, step, b - a + 1);
    scale := YScale(yMin, yMax, ticks);
    assert scale == SnapScale(lo, hi, step);
  }
}
