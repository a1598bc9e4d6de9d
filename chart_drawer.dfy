// The physics SimpleChartDrawer: a bounded list of values that keeps the most
// recent ones, an auto-scaled value range with a 10% margin, the line heights
// drawn from that range, and the statistics of the values. Colours, widths,
// the horizontal layout and the gizmo grid are rendering and are not modelled.

module ChartDrawing {
  import opened Common

  /** `Mathf.Clamp01`. */
  function Clamp01(x: real): (r: real)
    ensures 0.0 <= r <= 1.0
    ensures 0.0 <= x <= 1.0 ==> r == x
  {
    if x < 0.0 then 0.0 else if x > 1.0 then 1.0 else x
  }

  /** `Mathf.InverseLerp(a, b, v)`: where v lies between a and b, clamped to [0, 1]; 0 when a == b. */
  function InverseLerp(a: real, b: real, v: real): (r: real)
    ensures 0.0 <= r <= 1.0
    ensures a == b ==> r == 0.0
  {
    if a != b then Clamp01((v - a) / (b - a)) else 0.0
  }

  /** Dividing by a positive number keeps comparisons with 0 and with the divisor itself. */
  lemma QuotientCompare(x: real, d: real)
    requires d > 0.0
    ensures x / d > 0.0 <==> x > 0.0
    ensures x / d < 1.0 <==> x < d
  {
    var q := x / d;
    assert q * d == x;
    assert q > 0.0 ==> q * d > 0.0;
    assert q <= 0.0 ==> q * d <= 0.0;
    assert q * d - d == (q - 1.0) * d;
    assert q < 1.0 ==> (q - 1.0) * d < 0.0;
    assert q >= 1.0 ==> (q - 1.0) * d >= 0.0;
  }

  /** Strictly inside an increasing range, InverseLerp is strictly between 0 and 1; at or beyond its ends it is 0 or 1. */
  lemma InverseLerpInside(a: real, b: real, v: real)
    requires a < b
    ensures a < v < b ==> 0.0 < InverseLerp(a, b, v) < 1.0
    ensures v <= a ==> InverseLerp(a, b, v) == 0.0
    ensures v >= b ==> InverseLerp(a, b, v) == 1.0
  {
    QuotientCompare(v - a, b - a);
  }

  /** A value strictly inside a range is drawn strictly between the bottom and the top of the chart. */
  lemma InsideRangeDrawnInside(a: real, b: real, v: real, height: real)
    requires a < v < b && height > 0.0
    ensures 0.0 < InverseLerp(a, b, v) * height < height
  {
    InverseLerpInside(a, b, v);
    var t := InverseLerp(a, b, v);
    assert t * height > 0.0;
    assert height - t * height == (1.0 - t) * height;
    assert (1.0 - t) * height > 0.0;
  }

  /** The range UpdateValueRange settles on: the values' extremes widened by 10% of their spread, or of 1 when they are all equal. */
  function AutoRange(values: seq<real>): (r: (real, real))
    requires |values| > 0
    ensures r.0 < r.1
    ensures forall i :: 0 <= i < |values| ==> r.0 < values[i] < r.1
  {
    Widened(SeqMin(values), SeqMax(values))
  }

  /** [lo, hi] widened by a tenth of its width on each side, or by 0.1 when it is a single point. */
  function Widened(lo: real, hi: real): (r: (real, real))
    requires lo <= hi
    ensures r.0 < lo && hi < r.1
  {
    var range := if hi - lo == 0.0 then 1.0 else hi - lo;
    (lo - range * 0.1, hi + range * 0.1)
  }

  /** When the values differ, the margin is a tenth of their spread on each side. */
  lemma AutoRangeMargin(values: seq<real>)
    requires |values| > 0
    ensures SeqMin(values) < SeqMax(values) ==>
              AutoRange(values).1 - AutoRange(values).0 == 1.2 * (SeqMax(values) - SeqMin(values))
    ensures SeqMin(values) == SeqMax(values) ==>
              AutoRange(values) == (values[0] - 0.1, values[0] + 0.1)
  {
  }

  /** Dropping elements from the front of `all` until at most `n` remain, and no more, leaves its last `n` elements. */
  lemma TrimmedIsLastN(all: seq<real>, removed: nat, n: nat)
    requires removed <= |all|
    requires |all| - removed >= n || removed == 0
    requires |all| - removed <= n
    ensures all[removed..] == LastN(all, n)
  {
    if removed == 0 {
      assert all[removed..] == all;
    }
  }

  predicate AllFloat(values: seq<real>)
  {
    forall i :: 0 <= i < |values| ==> IsFloat(values[i])
  }

  lemma AllFloatAppend(a: seq<real>, b: seq<real>)
    requires AllFloat(a) && AllFloat(b)
    ensures AllFloat(a + b)
  {
    assert forall i :: 0 <= i < |a + b| ==> (a + b)[i] == if i < |a| then a[i] else b[i - |a|];
  }

  lemma AllFloatSuffix(a: seq<real>, k: nat)
    requires AllFloat(a) && k <= |a|
    ensures AllFloat(a[k..])
  {
    assert forall i :: 0 <= i < |a| - k ==> a[k..][i] == a[k + i];
  }

  /** The running extremes a loop holds after k values: float.MaxValue and float.MinValue before any. */
  predicate ExtremesSoFar(values: seq<real>, k: nat, lo: real, hi: real)
    requires k <= |values|
  {
    (k == 0 ==> lo == FloatMax && hi == -FloatMax)
    && (k > 0 ==> lo == SeqMin(values[..k]) && hi == SeqMax(values[..k]))
  }

  /** One step of the min/max scan over finite values keeps the running extremes. */
  lemma ExtremesStep(values: seq<real>, k: nat, lo: real, hi: real, lo': real, hi': real)
    requires k < |values| && IsFloat(values[k]) && ExtremesSoFar(values, k, lo, hi)
    requires lo' == (if values[k] < lo then values[k] else lo)
    requires hi' == (if values[k] > hi then values[k] else hi)
    ensures ExtremesSoFar(values, k + 1, lo', hi')
  {
    assert values[..k + 1][..k] == values[..k];
  }

  /** One drawn height per value, at the value's position in [lo, hi] scaled to the chart height. */
  predicate HeightsOf(values: seq<real>, heights: seq<real>, lo: real, hi: real, height: real)
  {
    |heights| == |values|
    && forall i :: 0 <= i < |values| ==> heights[i] == InverseLerp(lo, hi, values[i]) * height
  }

  /** Values strictly inside a range are all drawn strictly between the bottom and the top of the chart. */
  lemma HeightsInside(values: seq<real>, heights: seq<real>, lo: real, hi: real, height: real)
    requires HeightsOf(values, heights, lo, hi, height) && height > 0.0
    requires forall i :: 0 <= i < |values| ==> lo < values[i] < hi
    ensures forall i :: 0 <= i < |heights| ==> 0.0 < heights[i] < height
  {
    forall i | 0 <= i < |heights|
      ensures 0.0 < heights[i] < height
    {
      InsideRangeDrawnInside(lo, hi, values[i], height);
    }
  }

  /** Drawn against the automatic range, every value lies strictly inside the chart. */
  lemma AutoHeightsInside(values: seq<real>, heights: seq<real>, height: real)
    requires |values| > 0 && height > 0.0
    requires HeightsOf(values, heights, AutoRange(values).0, AutoRange(values).1, height)
    ensures forall i :: 0 <= i < |heights| ==> 0.0 < heights[i] < height
  {
    var range := AutoRange(values);
    HeightsInside(values, heights, range.0, range.1, height);
  }

  /** A `ChartStatistics`; the default object has every field 0. */
  datatype ChartStatistics = ChartStatistics(count: nat, average: real, min: real, max: real, range: real)

  /** What GetStatistics returns. */
  function StatisticsOf(values: seq<real>): (r: ChartStatistics)
    ensures |values| == 0 ==> r == ChartStatistics(0, 0.0, 0.0, 0.0, 0.0)
    ensures r.count == |values| && r.range >= 0.0 && r.range == r.max - r.min
    ensures |values| > 0 ==> r.min in values && r.max in values && r.min <= r.average <= r.max
    ensures forall i :: 0 <= i < |values| ==> r.min <= values[i] <= r.max
  {
    if |values| == 0 then ChartStatistics(0, 0.0, 0.0, 0.0, 0.0)
    else
      var lo, hi := SeqMin(values), SeqMax(values);
      MeanBounded(values, lo, hi);
      ChartStatistics(|values|, Mean(values), lo, hi, hi - lo)
  }

  class SimpleChartDrawer {
    /** `_maxPoints` and `_chartHeight`, set in the inspector. */
    const maxPoints: nat
    const chartHeight: real

    var minValue: real
    var maxValue: real
    var autoScale: bool
    var dataPoints: seq<real>
    /** The y offsets of the line renderer's positions; its position count is their number. */
    var heights: seq<real>

    ghost predicate Valid()
      reads this
    {
      |dataPoints| <= maxPoints && AllFloat(dataPoints)
    }

    /** The line shows every value at its place between minValue and maxValue. */
    ghost predicate Drawn()
      reads this
    {
      HeightsOf(dataPoints, heights, minValue, maxValue, chartHeight)
    }

    /** The component after Awake; a negative `_maxPoints` would make AddDataPoints fail and is excluded. */
    constructor (maxPoints: nat, chartHeight: real, minValue: real, maxValue: real, autoScale: bool)
      ensures Valid() && Drawn()
      ensures this.maxPoints == maxPoints && this.chartHeight == chartHeight
      ensures this.minValue == minValue && this.maxValue == maxValue && this.autoScale == autoScale
      ensures dataPoints == [] && heights == []
    {
      this.maxPoints := maxPoints;
      this.chartHeight := chartHeight;
      this.minValue := minValue;
      this.maxValue := maxValue;
      this.autoScale := autoScale;
      dataPoints := [];
      heights := [];
    }

    /** AddDataPoint: the value is appended and the oldest dropped past `_maxPoints`; then the range and the line are updated. */
    method AddDataPoint(value: real)
      requires Valid() && IsFloat(value)
      modifies this
      ensures Valid() && Drawn()
      ensures dataPoints == LastN(old(dataPoints) + [value], maxPoints)
      ensures autoScale == old(autoScale)
      ensures autoScale && |dataPoints| > 0 ==> (minValue, maxValue) == AutoRange(dataPoints)
      ensures !autoScale || |dataPoints| == 0 ==> minValue == old(minValue) && maxValue == old(maxValue)
    {
      dataPoints := dataPoints + [value];
      if |dataPoints| > maxPoints {
        dataPoints := dataPoints[1..];
      }
      if autoScale {
        UpdateValueRange();
      }
      UpdateChart();
    }

    /** AddDataPoints: every value is appended, then the oldest are dropped until at most `_maxPoints` remain. */
    method AddDataPoints(values: seq<real>)
      requires Valid() && AllFloat(values)
      modifies this
      ensures Valid() && Drawn()
      ensures dataPoints == LastN(old(dataPoints) + values, maxPoints)
      ensures autoScale == old(autoScale)
      ensures autoScale && |dataPoints| > 0 ==> (minValue, maxValue) == AutoRange(dataPoints)
      ensures !autoScale || |dataPoints| == 0 ==> minValue == old(minValue) && maxValue == old(maxValue)
    {
      AppendValues(values);
      TrimOldest();
      if autoScale {
        UpdateValueRange();
      }
      UpdateChart();
    }

    /** The `foreach` of AddDataPoints: every value appended in order. */
    method AppendValues(values: seq<real>)
      requires AllFloat(dataPoints) && AllFloat(values)
      modifies this`dataPoints
      ensures dataPoints == old(dataPoints) + values && AllFloat(dataPoints)
    {
      for k := 0 to |values|
        modifies this`dataPoints
        invariant dataPoints == old(dataPoints) + values[..k]
      {
        dataPoints := dataPoints + [values[k]];
      }
      assert values[..|values|] == values;
      AllFloatAppend(old(dataPoints), values);
    }

    /** The `while` of AddDataPoints: the oldest value is removed until at most `_maxPoints` remain. */
    method TrimOldest()
      requires AllFloat(dataPoints)
      modifies this`dataPoints
      ensures dataPoints == LastN(old(dataPoints), maxPoints) && Valid()
    {
      ghost var all := dataPoints;
      ghost var removed := 0;
      while |dataPoints| > maxPoints
        invariant removed <= |all| && dataPoints == all[removed..]
        invariant |dataPoints| >= maxPoints || removed == 0
        decreases |dataPoints|
      {
        dataPoints := dataPoints[1..];
        removed := removed + 1;
      }
      TrimmedIsLastN(all, removed, maxPoints);
      AllFloatSuffix(all, removed);
    }

    /** ClearData: no values and no line positions; the range stays. */
    method ClearData()
      modifies this
      ensures dataPoints == [] && heights == []
      ensures minValue == old(minValue) && maxValue == old(maxValue) && autoScale == old(autoScale)
      ensures Valid() && Drawn()
    {
      dataPoints := [];
      heights := [];
    }

    /** SetValueRange: the given bounds, kept as they are, and auto-scaling off. */
    method SetValueRange(minValue: real, maxValue: real)
      requires Valid()
      modifies this
      ensures Valid() && Drawn()
      ensures this.minValue == minValue && this.maxValue == maxValue && !autoScale
      ensures dataPoints == old(dataPoints)
    {
      this.minValue := minValue;
      this.maxValue := maxValue;
      autoScale := false;
      UpdateChart();
    }

    /** UpdateValueRange: with values present, the range becomes AutoRange of them; with none, it stays. */
    method UpdateValueRange()
      requires Valid()
      modifies this`minValue, this`maxValue
      ensures |dataPoints| > 0 ==> (minValue, maxValue) == AutoRange(dataPoints)
      ensures |dataPoints| == 0 ==> minValue == old(minValue) && maxValue == old(maxValue)
    {
      if |dataPoints| == 0 {
        return;
      }
      ScanExtremes();
      ghost var target := Widened(minValue, maxValue);
      var range := maxValue - minValue;
      if range == 0.0 {
        range := 1.0;
      }
      minValue := minValue - range * 0.1;
      maxValue := maxValue + range * 0.1;
    }

    /** The scan of UpdateValueRange: from float.MaxValue and float.MinValue down and up to the extremes of the values. */
    method ScanExtremes()
      requires |dataPoints| > 0 && AllFloat(dataPoints)
      modifies this`minValue, this`maxValue
      ensures minValue == SeqMin(dataPoints) && maxValue == SeqMax(dataPoints)
    {
      minValue := FloatMax;
      maxValue := -FloatMax;
      for k := 0 to |dataPoints|
        invariant ExtremesSoFar(dataPoints, k, minValue, maxValue)
      {
        var value := dataPoints[k];
        ghost var lo, hi := minValue, maxValue;
        if value < minValue {
          minValue := value;
        }
        if value > maxValue {
          maxValue := value;
        }
        ExtremesStep(dataPoints, k, lo, hi, minValue, maxValue);
      }
      assert dataPoints[..|dataPoints|] == dataPoints;
    }

    /** UpdateChart: one position per value, at its height in the current range. */
    method UpdateChart()
      modifies this`heights
      ensures Drawn()
    {
      heights := [];
      for i := 0 to |dataPoints|
        invariant |heights| == i
        invariant forall j :: 0 <= j < i ==> heights[j] == InverseLerp(minValue, maxValue, dataPoints[j]) * chartHeight
      {
        var normalizedValue := InverseLerp(minValue, maxValue, dataPoints[i]);
        heights := heights + [normalizedValue * chartHeight];
      }
    }

    /** With auto-scaling on, every value is drawn strictly between the bottom and the top of the chart. */
    lemma AutoScaledLineInside()
      requires Drawn() && |dataPoints| > 0 && (minValue, maxValue) == AutoRange(dataPoints) && chartHeight > 0.0
      ensures forall i :: 0 <= i < |heights| ==> 0.0 < heights[i] < chartHeight
    {
      AutoHeightsInside(dataPoints, heights, chartHeight);
    }

    /** GetStatistics: count, average, min, max and range of the values, or the default object when there are none. */
    method GetStatistics() returns (r: ChartStatistics)
      requires Valid()
      ensures r == StatisticsOf(dataPoints)
    {
      if |dataPoints| == 0 {
        return ChartStatistics(0, 0.0, 0.0, 0.0, 0.0);
      }
      var sum := 0.0;
      var min := FloatMax;
      var max := -FloatMax;
      for k := 0 to |dataPoints|
        invariant sum == Sum(dataPoints[..k])
        invariant ExtremesSoFar(dataPoints, k, min, max)
      {
        var value := dataPoints[k];
        assert dataPoints[..k + 1][..k] == dataPoints[..k];
        ghost var lo, hi := min, max;
        sum := sum + value;
        if value < min {
          min := value;
        }
        if value > max {
          max := value;
        }
        ExtremesStep(dataPoints, k, lo, hi, min, max);
      }
      assert dataPoints[..|dataPoints|] == dataPoints;
      r := ChartStatistics(|dataPoints|, sum / |dataPoints| as real, min, max, max - min);
    }

    /** GetCurrentValue: the newest value, or 0 when there is none. */
    function GetCurrentValue(): (r: real)
      reads this
      ensures |dataPoints| > 0 ==> r == dataPoints[|dataPoints| - 1]
      ensures |dataPoints| == 0 ==> r == 0.0
    {
      if |dataPoints| > 0 then dataPoints[|dataPoints| - 1] else 0.0
    }
  }
}
