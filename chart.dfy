/** One render pass of the `Chart` component (src/components/Chart.js:7-46,
    69-154, 156-353) as a value: what the pass hands to d3 — the frame, the
    two scales, the data of each line path and, for a multi-series chart, the
    legend — instead of the SVG nodes d3 appends. */
module Chart {
  import opened Wrappers
  import opened Values
  import opened Seqs
  import opened Stats
  import opened Sampling
  import opened Reduction
  import opened Layout

  /** The y domain of a single-series chart is padded by 10% of the value range. */
  const SinglePadding: real := 0.1
  /** The y domain of a multi-series chart is padded by 15% of the value range. */
  const MultiPadding: real := 0.15
  /** A multi-series chart draws the columns 0, 1 and 2 of each value array. */
  const SeriesCount: nat := 3

  /** One stroked path: its colour and the points it is drawn through. */
  datatype Line = Line(color: string, points: seq<Point>)

  /** The scales and line paths of a chart. */
  datatype Plot = Plot(x: Scale, y: Scale, lines: seq<Line>)

  datatype Drawing = Single(plot: Plot) | Multi(plot: Plot, legend: Legend)

  /** The outcome of `renderChart`: nothing drawn; a chart; or the `TypeError`
      a multi-series pass throws after the view box is set. */
  datatype Outcome = Blank | Drawn(frame: Frame, drawing: Drawing) | Threw(frame: Frame)

  /** `Array.isArray(data[0][1])`. */
  predicate IsMultiSeries(data: seq<Entry>)
    requires data != []
  {
    IsArrayValue(data[0].value)
  }

  // ---- single series ----

  /** The reduction of a single-series chart; the stride comes from the number
      of valid points. */
  function SingleStages(data: seq<Entry>): Stages
  {
    var valid := ValidPoints(Map(data, ScalarReading));
    Reduce(valid, StrideFor(|valid|))
  }

  /** `renderSingleSeriesChart`: the x domain is the extent of the final
      points, the y domain their value extent padded by 10%. */
  function SinglePlot(data: seq<Entry>, f: Frame): Plot
  {
    var st := SingleStages(data);
    Plot(XScale(Extent(Xs(st.final)), f),
         YScale(Padded(Extent(Ys(st.final)), SinglePadding), f),
         [Line(Palette[0], st.final)])
  }

  /** The single-series line is every `stride`-th valid point, with
      `stride = max(1, floor(valid / 200))`, less the outliers when more than
      50 points remain; it is drawn in order, never exceeds 399 points, and is
      all the valid points when there are fewer than 400. */
  lemma SingleLine(data: seq<Entry>, f: Frame)
    ensures var valid := ValidPoints(Map(data, ScalarReading));
      var line := SinglePlot(data, f).lines[0].points;
      && |SinglePlot(data, f).lines| == 1
      && IsSubseq(line, valid)
      && |line| < 2 * TargetPoints
      && (|valid| < 2 * TargetPoints && |FilterOutliers(valid)| <= FallbackThreshold ==> line == valid)
  {
    var valid := ValidPoints(Map(data, ScalarReading));
    var st := SingleStages(data);
    ReduceSpec(valid, StrideFor(|valid|));
    SampleCountOwnLength(|valid|);
    SubseqLength(st.final, st.sampled);
    if |valid| < 2 * TargetPoints {
      SampleAll(valid);
    }
  }

  /** A series whose first value is not an array is drawn as one line, in the
      first palette colour, through the final points of its reduction: an
      order-preserving selection of its valid points, fewer than 400. */
  lemma SingleRendered(data: seq<Entry>, w: nat, h: nat)
    requires data != [] && !IsArrayValue(data[0].value)
    ensures var r := Render(Some(data), w, h);
      var valid := ValidPoints(Map(data, ScalarReading));
      && r == Drawn(PlotFrame(w, h), Single(SinglePlot(data, PlotFrame(w, h))))
      && r.drawing.plot.lines == [Line("#2196F3", SingleStages(data).final)]
      && IsSubseq(r.drawing.plot.lines[0].points, valid)
      && |r.drawing.plot.lines[0].points| < 2 * TargetPoints
  {
    SingleLine(data, PlotFrame(w, h));
  }

  /** With a stride of 1 the sample is the whole series. */
  lemma SampleAll(s: seq<Point>)
    ensures Sample(s, 1) == s
  {
    SampleShape(s, 1);
  }

  /** The single-series scales: the x domain is exactly `[min x, max x]` over
      the final points and the y domain holds every final value, padded by 10%
      of the value range (so it is a single point when all values are equal);
      both are undefined exactly when no point is valid. The y range is
      inverted. */
  lemma SingleDomains(data: seq<Entry>, f: Frame)
    ensures var final := SingleStages(data).final;
      var plot := SinglePlot(data, f);
      && (final == [] <==> ValidPoints(Map(data, ScalarReading)) == [])
      && (plot.x.domain.None? <==> final == [])
      && (plot.y.domain.None? <==> final == [])
      && plot.x.range == Interval(0.0, f.width as real)
      && plot.y.range == Interval(f.height as real, 0.0)
      && (final != [] ==>
           && plot.x.domain.value.lo in Xs(final) && plot.x.domain.value.hi in Xs(final)
           && (forall p :: p in final ==>
                 && plot.x.domain.value.lo <= p.x <= plot.x.domain.value.hi
                 && plot.y.domain.value.lo <= p.y <= plot.y.domain.value.hi)
           && plot.y.domain == Padded(Some(Interval(Min(Ys(final)), Max(Ys(final)))), SinglePadding))
  {
    var final := SingleStages(data).final;
    var valid := ValidPoints(Map(data, ScalarReading));
    FinalEmpty(valid, StrideFor(|valid|));
    if final != [] {
      var ys := Ys(final);
      var e := Extent(ys).value;
      PaddedContains(e, SinglePadding);
      forall p | p in final
        ensures Extent(Xs(final)).value.lo <= p.x <= Extent(Xs(final)).value.hi
        ensures Padded(Extent(ys), SinglePadding).value.lo <= p.y <= Padded(Extent(ys), SinglePadding).value.hi
      {
        var i :| 0 <= i < |final| && final[i] == p;
        assert ys[i] == p.y;
      }
    }
  }

  // ---- multi-series ----

  /** The reduction of column `k`, or `None` when projecting it throws. The
      stride comes from the number of raw entries, not from the length of the
      filtered column it is applied to. */
  function ColumnStages(data: seq<Entry>, k: nat): Option<Stages>
  {
    match ColumnReadings(data, k)
    case None => None
    case Some(c) => Some(Reduce(ValidPoints(c), StrideFor(|data|)))
  }

  /** The reductions of the three columns, or `None` when a projection throws. */
  function MultiStages(data: seq<Entry>): (r: Option<seq<Stages>>)
    ensures r.Some? ==> |r.value| == SeriesCount
  {
    var s0, s1, s2 := ColumnStages(data, 0), ColumnStages(data, 1), ColumnStages(data, 2);
    if s0.Some? && s1.Some? && s2.Some? then Some([s0.value, s1.value, s2.value]) else None
  }

  /** The values the multi-series y domain is computed from: those of the
      three outlier-filtered columns, not of the lines actually drawn. */
  function DomainValues(st: seq<Stages>): seq<real>
    requires |st| == SeriesCount
  {
    Ys(st[0].filtered) + Ys(st[1].filtered) + Ys(st[2].filtered)
  }

  /** `renderMultiSeriesChart`: the x domain is the extent of the raw entries'
      x, the y domain the extent of the filtered values padded by 15%, one
      line per column in the palette's colour, and the legend. */
  function MultiPlot(data: seq<Entry>, f: Frame): Option<(Plot, Legend)>
  {
    match MultiStages(data)
    case None => None
    case Some(st) =>
      var xs := Map(data, (e: Entry) => e.x);
      var lines := seq(SeriesCount, k requires 0 <= k < SeriesCount => Line(Palette[k], st[k].final));
      Some((Plot(XScale(Extent(xs), f), YScale(Padded(Extent(DomainValues(st)), MultiPadding), f), lines),
            LegendFor(f.width)))
  }

  /** Column `k` of a multi-series chart whose projection did not throw. */
  lemma MultiStagesAt(data: seq<Entry>, k: nat)
    requires k < SeriesCount && MultiStages(data).Some?
    ensures ColumnReadings(data, k).Some?
    ensures |MultiStages(data).value| == SeriesCount
    ensures MultiStages(data).value[k] == Reduce(ValidPoints(ColumnReadings(data, k).value), StrideFor(|data|))
  {
    var st := MultiStages(data).value;
    if k == 0 {
      assert st[0] == ColumnStages(data, 0).value;
    } else if k == 1 {
      assert st[1] == ColumnStages(data, 1).value;
    } else {
      assert st[2] == ColumnStages(data, 2).value;
    }
  }

  /** The plot and legend of a multi-series chart, piece by piece. */
  lemma MultiPlotParts(data: seq<Entry>, f: Frame)
    requires MultiPlot(data, f).Some?
    ensures MultiStages(data).Some? && |MultiStages(data).value| == SeriesCount
    ensures var (plot, legend) := MultiPlot(data, f).value;
      var st := MultiStages(data).value;
      && plot.x == XScale(Extent(Map(data, (e: Entry) => e.x)), f)
      && plot.y == YScale(Padded(Extent(DomainValues(st)), MultiPadding), f)
      && |plot.lines| == SeriesCount
      && (forall k :: 0 <= k < SeriesCount ==> plot.lines[k] == Line(Palette[k], st[k].final))
      && legend == LegendFor(f.width)
  {
  }

  /** A series whose first value is an array and whose columns all project is
      drawn as a multi-series chart: line `k` through the final points of
      column `k` (an order-preserving selection of that column's valid points,
      fewer than 400), in the colour of legend row `k`; the y domain is the
      padded extent of the filtered values. */
  lemma {:induction false} MultiRendered(data: seq<Entry>, w: nat, h: nat)
    requires data != [] && IsArrayValue(data[0].value) && MultiStages(data).Some?
    ensures var r := Render(Some(data), w, h);
      var st := MultiStages(data).value;
      && r.Drawn? && r.drawing.Multi? && r.frame == PlotFrame(w, h)
      && |r.drawing.plot.lines| == |r.drawing.legend.rows| == SeriesCount
      && (forall k :: 0 <= k < SeriesCount ==> r.drawing.plot.lines[k].points == st[k].final)
      && (forall k :: 0 <= k < SeriesCount ==>
            && r.drawing.plot.lines[k].color == r.drawing.legend.rows[k].color
            && ColumnReadings(data, k).Some?
            && IsSubseq(r.drawing.plot.lines[k].points, ValidPoints(ColumnReadings(data, k).value))
            && |r.drawing.plot.lines[k].points| < 2 * TargetPoints)
      && r.drawing.plot.y.domain == Padded(Extent(DomainValues(st)), MultiPadding)
  {
    var f := PlotFrame(w, h);
    MultiPlotParts(data, f);
    var (plot, legend) := MultiPlot(data, f).value;
    assert Render(Some(data), w, h) == Drawn(f, Multi(plot, legend));
    forall k: nat | k < SeriesCount
      ensures plot.lines[k].color == legend.rows[k].color
      ensures ColumnReadings(data, k).Some?
      ensures IsSubseq(plot.lines[k].points, ValidPoints(ColumnReadings(data, k).value))
      ensures |plot.lines[k].points| < 2 * TargetPoints
    {
      MultiStagesAt(data, k);
      MultiLines(data, f, k);
    }
  }

  /** Each multi-series line is the `k`-th column's valid points, sampled at
      the stride of the raw length, less the outliers when more than 50 points
      remain; it is drawn in order, in the colour of the legend row `k`, and
      never exceeds 399 points. */
  lemma MultiLines(data: seq<Entry>, f: Frame, k: nat)
    requires k < SeriesCount && MultiPlot(data, f).Some?
    ensures var (plot, legend) := MultiPlot(data, f).value;
      var valid := ValidPoints(ColumnReadings(data, k).value);
      var st := Reduce(valid, StrideFor(|data|));
      && |plot.lines| == |legend.rows| == SeriesCount
      && plot.lines[k].color == legend.rows[k].color
      && plot.lines[k].points == st.final
      && IsSubseq(st.final, valid)
      && |st.final| < 2 * TargetPoints
  {
    MultiPlotParts(data, f);
    MultiStagesAt(data, k);
    var valid := ValidPoints(ColumnReadings(data, k).value);
    var stride := StrideFor(|data|);
    var st := Reduce(valid, stride);
    ReduceSpec(valid, stride);
    SubseqLength(st.final, st.sampled);
    SampleCountRawLength(|valid|, |data|);
  }

  /** The multi-series scales: the x domain is `[min x, max x]` over all raw
      entries, and the y domain is `[min, max]` of the values that survived the
      outlier filter, padded by 15% of their range, so it holds each of them;
      it is undefined exactly when no column kept a value. */
  lemma MultiDomains(data: seq<Entry>, f: Frame)
    requires data != [] && MultiPlot(data, f).Some?
    ensures MultiStages(data).Some? && |MultiStages(data).value| == SeriesCount
    ensures var plot := MultiPlot(data, f).value.0;
      var st := MultiStages(data).value;
      var vs := DomainValues(st);
      && plot.x.domain.Some?
      && (exists i :: 0 <= i < |data| && data[i].x == plot.x.domain.value.lo)
      && (exists i :: 0 <= i < |data| && data[i].x == plot.x.domain.value.hi)
      && (forall i :: 0 <= i < |data| ==> plot.x.domain.value.lo <= data[i].x <= plot.x.domain.value.hi)
      && (plot.y.domain.None? <==> forall k :: 0 <= k < SeriesCount ==> st[k].filtered == [])
      && (vs != [] ==> plot.y.domain == Padded(Some(Interval(Min(vs), Max(vs))), MultiPadding))
      && (forall k, p :: 0 <= k < SeriesCount && p in st[k].filtered ==>
            plot.y.domain.value.lo <= p.y <= plot.y.domain.value.hi)
  {
    MultiPlotParts(data, f);
    RawExtent(data);
    PaddedHoldsAll(MultiStages(data).value);
  }

  /** The extent of the raw entries' x: both ends are some entry's x, and every
      entry's x lies between them. */
  lemma RawExtent(data: seq<Entry>)
    requires data != []
    ensures var e := Extent(Map(data, (e: Entry) => e.x));
      && e.Some?
      && (exists i :: 0 <= i < |data| && data[i].x == e.value.lo)
      && (exists i :: 0 <= i < |data| && data[i].x == e.value.hi)
      && (forall i :: 0 <= i < |data| ==> e.value.lo <= data[i].x <= e.value.hi)
  {
  }

  /** The padded extent of the filtered values holds each of them. */
  lemma PaddedHoldsAll(st: seq<Stages>)
    requires |st| == SeriesCount
    ensures var d := Padded(Extent(DomainValues(st)), MultiPadding);
      && (d.None? <==> forall k :: 0 <= k < SeriesCount ==> st[k].filtered == [])
      && (forall k, p :: 0 <= k < SeriesCount && p in st[k].filtered ==> d.value.lo <= p.y <= d.value.hi)
  {
    var vs := DomainValues(st);
    if vs != [] {
      var e := Extent(vs).value;
      PaddedContains(e, MultiPadding);
      forall k, p | 0 <= k < SeriesCount && p in st[k].filtered
        ensures e.lo <= p.y <= e.hi
      {
        InDomainValues(st, k, p);
        var i :| 0 <= i < |vs| && vs[i] == p.y;
      }
    } else {
      forall k | 0 <= k < SeriesCount ensures st[k].filtered == [] {
        if st[k].filtered != [] {
          InDomainValues(st, k, st[k].filtered[0]);
        }
      }
    }
  }

  /** Every filtered value of every column is among the domain values. */
  lemma InDomainValues(st: seq<Stages>, k: nat, p: Point)
    requires |st| == SeriesCount && k < SeriesCount && p in st[k].filtered
    ensures p.y in DomainValues(st)
  {
    var i :| 0 <= i < |st[k].filtered| && st[k].filtered[i] == p;
    assert Ys(st[k].filtered)[i] == p.y;
  }


  // ---- the render pass ----

  /** `renderChart` for a container of the given size: an absent or empty
      series draws nothing; otherwise the frame is set and the series drawn as
      a multi-series chart exactly when its first value is an array. The guard
      returns before the svg is cleared (src/components/Chart.js:8 and 11), so
      an absent or empty series leaves any earlier drawing in place. */
  function Render(data: Option<seq<Entry>>, containerWidth: nat, containerHeight: nat): (r: Outcome)
    ensures r.Blank? <==> data.None? || data.value == []
    ensures !r.Blank? ==> r.frame == PlotFrame(containerWidth, containerHeight)
    ensures r.Drawn? ==> (r.drawing.Multi? <==> IsArrayValue(data.value[0].value))
    ensures r.Threw? <==> data.Some? && data.value != [] && IsArrayValue(data.value[0].value)
                          && exists i :: 0 <= i < |data.value| && data.value[i].value in {Scalar(Null), Scalar(Undefined)}
  {
    if data.None? || data.value == [] then Blank
    else
      var f := PlotFrame(containerWidth, containerHeight);
      if IsMultiSeries(data.value) then
        match MultiPlot(data.value, f)
        case None => Threw(f)
        case Some((plot, legend)) => Drawn(f, Multi(plot, legend))
      else Drawn(f, Single(SinglePlot(data.value, f)))
  }
}
