/** Concrete render passes that pin down the fallback rules, and a
    multi-series pass that throws. */
module ChartCases {
  import opened Wrappers
  import opened Values
  import opened Seqs
  import opened Stats
  import opened Sampling
  import opened Reduction
  import opened Layout
  import opened Chart

  /** A single series `[[0,1],[1,2],[2,100],[3,3],[4,4]]` with one spike. */
  function Spiky(): seq<Entry> {
    [Entry(0.0, Scalar(Num(1.0))), Entry(1.0, Scalar(Num(2.0))), Entry(2.0, Scalar(Num(100.0))),
     Entry(3.0, Scalar(Num(3.0))), Entry(4.0, Scalar(Num(4.0)))]
  }

  /** The same values as column 0 of a multi-series chart, columns 1 and 2 null. */
  function SpikyColumns(): seq<Entry> {
    [Entry(0.0, Array([Num(1.0), Null, Null])), Entry(1.0, Array([Num(2.0), Null, Null])),
     Entry(2.0, Array([Num(100.0), Null, Null])), Entry(3.0, Array([Num(3.0), Null, Null])),
     Entry(4.0, Array([Num(4.0), Null, Null]))]
  }

  /** The five points of the spiky series. */
  function SpikyPoints(): seq<Point> {
    [Point(0.0, 1.0), Point(1.0, 2.0), Point(2.0, 100.0), Point(3.0, 3.0), Point(4.0, 4.0)]
  }

  /** `[[0,1],[1,2],[2,100],[3,3],[4,4]]` as a single series: all five points
      are sampled, too few survive the outlier filter, so the line is drawn
      through all five, the spike at x = 2 included. */
  lemma SpikeKeptBySingleFallback(data: seq<Entry>, w: nat, h: nat)
    requires data == Spiky()
    ensures var r := Render(Some(data), w, h);
      && r.Drawn? && r.drawing.Single?
      && r.drawing.plot.lines == [Line("#2196F3", SpikyPoints())]
  {
    SpikyReadings(data);
    SpikyFinal(data);
    SingleRendered(data, w, h);
  }

  /** The single-series reduction of the spiky entries keeps all five points. */
  lemma SpikyFinal(data: seq<Entry>)
    requires data == Spiky()
    ensures SingleStages(data).final == SpikyPoints()
  {
    SpikyReadings(data);
    var readings := Map(data, ScalarReading);
    var valid := ValidPoints(readings);
    SpikyValid(readings);
    assert StrideFor(|valid|) == 1;
    SmallSampleUnfiltered(valid, 1);
    SampleAll(valid);
  }

  /** The spiky entries read as scalar readings. */
  lemma SpikyReadings(data: seq<Entry>)
    requires data == Spiky()
    ensures Map(data, ScalarReading) == [Reading(0.0, Num(1.0)), Reading(1.0, Num(2.0)), Reading(2.0, Num(100.0)),
                   Reading(3.0, Num(3.0)), Reading(4.0, Num(4.0))]
    ensures !IsArrayValue(data[0].value)
  {
  }

  /** The same values as the first column of a multi-series chart whose other
      two columns are null: the fallback again draws the spike, but the y
      domain is computed from the filtered values only, whose outlier bounds
      are [-1, 7], so the point (2, 100) lies above the domain and is drawn
      outside the plot. */
  lemma SpikeOutsideMultiDomain(data: seq<Entry>, w: nat, h: nat)
    requires data == SpikyColumns()
    ensures var r := Render(Some(data), w, h);
      && r.Drawn? && r.drawing.Multi?
      && Point(2.0, 100.0) in r.drawing.plot.lines[0].points
      && r.drawing.plot.y.domain.Some?
      && r.drawing.plot.y.domain.value.hi < 100.0
  {
    SpikyColumnStages(data);
    MultiRendered(data, w, h);
    var st := MultiStages(data).value;
    SpikyReduced(SpikyPoints());
    EmptyReduced(1);
    assert Point(2.0, 100.0) == st[0].final[2];
    MultiDomainBelow(st);
  }

  /** The reductions of the three spiky columns: column 0 is the spiky series,
      columns 1 and 2 hold no valid point; the stride is 1. */
  lemma SpikyColumnStages(data: seq<Entry>)
    requires data == SpikyColumns()
    ensures data != [] && IsArrayValue(data[0].value)
    ensures MultiStages(data) == Some([Reduce(SpikyPoints(), 1), Reduce([], 1), Reduce([], 1)])
  {
    SpikyColumnReadings(data);
    SpikyValid(ColumnReadings(data, 0).value);
    StageOfColumn(data, 0, SpikyPoints());
    StageOfColumn(data, 1, []);
    StageOfColumn(data, 2, []);
  }

  /** A column of five entries that projects without throwing is reduced at
      stride 1 from its valid points. */
  lemma StageOfColumn(data: seq<Entry>, k: nat, valid: seq<Point>)
    requires |data| == 5 && k < SeriesCount
    requires forall c :: 0 <= c < SeriesCount ==> ColumnReadings(data, c).Some?
    requires ValidPoints(ColumnReadings(data, k).value) == valid
    ensures MultiStages(data).Some?
    ensures MultiStages(data).value[k] == Reduce(valid, 1)
  {
    assert StrideFor(|data|) == 1;
    assert ColumnReadings(data, 0).Some? && ColumnReadings(data, 1).Some? && ColumnReadings(data, 2).Some?;
    MultiStagesAt(data, k);
  }

  /** The single-stride reduction of the spiky points: the outlier bounds are
      [-1, 7], which drops the spike, and too few points remain, so the final
      series is all five points. */
  lemma SpikyReduced(v: seq<Point>)
    requires v == SpikyPoints()
    ensures var st := Reduce(v, 1);
      && st.final == v && st.filtered != []
      && forall p :: p in st.filtered ==> -1.0 <= p.y <= 7.0
  {
    SampleAll(v);
    SpikyYs();
    SpikyQuartiles(Ys(v));
    assert OutlierBounds(v) == Some(Interval(-1.0, 7.0));
    var st := Reduce(v, 1);
    SubseqLength(st.filtered, v);
    assert v[0] in st.filtered;
  }

  /** Filtered values within [-1, 7] in column 0 alone keep the padded
      multi-series domain below 100. */
  lemma MultiDomainBelow(st: seq<Stages>)
    requires |st| == SeriesCount && st[0].filtered != [] && st[1].filtered == [] && st[2].filtered == []
    requires forall p :: p in st[0].filtered ==> -1.0 <= p.y <= 7.0
    ensures Padded(Extent(DomainValues(st)), MultiPadding).Some?
    ensures Padded(Extent(DomainValues(st)), MultiPadding).value.hi < 100.0
  {
    var vs := DomainValues(st);
    assert vs == Ys(st[0].filtered);
    forall i | 0 <= i < |vs| ensures -1.0 <= vs[i] <= 7.0 {
      assert st[0].filtered[i] in st[0].filtered;
    }
    var e := Extent(vs).value;
    assert e.lo in vs && e.hi in vs;
  }

  /** Reducing a series with no valid point leaves every stage empty. */
  lemma EmptyReduced(stride: nat)
    requires stride >= 1
    ensures Reduce([], stride) == Stages([], [], [], [])
  {
    var st := Reduce([], stride);
    SampleShape(st.valid, stride);
    SubseqLength(st.filtered, st.sampled);
  }

  /** Column 0 of the spiky columns is the spiky series; the other two columns
      hold no valid reading. */
  lemma SpikyColumnReadings(data: seq<Entry>)
    requires data == SpikyColumns()
    ensures |data| == 5 && IsArrayValue(data[0].value)
    ensures ColumnReadings(data, 0) == Some([Reading(0.0, Num(1.0)), Reading(1.0, Num(2.0)), Reading(2.0, Num(100.0)),
                                             Reading(3.0, Num(3.0)), Reading(4.0, Num(4.0))])
    ensures ColumnReadings(data, 1).Some? && ValidPoints(ColumnReadings(data, 1).value) == []
    ensures ColumnReadings(data, 2).Some? && ValidPoints(ColumnReadings(data, 2).value) == []
  {
    SpikyColumnsArrays(data);
    SpikyNullColumn(data, 1);
    SpikyNullColumn(data, 2);
    SpikyFirstColumn(data);
  }

  lemma SpikyColumnsArrays(data: seq<Entry>)
    requires data == SpikyColumns()
    ensures |data| == 5
    ensures forall i :: 0 <= i < |data| ==> data[i].value.Array? && |data[i].value.cells| == 3
    ensures forall i :: 0 <= i < |data| ==> data[i].x == i as real
    ensures forall i :: 0 <= i < |data| ==> data[i].value.cells[1] == Null && data[i].value.cells[2] == Null
    ensures data[0].value.cells[0] == Num(1.0) && data[1].value.cells[0] == Num(2.0)
    ensures data[2].value.cells[0] == Num(100.0) && data[3].value.cells[0] == Num(3.0)
    ensures data[4].value.cells[0] == Num(4.0)
  {
  }

  lemma SpikyFirstColumn(data: seq<Entry>)
    requires data == SpikyColumns()
    ensures ColumnReadings(data, 0) == Some([Reading(0.0, Num(1.0)), Reading(1.0, Num(2.0)), Reading(2.0, Num(100.0)),
                                             Reading(3.0, Num(3.0)), Reading(4.0, Num(4.0))])
  {
    SpikyColumnsArrays(data);
    var r := ColumnReadings(data, 0).value;
    assert r[0] == Reading(0.0, Num(1.0)) && r[1] == Reading(1.0, Num(2.0)) && r[2] == Reading(2.0, Num(100.0));
    assert r[3] == Reading(3.0, Num(3.0)) && r[4] == Reading(4.0, Num(4.0));
    assert |r| == 5;
    assert r == [Reading(0.0, Num(1.0)), Reading(1.0, Num(2.0)), Reading(2.0, Num(100.0)),
                 Reading(3.0, Num(3.0)), Reading(4.0, Num(4.0))];
  }

  /** Columns 1 and 2 of the spiky columns are all null, so no point is valid. */
  lemma SpikyNullColumn(data: seq<Entry>, k: nat)
    requires data == SpikyColumns() && 1 <= k <= 2
    ensures ColumnReadings(data, k).Some? && ValidPoints(ColumnReadings(data, k).value) == []
  {
    SpikyColumnsArrays(data);
    var rs := ColumnReadings(data, k).value;
    ValidPointsEmpty(rs);
  }

  /** The spiky values in ascending order. */
  lemma SpikySorted(ys: seq<real>)
    requires ys == [1.0, 2.0, 100.0, 3.0, 4.0]
    ensures Sort(ys) == [1.0, 2.0, 3.0, 4.0, 100.0]
  {
    var t := [1.0, 2.0, 3.0, 4.0, 100.0];
    SpikyAscending(t);
    SpikySameValues(ys, t);
    SortUnique(ys, t);
  }

  /** The sorted spiky values are ascending. */
  lemma SpikyAscending(t: seq<real>)
    requires t == [1.0, 2.0, 3.0, 4.0, 100.0]
    ensures Sorted(t)
  {
  }

  /** The sorted spiky values are a permutation of the spiky values. */
  lemma SpikySameValues(ys: seq<real>, t: seq<real>)
    requires ys == [1.0, 2.0, 100.0, 3.0, 4.0] && t == [1.0, 2.0, 3.0, 4.0, 100.0]
    ensures multiset(t) == multiset(ys)
  {
  }

  /** The readings of the spiky series are all valid. */
  lemma SpikyValid(rs: seq<Reading>)
    requires rs == [Reading(0.0, Num(1.0)), Reading(1.0, Num(2.0)), Reading(2.0, Num(100.0)),
                    Reading(3.0, Num(3.0)), Reading(4.0, Num(4.0))]
    ensures ValidPoints(rs) == SpikyPoints()
  {
    assert rs[4..][1..] == [];
    assert ValidPoints(rs[4..]) == [Point(4.0, 4.0)];
    assert rs[3..][1..] == rs[4..];
    assert ValidPoints(rs[3..]) == [Point(3.0, 3.0), Point(4.0, 4.0)];
    assert rs[2..][1..] == rs[3..];
    assert ValidPoints(rs[2..]) == [Point(2.0, 100.0), Point(3.0, 3.0), Point(4.0, 4.0)];
    assert rs[1..][1..] == rs[2..];
    assert ValidPoints(rs[1..]) == SpikyPoints()[1..];
  }

  /** The values of the spiky series. */
  lemma SpikyYs()
    ensures Ys(SpikyPoints()) == [1.0, 2.0, 100.0, 3.0, 4.0]
  {
  }

  /** The quartiles of 1, 2, 100, 3, 4 are 2 and 4. */
  lemma SpikyQuartiles(ys: seq<real>)
    requires ys == [1.0, 2.0, 100.0, 3.0, 4.0]
    ensures Quantile(ys, 0.25) == Some(2.0)
    ensures Quantile(ys, 0.75) == Some(4.0)
  {
    SpikySorted(ys);
    SpikySortedQuartiles(Sort(ys));
  }

  /** The quartiles of the ascending values 1, 2, 3, 4, 100: rank 1 and rank 3
      fall exactly on the second and fourth value. */
  lemma SpikySortedQuartiles(t: seq<real>)
    requires t == [1.0, 2.0, 3.0, 4.0, 100.0]
    ensures SortedQuantile(t, 0.25) == 2.0
    ensures SortedQuantile(t, 0.75) == 4.0
  {
    assert Rank(5, 0.25) == 1.0 && Rank(5, 0.75) == 3.0;
    assert (1.0).Floor == 1 && (3.0).Floor == 3;
  }

  /** `[[0,[1,2,3]],[1,null]]`: a multi-series chart whose second value is a
      scalar null. Projecting a column indexes `null`, so the pass throws, and
      the component's first render never reaches `addEventListener`: the
      debounced handler is not registered and nothing renders again. */
  lemma NullEntryThrows(data: seq<Entry>, w: nat, h: nat)
    requires data == [Entry(0.0, Array([Num(1.0), Num(2.0), Num(3.0)])), Entry(1.0, Scalar(Null))]
    ensures Render(Some(data), w, h) == Threw(PlotFrame(w, h))
  {
  }
}
