/** The per-series reduction of src/components/Chart.js: the validity filter,
    stride sampling, the IQR outlier filter and the fallback to the sampled
    series when filtering leaves too few points. */
module Reduction {
  import opened Wrappers
  import opened Values
  import opened Seqs
  import opened Stats
  import opened Sampling

  /** Multiplier of the interquartile range in the outlier bounds. */
  const IqrFactor: real := 1.5

  /** The filtered series is used only when it has more than this many points. */
  const FallbackThreshold: nat := 50

  /** `rs.filter(d => d[1] !== null && typeof d[1] === "number" && !isNaN(d[1]))`,
      each kept reading narrowed to its number. */
  function ValidPoints(rs: seq<Reading>): (ps: seq<Point>)
    ensures |ps| <= |rs|
  {
    if rs == [] then []
    else
      var rest := ValidPoints(rs[1..]);
      if IsValidValue(rs[0].y) then [Point(rs[0].x, rs[0].y.v)] + rest else rest
  }

  /** The validity filter keeps exactly the readings that hold a number
      other than NaN. */
  lemma {:induction false} ValidPointsExact(rs: seq<Reading>)
    ensures forall x, y :: Point(x, y) in ValidPoints(rs) <==> Reading(x, Num(y)) in rs
    decreases |rs|
  {
    if rs != [] {
      ValidPointsExact(rs[1..]);
      assert forall r :: r in rs <==> r == rs[0] || r in rs[1..];
    }
  }

  /** The validity filter leaves nothing exactly when no reading holds a
      number other than NaN. */
  lemma {:induction false} ValidPointsEmpty(rs: seq<Reading>)
    ensures ValidPoints(rs) == [] <==> forall i :: 0 <= i < |rs| ==> !rs[i].y.Num?
    decreases |rs|
  {
    if rs != [] {
      ValidPointsEmpty(rs[1..]);
      assert forall i :: 1 <= i < |rs| ==> rs[i] == rs[1..][i - 1];
    }
  }

  /** A point read back as the reading it came from. */
  function AsReading(p: Point): Reading {
    Reading(p.x, Num(p.y))
  }

  /** The validity filter keeps the valid readings in their original order:
      read back, its output is a subsequence of its input, and it holds as
      many points as there are valid readings. */
  lemma {:induction false} ValidPointsInOrder(rs: seq<Reading>)
    ensures IsSubseq(Map(ValidPoints(rs), AsReading), rs)
    ensures |ValidPoints(rs)| == Count(rs, (r: Reading) => IsValidValue(r.y))
    decreases |rs|
  {
    if rs != [] {
      ValidPointsInOrder(rs[1..]);
      var m := Map(ValidPoints(rs), AsReading);
      var m' := Map(ValidPoints(rs[1..]), AsReading);
      if IsValidValue(rs[0].y) {
        assert m[0] == rs[0] && m[1..] == m';
      } else {
        assert m == m';
      }
    }
  }

  /** The values of a series, `data.map(d => d[1])`. */
  function Ys(ps: seq<Point>): (ys: seq<real>)
    ensures |ys| == |ps|
    ensures forall i :: 0 <= i < |ps| ==> ys[i] == ps[i].y
  {
    Map(ps, (p: Point) => p.y)
  }

  /** The x coordinates of a series, `data.map(d => d[0])`. */
  function Xs(ps: seq<Point>): (xs: seq<real>)
    ensures |xs| == |ps|
    ensures forall i :: 0 <= i < |ps| ==> xs[i] == ps[i].x
  {
    Map(ps, (p: Point) => p.x)
  }

  /** `[q1 - 1.5 * iqr, q3 + 1.5 * iqr]` with `q1`, `q3` the quartiles of the
      values. On an empty series the quartiles are undefined and the bounds
      NaN, which is `None`: no comparison with them holds. */
  function OutlierBounds(ps: seq<Point>): (b: Option<Interval>)
    ensures b.None? <==> ps == []
    ensures b.Some? ==>
      var q1, q3 := Quantile(Ys(ps), 0.25).value, Quantile(Ys(ps), 0.75).value;
      b.value.lo <= q1 <= q3 <= b.value.hi
  {
    var vs := Ys(ps);
    match (Quantile(vs, 0.25), Quantile(vs, 0.75))
    case (Some(q1), Some(q3)) =>
      QuantileMonotone(vs, 0.25, 0.75);
      var iqr := q3 - q1;
      Some(Interval(q1 - IqrFactor * iqr, q3 + IqrFactor * iqr))
    case _ => None
  }

  /** `d[1] >= lowerBound && d[1] <= upperBound`; false against NaN bounds. */
  predicate WithinBounds(b: Option<Interval>, p: Point) {
    b.Some? && b.value.lo <= p.y && p.y <= b.value.hi
  }

  /** `filterOutliers`: the points whose value lies within the outlier bounds,
      inclusive, in their order, each occurrence kept. */
  function FilterOutliers(ps: seq<Point>): (r: seq<Point>)
    ensures IsSubseq(r, ps)
    ensures forall p :: p in r <==> p in ps && WithinBounds(OutlierBounds(ps), p)
    ensures |r| == Count(ps, (p: Point) => WithinBounds(OutlierBounds(ps), p))
  {
    var b := OutlierBounds(ps);
    var r := Filter(ps, (p: Point) => WithinBounds(b, p));
    FilterExact(ps, (p: Point) => WithinBounds(b, p));
    r
  }

  /** Every point whose value lies between the two quartiles survives the
      outlier filter. */
  lemma KeepsInterquartile(ps: seq<Point>, p: Point)
    requires p in ps
    requires Quantile(Ys(ps), 0.25).value <= p.y <= Quantile(Ys(ps), 0.75).value
    ensures p in FilterOutliers(ps)
  {
  }

  /** The intermediate arrays of one series' reduction, named as in the source. */
  datatype Stages = Stages(valid: seq<Point>, sampled: seq<Point>, filtered: seq<Point>, final: seq<Point>)

  /** Sampling at `stride`, the outlier filter, and the fallback
      `filtered.length > 50 ? filtered : sampled`. */
  function Reduce(valid: seq<Point>, stride: nat): (st: Stages)
    requires stride >= 1
    ensures st.valid == valid
  {
    var sampled := Sample(valid, stride);
    var filtered := FilterOutliers(sampled);
    Stages(valid, sampled, filtered, if |filtered| > FallbackThreshold then filtered else sampled)
  }

  /** What the reduction promises: the sample is every `stride`-th valid point;
      the filtered series is the part of the sample within the outlier bounds,
      one copy for each sampled point within them;
      the final series is the filtered one exactly when that has more than 50
      points and the sample otherwise; and the final series is an
      order-preserving subsequence of the valid points. */
  lemma ReduceSpec(valid: seq<Point>, stride: nat)
    requires stride >= 1
    ensures var st := Reduce(valid, stride);
      && |st.sampled| == CeilDiv(|valid|, stride)
      && (forall j :: 0 <= j < |st.sampled| ==> j * stride < |valid| && st.sampled[j] == valid[j * stride])
      && (forall p :: p in st.filtered <==> p in st.sampled && WithinBounds(OutlierBounds(st.sampled), p))
      && |st.filtered| == Count(st.sampled, (p: Point) => WithinBounds(OutlierBounds(st.sampled), p))
      && (|st.filtered| > FallbackThreshold ==> st.final == st.filtered)
      && (|st.filtered| <= FallbackThreshold ==> st.final == st.sampled)
      && IsSubseq(st.final, st.sampled)
      && IsSubseq(st.final, valid)
  {
    var st := Reduce(valid, stride);
    SampleShape(valid, stride);
    SubseqRefl(st.sampled);
    SubseqTrans(st.final, st.sampled, valid);
  }

  /** The fallback never leaves a series near-empty: the final series is the
      whole sample or has more than 50 points. */
  lemma FinalNotSparse(valid: seq<Point>, stride: nat)
    requires stride >= 1
    ensures var st := Reduce(valid, stride);
      st.final == st.sampled || |st.final| > FallbackThreshold
  {
  }

  /** The reduction leaves nothing exactly when there was nothing valid: a
      non-empty series has a non-empty sample, and the fallback only swaps it
      for a filtered series of more than 50 points. */
  lemma FinalEmpty(valid: seq<Point>, stride: nat)
    requires stride >= 1
    ensures Reduce(valid, stride).final == [] <==> valid == []
  {
  }


  /** A sample of at most 50 points is always used as it is: the outlier
      filter cannot drop anything from it. */
  lemma SmallSampleUnfiltered(valid: seq<Point>, stride: nat)
    requires stride >= 1
    requires CeilDiv(|valid|, stride) <= FallbackThreshold
    ensures Reduce(valid, stride).final == Sample(valid, stride)
  {
    var st := Reduce(valid, stride);
    SampleShape(valid, stride);
    SubseqLength(st.filtered, st.sampled);
  }
}
