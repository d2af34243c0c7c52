/** The d3 statistics the pipeline calls: `d3.quantile` (linear interpolation
    between order statistics of the sorted values), and `d3.extent`, `d3.min`,
    `d3.max` (undefined on an empty array). */
module Stats {
  import opened Wrappers

  datatype Interval = Interval(lo: real, hi: real)

  predicate Sorted(s: seq<real>) {
    forall i, j :: 0 <= i <= j < |s| ==> s[i] <= s[j]
  }

  /** `x` inserted into ascending `s` before the first value not below it. */
  function Insert(x: real, s: seq<real>): (r: seq<real>)
    requires Sorted(s)
    ensures Sorted(r)
    ensures multiset(r) == multiset(s) + multiset{x}
    ensures |r| == |s| + 1
    ensures r[0] == x || (s != [] && r[0] == s[0])
  {
    if s == [] || x <= s[0] then [x] + s
    else
      var rest := Insert(x, s[1..]);
      assert s == [s[0]] + s[1..];
      [s[0]] + rest
  }

  /** The values in ascending order. */
  function Sort(s: seq<real>): (r: seq<real>)
    ensures Sorted(r)
    ensures multiset(r) == multiset(s)
    ensures |r| == |s|
  {
    if s == [] then []
    else
      assert s == [s[0]] + s[1..];
      Insert(s[0], Sort(s[1..]))
  }

  /** Two ascending sequences holding the same values start with the same value. */
  lemma SortedHeads(a: seq<real>, b: seq<real>)
    requires Sorted(a) && Sorted(b) && multiset(a) == multiset(b) && a != [] && b != []
    ensures a[0] == b[0]
  {
    assert a[0] in multiset(b) && b[0] in multiset(a);
    var j :| 0 <= j < |b| && b[j] == a[0];
    var i :| 0 <= i < |a| && a[i] == b[0];
  }

  /** Two ascending sequences holding the same values are equal. */
  lemma {:induction false} SortedUnique(a: seq<real>, b: seq<real>)
    requires Sorted(a) && Sorted(b) && multiset(a) == multiset(b)
    ensures a == b
    decreases |a|
  {
    assert |a| == |multiset(a)| == |b|;
    if a != [] {
      SortedHeads(a, b);
      DropFirst(a);
      DropFirst(b);
      SortedTail(a);
      SortedTail(b);
      SortedUnique(a[1..], b[1..]);
    }
  }

  lemma SortedTail(a: seq<real>)
    requires a != [] && Sorted(a)
    ensures Sorted(a[1..])
  {
    assert forall i :: 0 <= i < |a| - 1 ==> a[1..][i] == a[i + 1];
  }

  /** Dropping the first value removes one occurrence of it. */
  lemma DropFirst(a: seq<real>)
    requires a != []
    ensures a == [a[0]] + a[1..]
    ensures multiset(a[1..]) == multiset(a) - multiset{a[0]}
  {
    assert a == [a[0]] + a[1..];
  }

  /** `Sort` is the one ascending arrangement of its input: whatever order the
      values come in, any ascending sequence of the same values is its result. */
  lemma SortUnique(s: seq<real>, t: seq<real>)
    requires Sorted(t) && multiset(t) == multiset(s)
    ensures Sort(s) == t
  {
    SortedUnique(Sort(s), t);
  }

  /** The smallest value. */
  function Min(s: seq<real>): (m: real)
    requires s != []
    ensures m in s
    ensures forall i :: 0 <= i < |s| ==> m <= s[i]
  {
    if |s| == 1 then s[0]
    else
      var m' := Min(s[1..]);
      assert forall i :: 1 <= i < |s| ==> s[i] == s[1..][i - 1];
      if s[0] <= m' then s[0] else m'
  }

  /** The largest value. */
  function Max(s: seq<real>): (m: real)
    requires s != []
    ensures m in s
    ensures forall i :: 0 <= i < |s| ==> s[i] <= m
  {
    if |s| == 1 then s[0]
    else
      var m' := Max(s[1..]);
      assert forall i :: 1 <= i < |s| ==> s[i] == s[1..][i - 1];
      if s[0] >= m' then s[0] else m'
  }

  /** `d3.extent(values)`: `[min, max]`. `None` stands for the
      `[undefined, undefined]` d3 returns on an empty array; the chart then
      computes NaN domain ends from it. */
  function Extent(s: seq<real>): (e: Option<Interval>)
    ensures e.None? <==> s == []
    ensures e.Some? ==> e.value.lo in s && e.value.hi in s
    ensures e.Some? ==> forall i :: 0 <= i < |s| ==> e.value.lo <= s[i] <= e.value.hi
  {
    if s == [] then None else Some(Interval(Min(s), Max(s)))
  }

  /** In a sorted sequence the first element is the minimum and the last the maximum. */
  lemma SortedEnds(s: seq<real>)
    requires s != []
    ensures Sort(s)[0] == Min(s) && Sort(s)[|s| - 1] == Max(s)
  {
    var t := Sort(s);
    assert t[0] in multiset(s) && t[|t| - 1] in multiset(s);
    assert Min(s) in multiset(t) && Max(s) in multiset(t);
    var i :| 0 <= i < |t| && t[i] == Min(s);
    var j :| 0 <= j < |t| && t[j] == Max(s);
    assert t[0] <= t[i] && t[j] <= t[|t| - 1];
    var a :| 0 <= a < |s| && s[a] == t[0];
    var b :| 0 <= b < |s| && s[b] == t[|t| - 1];
  }

  /** `d3.quantile(values, p)`: undefined on an empty array, otherwise the
      quantile of the values in ascending order. */
  function Quantile(s: seq<real>, p: real): (q: Option<real>)
    ensures q.None? <==> s == []
  {
    if s == [] then None else Some(SortedQuantile(Sort(s), p))
  }

  /** The quantile of ascending values `t`: the minimum when `p <= 0` or there
      is one value, the maximum when `p >= 1`, otherwise the linear
      interpolation at rank `(n - 1) * p` between the two neighbouring order
      statistics. */
  function SortedQuantile(t: seq<real>, p: real): real
    requires t != []
  {
    var n := |t|;
    if p <= 0.0 || n < 2 then t[0]
    else if p >= 1.0 then t[n - 1]
    else
      var h := Rank(n, p);
      RankBounds(n, p);
      var i0 := h.Floor;
      Lerp(t[i0], t[i0 + 1], h - i0 as real)
  }

  /** The point at fraction `f` of the way from `a` to `b`. */
  function Lerp(a: real, b: real, f: real): real {
    a + (b - a) * f
  }

  /** The fractional rank `(n - 1) * p` at which the quantile is read. */
  function Rank(n: nat, p: real): real {
    (n - 1) as real * p
  }

  lemma RankMonotone(n: nat, p: real, p': real)
    requires n >= 1 && p <= p'
    ensures Rank(n, p) <= Rank(n, p')
  {
    var c := (n - 1) as real;
    MulMonotone(c, p, p');
    assert Rank(n, p) == c * p && Rank(n, p') == c * p';
  }

  lemma RankBounds(n: nat, p: real)
    requires n >= 2 && 0.0 < p < 1.0
    ensures 0.0 < Rank(n, p) < (n - 1) as real
    ensures 0 <= Rank(n, p).Floor < n - 1
  {
    MulMonotone((n - 1) as real, p, 1.0);
    assert (n - 1) as real * p != (n - 1) as real;
  }

  /** A quantile of ascending values lies between the first and the last. */
  lemma SortedQuantileWithin(t: seq<real>, p: real)
    requires t != [] && Sorted(t)
    ensures t[0] <= SortedQuantile(t, p) <= t[|t| - 1]
  {
    var n := |t|;
    if !(p <= 0.0 || n < 2) && p < 1.0 {
      RankBounds(n, p);
      var h := Rank(n, p);
      var i0 := h.Floor;
      assert t[0] <= t[i0] <= t[i0 + 1] <= t[n - 1];
      Interpolate(t[i0], t[i0 + 1], h - i0 as real);
    }
  }

  /** Every quantile lies between the smallest and the largest value. */
  lemma QuantileWithin(s: seq<real>, p: real)
    requires s != []
    ensures Quantile(s, p).Some?
    ensures Min(s) <= Quantile(s, p).value <= Max(s)
  {
    SortedEnds(s);
    SortedQuantileWithin(Sort(s), p);
  }

  /** Linear interpolation between `a <= b` at fraction `f` in [0, 1] stays in [a, b]. */
  lemma Interpolate(a: real, b: real, f: real)
    requires a <= b && 0.0 <= f <= 1.0
    ensures a <= Lerp(a, b, f) <= b
  {
    MulMonotone(b - a, 0.0, f);
    MulMonotone(b - a, f, 1.0);
  }

  lemma {:induction false} SortedQuantileMonotone(t: seq<real>, p: real, p': real)
    requires t != [] && Sorted(t) && p <= p'
    ensures SortedQuantile(t, p) <= SortedQuantile(t, p')
  {
    var n := |t|;
    SortedQuantileWithin(t, p);
    SortedQuantileWithin(t, p');
    if p <= 0.0 || n < 2 || p' >= 1.0 {
    } else {
      RankBounds(n, p);
      RankBounds(n, p');
      var h, h' := Rank(n, p), Rank(n, p');
      RankMonotone(n, p, p');
      var i0, j0 := h.Floor, h'.Floor;
      var f, g := h - i0 as real, h' - j0 as real;
      Interpolate(t[i0], t[i0 + 1], f);
      Interpolate(t[j0], t[j0 + 1], g);
      if i0 == j0 {
        LerpMonotone(t[i0], t[i0 + 1], f, g);
      } else {
        assert t[i0 + 1] <= t[j0];
      }
    }
  }

  /** A larger probability never gives a smaller quantile; in particular the
      first quartile never exceeds the third. */
  lemma QuantileMonotone(s: seq<real>, p: real, p': real)
    requires s != [] && p <= p'
    ensures Quantile(s, p).Some? && Quantile(s, p').Some?
    ensures Quantile(s, p).value <= Quantile(s, p').value
  {
    SortedQuantileMonotone(Sort(s), p, p');
  }

  lemma LerpMonotone(a: real, b: real, f: real, g: real)
    requires a <= b && f <= g
    ensures Lerp(a, b, f) <= Lerp(a, b, g)
  {
    MulMonotone(b - a, f, g);
  }

  lemma MulMonotone(c: real, x: real, y: real)
    requires 0.0 <= c && x <= y
    ensures c * x <= c * y
  {
    assert c * y - c * x == c * (y - x);
  }
}
