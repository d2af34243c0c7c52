/** Stride sampling: `stride = Math.max(1, Math.floor(n / 200))` and
    `data.filter((_, i) => i % stride === 0)`
    (src/components/Chart.js:76-78 and 169-173). */
module Sampling {
  import opened Seqs

  /** The number of points the sampler aims at ("200 points max"). */
  const TargetPoints: nat := 200

  /** `Math.max(1, Math.floor(n / 200))`; `n` is a length, so the floor of the
      quotient is Dafny's division. */
  function StrideFor(n: nat): (k: nat)
    ensures k >= 1
    ensures n < 2 * TargetPoints ==> k == 1
    ensures n >= TargetPoints ==> k * TargetPoints <= n < (k + 1) * TargetPoints
  {
    var q := n / TargetPoints;
    if q > 1 then q else 1
  }

  /** `Math.ceil(a / b)` for naturals. */
  function CeilDiv(a: nat, b: nat): nat
    requires b >= 1
  {
    (a + b - 1) / b
  }

  /** The elements of `s` from index `i` on whose index is a multiple of `k`:
      the index-filter of the source, one index at a time. */
  function SampleFrom<T>(s: seq<T>, k: nat, i: nat): seq<T>
    requires k >= 1
    decreases |s| - i
  {
    if i >= |s| then []
    else if i % k == 0 then [s[i]] + SampleFrom(s, k, i + 1)
    else SampleFrom(s, k, i + 1)
  }

  /** `s.filter((_, i) => i % k === 0)`. */
  function Sample<T>(s: seq<T>, k: nat): seq<T>
    requires k >= 1
  {
    SampleFrom(s, k, 0)
  }

  /** The sample is the sequence `s[0], s[k], s[2k], ...`: its length is
      `ceil(|s| / k)`, its `j`-th element is `s[j * k]`, it starts with `s[0]`,
      every index that is a multiple of `k` is in it, and it is a subsequence
      of `s`. */
  lemma SampleShape<T>(s: seq<T>, k: nat)
    requires k >= 1
    ensures |Sample(s, k)| == CeilDiv(|s|, k)
    ensures forall j :: 0 <= j < |Sample(s, k)| ==> j * k < |s| && Sample(s, k)[j] == s[j * k]
    ensures forall i :: 0 <= i < |s| && i % k == 0 ==> i / k < |Sample(s, k)| && Sample(s, k)[i / k] == s[i]
    ensures |s| > 0 ==> Sample(s, k) != [] && Sample(s, k)[0] == s[0]
    ensures IsSubseq(Sample(s, k), s)
  {
    CeilZero(k);
    SampleFromLength(s, k, 0);
    SampleFromSubseq(s, k, 0);
    assert s[0..] == s;
    SampleElements(s, k);
    SampleMultiples(s, k);
    MulBelowCeil(0, |s|, k);
  }

  lemma SampleElements<T>(s: seq<T>, k: nat)
    requires k >= 1
    ensures forall j :: 0 <= j < |Sample(s, k)| ==> j * k < |s| && Sample(s, k)[j] == s[j * k]
  {
    CeilZero(k);
    forall j | 0 <= j < |Sample(s, k)|
      ensures j * k < |s| && Sample(s, k)[j] == s[j * k]
    {
      SampleFromAt(s, k, 0, j);
    }
  }

  lemma SampleMultiples<T>(s: seq<T>, k: nat)
    requires k >= 1
    ensures forall i :: 0 <= i < |s| && i % k == 0 ==> i / k < |Sample(s, k)| && Sample(s, k)[i / k] == s[i]
  {
    forall i | 0 <= i < |s| && i % k == 0
      ensures i / k < |Sample(s, k)| && Sample(s, k)[i / k] == s[i]
    {
      SampleHit(s, k, i, i / k);
    }
  }

  /** Index `i = q * k` of `s` is element `q` of the sample. */
  lemma SampleHit<T>(s: seq<T>, k: nat, i: nat, q: nat)
    requires k >= 1 && i < |s| && i % k == 0 && q == i / k
    ensures q < |Sample(s, k)| && Sample(s, k)[q] == s[i]
  {
    CeilZero(k);
    SampleFromLength(s, k, 0);
    DivMul(i, k);
    MulBelowCeil(q, |s|, k);
    SampleFromAt(s, k, 0, q);
  }

  lemma CeilZero(k: nat)
    requires k >= 1
    ensures CeilDiv(0, k) == 0
  {
    DivUnique(k - 1, k, 0, k - 1);
  }

  lemma {:induction false} SampleFromLength<T>(s: seq<T>, k: nat, i: nat)
    requires k >= 1 && i <= |s|
    ensures |SampleFrom(s, k, i)| == CeilDiv(|s|, k) - CeilDiv(i, k)
    decreases |s| - i
  {
    if i < |s| {
      SampleFromLength(s, k, i + 1);
      CeilStep(i, k);
      CeilMonotone(i + 1, |s|, k);
    }
  }

  lemma {:induction false} SampleFromAt<T>(s: seq<T>, k: nat, i: nat, j: nat)
    requires k >= 1 && i <= |s| && j < |SampleFrom(s, k, i)|
    ensures (CeilDiv(i, k) + j) * k < |s|
    ensures SampleFrom(s, k, i)[j] == s[(CeilDiv(i, k) + j) * k]
    decreases |s| - i
  {
    var c := CeilDiv(i, k);
    CeilStep(i, k);
    if i % k == 0 {
      if j == 0 {
        assert c * k == i;
      } else {
        SampleFromAt(s, k, i + 1, j - 1);
        assert c + j == CeilDiv(i + 1, k) + (j - 1);
      }
    } else {
      SampleFromAt(s, k, i + 1, j);
    }
  }

  lemma {:induction false} SampleFromSubseq<T>(s: seq<T>, k: nat, i: nat)
    requires k >= 1 && i <= |s|
    ensures IsSubseq(SampleFrom(s, k, i), s[i..])
    decreases |s| - i
  {
    if i < |s| {
      SampleFromSubseq(s, k, i + 1);
      assert s[i..][1..] == s[i + 1..];
    }
  }

  /** With a stride computed from the length itself (the single-series case):
      below 400 points nothing is dropped, at 200 points or more at least 200
      are kept, and the sample never exceeds 399 points. The "200 points max"
      of the source's comment is therefore not what the code does. */
  lemma SampleCountOwnLength(n: nat)
    ensures n < 2 * TargetPoints ==> CeilDiv(n, StrideFor(n)) == n
    ensures n >= TargetPoints ==> CeilDiv(n, StrideFor(n)) >= TargetPoints
    ensures CeilDiv(n, StrideFor(n)) < 2 * TargetPoints
  {
    var k := StrideFor(n);
    if n >= 2 * TargetPoints {
      assert k >= 2;
      // n < 200 k + 200, so ceil(n / k) <= (200 k + 199 + k - 1) / k <= 300
      CeilMonotone(n, 200 * k + 199, k);
      CeilBound(k);
    }
    if n >= TargetPoints {
      CeilAtLeast(n, k, TargetPoints);
    }
  }

  /** With a stride computed from the raw length `n` and applied to a column
      that filtering made no longer than `n` (the multi-series case), the
      sample still never exceeds 399 points, and is the whole column when
      `n < 400`. */
  lemma SampleCountRawLength(len: nat, n: nat)
    requires len <= n
    ensures CeilDiv(len, StrideFor(n)) <= CeilDiv(n, StrideFor(n)) < 2 * TargetPoints
    ensures n < 2 * TargetPoints ==> CeilDiv(len, StrideFor(n)) == len
  {
    SampleCountOwnLength(n);
    CeilMonotone(len, n, StrideFor(n));
  }

  // ---- arithmetic on quotients ----

  lemma DivUnique(x: nat, k: nat, q: nat, r: nat)
    requires k >= 1 && r < k && x == q * k + r
    ensures x / k == q && x % k == r
  {
    var q', r' := x / k, x % k;
    assert x == q' * k + r';
    if q' > q {
      MulLe(q + 1, q', k);
    } else if q' < q {
      MulLe(q' + 1, q, k);
    }
  }

  lemma MulLe(a: nat, b: nat, k: nat)
    requires a <= b
    ensures a * k <= b * k
  {
  }

  lemma DivMul(i: nat, k: nat)
    requires k >= 1 && i % k == 0
    ensures (i / k) * k == i
  {
  }

  lemma CeilStep(i: nat, k: nat)
    requires k >= 1
    ensures i % k == 0 ==> CeilDiv(i + 1, k) == CeilDiv(i, k) + 1 && CeilDiv(i, k) * k == i
    ensures i % k != 0 ==> CeilDiv(i + 1, k) == CeilDiv(i, k)
  {
    var q, r := i / k, i % k;
    assert i == q * k + r;
    if r == 0 {
      DivUnique(i + k - 1, k, q, k - 1);
      DivUnique(i + k, k, q + 1, 0);
    } else {
      DivUnique(i + k - 1, k, q + 1, r - 1);
      DivUnique(i + k, k, q + 1, r);
    }
  }

  lemma CeilMonotone(a: nat, b: nat, k: nat)
    requires k >= 1 && a <= b
    ensures CeilDiv(a, k) <= CeilDiv(b, k)
  {
    var x, y := a + k - 1, b + k - 1;
    assert x == (x / k) * k + x % k && y == (y / k) * k + y % k;
    if x / k > y / k {
      MulLe(y / k + 1, x / k, k);
    }
  }

  /** `t < ceil(n / k)` exactly when `t * k < n`. */
  lemma MulBelowCeil(t: nat, n: nat, k: nat)
    requires k >= 1
    ensures t < CeilDiv(n, k) <==> t * k < n
  {
    var x := n + k - 1;
    var c := x / k;
    assert x == c * k + x % k;
    if t < c {
      MulLe(t + 1, c, k);
      assert (t + 1) * k == t * k + k;
    } else {
      MulLe(c, t, k);
    }
  }

  lemma CeilBound(k: nat)
    requires k >= 2
    ensures CeilDiv(200 * k + 199, k) <= 300
  {
    // (200 k + 199 + k - 1) / k = 201 + 198 / k, and 198 / k <= 99
    DivUnique(201 * k + 198, k, 201 + 198 / k, 198 % k);
  }

  /** `ceil(n / k) >= m` whenever `m * k <= n`. */
  lemma CeilAtLeast(n: nat, k: nat, m: nat)
    requires k >= 1 && m * k <= n
    ensures CeilDiv(n, k) >= m
  {
    if m > 0 {
      MulBelowCeil(m - 1, n, k);
      assert (m - 1) * k == m * k - k;
    }
  }
}
