/** The numbers handed to d3 besides the data: plot size and view box
    (src/components/Chart.js:13-33), padded scale domains (101-112, 203-224)
    and the legend rows of a multi-series chart (271-326). */
module Layout {
  import opened Wrappers
  import opened Stats

  const MarginTop: int := 40
  const MarginRight: int := 120
  const MarginBottom: int := 50
  const MarginLeft: int := 80
  const MinWidth: int := 300
  const MinHeight: int := 200
  /** Used in place of a container height of 0 (`clientHeight || 400`). */
  const FallbackHeight: int := 400

  /** The plot area and the view box `0 0 viewWidth viewHeight`. */
  datatype Frame = Frame(width: int, height: int, viewWidth: int, viewHeight: int)

  /** The container's `clientWidth` and `clientHeight`, which are whole
      non-negative numbers. */
  function PlotFrame(containerWidth: nat, containerHeight: nat): (f: Frame)
    ensures f.width >= MinWidth && f.height >= MinHeight
    ensures f.width >= containerWidth - MarginLeft - MarginRight
    ensures f.width == MinWidth || f.width == containerWidth - MarginLeft - MarginRight
    ensures containerHeight > 0 ==> f.height >= containerHeight - MarginTop - MarginBottom
    ensures containerHeight > 0 ==> f.height == MinHeight || f.height == containerHeight - MarginTop - MarginBottom
    ensures containerHeight == 0 ==> f.height == FallbackHeight - MarginTop - MarginBottom
    ensures f.viewWidth == f.width + MarginLeft + MarginRight
    ensures f.viewHeight == f.height + MarginTop + MarginBottom
    ensures f.viewWidth >= containerWidth
    ensures containerHeight > 0 ==> f.viewHeight >= containerHeight
  {
    var h := if containerHeight == 0 then FallbackHeight else containerHeight;
    var width := Max2(containerWidth - MarginLeft - MarginRight, MinWidth);
    var height := Max2(h - MarginTop - MarginBottom, MinHeight);
    Frame(width, height, width + MarginLeft + MarginRight, height + MarginTop + MarginBottom)
  }

  /** `Math.max(a, b)`. */
  function Max2(a: int, b: int): (m: int)
    ensures m >= a && m >= b && (m == a || m == b)
  {
    if a >= b then a else b
  }

  /** A scale's domain, `[lo - pad, hi + pad]` with `pad = (hi - lo) * fraction`.
      An undefined extent stays undefined (d3 then gets NaN). */
  function Padded(e: Option<Interval>, fraction: real): (d: Option<Interval>)
    ensures d.Some? <==> e.Some?
    ensures d.Some? ==> d.value.hi - d.value.lo == (e.value.hi - e.value.lo) * (1.0 + 2.0 * fraction)
    ensures d.Some? ==> d.value.lo + d.value.hi == e.value.lo + e.value.hi
  {
    match e
    case None => None
    case Some(iv) =>
      var pad := (iv.hi - iv.lo) * fraction;
      Some(Interval(iv.lo - pad, iv.hi + pad))
  }

  /** A padded domain contains the extent it was built from, strictly on both
      sides when the extent has a positive width and the fraction is positive;
      an extent of zero width gets no padding at all, so the domain is a single
      point. */
  lemma PaddedContains(iv: Interval, fraction: real)
    requires iv.lo <= iv.hi && fraction >= 0.0
    ensures var d := Padded(Some(iv), fraction).value;
      && d.lo <= iv.lo && iv.hi <= d.hi
      && (iv.lo < iv.hi && fraction > 0.0 ==> d.lo < iv.lo && iv.hi < d.hi)
      && (iv.lo == iv.hi ==> d.lo == d.hi == iv.lo)
  {
    var pad := (iv.hi - iv.lo) * fraction;
    assert Padded(Some(iv), fraction).value == Interval(iv.lo - pad, iv.hi + pad);
    ProductNonNegative(iv.hi - iv.lo, fraction);
    if iv.lo < iv.hi && fraction > 0.0 {
      ProductPositive(iv.hi - iv.lo, fraction);
    }
  }

  lemma ProductNonNegative(a: real, b: real)
    requires a >= 0.0 && b >= 0.0
    ensures a * b >= 0.0
  {
  }

  lemma ProductPositive(a: real, b: real)
    requires a > 0.0 && b > 0.0
    ensures a * b > 0.0
  {
  }

  /** `d3.scaleLinear().domain(domain).range(range)`. */
  datatype Scale = Scale(domain: Option<Interval>, range: Interval)

  /** The x scale maps onto `[0, width]`; the y scale onto `[height, 0]`, so a
      higher value is drawn nearer the top. */
  function XScale(domain: Option<Interval>, f: Frame): (s: Scale)
    ensures s.range.lo == 0.0 && s.range.hi == f.width as real
  {
    Scale(domain, Interval(0.0, f.width as real))
  }

  function YScale(domain: Option<Interval>, f: Frame): (s: Scale)
    ensures s.range.lo == f.height as real && s.range.hi == 0.0
  {
    Scale(domain, Interval(f.height as real, 0.0))
  }

  /** The stroke colours of the three series, in series order. */
  const Palette: seq<string> := ["#2196F3", "#4CAF50", "#F44336"]

  /** Vertical distance between legend rows. */
  const RowSpacing: int := 20

  /** One legend row: a swatch line from `(x1, y1)` to `(x2, y2)` and a label
      at `(labelX, labelY)`. */
  datatype LegendRow = LegendRow(x1: int, y1: int, x2: int, y2: int, color: string,
                                 labelX: int, labelY: int, text: string)

  /** The legend group, translated to `(offsetX, offsetY)`. */
  datatype Legend = Legend(offsetX: int, offsetY: int, rows: seq<LegendRow>)

  /** The legend of a multi-series chart whose plot is `width` wide. */
  function LegendFor(width: int): (l: Legend)
    ensures l.offsetX == width - 100 && l.offsetY == 0
    ensures |l.rows| == |Palette|
    ensures forall k :: 0 <= k < |l.rows| ==>
      var row := l.rows[k];
      && row.x1 == 0 && row.x2 == 20 && row.y1 == row.y2 == RowSpacing * k
      && row.labelX == 25 && row.labelY == RowSpacing * k + 4
      && row.color == Palette[k]
    ensures forall k :: 0 <= k < |l.rows| ==> l.rows[k].text == "Series " + [DigitChar(k + 1)]
    ensures forall i, j :: 0 <= i < j < |l.rows| ==>
      l.rows[i].color != l.rows[j].color && l.rows[i].text != l.rows[j].text
  {
    var rows := [
      LegendRow(0, 0, 20, 0, "#2196F3", 25, 4, "Series 1"),
      LegendRow(0, 20, 20, 20, "#4CAF50", 25, 24, "Series 2"),
      LegendRow(0, 40, 20, 40, "#F44336", 25, 44, "Series 3")
    ];
    assert rows[0].text[7] == '1' && rows[1].text[7] == '2' && rows[2].text[7] == '3';
    Legend(width - 100, 0, rows)
  }

  /** The decimal digit of `d`. */
  function DigitChar(d: nat): char
    requires d < 10
  {
    "0123456789"[d]
  }
}
