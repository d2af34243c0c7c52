/** The small failure-compatible wrapper used for JavaScript's `undefined`
    results (of `d3.quantile`, `d3.extent`, `d3.min` on an empty array) and for
    the `TypeError` a multi-series projection can throw. */
module Wrappers {
  datatype Option<+T> = None | Some(value: T)
}

/** The chart's input: a raw series of `[x, y]` entries whose `y` is a scalar
    cell (single series) or an array of cells (multi-series). */
module Values {
  import opened Wrappers

  /** A JavaScript value standing where a number is expected. `Num` is a
      number other than NaN (there are no infinities among the reals, so
      `Infinity`, which JavaScript lets through, has no cell here); `Other` is
      anything else (a string, a boolean, an object). */
  datatype Cell = Null | Undefined | NaN | Num(v: real) | Other

  /** The second component `d[1]` of an entry. */
  datatype Value = Scalar(cell: Cell) | Array(cells: seq<Cell>)

  /** One raw entry `[x, y]`. */
  datatype Entry = Entry(x: real, value: Value)

  /** An entry narrowed to one series: `[d[0], cell]`, the cell not yet checked. */
  datatype Reading = Reading(x: real, y: Cell)

  /** A reading whose value passed the validity check. */
  datatype Point = Point(x: real, y: real)

  /** `typeof c === "number"`: NaN is a number to JavaScript. */
  predicate IsNumberType(c: Cell) {
    c.Num? || c.NaN?
  }

  /** `c !== null && typeof c === "number" && !isNaN(c)` (src/components/Chart.js:72).
      Every number except NaN passes. */
  predicate IsValidValue(c: Cell): (b: bool)
    ensures b <==> c.Num?
  {
    c != Null && IsNumberType(c) && c != NaN
  }

  /** `Array.isArray(d[1])`. */
  predicate IsArrayValue(v: Value) {
    v.Array?
  }

  /** The single-series view of an entry: `[d[0], d[1]]`. An array in the value
      position is an object to `typeof`, so it reads as `Other` and never passes
      the validity check. */
  function ScalarReading(e: Entry): (r: Reading)
    ensures r.x == e.x
    ensures IsValidValue(r.y) <==> e.value.Scalar? && e.value.cell.Num?
  {
    match e.value
    case Scalar(c) => Reading(e.x, c)
    case Array(_) => Reading(e.x, Other)
  }

  /** `d[1][k]` for one entry. Indexing an array past its end, or a number,
      gives `undefined`; indexing `null` or `undefined` throws a `TypeError`,
      which is `None` here. */
  function ColumnCell(v: Value, k: nat): (r: Option<Cell>)
    ensures r.None? <==> v == Scalar(Null) || v == Scalar(Undefined)
    ensures r.Some? && IsValidValue(r.value) <==> v.Array? && k < |v.cells| && v.cells[k].Num?
  {
    match v
    case Array(cs) => if k < |cs| then Some(cs[k]) else Some(Undefined)
    case Scalar(c) =>
      match c
      case Null => None
      case Undefined => None
      case Other => Some(Other)
      case _ => Some(Undefined)
  }

  /** `data.map(d => [d[0], d[1][k]])`, or `None` when some entry throws. */
  function ColumnReadings(data: seq<Entry>, k: nat): (r: Option<seq<Reading>>)
    ensures r.None? <==> exists i :: 0 <= i < |data| && ColumnCell(data[i].value, k).None?
    ensures r.Some? ==> |r.value| == |data|
    ensures r.Some? ==> forall i :: 0 <= i < |data| ==>
      r.value[i] == Reading(data[i].x, ColumnCell(data[i].value, k).value)
  {
    if data == [] then Some([])
    else
      match ColumnCell(data[0].value, k)
      case None => None
      case Some(c) =>
        match ColumnReadings(data[1..], k)
        case None => None
        case Some(rest) => Some([Reading(data[0].x, c)] + rest)
  }
}
