/**
 * The CSV point decoder: the header row is skipped, and every later row
 * becomes one point whose coordinates are fields 2, 3 and 4 divided by
 * field 5 (a perspective divide). Rows come already split into fields; the
 * number syntax is the parameter `parse`, which stands for Python's `float()`.
 */
module RowDecoder {
  import opened Wrappers
  import opened ImportErrors

  /** One CSV line, split into its fields. */
  type Row = seq<string>

  /** A reader of one numeric field: `Some(v)` where `float()` returns `v`, `None` where it raises. */
  type Parser = string -> Option<real>

  /** A vertex position after the perspective divide. */
  datatype Point = Point(x: real, y: real, z: real)

  /** Column numbers of the `headers` table. */
  const XColumn: nat := 2
  const YColumn: nat := 3
  const ZColumn: nat := 4
  const WColumn: nat := 5

  /** `float(row[k])`: an IndexError on a short row, a ValueError on a field that is not a number. */
  function Field(parse: Parser, row: Row, k: nat): (r: Result<real, ImportError>)
    ensures r.Ok? <==> k < |row| && parse(row[k]).Some?
    ensures r.Ok? ==> r.value == parse(row[k]).value
    ensures k >= |row| ==> r == Err(RowIndexError(k))
    ensures k < |row| && parse(row[k]).None? ==> r == Err(FloatValueError(row[k]))
  {
    if k < |row| then
      match parse(row[k])
      case Some(v) => Ok(v)
      case None => Err(FloatValueError(row[k]))
    else Err(RowIndexError(k))
  }

  /** `float(row[k]) / float(row[5])`, evaluated left operand first. */
  function Divided(parse: Parser, row: Row, k: nat): Result<real, ImportError> {
    match Field(parse, row, k)
    case Err(e) => Err(e)
    case Ok(numerator) =>
      match Field(parse, row, WColumn)
      case Err(e) => Err(e)
      case Ok(w) => if w == 0.0 then Err(ZeroDivisionError) else Ok(numerator / w)
  }

  /** The field values of a row that decodes: at least six fields, 2 to 5 numeric, w non-zero. */
  ghost predicate Decodable(parse: Parser, row: Row) {
    |row| > WColumn &&
    parse(row[XColumn]).Some? && parse(row[YColumn]).Some? && parse(row[ZColumn]).Some? &&
    parse(row[WColumn]).Some? && parse(row[WColumn]).value != 0.0
  }

  /** The point one data row yields, or the first exception lines 68-70 raise on it. */
  function DecodeRow(parse: Parser, row: Row): (r: Result<Point, ImportError>)
    ensures r.Ok? <==> Decodable(parse, row)
    ensures r.Ok? ==>
      var w := parse(row[WColumn]).value;
      r.value == Point(parse(row[XColumn]).value / w, parse(row[YColumn]).value / w, parse(row[ZColumn]).value / w)
  {
    match Divided(parse, row, XColumn)
    case Err(e) => Err(e)
    case Ok(x) =>
      match Divided(parse, row, YColumn)
      case Err(e) => Err(e)
      case Ok(y) =>
        match Divided(parse, row, ZColumn)
        case Err(e) => Err(e)
        case Ok(z) => Ok(Point(x, y, z))
  }

  /**
   * The points of the data rows in order, or the error of the first row
   * that does not decode (the rows after it are never looked at).
   */
  function DecodeRows(parse: Parser, data: seq<Row>): Result<seq<Point>, ImportError> {
    if data == [] then Ok([])
    else
      match DecodeRows(parse, data[..|data| - 1])
      case Err(e) => Err(e)
      case Ok(points) =>
        match DecodeRow(parse, data[|data| - 1])
        case Err(e) => Err(e)
        case Ok(p) => Ok(points + [p])
  }

  /** The whole file: StopIteration when there is no header row to skip, else the data rows. */
  function DecodeFile(parse: Parser, rows: seq<Row>): Result<seq<Point>, ImportError> {
    if rows == [] then Err(StopIteration) else DecodeRows(parse, rows[1..])
  }

  /** Lines 63-72: skip the header, then append one vertex per row. */
  method ReadVertices(parse: Parser, rows: seq<Row>) returns (r: Result<seq<Point>, ImportError>)
    ensures r == DecodeFile(parse, rows)
  {
    if rows == [] {
      return Err(StopIteration);
    }
    var vertices: seq<Point> := [];
    var k := 1;
    while k < |rows|
      invariant 1 <= k <= |rows|
      invariant DecodeRows(parse, rows[1..k]) == Ok(vertices)
    {
      var row := rows[k];
      assert rows[1..k + 1][..k - 1] == rows[1..k];
      var decoded := DecodeRow(parse, row);
      if decoded.Err? {
        DecodeRowsErrorPersists(parse, rows[1..k + 1], rows[k + 1..]);
        assert rows[1..k + 1] + rows[k + 1..] == rows[1..];
        return Err(decoded.error);
      }
      vertices := vertices + [decoded.value];
      k := k + 1;
    }
    assert rows[1..k] == rows[1..];
    r := Ok(vertices);
  }

  /** Once a prefix of the data fails, appending more rows keeps that same error. */
  lemma {:induction false} DecodeRowsErrorPersists(parse: Parser, data: seq<Row>, more: seq<Row>)
    requires DecodeRows(parse, data).Err?
    ensures DecodeRows(parse, data + more) == DecodeRows(parse, data)
    decreases |more|
  {
    if more == [] {
      assert data + more == data;
    } else {
      var front := more[..|more| - 1];
      assert (data + more)[..|data + more| - 1] == data + front;
      DecodeRowsErrorPersists(parse, data, front);
    }
  }

  /**
   * Decoding succeeds exactly when every data row decodes, and then yields
   * one point per row, in row order.
   */
  lemma {:induction false} DecodeRowsOk(parse: Parser, data: seq<Row>)
    ensures DecodeRows(parse, data).Ok? <==> forall k :: 0 <= k < |data| ==> DecodeRow(parse, data[k]).Ok?
    ensures DecodeRows(parse, data).Ok? ==>
      |DecodeRows(parse, data).value| == |data| &&
      forall k :: 0 <= k < |data| ==> DecodeRows(parse, data).value[k] == DecodeRow(parse, data[k]).value
  {
    if data != [] {
      var front := data[..|data| - 1];
      DecodeRowsOk(parse, front);
      assert forall k :: 0 <= k < |front| ==> front[k] == data[k];
    }
  }

  /**
   * A failed decode reports the error of the first row that does not decode;
   * every row before it decodes.
   */
  lemma {:induction false} DecodeRowsFirstError(parse: Parser, data: seq<Row>)
    requires DecodeRows(parse, data).Err?
    ensures exists k :: (0 <= k < |data| &&
                         (forall j :: 0 <= j < k ==> DecodeRow(parse, data[j]).Ok?) &&
                         DecodeRow(parse, data[k]) == Err(DecodeRows(parse, data).error))
  {
    var front := data[..|data| - 1];
    assert forall j :: 0 <= j < |front| ==> front[j] == data[j];
    if DecodeRows(parse, front).Err? {
      DecodeRowsFirstError(parse, front);
      var k :| 0 <= k < |front| &&
        (forall j :: 0 <= j < k ==> DecodeRow(parse, front[j]).Ok?) &&
        DecodeRow(parse, front[k]) == Err(DecodeRows(parse, front).error);
      assert DecodeRow(parse, data[k]) == Err(DecodeRows(parse, data).error);
    } else {
      DecodeRowsOk(parse, front);
      assert DecodeRow(parse, data[|data| - 1]) == Err(DecodeRows(parse, data).error);
    }
  }

  /**
   * Which exception a row raises, in the order lines 68-70 evaluate:
   * row[2], float(row[2]), row[5], float(row[5]), the division, then the
   * y and z numerators.
   */
  lemma DecodeRowErrors(parse: Parser, row: Row)
    ensures |row| <= XColumn ==> DecodeRow(parse, row) == Err(RowIndexError(XColumn))
    ensures |row| > XColumn && parse(row[XColumn]).None? ==>
      DecodeRow(parse, row) == Err(FloatValueError(row[XColumn]))
    ensures |row| > XColumn && parse(row[XColumn]).Some? && |row| <= WColumn ==>
      DecodeRow(parse, row) == Err(RowIndexError(WColumn))
    ensures |row| > WColumn && parse(row[XColumn]).Some? && parse(row[WColumn]).None? ==>
      DecodeRow(parse, row) == Err(FloatValueError(row[WColumn]))
    ensures |row| > WColumn && parse(row[XColumn]).Some? && parse(row[WColumn]) == Some(0.0) ==>
      DecodeRow(parse, row) == Err(ZeroDivisionError)
    ensures (|row| > WColumn && parse(row[XColumn]).Some? && parse(row[WColumn]).Some? &&
             parse(row[WColumn]).value != 0.0 && parse(row[YColumn]).None?) ==>
            DecodeRow(parse, row) == Err(FloatValueError(row[YColumn]))
    ensures (|row| > WColumn && parse(row[XColumn]).Some? && parse(row[WColumn]).Some? &&
             parse(row[WColumn]).value != 0.0 && parse(row[YColumn]).Some? && parse(row[ZColumn]).None?) ==>
            DecodeRow(parse, row) == Err(FloatValueError(row[ZColumn]))
  {
  }

  /**
   * Fields 0 and 1 and every field after 5 never influence the result: two
   * rows that agree on fields 2 to 5, and are both long enough or of equal
   * length, decode alike.
   */
  lemma DecodeRowIgnoresOtherFields(parse: Parser, row: Row, other: Row)
    requires |row| == |other| || (|row| > WColumn && |other| > WColumn)
    requires forall k :: XColumn <= k <= WColumn && k < |row| ==> row[k] == other[k]
    ensures DecodeRow(parse, row) == DecodeRow(parse, other)
  {
  }

  /** The header row's content never matters. */
  lemma HeaderIgnored(parse: Parser, header: Row, other: Row, data: seq<Row>)
    ensures DecodeFile(parse, [header] + data) == DecodeFile(parse, [other] + data)
  {
  }
}
