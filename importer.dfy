/**
 * The import operator's `execute`: decode the rows, build the mesh, and turn
 * any exception into one ERROR report and CANCELLED, or finish with one INFO
 * report after handing the mesh to the scene.
 */
module Importer {
  import opened Wrappers
  import opened ImportErrors
  import opened RowDecoder
  import opened MeshBuilder
  import Numerals

  datatype Status = Finished | Cancelled

  datatype Level = Info | Error

  /** A report's text: a fixed message, or `str(e)` of the exception caught. */
  datatype Message = Text(text: string) | Raised(error: ImportError)

  datatype Report = Report(level: Level, message: Message)

  /**
   * What one call of `execute` leaves behind: the returned status, the one
   * report issued, and, on success, the mesh as `bm.to_mesh` receives it at
   * line 87 (before `origin_set` at line 99 and `remove_doubles` at line 105).
   */
  datatype Outcome = Outcome(status: Status, report: Report, linked: Option<Mesh>)

  const SuccessMessage := "Mesh imported successfully."

  /** Lines 141-143: the exception is reported and nothing is linked. */
  function CancelledBy(e: ImportError): Outcome {
    Outcome(Cancelled, Report(Error, Raised(e)), None)
  }

  /** The outcome of importing the rows of one CSV file. */
  function ImportSpec(parse: Parser, rows: seq<Row>): Outcome {
    match DecodeFile(parse, rows)
    case Err(e) => CancelledBy(e)
    case Ok(points) =>
      match BuildSpec(points)
      case Err(e) => CancelledBy(e)
      case Ok(mesh) => Outcome(Finished, Report(Info, Text(SuccessMessage)), Some(mesh))
  }

  /** Lines 51-145 without the host calls: decode, build, report once, return the status. */
  method Execute(parse: Parser, rows: seq<Row>) returns (out: Outcome)
    ensures out == ImportSpec(parse, rows)
  {
    var decoded := ReadVertices(parse, rows);
    if decoded.Err? {
      return CancelledBy(decoded.error);
    }
    var built := BuildMesh(decoded.value);
    if built.Err? {
      return CancelledBy(built.error);
    }
    out := Outcome(Finished, Report(Info, Text(SuccessMessage)), Some(built.value));
  }

  /** Every data row decodes: the condition under which decoding succeeds. */
  ghost predicate AllRowsDecode(parse: Parser, rows: seq<Row>) {
    forall k :: 1 <= k < |rows| ==> DecodeRow(parse, rows[k]).Ok?
  }

  /**
   * Exactly one report per call, and it agrees with the status: INFO with the
   * success message and a linked mesh on FINISHED, ERROR with the exception
   * and nothing linked on CANCELLED.
   */
  lemma OneReportAgreesWithStatus(parse: Parser, rows: seq<Row>)
    ensures var out := ImportSpec(parse, rows);
      (out.status == Finished <==> out.report == Report(Info, Text(SuccessMessage))) &&
      (out.status == Finished <==> out.linked.Some?) &&
      (out.status == Cancelled <==> out.report.level == Error && out.report.message.Raised?)
  {
  }

  /** A file without rows fails at `next(reader)`: CANCELLED, nothing built. */
  lemma EmptyFileCancelled(parse: Parser)
    ensures ImportSpec(parse, []) == CancelledBy(StopIteration)
  {
  }

  /**
   * The import finishes exactly when there is a header, every data row
   * decodes, and the number of data rows is not 2 more than a multiple of 3.
   */
  lemma {:induction false} FinishedIff(parse: Parser, rows: seq<Row>)
    ensures ImportSpec(parse, rows).status == Finished <==>
      |rows| > 0 && AllRowsDecode(parse, rows) && (|rows| - 1) % 3 != 2
  {
    if rows != [] {
      var data := rows[1..];
      DecodeRowsOk(parse, data);
      assert (forall k :: 0 <= k < |data| ==> DecodeRow(parse, data[k]).Ok?) <==> AllRowsDecode(parse, rows) by {
        assert forall k :: 0 <= k < |data| ==> data[k] == rows[k + 1];
        assert forall k :: 1 <= k < |rows| ==> rows[k] == data[k - 1];
      }
      if DecodeRows(parse, data).Ok? {
        BuildOkIff(DecodeRows(parse, data).value);
      }
    }
  }

  /**
   * A finished import hands `bm.to_mesh` a mesh with one vertex per data row, vertex k
   * being the perspective-divided point of data row k (the header never
   * contributes), and (|rows| - 1) / 3 faces, face k being (3k, 3k+1, 3k+2).
   */
  lemma FinishedMesh(parse: Parser, rows: seq<Row>)
    requires ImportSpec(parse, rows).status == Finished
    ensures var mesh := ImportSpec(parse, rows).linked.value;
      |mesh.verts| == |rows| - 1 &&
      (forall k :: 0 <= k < |mesh.verts| ==> DecodeRow(parse, rows[k + 1]).Ok? && mesh.verts[k] == DecodeRow(parse, rows[k + 1]).value) &&
      |mesh.faces| == (|rows| - 1) / 3 &&
      (forall k :: 0 <= k < |mesh.faces| ==> mesh.faces[k] == Face(3 * k, 3 * k + 1, 3 * k + 2))
  {
    var data := rows[1..];
    DecodeRowsOk(parse, data);
    var points := DecodeRows(parse, data).value;
    BuildOkIff(points);
    BuildComplete(points);
  }

  /**
   * A cancelled import reports one of three causes: no header row; the
   * exception of the first data row that does not decode, every row before
   * it decoding; or, all rows decoding, the face that asks for vertex
   * |rows| - 1 when the data rows number 2 more than a multiple of 3.
   */
  lemma CancelledCause(parse: Parser, rows: seq<Row>)
    requires ImportSpec(parse, rows).status == Cancelled
    ensures var e := ImportSpec(parse, rows).report.message.error;
      (rows == [] && e == StopIteration) ||
      (exists k :: 1 <= k < |rows| &&
         (forall j :: 1 <= j < k ==> DecodeRow(parse, rows[j]).Ok?) &&
         DecodeRow(parse, rows[k]) == Err(e)) ||
      (|rows| > 0 && AllRowsDecode(parse, rows) && (|rows| - 1) % 3 == 2 && e == VertIndexError(|rows| - 1))
  {
    if rows != [] {
      var data := rows[1..];
      var e := ImportSpec(parse, rows).report.message.error;
      if DecodeRows(parse, data).Err? {
        DecodeRowsFirstError(parse, data);
        var k :| 0 <= k < |data| &&
          (forall j :: 0 <= j < k ==> DecodeRow(parse, data[j]).Ok?) &&
          DecodeRow(parse, data[k]) == Err(DecodeRows(parse, data).error);
        assert forall j :: 1 <= j < k + 1 ==> rows[j] == data[j - 1];
        assert DecodeRow(parse, rows[k + 1]) == Err(e);
      } else {
        FinishedIff(parse, rows);
        BuildOkIff(DecodeRows(parse, data).value);
        DecodeRowsOk(parse, data);
      }
    }
  }

  /** A data row that does not decode cancels the whole import with that row's exception. */
  lemma BadRowCancels(parse: Parser, rows: seq<Row>, k: nat)
    requires 1 <= k < |rows|
    requires forall j :: 1 <= j < k ==> DecodeRow(parse, rows[j]).Ok?
    requires DecodeRow(parse, rows[k]).Err?
    ensures ImportSpec(parse, rows) == CancelledBy(DecodeRow(parse, rows[k]).error)
  {
    var data := rows[1..];
    var front := data[..k];
    DecodeRowsOk(parse, data[..k - 1]);
    assert front[..k - 1] == data[..k - 1];
    assert forall j :: 0 <= j < k - 1 ==> data[j] == rows[j + 1];
    DecodeRowsErrorPersists(parse, front, data[k..]);
    assert front + data[k..] == data;
  }

  /** The same valid row, a header, and `count` copies of the row. */
  function Repeated(header: Row, row: Row, count: nat): (rows: seq<Row>)
    ensures |rows| == count + 1 && rows[0] == header
    ensures forall k :: 1 <= k < |rows| ==> rows[k] == row
  {
    [header] + seq(count, _ => row)
  }

  const SampleHeader: Row := ["VTX", "IDX", "SV_Position.x", "SV_Position.y", "SV_Position.z", "SV_Position.w"]

  /** A row whose last four fields read as x = 2, y = 4, z = 6, w = 2. */
  const SampleRow: Row := ["0", "0", "2", "4", "6", "2"]

  lemma SampleRowDecodes()
    ensures DecodeRow(Numerals.ParseFloat, SampleRow) == Ok(Point(1.0, 2.0, 3.0))
  {
    Numerals.ParseFloatShowNat(2);
    Numerals.ParseFloatShowNat(4);
    Numerals.ParseFloatShowNat(6);
    assert Numerals.ShowNat(2) == "2" && Numerals.ShowNat(4) == "4" && Numerals.ShowNat(6) == "6";
  }

  /** A header and nine valid rows: FINISHED with nine vertices and three faces. */
  lemma NineRowsExample()
    ensures var out := ImportSpec(Numerals.ParseFloat, Repeated(SampleHeader, SampleRow, 9));
      out.status == Finished && out.report == Report(Info, Text(SuccessMessage)) &&
      |out.linked.value.verts| == 9 && |out.linked.value.faces| == 3
  {
    var rows := Repeated(SampleHeader, SampleRow, 9);
    SampleRowDecodes();
    FinishedIff(Numerals.ParseFloat, rows);
    FinishedMesh(Numerals.ParseFloat, rows);
  }

  /** A header and two valid rows: the face (0, 1, 2) asks for vertex 2, so CANCELLED. */
  lemma TwoRowsExample()
    ensures ImportSpec(Numerals.ParseFloat, Repeated(SampleHeader, SampleRow, 2)) == CancelledBy(VertIndexError(2))
  {
    var rows := Repeated(SampleHeader, SampleRow, 2);
    SampleRowDecodes();
    DecodeRowsOk(Numerals.ParseFloat, rows[1..]);
    BuildTwoLeftOver(DecodeRows(Numerals.ParseFloat, rows[1..]).value);
  }

  /** A zero w field cancels the import with ZeroDivisionError. */
  lemma ZeroWExample()
    ensures ImportSpec(Numerals.ParseFloat, [SampleHeader, ["0", "0", "2", "4", "6", "0"]]) ==
      CancelledBy(ZeroDivisionError)
  {
    var row := ["0", "0", "2", "4", "6", "0"];
    Numerals.ParseFloatShowNat(2);
    Numerals.ParseFloatShowNat(0);
    assert Numerals.ShowNat(2) == "2" && Numerals.ShowNat(0) == "0";
    DecodeRowErrors(Numerals.ParseFloat, row);
    BadRowCancels(Numerals.ParseFloat, [SampleHeader, row], 1);
  }

  /** A row of only four fields fails at `row[5]`. */
  lemma ShortRowExample()
    ensures ImportSpec(Numerals.ParseFloat, [SampleHeader, ["0", "0", "2", "4"]]) ==
      CancelledBy(RowIndexError(WColumn))
  {
    var row := ["0", "0", "2", "4"];
    Numerals.ParseFloatShowNat(2);
    assert Numerals.ShowNat(2) == "2";
    DecodeRowErrors(Numerals.ParseFloat, row);
    BadRowCancels(Numerals.ParseFloat, [SampleHeader, row], 1);
  }
}
