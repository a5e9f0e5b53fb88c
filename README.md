# CSV mesh importer: a verified model of the import step

The Blender add-on "Import CSV Mesh" reads a CSV file of homogeneous vertex
positions and builds a triangle mesh from it. Its operator's `execute` method
does three things:

1. It skips the header row. Each later row then becomes one vertex:
   fields 2, 3 and 4 (`SV_Position.x/.y/.z`) divided by field 5
   (`SV_Position.w`).
2. It creates one bmesh vertex per point, in order, with no deduplication.
   It then requests the face `(i, i+1, i+2)` for every start index `i` in
   `range(0, len(vertices) - 1, 3)`.
3. Any exception raised during these steps becomes one ERROR report and the
   result `CANCELLED`. Otherwise the mesh is linked into the scene, one INFO
   report "Mesh imported successfully." is issued, and the result is
   `FINISHED`.

This project models those three steps in Dafny and proves what they do.

- `RowDecoder` decodes rows that are already split into fields. A row is a
  `seq<string>`.
- `RowDecoder` and `Importer` take the number syntax as a
  parameter, `parse: string -> Option<real>`, which stands for Python's
  `float()`. Division is exact `real` division, and a zero `w` is
  Python's ZeroDivisionError.
- `Numerals.ParseFloat` spells out the finite decimal forms that `float()`
  accepts. The concrete example lemmas use it.
- `MeshBuilder` models the bmesh as a class `BMesh` with a vertex sequence
  and a face sequence. Its `NewFace` performs the lookups
  `bm.verts[i], bm.verts[i+1], bm.verts[i+2]` and bmesh's refusal of
  repeated vertices and existing faces.
- `Importer.Execute` composes the two loops. Its result is an `Outcome`:
  the status, the single report, and, on success, the mesh as `bm.to_mesh`
  receives it.

The exceptions are modelled in the order Python raises them:

- `next(reader)` on an empty file: StopIteration.
- `row[2]` or `row[5]` on a short row: IndexError.
- `float()` on a field that is not a number: ValueError.
- A zero `w`: ZeroDivisionError.
- `bm.verts[n]` on a mesh of `n` vertices: IndexError.

For lines 68-70 the order of evaluation is `row[2]`, its `float`,
`row[5]`, its `float`, the division, then the y and z numerators.

Two behaviours of the code are easy to misread. The model follows the code
in both.

- **Trailing points.** The guard at line 83, `i + 1 < len(vertices)`, looks
  as if it skips an incomplete last triple, but every start index produced
  at line 81 passes it. When the number of points `n` satisfies
  `n % 3 == 2`, the last start `n - 2` makes line 84 look up vertex `n`,
  which raises IndexError, and the whole import is CANCELLED.
  `MeshBuilder.BuildTwoLeftOver`, `Importer.FinishedIff` and
  `Importer.TwoRowsExample` prove this. With one trailing point there is no
  extra start index, so that point gets no face.
- **Error messages.** The ERROR report is `str(e)` of the Python exception
  (line 142), which carries no row number. The model's errors carry no row
  number either. `Importer.CancelledCause` proves that the error reported is
  that of the first data row that does not decode.

## Model

| member | source | states |
|---|---|---|
| `RowDecoder.Field` | csv_mesh_importer.py:68-70 | `float(row[k])` fails with IndexError(k) exactly when the row has no field k. It fails with ValueError(row[k]) when that field is not a number. Otherwise it yields the parsed field. |
| `RowDecoder.DecodeRow` | csv_mesh_importer.py:56-70 | A data row yields a point exactly when it has at least 6 fields, fields 2-5 parse and w is not 0. The point is then (f2/w, f3/w, f4/w). |
| `RowDecoder.DecodeRowErrors` | csv_mesh_importer.py:68-70 | Which exception a failing row raises, in Python's evaluation order: row[2], float(row[2]), row[5], float(row[5]), the zero divisor, float(row[3]), float(row[4]). |
| `RowDecoder.DecodeRowIgnoresOtherFields` | csv_mesh_importer.py:56-70 | Fields 0, 1 and every field after 5 never influence the decoded point or the error. |
| `RowDecoder.ReadVertices` | csv_mesh_importer.py:63-72 | The loop returns StopIteration on an empty file. Otherwise it returns the points of the data rows, or the error of the first row that fails, as the decoding specification states. |
| `RowDecoder.DecodeRowsErrorPersists` | csv_mesh_importer.py:67-72 | After a failing row, the later rows cannot change the result. The loop aborts there. |
| `RowDecoder.DecodeRowsOk` | csv_mesh_importer.py:65-72 | Decoding succeeds exactly when every data row decodes. It then yields one point per data row, point k being row k's point, in input order. |
| `RowDecoder.DecodeRowsFirstError` | csv_mesh_importer.py:67-70 | A failed decode carries the error of the first data row that does not decode. Every earlier row decodes. |
| `RowDecoder.HeaderIgnored` | csv_mesh_importer.py:63 | The first row is skipped unconditionally. Its content never affects the result. |
| `MeshBuilder.RangeBy3Shape` | csv_mesh_importer.py:81 | `range(start, stop, 3)` is start, start+3, ..., and has (stop-start+2)/3 elements when start < stop, else none. |
| `MeshBuilder.CornerIndicesShape` | csv_mesh_importer.py:81 | The corner indices for n vertices are 3k for k = 0, 1, .... Each is a multiple of 3 below n-1. There are n/3 of them, plus one more when n % 3 == 2. |
| `MeshBuilder.BMesh.constructor` | csv_mesh_importer.py:75 | `bmesh.new()` has no vertices and no faces. |
| `MeshBuilder.BMesh.NewVert` | csv_mesh_importer.py:77-78 | `bm.verts.new` appends exactly one vertex and leaves the faces alone. |
| `MeshBuilder.BMesh.NewFace` | csv_mesh_importer.py:84 | The face is appended unless a vertex lookup is out of range or bmesh refuses the face. In that case the error is returned and nothing changes. |
| `MeshBuilder.BuildMesh` | csv_mesh_importer.py:74-84 | The vertex loop and the face loop produce the vertex table equal to the points, and the faces of the face specification, or its first error. |
| `MeshBuilder.FacesForErrorPersists` | csv_mesh_importer.py:82-84 | After a face request fails, later start indices cannot change the result. |
| `MeshBuilder.FacesForFitting` | csv_mesh_importer.py:82-84 | Start indices at least 3 apart whose faces fit below n each add their face (i, i+1, i+2) in order. The repeated-vertex and existing-face checks never fire. |
| `MeshBuilder.FittingCorners` | csv_mesh_importer.py:81-84 | The first n/3 corner indices all succeed, and face k is (3k, 3k+1, 3k+2). |
| `MeshBuilder.BuildComplete` | csv_mesh_importer.py:77-84 | When n % 3 is 0 or 1, the build succeeds. The vertex table is the point sequence, with no deduplication, and there are exactly n/3 faces, face k being (3k, 3k+1, 3k+2). |
| `MeshBuilder.BuildTwoLeftOver` | csv_mesh_importer.py:81-84 | When n % 3 == 2, the last start n-2 passes the `i + 1 < n` guard, and the build fails with IndexError on vertex n. The two trailing points are not dropped. |
| `MeshBuilder.BuildOkIff` | csv_mesh_importer.py:81-84 | The build succeeds exactly when n % 3 != 2. Its only possible error is IndexError on vertex n. |
| `MeshBuilder.BuildFacesWellFormed` | csv_mesh_importer.py:81-84 | Every face is (a, a+1, a+2), with a a multiple of 3 and a+2 < n. No two faces share a vertex. |
| `Importer.Execute` | csv_mesh_importer.py:51-145 | The operator's outcome is that of the import specification: decode, then build, then exactly one report and the status. |
| `Importer.OneReportAgreesWithStatus` | csv_mesh_importer.py:141-145 | FINISHED exactly when the one report is INFO "Mesh imported successfully.", and exactly when a mesh is linked. CANCELLED exactly when the report is ERROR carrying the exception. |
| `Importer.EmptyFileCancelled` | csv_mesh_importer.py:63 | A file without rows is CANCELLED with StopIteration, and nothing is linked. |
| `Importer.FinishedIff` | csv_mesh_importer.py:63-84 | The import finishes exactly when there is a header, every data row decodes, and the number of data rows is not 2 more than a multiple of 3. |
| `Importer.FinishedMesh` | csv_mesh_importer.py:63-87 | A finished import hands `bm.to_mesh` (line 87) the following mesh, before `origin_set` and the merge by distance change it. Vertex k is the point of data row k, and there is one vertex per data row. Face k is (3k, 3k+1, 3k+2), and there are (rows-1)/3 faces. |
| `Importer.CancelledCause` | csv_mesh_importer.py:141-143 | A cancelled import reports one of three things: StopIteration for an empty file; the exception of the first failing data row, all earlier rows decoding; or IndexError on vertex n when all rows decode and n % 3 == 2. |
| `Importer.BadRowCancels` | csv_mesh_importer.py:67-70 | The first data row that does not decode cancels the whole import with that row's exception. Nothing is linked. |
| `Importer.SampleRowDecodes` | csv_mesh_importer.py:68-70 | The fields x = 2, y = 4, z = 6, w = 2 decode to the point (1, 2, 3). |
| `Importer.NineRowsExample` | csv_mesh_importer.py:63-84 | A header and nine valid rows finish with nine vertices, three faces and the INFO report. |
| `Importer.TwoRowsExample` | csv_mesh_importer.py:81-84 | A header and two valid rows are CANCELLED with IndexError on vertex 2. |
| `Importer.ZeroWExample` | csv_mesh_importer.py:68 | A row with w = 0 cancels the import with ZeroDivisionError. |
| `Importer.ShortRowExample` | csv_mesh_importer.py:68 | A row of four fields cancels the import with IndexError on field 5. |
| `Numerals.ParseFloatDigits` | csv_mesh_importer.py:68-70 | Every non-empty string of decimal digits, leading zeros included, reads as the number it spells. |
| `Numerals.ParseFloatShowNat` | csv_mesh_importer.py:68-70 | The decimal spelling of a natural number reads back as that number. |
| `Numerals.ParseFloatNegation` | csv_mesh_importer.py:68-70 | For a field that does not begin with a blank or a sign, a minus sign in front is read exactly when the field is, and negates the number read. |
| `Numerals.ParseFloatNeedsDigit` | csv_mesh_importer.py:68-70 | A field without a decimal digit is never read as a number. |
| `Numerals.ParseFloatLeadingSpace` | csv_mesh_importer.py:68-70 | Leading ASCII whitespace does not change the number read. |
| `Numerals.ParseFractionExample` | csv_mesh_importer.py:68-70 | "2.5" reads as 2.5. |
| `Numerals.ParseExponentExample` | csv_mesh_importer.py:68-70 | "-1e3" reads as -1000. |
| `Numerals.ParseNegativeExponentExample` | csv_mesh_importer.py:68-70 | ".5E-1" reads as 0.05. |
| `Numerals.ParseRejectsExample` | csv_mesh_importer.py:68-70 | "1.5.2" and "" are not numbers. |

## Left out

- Opening the file and the `csv` module's quoting and newline handling (lines 53-54) are left out. The input is the sequence of already-split rows. So the exceptions of that layer are not modelled: an OSError on opening, a UnicodeDecodeError from the utf-8 decoding of line 53, and a `csv.Error` such as the field-size limit. The last two are raised while rows are read at lines 63 and 67, and would also cancel the import.
- `RowDecoder.DecodeRowIgnoresOtherFields` holds for rows already split into fields. Content in the other fields can still change how the `csv` module splits a line, which is not modelled.
- Floating point is not modelled (lines 68-70). Numbers are exact reals, so rounding, overflow to infinity, NaN and signed zero are absent. `-0.0` as w is the zero divisor, as in Python.
- `Numerals.ParseFloat` covers only the finite decimal forms of `float()`: a sign, digits, a fraction and an exponent, with surrounding ASCII whitespace. It rejects "inf", "nan", digit-group underscores and non-ASCII whitespace and digits, all of which Python accepts. The decoder and the importer are proved for every parser, so none of their results depend on this subset.
- `Numerals.ParseFloatLeadingSpace` states only that leading whitespace is ignored. The matching fact for trailing whitespace is not proved.
- Merge by distance, loose-edge deletion and normal recalculation (lines 103-119) are left out. They are calls into Blender operators whose algorithms are not part of this code.
- `bm.to_mesh`, object creation and linking, selection, `origin_set`, `location_clear`, the unused `bpy.types.Scene.scale_factor` assignment and the material (lines 87-101, 122-130) are left out. They are host calls. The model stands for them as the mesh placed in `linked` and assumes they raise nothing.
- The debug text listing of vertices (lines 132-138) is left out. It formats floats into a Blender text block.
- Operator registration and the menu entry (lines 147-159) are left out. They are user-interface wiring.
- The exact message text of each exception is not written out. The report carries the exception value, `Raised(e)`, which stands for `str(e)`.
- The order of bmesh's two face checks (repeated vertex, then existing face) comes from bmesh's C code, which is not part of this model. Both raise the same ValueError, and neither can fire for the faces this loop requests.
