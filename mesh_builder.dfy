/**
 * The triangle mesh builder: one vertex per decoded point, in order, then
 * one face (i, i+1, i+2) for every start index i of range(0, n - 1, 3).
 * When n % 3 == 2 the last start is n - 2 and the face asks for vertex n,
 * which does not exist: the whole build fails with an IndexError.
 */
module MeshBuilder {
  import opened Wrappers
  import opened ImportErrors
  import opened RowDecoder

  /** A triangle, given by the indices of its three corners. */
  datatype Face = Face(a: nat, b: nat, c: nat)

  /** What the builder hands on: the vertex table and the faces over it. */
  datatype Mesh = Mesh(verts: seq<Point>, faces: seq<Face>)

  function Corners(f: Face): set<nat> {
    {f.a, f.b, f.c}
  }

  /** Python's `range(start, stop, 3)`. */
  function RangeBy3(start: int, stop: int): (r: seq<int>)
    ensures forall k :: 0 <= k < |r| ==> start <= r[k] < stop
    decreases stop - start
  {
    if start < stop then [start] + RangeBy3(start + 3, stop) else []
  }

  /** `corner_indices = list(range(0, len(vertices) - 1, 3))`, line 81. */
  function CornerIndices(n: nat): seq<nat> {
    var r := RangeBy3(0, n - 1);
    assert forall k :: 0 <= k < |r| ==> r[k] >= 0;
    r
  }

  /**
   * Why `bm.faces.new((bm.verts[i], bm.verts[j], bm.verts[k]))` fails on a
   * mesh of `n` vertices holding `faces`, or `None` if it adds the face: the
   * three lookups are evaluated first, then bmesh refuses a repeated vertex
   * and a face whose vertex set is already a face.
   */
  function NewFaceError(faces: seq<Face>, n: nat, i: nat, j: nat, k: nat): Option<ImportError> {
    if i >= n then Some(VertIndexError(i))
    else if j >= n then Some(VertIndexError(j))
    else if k >= n then Some(VertIndexError(k))
    else if i == j || j == k || i == k then Some(FaceValueError)
    else if exists f :: f in faces && Corners(f) == {i, j, k} then Some(FaceValueError)
    else None
  }

  /**
   * One pass of the loop body at lines 83-84 for start index `i` on a mesh of
   * `n` vertices: the faces requested so far grow by (i, i+1, i+2), or the
   * first error is kept.
   */
  function RequestFace(sofar: Result<seq<Face>, ImportError>, i: nat, n: nat): Result<seq<Face>, ImportError> {
    match sofar
    case Err(e) => Err(e)
    case Ok(faces) =>
      if i + 1 < n then
        match NewFaceError(faces, n, i, i + 1, i + 2)
        case Some(e) => Err(e)
        case None => Ok(faces + [Face(i, i + 1, i + 2)])
      else Ok(faces)
  }

  /** Lines 82-84 over the start indices `starts`: the faces requested, or the first error raised. */
  function FacesFor(starts: seq<nat>, n: nat): Result<seq<Face>, ImportError> {
    if starts == [] then Ok([])
    else RequestFace(FacesFor(starts[..|starts| - 1], n), starts[|starts| - 1], n)
  }

  /** Lines 74-84 as a whole: the vertex table is the point sequence itself, no deduplication. */
  function BuildSpec(points: seq<Point>): Result<Mesh, ImportError> {
    match FacesFor(CornerIndices(|points|), |points|)
    case Err(e) => Err(e)
    case Ok(faces) => Ok(Mesh(points, faces))
  }

  /** The part of a bmesh the importer touches: its vertex and face sequences. */
  class BMesh {
    var verts: seq<Point>
    var faces: seq<Face>

    /** `bmesh.new()`: an empty mesh. */
    constructor ()
      ensures verts == [] && faces == []
    {
      verts := [];
      faces := [];
    }

    /** `bm.verts.new(p)`: appends a vertex; faces are untouched. */
    method NewVert(p: Point)
      modifies this
      ensures verts == old(verts) + [p]
      ensures faces == old(faces)
    {
      verts := verts + [p];
    }

    /** `bm.faces.new((bm.verts[i], bm.verts[j], bm.verts[k]))`: appends the face or reports why not. */
    method NewFace(i: nat, j: nat, k: nat) returns (err: Option<ImportError>)
      modifies this
      ensures err == NewFaceError(old(faces), |old(verts)|, i, j, k)
      ensures verts == old(verts)
      ensures faces == if err.None? then old(faces) + [Face(i, j, k)] else old(faces)
    {
      err := NewFaceError(faces, |verts|, i, j, k);
      if err.None? {
        faces := faces + [Face(i, j, k)];
      }
    }
  }

  /** Lines 74-84: create one vertex per point, then the faces from the corner indices. */
  method BuildMesh(points: seq<Point>) returns (r: Result<Mesh, ImportError>)
    ensures r == BuildSpec(points)
  {
    var bm := new BMesh();
    var v := 0;
    while v < |points|
      invariant 0 <= v <= |points|
      invariant bm.verts == points[..v] && bm.faces == []
    {
      bm.NewVert(points[v]);
      v := v + 1;
    }
    assert bm.verts == points;
    var corners := CornerIndices(|points|);
    var t := 0;
    while t < |corners|
      invariant 0 <= t <= |corners|
      invariant bm.verts == points
      invariant FacesFor(corners[..t], |points|) == Ok(bm.faces)
    {
      var i := corners[t];
      assert corners[..t + 1][..t] == corners[..t];
      if i + 1 < |points| {
        var err := bm.NewFace(i, i + 1, i + 2);
        if err.Some? {
          FacesForErrorPersists(corners[..t + 1], corners[t + 1..], |points|);
          assert corners[..t + 1] + corners[t + 1..] == corners;
          return Err(err.value);
        }
      }
      t := t + 1;
    }
    assert corners[..t] == corners;
    r := Ok(Mesh(bm.verts, bm.faces));
  }

  /** Once a face request fails, later start indices keep that same error. */
  lemma {:induction false} FacesForErrorPersists(starts: seq<nat>, more: seq<nat>, n: nat)
    requires FacesFor(starts, n).Err?
    ensures FacesFor(starts + more, n) == FacesFor(starts, n)
    decreases |more|
  {
    if more == [] {
      assert starts + more == starts;
    } else {
      var front := more[..|more| - 1];
      assert (starts + more)[..|starts + more| - 1] == starts + front;
      FacesForErrorPersists(starts, front, n);
    }
  }

  /** The elements of a range: 0, 3, 6, ... from `start`, as many as fit below `stop`. */
  lemma {:induction false} RangeBy3Shape(start: int, stop: int)
    ensures |RangeBy3(start, stop)| == if start < stop then (stop - start + 2) / 3 else 0
    ensures forall k :: 0 <= k < |RangeBy3(start, stop)| ==> RangeBy3(start, stop)[k] == start + 3 * k
    decreases stop - start
  {
    if start < stop {
      var r := RangeBy3(start, stop);
      var rest := RangeBy3(start + 3, stop);
      RangeBy3Shape(start + 3, stop);
      forall k | 0 <= k < |r| ensures r[k] == start + 3 * k {
        if k > 0 {
          assert r[k] == rest[k - 1];
        }
      }
    }
  }

  /**
   * The corner indices of `n` vertices are 0, 3, 6, ... below n - 1: one for
   * every complete triple and a further one when two points are left over.
   */
  lemma CornerIndicesShape(n: nat)
    ensures |CornerIndices(n)| == n / 3 + (if n % 3 == 2 then 1 else 0)
    ensures forall k :: 0 <= k < |CornerIndices(n)| ==> CornerIndices(n)[k] == 3 * k
    ensures forall i :: i in CornerIndices(n) ==> i % 3 == 0 && i < n - 1
  {
    RangeBy3Shape(0, n - 1);
    var c := CornerIndices(n);
    forall i | i in c ensures i % 3 == 0 && i < n - 1 {
      var k :| 0 <= k < |c| && c[k] == i;
    }
  }

  /**
   * Start indices that are at least 3 apart and whose faces fit below `n`
   * each yield their face (i, i+1, i+2), in order, and never an error.
   */
  lemma {:induction false} FacesForFitting(starts: seq<nat>, n: nat)
    requires forall k :: 0 <= k < |starts| ==> starts[k] + 2 < n
    requires forall j, k :: 0 <= j < k < |starts| ==> starts[j] + 3 <= starts[k]
    ensures FacesFor(starts, n).Ok?
    ensures |FacesFor(starts, n).value| == |starts|
    ensures forall k :: 0 <= k < |starts| ==>
      FacesFor(starts, n).value[k] == Face(starts[k], starts[k] + 1, starts[k] + 2)
  {
    if starts != [] {
      var front := starts[..|starts| - 1];
      FacesForFitting(front, n);
      var faces := FacesFor(front, n).value;
      var i := starts[|starts| - 1];
      assert !exists f :: f in faces && Corners(f) == {i, i + 1, i + 2} by {
        forall f | f in faces ensures Corners(f) != {i, i + 1, i + 2} {
          var k :| 0 <= k < |faces| && faces[k] == f;
          assert front[k] + 3 <= i;
          assert i !in Corners(f);
        }
      }
    }
  }

  /** The first n / 3 corner indices 0, 3, ..., all of whose faces fit below `n`. */
  lemma FittingCorners(n: nat, starts: seq<nat>)
    requires |starts| == n / 3
    requires forall k :: 0 <= k < |starts| ==> starts[k] == 3 * k
    ensures FacesFor(starts, n).Ok?
    ensures |FacesFor(starts, n).value| == n / 3
    ensures forall k :: 0 <= k < n / 3 ==> FacesFor(starts, n).value[k] == Face(3 * k, 3 * k + 1, 3 * k + 2)
  {
    FacesForFitting(starts, n);
  }

  /**
   * When n % 3 is 0 or 1 the build succeeds: the vertex table is the point
   * sequence and face k is (3k, 3k+1, 3k+2), n / 3 faces in all.
   */
  lemma {:induction false} BuildComplete(points: seq<Point>)
    requires |points| % 3 != 2
    ensures BuildSpec(points).Ok?
    ensures BuildSpec(points).value.verts == points
    ensures |BuildSpec(points).value.faces| == |points| / 3
    ensures forall k :: 0 <= k < |points| / 3 ==>
      BuildSpec(points).value.faces[k] == Face(3 * k, 3 * k + 1, 3 * k + 2)
  {
    CornerIndicesShape(|points|);
    FittingCorners(|points|, CornerIndices(|points|));
  }

  /**
   * When n % 3 == 2 the last start index n - 2 passes the `i + 1 < n` guard
   * and the face asks for vertex n: the build fails with that IndexError
   * instead of dropping the two trailing points.
   */
  lemma {:induction false} BuildTwoLeftOver(points: seq<Point>)
    requires |points| % 3 == 2
    ensures BuildSpec(points) == Err(VertIndexError(|points|))
  {
    var n := |points|;
    var corners := CornerIndices(n);
    CornerIndicesShape(n);
    var front := corners[..n / 3];
    FittingCorners(n, front);
    assert corners[..|corners| - 1] == front;
    assert corners[|corners| - 1] == n - 2;
  }

  /** The build succeeds exactly when the number of points is not 2 more than a multiple of 3. */
  lemma BuildOkIff(points: seq<Point>)
    ensures BuildSpec(points).Ok? <==> |points| % 3 != 2
    ensures BuildSpec(points).Err? ==> BuildSpec(points).error == VertIndexError(|points|)
  {
    if |points| % 3 == 2 {
      BuildTwoLeftOver(points);
    } else {
      BuildComplete(points);
    }
  }

  /**
   * Every face of a successful build is three distinct consecutive indices
   * starting at a multiple of 3, all below the vertex count, and no two
   * faces share a vertex.
   */
  lemma BuildFacesWellFormed(points: seq<Point>)
    requires BuildSpec(points).Ok?
    ensures forall f :: f in BuildSpec(points).value.faces ==>
      f.a % 3 == 0 && f.b == f.a + 1 && f.c == f.a + 2 && f.c < |points|
    ensures forall j, k :: 0 <= j < k < |BuildSpec(points).value.faces| ==>
      Corners(BuildSpec(points).value.faces[j]) !! Corners(BuildSpec(points).value.faces[k])
  {
    BuildOkIff(points);
    BuildComplete(points);
  }
}
