/** The edge-growth study: for each requested size `n`, a square unit grid of
    side `int(sqrt(n))` is triangulated once and the sizes of the
    triangulation and of the first polygon's shell are recorded. What polylidar
    extracts from a point set is a parameter. */
module EdgeGrowth {
  import opened Common
  import opened Grid

  /** What `extractPlanesAndPolygons` yields that the study reads: the length
      of `delaunay.triangles` (three vertex indices per triangle), the length
      of `delaunay.hull_tri`, and the shell length of every polygon, in order. */
  datatype Extraction = Extraction(triangleIndices: nat, hullTriangles: nat, shellLengths: seq<nat>)

  /** `dict(n=..., n_copy=..., triangles=..., edges=..., borderedges=..., hullsize=...)`. */
  datatype EdgeRecord = EdgeRecord(n: int, nCopy: int, triangles: real, edges: int, borderEdges: int, hullSize: int)

  /** The record of one size: a negative size makes `math.sqrt` raise
      ValueError, and a triangulation without any polygon makes `polygons[0]`
      raise IndexError. */
  function SizeRecord(n: int, extract: seq<GridPoint> -> Extraction): (r: Result<EdgeRecord>)
    ensures r == Err(ValueError) <==> n < 0
    ensures r.Err? && n >= 0 ==> r.error == IndexError
    ensures r.Ok? ==> r.value.n == r.value.nCopy && r.value.triangles * 3.0 == r.value.edges as real
  {
    if n < 0 then Err(ValueError)
    else
      var points := GenPoints(0, ISqrt(n), 1, 0, ISqrt(n), 1);
      RecordOf(points, extract(points))
  }

  /** The record of one grid from what polylidar extracted from it. */
  function RecordOf(points: seq<GridPoint>, e: Extraction): Result<EdgeRecord>
  {
    if e.shellLengths == [] then Err(IndexError)
    else
      Ok(EdgeRecord(|points|, |points|, e.triangleIndices as real / 3.0, e.triangleIndices,
                    e.shellLengths[0], e.hullTriangles))
  }

  /** The records of every size in order, or the error of the first size that
      fails. */
  function AllRecords(nVal: seq<int>, extract: seq<GridPoint> -> Extraction): Result<seq<EdgeRecord>>
  {
    Traverse(Measure(extract), nVal)
  }

  /** `SizeRecord` for a fixed extraction, as a function of the size. */
  function Measure(extract: seq<GridPoint> -> Extraction): int -> Result<EdgeRecord>
  {
    (n: int) => SizeRecord(n, extract)
  }

  /** The body of the loop of `polylidar_edgegrowth` for one size. */
  method MeasureSize(n: int, extract: seq<GridPoint> -> Extraction) returns (r: Result<EdgeRecord>)
    ensures r == SizeRecord(n, extract)
    ensures n < 0 ==> r == Err(ValueError)
    ensures n >= 0 ==>
      (r.Err? <==> extract(GenPoints(0, ISqrt(n), 1, 0, ISqrt(n), 1)).shellLengths == [])
    ensures n >= 0 && r.Err? ==> r.error == IndexError
    ensures r.Ok? ==>
      && n >= 0
      && r.value.n == r.value.nCopy == ISqrt(n) * ISqrt(n)
      && r.value.triangles * 3.0 == r.value.edges as real
      && r.value.borderEdges == extract(GenPoints(0, ISqrt(n), 1, 0, ISqrt(n), 1)).shellLengths[0]
  {
    if n < 0 {
      return Err(ValueError);
    }
    var valmax := ISqrt(n);
    var points := GenPoints(0, valmax, 1, 0, valmax, 1);
    var e := extract(points);
    r := ReadExtraction(points, e);
    if r.Ok? {
      SizeRecordFields(n, extract);
    }
  }

  /** The sizes read off one extraction, field by field. */
  method ReadExtraction(points: seq<GridPoint>, e: Extraction) returns (r: Result<EdgeRecord>)
    ensures r == RecordOf(points, e)
    ensures r.Err? <==> e.shellLengths == []
    ensures r.Err? ==> r.error == IndexError
    ensures r.Ok? ==>
      && r.value.n == r.value.nCopy == |points|
      && r.value.edges == e.triangleIndices
      && r.value.triangles * 3.0 == r.value.edges as real
      && r.value.borderEdges == e.shellLengths[0]
      && r.value.hullSize == e.hullTriangles
  {
    var trueN := |points|;
    var hullSize := e.hullTriangles;
    var triangles := e.triangleIndices as real / 3.0;
    var edges := e.triangleIndices;
    if e.shellLengths == [] {
      return Err(IndexError);
    }
    var borderEdges := e.shellLengths[0];
    r := Ok(EdgeRecord(trueN, trueN, triangles, edges, borderEdges, hullSize));
  }

  /** `polylidar_edgegrowth(reps, n_val)`. `reps` is accepted and never read:
      each size is triangulated once. */
  method PolylidarEdgeGrowth(reps: int, nVal: seq<int>, extract: seq<GridPoint> -> Extraction)
    returns (r: Result<seq<EdgeRecord>>)
    ensures r == AllRecords(nVal, extract)
  {
    var records: seq<EdgeRecord> := [];
    var a := 0;
    while a < |nVal|
      invariant 0 <= a <= |nVal|
      invariant AllRecords(nVal[..a], extract) == Ok(records)
    {
      TraverseStep(Measure(extract), nVal, a, records);
      var rec := MeasureSize(nVal[a], extract);
      if rec.Err? {
        return Err(rec.error);
      }
      records := records + [rec.value];
      a := a + 1;
    }
    assert nVal[..a] == nVal;
    r := Ok(records);
  }

  /** A run fails exactly when some size fails, with the error of the first
      such size; otherwise it holds one record per size, in order. */
  lemma AllRecordsOutcome(nVal: seq<int>, extract: seq<GridPoint> -> Extraction)
    ensures AllRecords(nVal, extract).Err? <==> exists a :: 0 <= a < |nVal| && SizeRecord(nVal[a], extract).Err?
    ensures AllRecords(nVal, extract).Err? ==>
      exists a :: 0 <= a < |nVal| && SizeRecord(nVal[a], extract).Err?
        && AllRecords(nVal, extract).error == SizeRecord(nVal[a], extract).error
        && forall b :: 0 <= b < a ==> SizeRecord(nVal[b], extract).Ok?
    ensures AllRecords(nVal, extract).Ok? ==>
      |AllRecords(nVal, extract).value| == |nVal|
      && forall a :: 0 <= a < |nVal| ==> Ok(AllRecords(nVal, extract).value[a]) == SizeRecord(nVal[a], extract)
  {
    TraverseOutcome(Measure(extract), nVal);
  }

  /** Each record's size is the grid's point count `⌊√n⌋²`, recorded twice;
      `edges` counts the triangle vertex indices, three per triangle; the
      border edges are the first polygon's shell length. */
  lemma SizeRecordFields(n: int, extract: seq<GridPoint> -> Extraction)
    requires SizeRecord(n, extract).Ok?
    ensures var rec := SizeRecord(n, extract).value;
      && n >= 0
      && rec.n == rec.nCopy == ISqrt(n) * ISqrt(n)
      && rec.triangles * 3.0 == rec.edges as real
      && rec.edges >= 0 && rec.borderEdges >= 0 && rec.hullSize >= 0
      && extract(GenPoints(0, ISqrt(n), 1, 0, ISqrt(n), 1)).shellLengths != []
      && rec.borderEdges == extract(GenPoints(0, ISqrt(n), 1, 0, ISqrt(n), 1)).shellLengths[0]
  {
    UnitGridRows(ISqrt(n));
  }
}
