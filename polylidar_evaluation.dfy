/** Turning Polylidar's polygons into Shapely geometry: the caller's list is
    sorted by shell size (largest first, stable, in place), invalid polygons
    are dropped, and the first, the single or all of the remaining polygons are
    returned. Polylidar itself, coordinate lookup and Shapely's validity test
    are parameters. */
module PolylidarEvaluation {
  import opened Common
  import opened Geometry

  /** A polygon as Polylidar returns it: point indices of its shell and of each hole. */
  datatype PolyRecord = PolyRecord(shell: seq<nat>, holes: seq<seq<nat>>)

  // ---------------------------------------------------------------------------
  // polygons.sort(key=lambda poly: len(poly.shell), reverse=True)
  // ---------------------------------------------------------------------------

  /** Inserts `x` after every element whose shell is at least as long. */
  function InsertByShell(x: PolyRecord, s: seq<PolyRecord>): seq<PolyRecord>
  {
    if s == [] then [x]
    else if |s[|s| - 1].shell| >= |x.shell| then s + [x]
    else InsertByShell(x, s[..|s| - 1]) + [s[|s| - 1]]
  }

  /** Python's stable sort by descending shell length, as insertion sort. */
  function SortByShell(s: seq<PolyRecord>): (r: seq<PolyRecord>)
    ensures multiset(r) == multiset(s)
  {
    if s == [] then []
    else
      InsertByShellMultiset(s[|s| - 1], SortByShell(s[..|s| - 1]));
      assert s == s[..|s| - 1] + [s[|s| - 1]];
      InsertByShell(s[|s| - 1], SortByShell(s[..|s| - 1]))
  }

  predicate SortedByShell(s: seq<PolyRecord>)
  {
    forall i, j :: 0 <= i < j < |s| ==> |s[i].shell| >= |s[j].shell|
  }

  /** The records whose shell has exactly `k` indices. */
  function ShellIs(k: nat): PolyRecord -> bool
  {
    (p: PolyRecord) => |p.shell| == k
  }

  lemma {:induction false} InsertByShellMultiset(x: PolyRecord, s: seq<PolyRecord>)
    ensures multiset(InsertByShell(x, s)) == multiset(s) + multiset{x}
  {
    if s != [] && |s[|s| - 1].shell| < |x.shell| {
      var init, last := s[..|s| - 1], s[|s| - 1];
      assert s == init + [last];
      InsertByShellMultiset(x, init);
    }
  }

  /** Inserting adds `x` and keeps every other record. */
  lemma {:induction false} InsertByShellMembers(x: PolyRecord, s: seq<PolyRecord>, i: nat)
    requires i < |InsertByShell(x, s)|
    ensures InsertByShell(x, s)[i] == x || InsertByShell(x, s)[i] in s
  {
    if s != [] && |s[|s| - 1].shell| < |x.shell| {
      var init := s[..|s| - 1];
      if i < |InsertByShell(x, init)| {
        InsertByShellMembers(x, init, i);
        assert InsertByShell(x, s)[i] == InsertByShell(x, init)[i];
      }
    }
  }

  /** A sorted list stays sorted when a record no longer than any of its
      records is appended. */
  lemma SortedAppend(s: seq<PolyRecord>, last: PolyRecord)
    requires SortedByShell(s)
    requires forall i :: 0 <= i < |s| ==> |s[i].shell| >= |last.shell|
    ensures SortedByShell(s + [last])
  {
  }

  lemma {:induction false} InsertByShellSorted(x: PolyRecord, s: seq<PolyRecord>)
    requires SortedByShell(s)
    ensures SortedByShell(InsertByShell(x, s))
  {
    if s == [] {
    } else if |s[|s| - 1].shell| >= |x.shell| {
      SortedAppend(s, x);
    } else {
      var init, last := s[..|s| - 1], s[|s| - 1];
      assert SortedByShell(init);
      InsertByShellSorted(x, init);
      var ins := InsertByShell(x, init);
      forall i | 0 <= i < |ins| ensures |ins[i].shell| >= |last.shell| {
        InsertByShellMembers(x, init, i);
        if ins[i] != x {
          var j :| 0 <= j < |init| && init[j] == ins[i];
          assert s[j] == init[j];
        }
      }
      SortedAppend(ins, last);
    }
  }

  lemma {:induction false} InsertByShellFilter(x: PolyRecord, s: seq<PolyRecord>, k: nat)
    ensures Filter(ShellIs(k), InsertByShell(x, s))
            == Filter(ShellIs(k), s) + (if |x.shell| == k then [x] else [])
  {
    if s != [] && |s[|s| - 1].shell| < |x.shell| {
      var init, last := s[..|s| - 1], s[|s| - 1];
      assert s == init + [last];
      InsertByShellFilter(x, init, k);
      FilterAppend(ShellIs(k), InsertByShell(x, init), [last]);
      FilterAppend(ShellIs(k), init, [last]);
      assert [last][..0] == [];
    } else if s != [] {
      FilterAppend(ShellIs(k), s, [x]);
      assert [x][..0] == [];
    }
  }

  /** The sort orders the list by descending shell length, is a permutation of
      its input, and is stable: records with equal shell length keep their
      original relative order. */
  lemma {:induction false} SortByShellFacts(s: seq<PolyRecord>)
    ensures SortedByShell(SortByShell(s))
    ensures multiset(SortByShell(s)) == multiset(s)
    ensures forall k: nat :: Filter(ShellIs(k), SortByShell(s)) == Filter(ShellIs(k), s)
  {
    if s != [] {
      var init, last := s[..|s| - 1], s[|s| - 1];
      assert s == init + [last];
      SortByShellFacts(init);
      InsertByShellSorted(last, SortByShell(init));
      InsertByShellMultiset(last, SortByShell(init));
      forall k: nat ensures Filter(ShellIs(k), SortByShell(s)) == Filter(ShellIs(k), s) {
        InsertByShellFilter(last, SortByShell(init), k);
        assert Filter(ShellIs(k), s) == Filter(ShellIs(k), init)
                                        + (if ShellIs(k)(last) then [last] else []);
      }
    }
  }

  /** The Python list of Polylidar polygons the caller passes in. */
  class PolygonList {
    var items: seq<PolyRecord>

    constructor (items: seq<PolyRecord>)
      ensures this.items == items
    {
      this.items := items;
    }
  }

  // ---------------------------------------------------------------------------
  // Building and filtering the Shapely polygons
  // ---------------------------------------------------------------------------

  /** `Polygon(shell=shell_coords, holes=hole_coords)`; `coordsOf` is
      `get_poly_coords` on the point array. */
  function ToShape(p: PolyRecord, coordsOf: seq<nat> -> Ring): Polygon
  {
    Polygon(coordsOf(p.shell), seq(|p.holes|, i requires 0 <= i < |p.holes| => coordsOf(p.holes[i])))
  }

  /** The shapes of the records whose shape is valid, in record order. */
  function ValidShapes(records: seq<PolyRecord>, coordsOf: seq<nat> -> Ring, isValid: Polygon -> bool): seq<Polygon>
  {
    if records == [] then []
    else
      var last := ToShape(records[|records| - 1], coordsOf);
      ValidShapes(records[..|records| - 1], coordsOf, isValid) + (if isValid(last) then [last] else [])
  }

  /** Exactly the valid shapes are kept. */
  lemma {:induction false} ValidShapesMembership(records: seq<PolyRecord>, coordsOf: seq<nat> -> Ring,
                                                 isValid: Polygon -> bool, q: Polygon)
    ensures q in ValidShapes(records, coordsOf, isValid) <==>
      isValid(q) && exists i :: 0 <= i < |records| && q == ToShape(records[i], coordsOf)
  {
    if records != [] {
      var init := records[..|records| - 1];
      ValidShapesMembership(init, coordsOf, isValid, q);
      assert forall i :: 0 <= i < |init| ==> init[i] == records[i];
      if isValid(q) && exists i :: 0 <= i < |records| && q == ToShape(records[i], coordsOf) {
        var i :| 0 <= i < |records| && q == ToShape(records[i], coordsOf);
        if i < |init| {
          assert q == ToShape(init[i], coordsOf);
        }
      }
    }
  }

  /** On a list sorted by shell length, the first valid shape has the longest
      shell among all records whose shape is valid. */
  lemma {:induction false} ValidShapesHeadIsLargest(records: seq<PolyRecord>, coordsOf: seq<nat> -> Ring,
                                                    isValid: Polygon -> bool)
    requires SortedByShell(records)
    requires ValidShapes(records, coordsOf, isValid) != []
    ensures exists i :: 0 <= i < |records|
                        && ValidShapes(records, coordsOf, isValid)[0] == ToShape(records[i], coordsOf)
                        && isValid(ToShape(records[i], coordsOf))
                        && forall j :: 0 <= j < |records| && isValid(ToShape(records[j], coordsOf)) ==>
                                         |records[i].shell| >= |records[j].shell|
  {
    var init, last := records[..|records| - 1], records[|records| - 1];
    assert forall i :: 0 <= i < |init| ==> init[i] == records[i];
    if ValidShapes(init, coordsOf, isValid) != [] {
      ValidShapesHeadIsLargest(init, coordsOf, isValid);
      var i :| 0 <= i < |init|
        && ValidShapes(init, coordsOf, isValid)[0] == ToShape(init[i], coordsOf)
        && isValid(ToShape(init[i], coordsOf))
        && forall j :: 0 <= j < |init| && isValid(ToShape(init[j], coordsOf)) ==>
             |init[i].shell| >= |init[j].shell|;
      assert ValidShapes(records, coordsOf, isValid)[0] == ToShape(records[i], coordsOf);
    } else {
      forall j | 0 <= j < |init| ensures !isValid(ToShape(records[j], coordsOf)) {
        ValidShapesMembership(init, coordsOf, isValid, ToShape(init[j], coordsOf));
      }
      assert ValidShapes(records, coordsOf, isValid)[0] == ToShape(records[|records| - 1], coordsOf);
    }
  }

  /** The loop over the sorted polygons: builds each shape and skips
      (`continue`) the invalid ones. */
  method KeepValid(records: seq<PolyRecord>, coordsOf: seq<nat> -> Ring, isValid: Polygon -> bool)
    returns (shapes: seq<Polygon>)
    ensures shapes == ValidShapes(records, coordsOf, isValid)
  {
    shapes := [];
    var i := 0;
    while i < |records|
      invariant 0 <= i <= |records|
      invariant shapes == ValidShapes(records[..i], coordsOf, isValid)
    {
      assert records[..i + 1][..i] == records[..i];
      var polyShape := ToShape(records[i], coordsOf);
      i := i + 1;
      if !isValid(polyShape) {
        continue;
      }
      shapes := shapes + [polyShape];
    }
    assert records[..i] == records;
  }

  /** What `convert_to_shapely_polygons` returns once the list is sorted: None
      for an empty list, the first valid polygon with `return_first`, a single
      valid polygon bare, several as a multi-polygon, and ValueError when no
      polygon is valid. */
  function Selected(sorted: seq<PolyRecord>, coordsOf: seq<nat> -> Ring, isValid: Polygon -> bool,
                    returnFirst: bool): (r: Result<Option<Geom>>)
    ensures r == Ok(None) <==> sorted == []
    ensures r.Err? ==> r.error == ValueError && ValidShapes(sorted, coordsOf, isValid) == []
    ensures r.Ok? && r.value.Some? ==> IsPolygonal(r.value.value)
  {
    if sorted == [] then Ok(None)
    else
      var shapes := ValidShapes(sorted, coordsOf, isValid);
      if shapes != [] && returnFirst then Ok(Some(PolygonGeom(shapes[0])))
      else if |shapes| == 1 then Ok(Some(PolygonGeom(shapes[0])))
      else if |shapes| > 1 then Ok(Some(MultiPolygonGeom(shapes)))
      else Err(ValueError)
  }

  /** A non-empty list with no valid polygon raises ValueError, whether or not
      `return_first` is set. */
  lemma SelectedNoValid(sorted: seq<PolyRecord>, coordsOf: seq<nat> -> Ring, isValid: Polygon -> bool,
                        returnFirst: bool)
    requires sorted != []
    requires forall i :: 0 <= i < |sorted| ==> !isValid(ToShape(sorted[i], coordsOf))
    ensures Selected(sorted, coordsOf, isValid, returnFirst) == Err(ValueError)
  {
    if ValidShapes(sorted, coordsOf, isValid) != [] {
      ValidShapesMembership(sorted, coordsOf, isValid, ValidShapes(sorted, coordsOf, isValid)[0]);
    }
  }

  /** With `return_first`, the result is a valid polygon whose shell is the
      longest among the valid ones. */
  lemma SelectedFirstIsLargest(sorted: seq<PolyRecord>, coordsOf: seq<nat> -> Ring, isValid: Polygon -> bool)
    requires SortedByShell(sorted)
    requires exists i :: 0 <= i < |sorted| && isValid(ToShape(sorted[i], coordsOf))
    ensures Selected(sorted, coordsOf, isValid, true).Ok?
    ensures var g := Selected(sorted, coordsOf, isValid, true).value;
      g.Some? && g.value.PolygonGeom?
      && (exists i :: 0 <= i < |sorted|
                      && g.value.polygon == ToShape(sorted[i], coordsOf)
                      && isValid(g.value.polygon)
                      && forall j :: 0 <= j < |sorted| && isValid(ToShape(sorted[j], coordsOf)) ==>
                                       |sorted[i].shell| >= |sorted[j].shell|)
  {
    var i :| 0 <= i < |sorted| && isValid(ToShape(sorted[i], coordsOf));
    ValidShapesMembership(sorted, coordsOf, isValid, ToShape(sorted[i], coordsOf));
    ValidShapesHeadIsLargest(sorted, coordsOf, isValid);
  }

  /** Without `return_first`: one valid polygon is returned bare, two or more
      become a multi-polygon of all valid polygons in sorted order. */
  lemma SelectedAll(sorted: seq<PolyRecord>, coordsOf: seq<nat> -> Ring, isValid: Polygon -> bool)
    requires sorted != []
    ensures var shapes := ValidShapes(sorted, coordsOf, isValid);
      && (|shapes| == 1 ==> Selected(sorted, coordsOf, isValid, false) == Ok(Some(PolygonGeom(shapes[0]))))
      && (|shapes| > 1 ==> Selected(sorted, coordsOf, isValid, false) == Ok(Some(MultiPolygonGeom(shapes))))
      && (|shapes| == 0 ==> Selected(sorted, coordsOf, isValid, false) == Err(ValueError))
  {
  }

  /** `convert_to_shapely_polygons(polygons, points, return_first)`: sorts the
      caller's list in place by descending shell length (stable), then selects
      from its valid polygons. */
  method ConvertToShapelyPolygons(polygons: PolygonList, coordsOf: seq<nat> -> Ring,
                                  isValid: Polygon -> bool, returnFirst: bool)
    returns (r: Result<Option<Geom>>)
    modifies polygons
    ensures polygons.items == SortByShell(old(polygons.items))
    ensures r == Selected(polygons.items, coordsOf, isValid, returnFirst)
  {
    polygons.items := SortByShell(polygons.items);
    if polygons.items == [] {
      return Ok(None);
    }
    var shapelyPolygons := KeepValid(polygons.items, coordsOf, isValid);
    if |shapelyPolygons| > 0 && returnFirst {
      return Ok(Some(PolygonGeom(shapelyPolygons[0])));
    }
    if |shapelyPolygons| == 1 {
      r := Ok(Some(PolygonGeom(shapelyPolygons[0])));
    } else if |shapelyPolygons| > 1 {
      r := Ok(Some(MultiPolygonGeom(shapelyPolygons)));
    } else {
      r := Err(ValueError);
    }
  }

  // ---------------------------------------------------------------------------
  // run_test
  // ---------------------------------------------------------------------------

  /** `run_test(point_fpath, n, alpha, xyThresh)`: a positive `alpha` forces
      `xyThresh` to 0. `getPolygon(alpha, xyThresh)` is `get_polygon`'s polygon
      result and `timer(i)` its timing on iteration `i`. Returns the polygons
      of the last iteration and one timing per iteration; with no iteration the
      polygons are unbound and saving them fails. */
  method RunTest(n: int, alpha: real, xyThresh: real,
                 getPolygon: (real, real) -> Result<Option<Geom>>, timer: nat -> real)
    returns (r: Result<(Option<Geom>, seq<real>)>)
    ensures n <= 0 ==> r == Err(UnboundLocalError)
    ensures n > 0 ==>
      var got := getPolygon(alpha, if alpha > 0.0 then 0.0 else xyThresh);
      && (got.Err? ==> r == Err(got.error))
      && (got.Ok? ==> r.Ok? && r.value.0 == got.value && |r.value.1| == n
                      && forall i :: 0 <= i < n ==> r.value.1[i] == timer(i))
  {
    var thresh := xyThresh;
    if alpha > 0.0 {
      thresh := 0.0;
    }
    var timeMs: seq<real> := [];
    var polygons: Option<Option<Geom>> := None;
    var i := 0;
    while i < n
      invariant 0 <= i <= (if n > 0 then n else 0)
      invariant |timeMs| == i
      invariant forall j :: 0 <= j < i ==> timeMs[j] == timer(j)
      invariant polygons.Some? <==> i > 0
      invariant i > 0 ==> getPolygon(alpha, thresh).Ok? && polygons.value == getPolygon(alpha, thresh).value
    {
      var got := getPolygon(alpha, thresh);
      if got.Err? {
        return Err(got.error);
      }
      polygons := Some(got.value);
      timeMs := timeMs + [timer(i)];
      i := i + 1;
    }
    if polygons.None? {
      return Err(UnboundLocalError);
    }
    r := Ok((polygons.value, timeMs));
  }
}
