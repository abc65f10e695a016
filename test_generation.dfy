/** Test-data helpers: the distance from a point to the nearest boundary ring
    of a (multi-)polygon, the split of a sampling job into work items, and
    scaling a polygon into a box of a given size (on its bounding box). Point
    sampling itself, the process pool and Shapely's distance are not modelled;
    the distance is a parameter. */
module TestGeneration {
  import opened Common
  import opened Geometry

  // ---------------------------------------------------------------------------
  // distance_to
  // ---------------------------------------------------------------------------

  /** The exteriors of the polygons, last polygon first. */
  function ExteriorsReversed(ps: seq<Polygon>): seq<Ring>
  {
    if ps == [] then [] else [ps[|ps| - 1].exterior] + ExteriorsReversed(ps[..|ps| - 1])
  }

  /** The interiors of all polygons, polygon by polygon, in order. */
  function AllInteriors(ps: seq<Polygon>): seq<Ring>
  {
    if ps == [] then [] else AllInteriors(ps[..|ps| - 1]) + ps[|ps| - 1].interiors
  }

  /** The rings `distance_to` compares against: for a polygon its exterior then
      its interiors; for a multi-polygon every exterior (in reverse member
      order) before every interior (in member order); NotImplementedError for
      any other geometry type. */
  function RingsOf(geom: Geom): (r: Result<seq<Ring>>)
    ensures r.Err? <==> !IsPolygonal(geom)
    ensures r.Err? ==> r.error == NotImplementedError
    ensures geom.PolygonGeom? ==> |r.value| == 1 + |geom.polygon.interiors| && r.value[0] == geom.polygon.exterior
  {
    match geom
    case PolygonGeom(p) => Ok([p.exterior] + p.interiors)
    case MultiPolygonGeom(ps) => Ok(ExteriorsReversed(ps) + AllInteriors(ps))
    case _ => Err(NotImplementedError)
  }

  /** The ring-gathering loop of `distance_to`, which prepends each member's
      exterior and appends its interiors. */
  method GatherRings(geom: Geom) returns (r: Result<seq<Ring>>)
    ensures r == RingsOf(geom)
  {
    match geom
    case PolygonGeom(p) =>
      var allRings := p.interiors;
      allRings := [p.exterior] + allRings;
      r := Ok(allRings);
    case MultiPolygonGeom(ps) =>
      var allRings: seq<Ring> := [];
      var i := 0;
      while i < |ps|
        invariant 0 <= i <= |ps|
        invariant allRings == ExteriorsReversed(ps[..i]) + AllInteriors(ps[..i])
      {
        assert ps[..i + 1][..i] == ps[..i];
        allRings := allRings + ps[i].interiors;
        allRings := [ps[i].exterior] + allRings;
        i := i + 1;
      }
      assert ps[..i] == ps;
      r := Ok(allRings);
    case _ =>
      r := Err(NotImplementedError);
  }

  /** Every ring of every member is gathered: the multi-polygon's list has one
      exterior per member and all members' interiors, and contains each of them. */
  lemma GatheredRingsComplete(ps: seq<Polygon>)
    ensures |ExteriorsReversed(ps)| == |ps|
    ensures forall j :: 0 <= j < |ps| ==> ExteriorsReversed(ps)[j] == ps[|ps| - 1 - j].exterior
    ensures forall i, ring :: 0 <= i < |ps| && ring in ps[i].interiors ==> ring in AllInteriors(ps)
  {
    ExteriorsReversedOrder(ps);
    AllInteriorsComplete(ps);
  }

  /** One exterior per member, the last member's first. */
  lemma {:induction false} ExteriorsReversedOrder(ps: seq<Polygon>)
    ensures |ExteriorsReversed(ps)| == |ps|
    ensures forall j :: 0 <= j < |ps| ==> ExteriorsReversed(ps)[j] == ps[|ps| - 1 - j].exterior
  {
    if ps != [] {
      var init := ps[..|ps| - 1];
      var rest := ExteriorsReversed(init);
      ExteriorsReversedOrder(init);
      assert ExteriorsReversed(ps) == [ps[|ps| - 1].exterior] + rest;
      forall j | 1 <= j < |ps|
        ensures ExteriorsReversed(ps)[j] == ps[|ps| - 1 - j].exterior
      {
        assert ExteriorsReversed(ps)[j] == rest[j - 1];
        assert init[|init| - 1 - (j - 1)] == ps[|ps| - 1 - j];
      }
    }
  }

  /** Every interior of every member is among the gathered interiors. */
  lemma {:induction false} AllInteriorsComplete(ps: seq<Polygon>)
    ensures forall i, ring :: 0 <= i < |ps| && ring in ps[i].interiors ==> ring in AllInteriors(ps)
  {
    if ps != [] {
      var init := ps[..|ps| - 1];
      AllInteriorsComplete(init);
      forall i, ring | 0 <= i < |ps| && ring in ps[i].interiors
        ensures ring in AllInteriors(ps)
      {
        if i < |init| {
          assert init[i] == ps[i];
        }
      }
    }
  }

  /** The smallest value of a non-empty sequence (Python's `min`). */
  function MinOf(xs: seq<real>): (m: real)
    requires xs != []
    ensures forall i :: 0 <= i < |xs| ==> m <= xs[i]
    ensures exists i :: 0 <= i < |xs| && m == xs[i]
  {
    if |xs| == 1 then xs[0]
    else
      var rest := MinOf(xs[1..]);
      assert forall i :: 1 <= i < |xs| ==> xs[i] == xs[1..][i - 1];
      if xs[0] <= rest then xs[0] else rest
  }

  /** `distance_to(point, geom)`: the minimum of `dist(point, ring)` over the
      gathered rings. It is at most the distance to every gathered ring and
      equals the distance to one of them; a multi-polygon with no member has no
      ring, and `min` of nothing raises ValueError. */
  method DistanceTo(point: Point, geom: Geom, dist: (Point, Ring) -> real) returns (r: Result<real>)
    ensures !IsPolygonal(geom) ==> r == Err(NotImplementedError)
    ensures geom.MultiPolygonGeom? && geom.polygons == [] ==> r == Err(ValueError)
    ensures geom.PolygonGeom? || (geom.MultiPolygonGeom? && geom.polygons != []) ==> r.Ok?
    ensures r.Ok? ==> exists rings ::
      RingsOf(geom) == Ok(rings) && rings != []
      && (forall i :: 0 <= i < |rings| ==> r.value <= dist(point, rings[i]))
      && (exists i :: 0 <= i < |rings| && r.value == dist(point, rings[i]))
  {
    var gathered := GatherRings(geom);
    if gathered.Err? {
      return Err(gathered.error);
    }
    var allRings := gathered.value;
    RingsOfEmpty(geom);
    var distances := Map((ring: Ring) => dist(point, ring), allRings);
    if distances == [] {
      return Err(ValueError);
    }
    var m := MinOf(distances);
    MinOverRings(point, allRings, dist, m);
    r := Ok(m);
  }

  /** The gathered rings are empty only for a MultiPolygon without members. */
  lemma RingsOfEmpty(geom: Geom)
    ensures RingsOf(geom).Ok? ==> (RingsOf(geom).value == [] <==> geom.MultiPolygonGeom? && geom.polygons == [])
  {
    if geom.MultiPolygonGeom? {
      GatheredRingsComplete(geom.polygons);
    }
  }

  /** The minimum of the distances to the rings is at most the distance to
      each ring and is the distance to one of them. */
  lemma MinOverRings(point: Point, rings: seq<Ring>, dist: (Point, Ring) -> real, m: real)
    requires rings != []
    requires m == MinOf(Map((ring: Ring) => dist(point, ring), rings))
    ensures forall i :: 0 <= i < |rings| ==> m <= dist(point, rings[i])
    ensures exists i :: 0 <= i < |rings| && m == dist(point, rings[i])
  {
    var distances := Map((ring: Ring) => dist(point, ring), rings);
    MapPointwise((ring: Ring) => dist(point, ring), rings);
    var w :| 0 <= w < |distances| && m == distances[w];
    assert m == dist(point, rings[w]);
  }

  // ---------------------------------------------------------------------------
  // random_points_within_mp: the work split
  // ---------------------------------------------------------------------------

  /** One call `random_points_within(poly, num_points, min_distance, seed)`. */
  datatype WorkItem = WorkItem(count: real, minDistance: real, seed: nat)

  /** The work split exactly as written: always four items of
      `num_points / processes` points, whatever `processes` is; a zero
      `processes` raises ZeroDivisionError. */
  function WorkItemsAsWritten(numPoints: int, minDistance: real, processes: int): (r: Result<seq<WorkItem>>)
    ensures r.Err? <==> processes == 0
    ensures r.Err? ==> r.error == ZeroDivisionError
    ensures r.Ok? ==> |r.value| == 4 && forall i :: 0 <= i < 4 ==>
      r.value[i].count * processes as real == numPoints as real && r.value[i].seed == i
  {
    if processes == 0 then Err(ZeroDivisionError)
    else
      var perProcessor := numPoints as real / processes as real;
      Ok(seq(4, i requires 0 <= i < 4 => WorkItem(perProcessor, minDistance, i)))
  }

  /** The work split as intended: one item per process. */
  function WorkItems(numPoints: int, minDistance: real, processes: int): Result<seq<WorkItem>>
  {
    if processes == 0 then Err(ZeroDivisionError)
    else
      var perProcessor := numPoints as real / processes as real;
      var k := if processes > 0 then processes else 0;
      Ok(seq(k, i requires 0 <= i < k => WorkItem(perProcessor, minDistance, i)))
  }

  /** The number of points a list of work items asks for. */
  function TotalCount(items: seq<WorkItem>): real
  {
    if items == [] then 0.0 else TotalCount(items[..|items| - 1]) + items[|items| - 1].count
  }

  lemma {:induction false} TotalCountUniform(items: seq<WorkItem>, c: real)
    requires forall i :: 0 <= i < |items| ==> items[i].count == c
    ensures TotalCount(items) == |items| as real * c
  {
    if items != [] {
      TotalCountUniform(items[..|items| - 1], c);
    }
  }

  /** As written, the four items carry seeds 0..3 and together ask for
      `4 * num_points / processes` points, which is `num_points` only when
      `processes` is 4 (or no points are asked for). */
  lemma WorkItemsAsWrittenTotal(numPoints: int, minDistance: real, processes: int)
    requires processes != 0
    ensures var items := WorkItemsAsWritten(numPoints, minDistance, processes).value;
      && |items| == 4
      && (forall i :: 0 <= i < 4 ==> items[i].seed == i && items[i].minDistance == minDistance)
      && TotalCount(items) * processes as real == 4.0 * numPoints as real
      && (TotalCount(items) == numPoints as real <==> processes == 4 || numPoints == 0)
  {
    var items := WorkItemsAsWritten(numPoints, minDistance, processes).value;
    var c := numPoints as real / processes as real;
    TotalCountUniform(items, c);
    assert TotalCount(items) == 4.0 * c;
    assert c * processes as real == numPoints as real;
    var num, p := numPoints as real, processes as real;
    if 4.0 * c == num {
      calc {
        4.0 * num;
        4.0 * (c * p);
        (4.0 * c) * p;
        num * p;
      }
      assert num * (4.0 - p) == 0.0;
    }
    if processes == 4 {
      assert 4.0 * c == num;
    }
  }

  /** A concrete instance: two processes and 100 points give four items of 50,
      200 points in all. */
  lemma WorkItemsAsWrittenCounterexample()
    ensures TotalCount(WorkItemsAsWritten(100, 0.0, 2).value) == 200.0
    ensures TotalCount(WorkItems(100, 0.0, 2).value) == 100.0
  {
    WorkItemsAsWrittenTotal(100, 0.0, 2);
    WorkItemsTotal(100, 0.0, 2);
  }

  /** The intended split: one item per process, item `i` seeded with `i`,
      together asking for exactly `num_points` points. */
  lemma WorkItemsTotal(numPoints: int, minDistance: real, processes: int)
    requires processes > 0
    ensures var items := WorkItems(numPoints, minDistance, processes).value;
      && |items| == processes
      && (forall i :: 0 <= i < processes ==> items[i].seed == i && items[i].minDistance == minDistance)
      && TotalCount(items) == numPoints as real
  {
    var items := WorkItems(numPoints, minDistance, processes).value;
    var c := numPoints as real / processes as real;
    TotalCountUniform(items, c);
    assert processes as real * c == numPoints as real;
  }

  // ---------------------------------------------------------------------------
  // scale_poly, on bounding boxes
  // ---------------------------------------------------------------------------

  /** The bounds of a box after Shapely's `scale(xfact=f, yfact=f)` about the
      box's centre: each corner coordinate `v` moves to `c + f * (v - c)`, `c`
      the centre; a negative factor mirrors the box, swapping its corners. */
  function ScaledAboutCentre(b: Bounds, f: real): Bounds
  {
    var cx := (b.minx + b.maxx) / 2.0;
    var cy := (b.miny + b.maxy) / 2.0;
    var x1, x2 := cx + f * (b.minx - cx), cx + f * (b.maxx - cx);
    var y1, y2 := cy + f * (b.miny - cy), cy + f * (b.maxy - cy);
    if f >= 0.0 then Bounds(x1, y1, x2, y2) else Bounds(x2, y2, x1, y1)
  }

  /** The bounds of a box after `translate(dx, dy)`. */
  function Translated(b: Bounds, dx: real, dy: real): Bounds
  {
    Bounds(b.minx + dx, b.miny + dy, b.maxx + dx, b.maxy + dy)
  }

  /** The one factor `scale_poly` applies to both axes. */
  function ScaleFactor(xRange: real, yRange: real, maxSize: real): real
    requires xRange != 0.0 && yRange != 0.0
  {
    Min(maxSize / xRange, maxSize / yRange)
  }

  /** `scale_poly(poly, max_size)` on the polygon's bounds: one factor,
      `min(max_size / x_range, max_size / y_range)`, on both axes, then a shift
      that puts the lower-left corner at the origin. A zero width or height
      raises ZeroDivisionError. */
  function ScalePoly(b: Bounds, maxSize: real): (r: Result<Bounds>)
    ensures r.Err? <==> b.maxx == b.minx || b.maxy == b.miny
    ensures r.Err? ==> r.error == ZeroDivisionError
    ensures r.Ok? ==> r.value.minx == 0.0 && r.value.miny == 0.0
  {
    var xRange := b.maxx - b.minx;
    var yRange := b.maxy - b.miny;
    if xRange == 0.0 || yRange == 0.0 then Err(ZeroDivisionError)
    else Ok(ScaledToOrigin(b, ScaleFactor(xRange, yRange, maxSize)))
  }

  /** Scaling a box about its centre by a factor and shifting its lower-left
      corner to the origin. */
  function ScaledToOrigin(b: Bounds, f: real): Bounds
  {
    var scaled := ScaledAboutCentre(b, f);
    Translated(scaled, -scaled.minx, -scaled.miny)
  }

  /** With a positive factor the result is the box from (0, 0) whose sides are
      the old ones times that factor. */
  lemma ScaledToOriginBox(b: Bounds, f: real)
    requires f > 0.0
    ensures ScaledToOrigin(b, f) == Bounds(0.0, 0.0, f * (b.maxx - b.minx), f * (b.maxy - b.miny))
  {
    var cx := (b.minx + b.maxx) / 2.0;
    var cy := (b.miny + b.maxy) / 2.0;
    ScaledDistance(b.minx, b.maxx, cx, f);
    ScaledDistance(b.miny, b.maxy, cy, f);
  }

  /** Scaling about a centre scales the distance between two coordinates. */
  lemma ScaledDistance(lo: real, hi: real, c: real, f: real)
    ensures (c + f * (hi - c)) - (c + f * (lo - c)) == f * (hi - lo)
  {
  }

  /** The factor `min(max_size / x_range, max_size / y_range)` brings one side
      exactly to `max_size` and neither side beyond it. */
  lemma RatioFits(xRange: real, yRange: real, maxSize: real)
    requires xRange > 0.0 && yRange > 0.0 && maxSize > 0.0
    ensures var ratio := ScaleFactor(xRange, yRange, maxSize);
      && ratio > 0.0
      && ratio * xRange <= maxSize && ratio * yRange <= maxSize
      && (ratio * xRange == maxSize || ratio * yRange == maxSize)
  {
    var fx, fy := maxSize / xRange, maxSize / yRange;
    assert fx * xRange == maxSize && fy * yRange == maxSize;
    if fx <= fy {
      assert fx * yRange <= fy * yRange;
    } else {
      assert fy * xRange <= fx * xRange;
    }
  }

  /** On a box of positive width and height, `scale_poly` yields the box from
      the origin whose sides are the old ones times the common factor. */
  lemma ScalePolyBox(b: Bounds, maxSize: real)
    requires b.minx < b.maxx && b.miny < b.maxy && maxSize > 0.0
    ensures ScalePoly(b, maxSize) == Ok(ScaledBox(b.maxx - b.minx, b.maxy - b.miny, maxSize))
  {
    var xRange, yRange := b.maxx - b.minx, b.maxy - b.miny;
    var ratio := ScaleFactor(xRange, yRange, maxSize);
    RatioFits(xRange, yRange, maxSize);
    ScaledToOriginBox(b, ratio);
    assert ScaledBox(xRange, yRange, maxSize) == ScaledToOrigin(b, ratio);
    assert ScalePoly(b, maxSize) == Ok(ScaledToOrigin(b, ratio));
  }

  /** The box from the origin whose sides are two positive ranges times their
      common factor: it keeps the ranges' proportion and fits `max_size`, one
      side exactly. */
  function ScaledBox(xRange: real, yRange: real, maxSize: real): (s: Bounds)
    requires xRange > 0.0 && yRange > 0.0 && maxSize > 0.0
    ensures s.minx == 0.0 && s.miny == 0.0
    ensures s.maxx * yRange == s.maxy * xRange
    ensures s.maxx <= maxSize && s.maxy <= maxSize
    ensures s.maxx == maxSize || s.maxy == maxSize
  {
    var ratio := ScaleFactor(xRange, yRange, maxSize);
    RatioFits(xRange, yRange, maxSize);
    SameFactor(ratio * xRange, ratio * yRange, xRange, yRange, ratio);
    Bounds(0.0, 0.0, ratio * xRange, ratio * yRange)
  }

  /** For a box of positive width and height and a positive target size, the
      scaled box starts at the origin, keeps the aspect ratio, its larger side
      is exactly `max_size` and neither side exceeds it. */
  lemma ScalePolyFits(b: Bounds, maxSize: real)
    requires b.minx < b.maxx && b.miny < b.maxy && maxSize > 0.0
    ensures ScalePoly(b, maxSize).Ok?
    ensures var s := ScalePoly(b, maxSize).value;
      && s.minx == 0.0 && s.miny == 0.0
      && s.maxx * (b.maxy - b.miny) == s.maxy * (b.maxx - b.minx)
      && s.maxx <= maxSize && s.maxy <= maxSize
      && (s.maxx == maxSize || s.maxy == maxSize)
  {
    ScalePolyBox(b, maxSize);
  }

  /** Two sides scaled by the same factor keep their proportion. */
  lemma SameFactor(sx: real, sy: real, xRange: real, yRange: real, ratio: real)
    requires sx == ratio * xRange && sy == ratio * yRange
    ensures sx * yRange == sy * xRange
  {
    assert (ratio * xRange) * yRange == ratio * (xRange * yRange);
  }
}
