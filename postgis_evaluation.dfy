/** Extracting PostGIS's concave hull: the query is timed `n` times, the last
    result is decoded, and a GeometryCollection is narrowed to its polygonal
    members. The database, the query's result and the clock are parameters. */
module PostgisEvaluation {
  import opened Common
  import opened Geometry

  /** `[geom for geom in final_geometry.geoms if geom.geom_type in ['Polygon', 'MultiPolygon']]` */
  function PolygonalMembers(geoms: seq<Geom>): seq<Geom>
  {
    Filter(IsPolygonal, geoms)
  }

  /** The comprehension keeps exactly the polygonal members, in their original
      order: filtering a collection piece by piece gives the pieces' results
      one after another. */
  lemma PolygonalMembersExact(a: seq<Geom>, b: seq<Geom>, g: Geom)
    ensures g in PolygonalMembers(a) <==> g in a && IsPolygonal(g)
    ensures PolygonalMembers(a + b) == PolygonalMembers(a) + PolygonalMembers(b)
    ensures forall i :: 0 <= i < |PolygonalMembers(a)| ==> IsPolygonal(PolygonalMembers(a)[i])
  {
    FilterMembership(IsPolygonal, a, g);
    FilterAppend(IsPolygonal, a, b);
    FilterAll(IsPolygonal, a);
  }

  /** The filter step exactly as written: MultiPolygon is used but never
      imported, so two or more polygonal members raise NameError. */
  function NarrowAsWritten(g: Geom): (r: Result<Geom>)
    ensures !g.GeometryCollection? ==> r == Ok(g)
    ensures g.GeometryCollection? && |PolygonalMembers(g.geoms)| == 1 ==> r == Ok(PolygonalMembers(g.geoms)[0])
    ensures r.Err? ==> g.GeometryCollection? && (r.error == IndexError <==> PolygonalMembers(g.geoms) == [])
    ensures r.Ok? && g.GeometryCollection? ==> PolygonalMembers(g.geoms) == [r.value] && r.value in g.geoms
  {
    if !g.GeometryCollection? then Ok(g)
    else
      var polygons := PolygonalMembers(g.geoms);
      if polygons == [] then Err(IndexError)
      else if |polygons| == 1 then
        PolygonalMembersExact(g.geoms, [], polygons[0]);
        Ok(polygons[0])
      else Err(NameError)
  }

  /** The filter step as intended: two or more polygonal members become one
      multi-polygon of all their polygons, in order. */
  function Narrow(g: Geom): (r: Result<Geom>)
    ensures r.Err? <==> g.GeometryCollection? && PolygonalMembers(g.geoms) == []
    ensures r.Err? ==> r.error == IndexError
    ensures r.Ok? && g.GeometryCollection? ==> IsPolygonal(r.value)
  {
    if !g.GeometryCollection? then Ok(g)
    else
      var polygons := PolygonalMembers(g.geoms);
      if polygons == [] then Err(IndexError)
      else if |polygons| > 1 then Ok(MultiPolygonGeom(AllPolygons(polygons)))
      else
        PolygonalMembersExact(g.geoms, [], polygons[0]);
        Ok(polygons[0])
  }

  /** As written, every collection with at least two polygonal members fails
      with NameError, where the intended result is their multi-polygon. */
  lemma NarrowAsWrittenFailsOnTwo(geoms: seq<Geom>)
    requires |PolygonalMembers(geoms)| >= 2
    ensures NarrowAsWritten(GeometryCollection(geoms)) == Err(NameError)
    ensures Narrow(GeometryCollection(geoms)) == Ok(MultiPolygonGeom(AllPolygons(PolygonalMembers(geoms))))
  {
  }

  /** A concrete instance: a collection of two polygons and a point. */
  lemma NarrowAsWrittenCounterexample(p: Polygon, q: Polygon, pt: Point)
    ensures NarrowAsWritten(GeometryCollection([PolygonGeom(p), PointGeom(pt), PolygonGeom(q)])) == Err(NameError)
    ensures Narrow(GeometryCollection([PolygonGeom(p), PointGeom(pt), PolygonGeom(q)]))
            == Ok(MultiPolygonGeom([p, q]))
  {
    var gs := [PolygonGeom(p), PointGeom(pt), PolygonGeom(q)];
    assert gs[..2][..1] == [PolygonGeom(p)];
    assert gs[..2] == [PolygonGeom(p), PointGeom(pt)];
    assert [PolygonGeom(p)][..0] == [];
    assert Filter(IsPolygonal, [PolygonGeom(p)]) == [PolygonGeom(p)];
    assert Filter(IsPolygonal, gs[..2]) == [PolygonGeom(p)];
    assert PolygonalMembers(gs) == [PolygonGeom(p), PolygonGeom(q)];
    var ps := [PolygonGeom(p), PolygonGeom(q)];
    assert ps[..1] == [PolygonGeom(p)];
    assert AllPolygons([PolygonGeom(p)]) == [p];
    assert AllPolygons(ps) == [p, q];
  }

  /** What the (intended) filter promises: a non-collection is returned
      unchanged; a collection with one polygonal member yields that member; with
      several, a multi-polygon holding every polygon of every polygonal member
      in order; with none, IndexError at `polygons[0]`. In every successful case
      on a collection, the result is polygonal. */
  lemma NarrowSpec(g: Geom)
    ensures !g.GeometryCollection? ==> Narrow(g) == Ok(g)
    ensures g.GeometryCollection? && PolygonalMembers(g.geoms) == [] ==> Narrow(g) == Err(IndexError)
    ensures g.GeometryCollection? && |PolygonalMembers(g.geoms)| == 1 ==>
      Narrow(g) == Ok(PolygonalMembers(g.geoms)[0]) && g.geoms != [] && PolygonalMembers(g.geoms)[0] in g.geoms
    ensures g.GeometryCollection? && Narrow(g).Ok? ==> IsPolygonal(Narrow(g).value)
    ensures g.GeometryCollection? && |PolygonalMembers(g.geoms)| > 1 ==>
      Narrow(g) == Ok(MultiPolygonGeom(AllPolygons(PolygonalMembers(g.geoms))))
  {
    if g.GeometryCollection? && PolygonalMembers(g.geoms) != [] {
      PolygonalMembersExact(g.geoms, [], PolygonalMembers(g.geoms)[0]);
    }
  }

  /** `extract_concave_hull(connection, test_name, n, target_percent)`:
      `queried` is the geometry the query returns (decoded from its WKB),
      `timer(i)` the duration of execution `i`. One timing is recorded per
      execution; only the last result is decoded, and with no execution the
      result is unbound. */
  method ExtractConcaveHull(n: int, queried: Geom, timer: nat -> real)
    returns (r: Result<(Geom, seq<real>)>)
    ensures n <= 0 ==> r == Err(UnboundLocalError)
    ensures n > 0 && Narrow(queried).Err? ==> r == Err(Narrow(queried).error)
    ensures n > 0 && Narrow(queried).Ok? ==>
      r.Ok? && r.value.0 == Narrow(queried).value && |r.value.1| == n
      && forall i :: 0 <= i < n ==> r.value.1[i] == timer(i)
  {
    var timings: seq<real> := [];
    var result: Option<Geom> := None;
    var i := 0;
    while i < n
      invariant 0 <= i <= (if n > 0 then n else 0)
      invariant |timings| == i
      invariant forall j :: 0 <= j < i ==> timings[j] == timer(j)
      invariant result.Some? <==> i > 0
      invariant result.Some? ==> result.value == queried
    {
      result := Some(queried);
      timings := timings + [timer(i)];
      i := i + 1;
    }
    if result.None? {
      return Err(UnboundLocalError);
    }
    var finalGeometry := Narrow(result.value);
    if finalGeometry.Err? {
      return Err(finalGeometry.error);
    }
    r := Ok((finalGeometry.value, timings));
  }
}
