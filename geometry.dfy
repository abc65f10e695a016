/** Shapely geometries as opaque values: only the structure the harness code
    inspects (geometry type tag, a polygon's exterior and interior rings, the
    members of a multi-polygon or a collection) is represented. Validity,
    distance and area stay abstract and are passed in where they are used. */
module Geometry {
  import opened Common

  /** A closed ring of coordinates (Shapely LinearRing). */
  datatype Ring = Ring(coords: seq<Point>)

  /** A polygon: one exterior ring and zero or more interior rings (holes). */
  datatype Polygon = Polygon(exterior: Ring, interiors: seq<Ring>)

  /** The geometry types the harness distinguishes by `geom_type`. */
  datatype Geom =
    | PolygonGeom(polygon: Polygon)
    | MultiPolygonGeom(polygons: seq<Polygon>)
    | GeometryCollection(geoms: seq<Geom>)
    | PointGeom(point: Point)
    | LineStringGeom(coords: seq<Point>)

  /** `geom_type in ['Polygon', 'MultiPolygon']` */
  predicate IsPolygonal(g: Geom)
  {
    g.PolygonGeom? || g.MultiPolygonGeom?
  }

  /** The polygons making up a polygonal geometry, in order. */
  function PolygonsOf(g: Geom): seq<Polygon>
  {
    match g
    case PolygonGeom(p) => [p]
    case MultiPolygonGeom(ps) => ps
    case _ => []
  }

  /** The polygons of a sequence of geometries, concatenated in order. */
  function AllPolygons(gs: seq<Geom>): seq<Polygon>
  {
    if gs == [] then [] else AllPolygons(gs[..|gs| - 1]) + PolygonsOf(gs[|gs| - 1])
  }
}
