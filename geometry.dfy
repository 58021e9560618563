/** The stock optional-value wrapper used wherever the source has a pointer that may be NULL. */
module Wrappers {
  datatype Option<+T> = None | Some(value: T)
}

/**
 * The in-memory geometry model the factory dispatches over: the closed set of
 * seven Simple Features variants, the well-known type codes that name them, and
 * the result codes the factory reports.
 */
module Geometry {
  import opened Wrappers

  /** One vertex; two-dimensional data has z = 0. */
  datatype Coord = Coord(x: real, y: real, z: real)

  /** A closed polygon boundary (OGRLinearRing); it only ever occurs inside a Polygon. */
  datatype Ring = Ring(points: seq<Coord>)

  /** Opaque handle of an externally owned spatial reference; only its identity matters here. */
  datatype SpatialRef = SpatialRef(handle: nat)

  /** The variant part of a geometry. For Polygon, rings[0] is the exterior ring and the rest are interior rings. */
  datatype Shape =
    | Point(at: Coord)
    | LineString(points: seq<Coord>)
    | Polygon(rings: seq<Ring>)
    | MultiPoint(members: seq<Geometry>)
    | MultiLineString(members: seq<Geometry>)
    | MultiPolygon(members: seq<Geometry>)
    | GeometryCollection(members: seq<Geometry>)

  /** A geometry object: its shape and the spatial reference assigned to it (NULL when None). */
  datatype Geometry = Geometry(shape: Shape, srs: Option<SpatialRef>)

  /** The OGRErr values this layer produces or passes on; NoError is OGRERR_NONE. */
  datatype ErrorCode = NoError | NotEnoughData | UnsupportedGeometryType | CorruptData

  /** An OGRwkbGeometryType value: a 32-bit unsigned code. */
  type TypeCode = c: int | 0 <= c < 0x1_0000_0000

  const WkbPoint: TypeCode := 1
  const WkbLineString: TypeCode := 2
  const WkbPolygon: TypeCode := 3
  const WkbMultiPoint: TypeCode := 4
  const WkbMultiLineString: TypeCode := 5
  const WkbMultiPolygon: TypeCode := 6
  const WkbGeometryCollection: TypeCode := 7

  /** The 2.5D flag bit carried by three-dimensional type codes. */
  const Wkb25DBit: TypeCode := 0x8000_0000

  /** wkbFlatten: the code with the 2.5D flag bit cleared. */
  function Flatten(c: TypeCode): (f: TypeCode)
    ensures f < Wkb25DBit
    ensures f % Wkb25DBit == c % Wkb25DBit
  {
    if c >= Wkb25DBit then c - Wkb25DBit else c
  }

  /** Flattening an already flat code changes nothing, so flattening twice is flattening once. */
  lemma FlattenIdempotent(c: TypeCode)
    ensures Flatten(Flatten(c)) == Flatten(c)
  {
  }

  /** wkbFlatten(getGeometryType()): the two-dimensional type code of a geometry's variant. */
  function FlatType(g: Geometry): (t: TypeCode)
    ensures WkbPoint <= t <= WkbGeometryCollection
    ensures t == WkbPolygon <==> g.shape.Polygon?
    ensures t == WkbMultiPolygon <==> g.shape.MultiPolygon?
    ensures t == WkbGeometryCollection <==> g.shape.GeometryCollection?
  {
    match g.shape
    case Point(_) => WkbPoint
    case LineString(_) => WkbLineString
    case Polygon(_) => WkbPolygon
    case MultiPoint(_) => WkbMultiPoint
    case MultiLineString(_) => WkbMultiLineString
    case MultiPolygon(_) => WkbMultiPolygon
    case GeometryCollection(_) => WkbGeometryCollection
  }

  /** A freshly constructed instance: a point at the origin, or a variant with no vertices, rings or members. */
  predicate IsEmpty(s: Shape)
  {
    match s
    case Point(c) => c == Coord(0.0, 0.0, 0.0)
    case LineString(pts) => pts == []
    case Polygon(rings) => rings == []
    case MultiPoint(ms) => ms == []
    case MultiLineString(ms) => ms == []
    case MultiPolygon(ms) => ms == []
    case GeometryCollection(ms) => ms == []
  }

  /** The members of a collection (every Multi* variant is a kind of OGRGeometryCollection); none otherwise. */
  function Members(s: Shape): (ms: seq<Geometry>)
    ensures s.Point? || s.LineString? || s.Polygon? ==> ms == []
    ensures !(s.Point? || s.LineString? || s.Polygon?) ==> ms == s.members
  {
    match s
    case MultiPoint(ms) => ms
    case MultiLineString(ms) => ms
    case MultiPolygon(ms) => ms
    case GeometryCollection(ms) => ms
    case _ => []
  }

  /** assignSpatialReference: the same geometry with srs as its spatial reference. */
  function AssignSpatialReference(g: Geometry, srs: Option<SpatialRef>): (r: Geometry)
    ensures r.shape == g.shape && r.srs == srs
  {
    g.(srs := srs)
  }
}
