/**
 * OGRGeometryFactory: type-code driven construction of empty geometries and the
 * two shape-normalisation transforms, forceToPolygon and forceToMultiPolygon.
 */
module Factory {
  import opened Wrappers
  import opened Geometry

  /** The empty instance of a variant, NULL allocation aside; srs is unset on a new object. */
  function EmptyOf(t: TypeCode): (r: Option<Geometry>)
    ensures r.Some? <==> WkbPoint <= t <= WkbGeometryCollection
    ensures r.Some? ==> FlatType(r.value) == t && IsEmpty(r.value.shape) && r.value.srs.None?
  {
    if t == WkbPoint then Some(Geometry(Point(Coord(0.0, 0.0, 0.0)), None))
    else if t == WkbLineString then Some(Geometry(LineString([]), None))
    else if t == WkbPolygon then Some(Geometry(Polygon([]), None))
    else if t == WkbGeometryCollection then Some(Geometry(GeometryCollection([]), None))
    else if t == WkbMultiPolygon then Some(Geometry(MultiPolygon([]), None))
    else if t == WkbMultiPoint then Some(Geometry(MultiPoint([]), None))
    else if t == WkbMultiLineString then Some(Geometry(MultiLineString([]), None))
    else None
  }

  /**
   * createGeometry: an empty geometry whose type is the flattened code when
   * that is one of the seven variants, NULL for every other code.
   */
  function CreateGeometry(code: TypeCode): (r: Option<Geometry>)
    ensures r.Some? <==> WkbPoint <= Flatten(code) <= WkbGeometryCollection
    ensures r.Some? ==> FlatType(r.value) == Flatten(code)
    ensures r.Some? ==> IsEmpty(r.value.shape) && r.value.srs.None?
  {
    EmptyOf(Flatten(code))
  }

  /** An empty geometry is determined by its type: no two different empty instances share one. */
  lemma EmptyDeterminedByType(a: Geometry, b: Geometry)
    requires IsEmpty(a.shape) && IsEmpty(b.shape) && a.srs == b.srs
    requires FlatType(a) == FlatType(b)
    ensures a == b
  {
  }

  /** createGeometry sees only the flattened code: a 2.5D code builds the same variant as its flat code. */
  lemma CreateGeometryIgnoresFlag(code: TypeCode)
    ensures CreateGeometry(code) == CreateGeometry(Flatten(code))
    ensures code < Wkb25DBit ==> CreateGeometry(code + Wkb25DBit) == CreateGeometry(code)
  {
    FlattenIdempotent(code);
  }

  /** createGeometry is the inverse of the type accessor on empty instances. */
  lemma CreateGeometryOfType(g: Geometry)
    requires IsEmpty(g.shape) && g.srs.None?
    ensures CreateGeometry(FlatType(g)) == Some(g)
  {
    var r := CreateGeometry(FlatType(g));
    EmptyDeterminedByType(r.value, g);
  }

  // ---------------------------------------------------------------------
  // forceToPolygon
  // ---------------------------------------------------------------------

  /** The rings a Polygon member contributes to an aggregate: its exterior ring, then its interior rings. */
  function RingsOf(g: Geometry): (rs: seq<Ring>)
    ensures !g.shape.Polygon? ==> rs == []
  {
    if g.shape.Polygon? then g.shape.rings else []
  }

  /** The rings of all Polygon members, in member order; other members contribute nothing. */
  function CollectRings(members: seq<Geometry>): (rs: seq<Ring>)
    ensures |rs| == PolygonRingCount(members)
  {
    if members == [] then [] else RingsOf(members[0]) + CollectRings(members[1..])
  }

  /** The total number of rings over the Polygon members. */
  function PolygonRingCount(members: seq<Geometry>): nat
  {
    if members == [] then 0
    else (if members[0].shape.Polygon? then |members[0].shape.rings| else 0) + PolygonRingCount(members[1..])
  }

  /** The polygon the aggregation builds from a container's members; a new OGRPolygon carries no srs. */
  function AggregatedPolygon(members: seq<Geometry>): Geometry
  {
    Geometry(Polygon(CollectRings(members)), None)
  }

  /** Collecting over a concatenation concatenates the collected rings. */
  lemma {:induction false} CollectRingsConcat(a: seq<Geometry>, b: seq<Geometry>)
    ensures CollectRings(a + b) == CollectRings(a) + CollectRings(b)
  {
    if a == [] {
      assert a + b == b;
    } else {
      assert (a + b)[1..] == a[1..] + b;
      CollectRingsConcat(a[1..], b);
    }
  }

  /** Every ring of the aggregate is a ring of some Polygon member, and every ring of a Polygon member is in it. */
  lemma {:induction false} CollectRingsFromPolygons(members: seq<Geometry>, x: Ring)
    ensures x in CollectRings(members) <==> exists m :: m in members && m.shape.Polygon? && x in m.shape.rings
  {
    if members != [] {
      CollectRingsFromPolygons(members[1..], x);
      assert members == [members[0]] + members[1..];
    }
  }

  /** A member that is not a Polygon is skipped: removing it leaves the aggregate unchanged. */
  lemma SkipsNonPolygon(a: seq<Geometry>, m: Geometry, b: seq<Geometry>)
    requires FlatType(m) != WkbPolygon
    ensures CollectRings(a + [m] + b) == CollectRings(a + b)
  {
    var single := [m];
    assert CollectRings(single) == [] by {
      assert single[0] == m && single[1..] == [];
      assert RingsOf(m) == [];
    }
    calc {
      CollectRings(a + [m] + b);
      { CollectRingsConcat(a + single, b); }
      CollectRings(a + single) + CollectRings(b);
      { CollectRingsConcat(a, single); }
      CollectRings(a) + CollectRings(b);
      { CollectRingsConcat(a, b); }
      CollectRings(a + b);
    }
  }

  /** Each Polygon member's rings appear in the aggregate, contiguously, after those of the members before it. */
  lemma PolygonRingsInOrder(members: seq<Geometry>, i: nat)
    requires i < |members| && members[i].shape.Polygon?
    ensures CollectRings(members) ==
            CollectRings(members[..i]) + members[i].shape.rings + CollectRings(members[i + 1..])
  {
    var tail := members[i..];
    assert members == members[..i] + tail;
    CollectRingsConcat(members[..i], tail);
    assert tail[0] == members[i] && tail[1..] == members[i + 1..];
    assert CollectRings(tail) == RingsOf(members[i]) + CollectRings(members[i + 1..]);
  }

  /**
   * The ring-aggregation loop of forceToPolygon: for every Polygon member, add
   * its exterior ring and then each interior ring to a fresh polygon.
   */
  method AggregateRings(members: seq<Geometry>) returns (poly: Geometry)
    ensures poly == AggregatedPolygon(members)
    ensures FlatType(poly) == WkbPolygon && poly.srs.None?
    ensures |poly.shape.rings| == PolygonRingCount(members)
  {
    var rings: seq<Ring> := [];
    for iGeom := 0 to |members|
      invariant rings == CollectRings(members[..iGeom])
    {
      var member := members[iGeom];
      assert members[..iGeom + 1] == members[..iGeom] + [member];
      CollectRingsConcat(members[..iGeom], [member]);
      assert CollectRings([member]) == RingsOf(member) + CollectRings([]);
      if FlatType(member) != WkbPolygon {
        continue;
      }
      var oldRings := member.shape.rings;
      if |oldRings| > 0 {
        rings := rings + [oldRings[0]];
      }
      var numInterior := if |oldRings| > 0 then |oldRings| - 1 else 0;
      for iRing := 0 to numInterior
        invariant rings == CollectRings(members[..iGeom]) + oldRings[..iRing + (if |oldRings| > 0 then 1 else 0)]
      {
        rings := rings + [oldRings[iRing + 1]];
      }
      assert oldRings[..numInterior + (if |oldRings| > 0 then 1 else 0)] == oldRings;
    }
    assert members[..|members|] == members;
    poly := Geometry(Polygon(rings), None);
  }

  /**
   * forceToPolygon as written. Its guard, "flat type differs from
   * GeometryCollection OR differs from MultiPolygon", holds for every type, so
   * every input comes back unchanged and the aggregation is never reached.
   */
  function ForceToPolygon(g: Option<Geometry>): (r: Option<Geometry>)
    ensures r == g
  {
    match g
    case None => None
    case Some(geom) =>
      if FlatType(geom) != WkbGeometryCollection || FlatType(geom) != WkbMultiPolygon then g
      else Some(AggregatedPolygon(Members(geom.shape)))
  }

  /** As written, a MultiPolygon of a one-ring and a two-ring polygon is returned as it came, not as a polygon. */
  lemma ForceToPolygonKeepsMultiPolygon(r1: Ring, r2: Ring, r3: Ring)
    ensures var mp := Geometry(MultiPolygon([Geometry(Polygon([r1]), None), Geometry(Polygon([r2, r3]), None)]), None);
            ForceToPolygon(Some(mp)) == Some(mp) && FlatType(ForceToPolygon(Some(mp)).value) != WkbPolygon
  {
  }

  /**
   * forceToPolygon with the guard as evidently intended ("neither a
   * GeometryCollection nor a MultiPolygon"): a container is replaced by one
   * polygon holding all rings of its Polygon members; anything else is kept.
   */
  function ForceToPolygonIntended(g: Option<Geometry>): (r: Option<Geometry>)
    ensures g.None? ==> r.None?
    ensures g.Some? && !g.value.shape.GeometryCollection? && !g.value.shape.MultiPolygon? ==> r == g
    ensures g.Some? && (g.value.shape.GeometryCollection? || g.value.shape.MultiPolygon?) ==>
              r == Some(AggregatedPolygon(g.value.shape.members)) &&
              FlatType(r.value) == WkbPolygon && r.value.srs.None? &&
              |r.value.shape.rings| == PolygonRingCount(g.value.shape.members)
  {
    match g
    case None => None
    case Some(geom) =>
      if FlatType(geom) != WkbGeometryCollection && FlatType(geom) != WkbMultiPolygon then g
      else
        Some(AggregatedPolygon(Members(geom.shape)))
  }

  /** With the intended guard, the two-polygon MultiPolygon becomes one polygon of three rings in encounter order. */
  lemma ForceToPolygonIntendedMerges(r1: Ring, r2: Ring, r3: Ring)
    ensures var mp := Geometry(MultiPolygon([Geometry(Polygon([r1]), None), Geometry(Polygon([r2, r3]), None)]), None);
            ForceToPolygonIntended(Some(mp)) == Some(Geometry(Polygon([r1, r2, r3]), None))
  {
    var ms := [Geometry(Polygon([r1]), None), Geometry(Polygon([r2, r3]), None)];
    assert ms[1..] == [ms[1]] && ms[1..][1..] == [];
    assert CollectRings(ms[1..]) == [r2, r3] + CollectRings([]);
    assert CollectRings(ms) == [r1] + CollectRings(ms[1..]) == [r1, r2, r3];
    var mp := Geometry(MultiPolygon(ms), None);
    assert Members(mp.shape) == ms;
    assert ForceToPolygonIntended(Some(mp)) == Some(AggregatedPolygon(ms));
  }

  // ---------------------------------------------------------------------
  // forceToMultiPolygon
  // ---------------------------------------------------------------------

  /**
   * forceToMultiPolygon: a polygon becomes the sole member of a new
   * MultiPolygon (which has no srs of its own); anything else is returned as it is.
   */
  function ForceToMultiPolygon(g: Option<Geometry>): (r: Option<Geometry>)
    ensures g.None? <==> r.None?
    ensures g.Some? && FlatType(g.value) != WkbPolygon ==> r == g
    ensures g.Some? && FlatType(g.value) == WkbPolygon ==>
              FlatType(r.value) == WkbMultiPolygon && r.value.shape.members == [g.value] && r.value.srs.None?
    ensures r.Some? ==> FlatType(r.value) != WkbPolygon
  {
    match g
    case None => None
    case Some(geom) =>
      if FlatType(geom) != WkbPolygon then g
      else Some(Geometry(MultiPolygon([geom]), None))
  }

  /** Forcing to MultiPolygon a second time changes nothing. */
  lemma ForceToMultiPolygonIdempotent(g: Option<Geometry>)
    ensures ForceToMultiPolygon(ForceToMultiPolygon(g)) == ForceToMultiPolygon(g)
  {
  }
}
