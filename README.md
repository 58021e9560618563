# OGR geometry factory — a Dafny model

This project models `OGRGeometryFactory` from GDAL/OGR (`ogr/ogrgeometryfactory.cpp`). That is the layer that
turns a well-known binary (WKB) record or a well-known text (WKT) record into a geometry object. It builds
empty geometries from a type code, and it provides two normalisation transforms, `forceToPolygon` and
`forceToMultiPolygon`.

The files:

- `geometry.dfy`: the shared data model.
  - `Wrappers.Option` stands for a pointer that may be NULL.
  - `Geometry` holds the seven Simple Features variants (`Shape`), a geometry with its optional spatial reference
    (`Geometry`), rings and coordinates, and the `OGRErr` values this layer deals in (`ErrorCode`).
  - It also holds the well-known type codes, `wkbFlatten` (`Flatten`) and the flattened type of a geometry (`FlatType`).
- `factory.dfy` (`Factory`):
  - `createGeometry`.
  - `forceToPolygon` as written, together with its unreachable ring-aggregation loop (`AggregateRings`, an
    imperative method proved against the recursive `CollectRings`) and a corrected variant.
  - `forceToMultiPolygon`.
- `wkb.dfy` (`Wkb`): `createFromWkb`. It checks the length, then the byte-order byte, then the type byte, then
  dispatches to the factory and the variant's importer. The byte-order values are 0 for XDR (big-endian) and
  1 for NDR (little-endian), as in clause 8 of OGC 06-103r4 (Simple Feature Access, Part 1).
- `wkt.dfy` (`Wkt`): `createFromWkt`. The leading token is matched, ignoring letter case, against the seven
  keywords of clause 7 of OGC 06-103r4. The matching variant is then built and imported, and the cursor is
  handled as the source does.

Pieces this file calls but does not define are parameters of the model:
- the per-type importers, `importFromWkb` and `importFromWkt`, are the function types `Wkb.WkbImporter` and
  `Wkt.WktImporter`, which map an empty instance to a result code and a populated instance;
- the tokenizer `OGRWktReadToken` is `Wkt.Tokenizer`, which returns an optional token and its end position.

The out-parameters become returned values:
- createFromWkb returns `Wkb.Created(err, out)`: the `OGRErr` result and the `*ppoReturn` slot;
- createFromWkt returns `Wkt.Created(err, out, cursor)`, which adds the new value of `*ppszData`.

Assumptions about code that is not in this file:
- `wkbFlatten` clears bit 31 (the 2.5D flag `0x80000000`) of a 32-bit code.
- The type codes are Point 1, LineString 2, Polygon 3, MultiPoint 4, MultiLineString 5, MultiPolygon 6 and
  GeometryCollection 7.
- A default-constructed point is at the origin. Every other new variant has no vertices, rings or members, and
  no spatial reference.

Where the documentation and the code disagree, the model follows the code:
- The doc comment (line 108) calls a length of zero "not known". The code (line 129) uses -1 as that sentinel.
  So zero gives `NotEnoughData`, as `Wkb.ZeroLengthNotEnough` states.
- On failure, createFromWkt leaves the caller's cursor where it was, because it is written only at line 305.
  A caller may therefore retry from the same cursor after a failure, and the model states this.

## Model

| member | source | states |
|---|---|---|
| Geometry.Flatten | ogr/ogrgeometryfactory.cpp:351 | the flattened code lies below the 2.5D bit and keeps the code's low 31 bits |
| Geometry.FlattenIdempotent | ogr/ogrgeometryfactory.cpp:351 | flattening twice is flattening once |
| Geometry.FlatType | ogr/ogrgeometryfactory.cpp:444-445 | the flattened type of a geometry is one of the seven codes, and it is Polygon, MultiPolygon or GeometryCollection exactly for those variants |
| Geometry.Members | ogr/ogrgeometryfactory.cpp:450-459 | the members of any collection variant (each Multi* variant is a geometry collection); Point, LineString and Polygon have none |
| Geometry.AssignSpatialReference | ogr/ogrgeometryfactory.cpp:180-185 | the shape is kept and the spatial reference becomes the given one |
| Factory.EmptyOf | ogr/ogrgeometryfactory.cpp:353-376 | a geometry exactly for the codes 1..7; it is then empty, has no srs, and its type is the code |
| Factory.CreateGeometry | ogr/ogrgeometryfactory.cpp:347-379 | a geometry is returned exactly when the flattened code is in 1..7; it is then empty, has no srs, and its type is the flattened code; otherwise NULL |
| Factory.EmptyDeterminedByType | ogr/ogrgeometryfactory.cpp:353-372 | two empty instances with the same type and srs are the same instance, so the three facts above pin the factory's result down |
| Factory.CreateGeometryIgnoresFlag | ogr/ogrgeometryfactory.cpp:351 | the result depends only on the flattened code: createGeometry(c) = createGeometry(flatten(c)), and a 2.5D code gives the same variant as its flat code |
| Factory.CreateGeometryOfType | ogr/ogrgeometryfactory.cpp:351-376 | createGeometry inverts the type accessor: on the type of any empty instance it rebuilds that instance |
| Factory.RingsOf | ogr/ogrgeometryfactory.cpp:455-465 | a member that is not a Polygon contributes no rings |
| Factory.CollectRingsConcat | ogr/ogrgeometryfactory.cpp:453-466 | aggregating over two runs of members concatenates their rings, in member order |
| Factory.CollectRings | ogr/ogrgeometryfactory.cpp:453-466 | the aggregate ring count is the sum of the Polygon members' ring counts |
| Factory.CollectRingsFromPolygons | ogr/ogrgeometryfactory.cpp:455-465 | a ring is in the aggregate exactly when it is a ring of some Polygon member |
| Factory.SkipsNonPolygon | ogr/ogrgeometryfactory.cpp:455-457 | inserting a non-Polygon member anywhere leaves the aggregate unchanged |
| Factory.PolygonRingsInOrder | ogr/ogrgeometryfactory.cpp:459-465 | each Polygon member's exterior and interior rings appear in the aggregate contiguously, after the rings of all members before it |
| Factory.AggregateRings | ogr/ogrgeometryfactory.cpp:448-470 | the dead loop builds a fresh polygon, with no srs, whose rings are the ordered concatenation of the Polygon members' rings (exterior ring first) and whose ring count is their sum |
| Factory.ForceToPolygon | ogr/ogrgeometryfactory.cpp:438-471 | as written: NULL maps to NULL, and because the guard is a tautology every non-NULL input is returned unchanged |
| Factory.ForceToPolygonKeepsMultiPolygon | ogr/ogrgeometryfactory.cpp:444-446 | as written, a MultiPolygon of a one-ring and a two-ring polygon comes back as that MultiPolygon and not as a Polygon |
| Factory.ForceToPolygonIntended | ogr/ogrgeometryfactory.cpp:441-470 | with the guard corrected, a GeometryCollection or MultiPolygon becomes one Polygon, with no srs, that is exactly the aggregate of its members' rings in member order (the dead loop's result), so as many rings as its Polygon members have; NULL and every other input are unchanged |
| Factory.ForceToPolygonIntendedMerges | ogr/ogrgeometryfactory.cpp:449-470 | with the guard corrected, the MultiPolygon of a one-ring and a two-ring polygon becomes a Polygon of exactly those three rings, in encounter order |
| Factory.ForceToMultiPolygon | ogr/ogrgeometryfactory.cpp:487-504 | NULL maps to NULL; a non-Polygon is returned unchanged; a Polygon becomes a MultiPolygon, with no srs, whose only member is the input; the result is never a Polygon |
| Factory.ForceToMultiPolygonIdempotent | ogr/ogrgeometryfactory.cpp:490-503 | applying forceToMultiPolygon twice equals applying it once |
| Wkb.ByteOrderOf | ogr/ogrgeometryfactory.cpp:135-137 | byte 0 is XDR, byte 1 is NDR, and every other value is no byte order |
| Wkb.TypeByte | ogr/ogrgeometryfactory.cpp:159-162 | the byte read is the low-order byte of the record's 32-bit type code in its declared byte order |
| Wkb.TypeByteIsFlattenedCode | ogr/ogrgeometryfactory.cpp:154-162 | reading the single type byte (byte 1 under NDR, byte 4 under XDR) equals decoding the whole 4-byte code in that order and flattening it, whenever the flattened code fits in a byte |
| Wkb.CreateFromWkb | ogr/ogrgeometryfactory.cpp:116-192 | output set exactly on success, carrying the given srs; a known length below 5 gives NotEnoughData; then a first byte other than 0 or 1 gives CorruptData; then a type byte with no variant gives UnsupportedGeometryType; otherwise the importer's error is returned unchanged, starting from the factory's empty instance, and its geometry is the output on success |
| Wkb.PrefixErrorsIgnoreImporter | ogr/ogrgeometryfactory.cpp:127-171 | when the prefix stops the decode, the result is an error and is the same for every importer, so the importer is never consulted |
| Wkb.DecodedTypeMatchesRecord | ogr/ogrgeometryfactory.cpp:159-184 | if the importers keep the variant they are given, a decoded geometry's type is the type byte of the record |
| Wkb.FourBytesNotEnough | ogr/ogrgeometryfactory.cpp:129-130 | the four-byte buffer 01 00 00 00 of known length yields NotEnoughData and no geometry |
| Wkb.ZeroLengthNotEnough | ogr/ogrgeometryfactory.cpp:129-130 | a declared length of zero yields NotEnoughData, because only -1 means "unknown" |
| Wkt.UpperAscii | ogr/ogrgeometryfactory.cpp:253 | the ASCII case folding used by EQUAL: lower-case letters map to upper case, and every other character is kept |
| Wkt.UpperString | ogr/ogrgeometryfactory.cpp:253 | the string with each character folded as above, of the same length |
| Wkt.EqualNoCase | ogr/ogrgeometryfactory.cpp:253-283 | EQUAL, the keyword comparison: equal strings always match |
| Wkt.EqualNoCaseIsUpperEquality | ogr/ogrgeometryfactory.cpp:253-283 | two strings match under EQUAL exactly when their upper-cased forms are equal |
| Wkt.KeywordGeometry | ogr/ogrgeometryfactory.cpp:253-291 | a variant built by the keyword dispatch is empty and has no srs |
| Wkt.KeywordsExclusive | ogr/ogrgeometryfactory.cpp:253-286 | no token matches two keywords ignoring case, so the order of the tests cannot change the outcome |
| Wkt.KeywordSelectsVariant | ogr/ogrgeometryfactory.cpp:253-286 | a token equal, ignoring case, to one of the seven keywords selects exactly the empty variant that createGeometry builds for that keyword's code |
| Wkt.UnknownKeywordUnsupported | ogr/ogrgeometryfactory.cpp:288-291 | a token equal to no keyword selects nothing |
| Wkt.KeywordCaseInsensitive | ogr/ogrgeometryfactory.cpp:253-291 | tokens that are equal ignoring case make the same selection |
| Wkt.LinearRingUnsupported | ogr/ogrgeometryfactory.cpp:288-291 | LINEARRING, in any letter case, selects nothing |
| Wkt.CreateFromWkt | ogr/ogrgeometryfactory.cpp:232-313 | output set exactly on success, carrying the given srs; no token gives CorruptData; a non-keyword gives UnsupportedGeometryType; otherwise the importer runs on the empty variant from the caller's original position and its error is returned unchanged; the cursor moves to the importer's end position only on success and otherwise stays put |
| Wkt.IgnoresTokenEnd | ogr/ogrgeometryfactory.cpp:239-247 | where the tokenizer stops does not affect the result; only the word it finds does |
| Wkt.AgreesWithFactory | ogr/ogrgeometryfactory.cpp:253-312 | the text path hands the importer the same empty instance that the type-code factory builds for the keyword's code, and its whole result (error, output with the given srs, cursor) is determined by that import |
| Wkt.DecodedTypeMatchesKeyword | ogr/ogrgeometryfactory.cpp:253-305 | if the importers keep the variant they are given, a geometry decoded from text has the type of the keyword that introduced it |
| Wkt.RejectedBodyLeavesNothing | ogr/ogrgeometryfactory.cpp:296-312 | when the importer rejects the body, the keyword's variant is discarded: there is no output and the cursor is unchanged |

## Findings

| source | as written | input that shows it | evidently intended | confidence | as-written member | corrected member |
|---|---|---|---|---|---|---|
| ogr/ogrgeometryfactory.cpp:444-446 | the guard "flat type differs from wkbGeometryCollection OR differs from wkbMultiPolygon", which is true for every type, so the input is always returned and lines 449-470 are dead | a MultiPolygon of a one-ring and a two-ring polygon is returned unchanged | return unchanged only when the type is neither GeometryCollection nor MultiPolygon (AND in place of OR), so a container becomes one Polygon of all its Polygon members' rings (3 rings here) | high; not executed | Factory.ForceToPolygon, Factory.ForceToPolygonKeepsMultiPolygon | Factory.ForceToPolygonIntended, Factory.ForceToPolygonIntendedMerges |

## Left out

- The per-type `importFromWkb` and `importFromWkt`, and the geometry classes' internals (coordinate storage,
  `addRing` and `addGeometry` copy or ownership), are not part of this model. The importers are parameters, so
  there are no round-trip properties: the encoders are not part of this model either.
- `OGRWktReadToken` and its `OGR_WKT_TOKEN_MAX` buffer are not part of this model. The tokenizer is a parameter
  that returns an optional token.
- The `CPLDebug` hex dump at lines 139-150 is logging only and is not modelled. It reads `pabyData[0..8]`,
  which can run past a buffer of 5 to 8 bytes.
- The C wrappers `OGR_G_CreateFromWkb`, `OGR_G_CreateFromWkt`, `OGR_G_CreateGeometry` and
  `OGR_G_DestroyGeometry` only cast handles.
- `destroyGeometry` and all heap ownership are not modelled: `delete` of a partly built geometry has no meaning
  for values.
- Spatial-reference reference counting is not modelled. A spatial reference is an opaque handle that is
  attached to the top-level geometry only. Whether collections pass it on to their members is decided outside
  this file.
- Wkb.CreateFromWkb: the caller's promise about the buffer is a precondition. With the -1 sentinel the buffer
  must hold at least 5 bytes; otherwise it must hold at least nBytes bytes. The source reads bytes 0, 1 and 4
  without any check.
- Wkb.DecodedTypeMatchesRecord: in C++ an importer cannot change an object's class. The model cannot express
  that, so the lemma assumes that importers keep the variant.
- Wkt.DecodedTypeMatchesKeyword: for the same reason, the lemma assumes that importers keep the variant.
- Factory.AggregateRings: for a Polygon member with no rings, the source passes a NULL exterior ring to
  `addRing`, which is not part of this model. Such a member contributes no rings here.
- Wkt.UpperAscii: the fold is the C locale's ASCII fold. The `strcasecmp` behind EQUAL can fold more letters
  under another locale (the Turkish dotless i, for example), and that is not modelled.
- Geometry.FlatType: the 2.5D flag that `getGeometryType` sets on three-dimensional geometries is not modelled.
  Every use of the type in this file flattens it first.
- No recursion-depth limit and no concurrency: this file has neither. Recursion happens only inside the
  importers.
