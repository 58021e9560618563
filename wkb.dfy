/**
 * createFromWkb: check the length and the byte-order byte of a well-known
 * binary record, pick the type code, ask the factory for an empty instance and
 * hand that to the variant's binary importer (clause 8 of OGC 06-103r4,
 * Simple Feature Access Part 1, fixes the prefix layout).
 */
module Wkb {
  import opened Wrappers
  import opened Geometry
  import Factory

  type byte = b: int | 0 <= b < 256

  /** The two byte orders of a WKB record. */
  datatype ByteOrder = XDR | NDR

  /** Byte-order byte values: 0 is XDR (big-endian), 1 is NDR (little-endian). */
  const WkbXDR: byte := 0
  const WkbNDR: byte := 1

  /** The length sentinel meaning "the number of available bytes is not known". */
  const UnknownLength: int := -1

  /** Shortest record the prefix can be read from: one byte-order byte and four type-code bytes. */
  const MinRecordLength: int := 5

  /** What a per-type importFromWkb leaves behind: its result code and the populated geometry. */
  datatype Imported = Imported(err: ErrorCode, geom: Geometry)

  /** importFromWkb of the variant of the given (empty) instance, over the buffer and the declared length. */
  type WkbImporter = (Geometry, seq<byte>, int) -> Imported

  /** The two out-values of createFromWkb: the returned OGRErr and the *ppoReturn slot. */
  datatype Created = Created(err: ErrorCode, out: Option<Geometry>)

  /** Decode the byte-order byte; any value other than the two markers is corrupt. */
  function ByteOrderOf(b: byte): (r: Option<ByteOrder>)
    ensures r == Some(XDR) <==> b == WkbXDR
    ensures r == Some(NDR) <==> b == WkbNDR
    ensures r.None? <==> b != WkbXDR && b != WkbNDR
  {
    if b == WkbXDR then Some(XDR) else if b == WkbNDR then Some(NDR) else None
  }

  /** The byte the type code is taken from: the low-order byte of the 32-bit code in either order. */
  function TypeByte(data: seq<byte>, order: ByteOrder): (b: byte)
    requires |data| >= MinRecordLength
    ensures b == TypeCodeAt(data, order) % 0x100
  {
    if order == NDR then data[1] else data[4]
  }

  /** The full 32-bit type code of bytes 1..4 in the declared byte order (an independent reference reading). */
  function TypeCodeAt(data: seq<byte>, order: ByteOrder): TypeCode
    requires |data| >= MinRecordLength
  {
    var b1, b2, b3, b4 := data[1] as int, data[2] as int, data[3] as int, data[4] as int;
    if order == NDR then b1 + 0x100 * b2 + 0x1_0000 * b3 + 0x100_0000 * b4
    else b4 + 0x100 * b3 + 0x1_0000 * b2 + 0x100_0000 * b1
  }

  /**
   * Reading one byte agrees with reading the whole code and flattening it
   * whenever the flattened code fits in a byte: in particular every 2.5D code
   * of the seven variants is read as its flat code.
   */
  lemma TypeByteIsFlattenedCode(data: seq<byte>, order: ByteOrder)
    requires |data| >= MinRecordLength
    requires Flatten(TypeCodeAt(data, order)) < 0x100
    ensures TypeByte(data, order) == Flatten(TypeCodeAt(data, order))
  {
    var lo := TypeByte(data, order) as int;
    var b1, b2, b3, b4 := data[1] as int, data[2] as int, data[3] as int, data[4] as int;
    var hi := if order == NDR then b2 + 0x100 * b3 + 0x1_0000 * b4 else b3 + 0x100 * b2 + 0x1_0000 * b1;
    assert TypeCodeAt(data, order) == lo + 0x100 * hi;
    if TypeCodeAt(data, order) >= Wkb25DBit {
      assert lo + 0x100 * (hi - 0x80_0000) < 0x100;
      assert hi == 0x80_0000;
    } else {
      assert hi == 0;
    }
  }

  /**
   * createFromWkb. The caller promises that the buffer holds nBytes bytes, or
   * at least the five prefix bytes when nBytes is the unknown-length sentinel.
   */
  function CreateFromWkb(data: seq<byte>, srs: Option<SpatialRef>, nBytes: int, importWkb: WkbImporter): (r: Created)
    requires nBytes == UnknownLength ==> |data| >= MinRecordLength
    requires nBytes != UnknownLength ==> nBytes <= |data|
    // the output slot is set exactly on success, and then carries the given spatial reference
    ensures r.out.Some? <==> r.err == NoError
    ensures r.out.Some? ==> r.out.value.srs == srs
    // a known length below five bytes
    ensures nBytes < MinRecordLength && nBytes != UnknownLength ==> r.err == NotEnoughData
    // a byte-order byte that is neither marker
    ensures (nBytes >= MinRecordLength || nBytes == UnknownLength) && data[0] != WkbXDR && data[0] != WkbNDR ==>
              r.err == CorruptData
    // a type code with no variant
    ensures (nBytes >= MinRecordLength || nBytes == UnknownLength) && ByteOrderOf(data[0]).Some? &&
            Factory.CreateGeometry(TypeByte(data, ByteOrderOf(data[0]).value)).None? ==>
              r.err == UnsupportedGeometryType
    // otherwise the importer decides, starting from the factory's empty instance
    ensures (nBytes >= MinRecordLength || nBytes == UnknownLength) && ByteOrderOf(data[0]).Some? &&
            Factory.CreateGeometry(TypeByte(data, ByteOrderOf(data[0]).value)).Some? ==>
              var imported := importWkb(Factory.CreateGeometry(TypeByte(data, ByteOrderOf(data[0]).value)).value, data, nBytes);
              r.err == imported.err &&
              (r.err == NoError ==> r.out.value.shape == imported.geom.shape)
  {
    if nBytes < MinRecordLength && nBytes != UnknownLength then Created(NotEnoughData, None)
    else
      match ByteOrderOf(data[0])
      case None => Created(CorruptData, None)
      case Some(order) =>
        match Factory.CreateGeometry(TypeByte(data, order))
        case None => Created(UnsupportedGeometryType, None)
        case Some(empty) =>
          var imported := importWkb(empty, data, nBytes);
          if imported.err == NoError then Created(NoError, Some(AssignSpatialReference(imported.geom, srs)))
          else Created(imported.err, None)
  }

  /** The prefix is long enough, well-marked and names a variant, so the importer gets to run. */
  predicate ImportReached(data: seq<byte>, nBytes: int)
    requires nBytes == UnknownLength ==> |data| >= MinRecordLength
    requires nBytes != UnknownLength ==> nBytes <= |data|
  {
    (nBytes >= MinRecordLength || nBytes == UnknownLength) && ByteOrderOf(data[0]).Some? &&
    Factory.CreateGeometry(TypeByte(data, ByteOrderOf(data[0]).value)).Some?
  }

  /**
   * Every failure before the import is decided by the prefix alone: the
   * importer is never consulted, so every importer gives the same result.
   */
  lemma PrefixErrorsIgnoreImporter(data: seq<byte>, srs: Option<SpatialRef>, nBytes: int, imp1: WkbImporter, imp2: WkbImporter)
    requires nBytes == UnknownLength ==> |data| >= MinRecordLength
    requires nBytes != UnknownLength ==> nBytes <= |data|
    requires !ImportReached(data, nBytes)
    ensures CreateFromWkb(data, srs, nBytes, imp1) == CreateFromWkb(data, srs, nBytes, imp2)
    ensures CreateFromWkb(data, srs, nBytes, imp1).err != NoError
  {
  }

  /**
   * When the variant importers keep the variant they were given (as the
   * source's importers, being methods of that variant's class, do), a decoded
   * geometry's type is the type code read from the record.
   */
  lemma DecodedTypeMatchesRecord(data: seq<byte>, srs: Option<SpatialRef>, nBytes: int, importWkb: WkbImporter)
    requires nBytes == UnknownLength ==> |data| >= MinRecordLength
    requires nBytes != UnknownLength ==> nBytes <= |data|
    requires forall e: Geometry :: FlatType(importWkb(e, data, nBytes).geom) == FlatType(e)
    ensures CreateFromWkb(data, srs, nBytes, importWkb).err == NoError ==>
              |data| >= MinRecordLength && ByteOrderOf(data[0]).Some? &&
              FlatType(CreateFromWkb(data, srs, nBytes, importWkb).out.value) == TypeByte(data, ByteOrderOf(data[0]).value)
  {
    if CreateFromWkb(data, srs, nBytes, importWkb).err == NoError {
      var order := ByteOrderOf(data[0]).value;
      Factory.CreateGeometryIgnoresFlag(TypeByte(data, order));
    }
  }

  /** A four-byte buffer of known length is too short, whatever it holds. */
  lemma FourBytesNotEnough(importWkb: WkbImporter)
    ensures CreateFromWkb([0x01, 0x00, 0x00, 0x00], None, 4, importWkb) == Created(NotEnoughData, None)
  {
  }

  /** Zero is not the unknown-length sentinel: a declared length of zero is too short. */
  lemma ZeroLengthNotEnough(data: seq<byte>, srs: Option<SpatialRef>, importWkb: WkbImporter)
    ensures CreateFromWkb(data, srs, 0, importWkb) == Created(NotEnoughData, None)
  {
  }
}
