/**
 * createFromWkt: read the leading keyword of a well-known text record (clause 7
 * of OGC 06-103r4, Simple Feature Access Part 1), construct the matching empty
 * variant, let its text importer parse the record from the caller's position,
 * and advance the caller's cursor only when that import succeeds.
 */
module Wkt {
  import opened Wrappers
  import opened Geometry
  import Factory

  /** What OGRWktReadToken yields: the token text and the position just past it. */
  datatype Token = Token(word: string, next: nat)

  /** OGRWktReadToken at a position of the text; None when no token can be extracted. */
  type Tokenizer = (string, nat) -> Option<Token>

  /** What a per-type importFromWkt leaves behind: result code, populated geometry and its end position. */
  datatype Imported = Imported(err: ErrorCode, geom: Geometry, next: nat)

  /** importFromWkt of the variant of the given (empty) instance, reading the text from a position. */
  type WktImporter = (Geometry, string, nat) -> Imported

  /** The three out-values of createFromWkt: the returned OGRErr, the *ppoReturn slot and *ppszData. */
  datatype Created = Created(err: ErrorCode, out: Option<Geometry>, cursor: nat)

  /** ASCII upper-casing, as the C locale's case-insensitive comparison folds letters. */
  function UpperAscii(c: char): (u: char)
    ensures 'a' <= c <= 'z' ==> u as int == c as int - 32
    ensures !('a' <= c <= 'z') ==> u == c
  {
    if 'a' <= c <= 'z' then (c as int - 32) as char else c
  }

  /** A string with every ASCII letter folded to upper case. */
  function UpperString(s: string): (u: string)
    ensures |u| == |s| && forall i :: 0 <= i < |s| ==> u[i] == UpperAscii(s[i])
  {
    if s == [] then [] else [UpperAscii(s[0])] + UpperString(s[1..])
  }

  /** EQUAL: the two strings are equal once ASCII letters are folded to upper case. */
  predicate EqualNoCase(a: string, b: string): (eq: bool)
    ensures a == b ==> eq
  {
    |a| == |b| && forall i :: 0 <= i < |a| ==> UpperAscii(a[i]) == UpperAscii(b[i])
  }

  /** Comparing letter by letter agrees with comparing the two upper-cased strings. */
  lemma EqualNoCaseIsUpperEquality(a: string, b: string)
    ensures EqualNoCase(a, b) <==> UpperString(a) == UpperString(b)
  {
    if UpperString(a) == UpperString(b) {
      assert |a| == |b|;
      forall i | 0 <= i < |a|
        ensures UpperAscii(a[i]) == UpperAscii(b[i])
      {
        assert UpperString(a)[i] == UpperString(b)[i];
      }
    }
  }

  /** The keywords in the order the source tries them. */
  const Keywords: seq<string> :=
    ["POINT", "LINESTRING", "POLYGON", "GEOMETRYCOLLECTION", "MULTIPOLYGON", "MULTIPOINT", "MULTILINESTRING"]

  /** The type code of the variant each keyword names, entry by entry. */
  const KeywordCodes: seq<TypeCode> :=
    [WkbPoint, WkbLineString, WkbPolygon, WkbGeometryCollection, WkbMultiPolygon, WkbMultiPoint, WkbMultiLineString]

  /** The empty variant the keyword dispatch of createFromWkt constructs directly, or None for any other token. */
  function KeywordGeometry(token: string): (r: Option<Geometry>)
    ensures r.Some? ==> IsEmpty(r.value.shape) && r.value.srs.None?
  {
    if EqualNoCase(token, "POINT") then Some(Geometry(Point(Coord(0.0, 0.0, 0.0)), None))
    else if EqualNoCase(token, "LINESTRING") then Some(Geometry(LineString([]), None))
    else if EqualNoCase(token, "POLYGON") then Some(Geometry(Polygon([]), None))
    else if EqualNoCase(token, "GEOMETRYCOLLECTION") then Some(Geometry(GeometryCollection([]), None))
    else if EqualNoCase(token, "MULTIPOLYGON") then Some(Geometry(MultiPolygon([]), None))
    else if EqualNoCase(token, "MULTIPOINT") then Some(Geometry(MultiPoint([]), None))
    else if EqualNoCase(token, "MULTILINESTRING") then Some(Geometry(MultiLineString([]), None))
    else None
  }

  /** Case-insensitive equality is transitive. */
  lemma EqualNoCaseTrans(a: string, b: string, c: string)
    requires EqualNoCase(a, b) && EqualNoCase(b, c)
    ensures EqualNoCase(a, c)
  {
  }

  /** Case-insensitive equality is symmetric. */
  lemma EqualNoCaseSym(a: string, b: string)
    requires EqualNoCase(a, b)
    ensures EqualNoCase(b, a)
  {
  }

  /** A string equal up to case to one that no third string matches does not match it either. */
  lemma EqualNoCaseTransNot(a: string, b: string, c: string)
    requires EqualNoCase(a, b) && !EqualNoCase(a, c)
    ensures !EqualNoCase(b, c)
  {
    if EqualNoCase(b, c) {
      EqualNoCaseTrans(a, b, c);
    }
  }

  /** No token matches two different keywords, so the order of the tests does not matter. */
  lemma KeywordsExclusive(token: string, i: nat, j: nat)
    requires i < |Keywords| && j < |Keywords|
    requires EqualNoCase(token, Keywords[i]) && EqualNoCase(token, Keywords[j])
    ensures i == j
  {
    EqualNoCaseSym(token, Keywords[i]);
    EqualNoCaseTrans(Keywords[i], token, Keywords[j]);
    // only LINESTRING and MULTIPOINT share a length, and their first letters differ
    assert UpperAscii(Keywords[1][0]) != UpperAscii(Keywords[5][0]);
  }

  /** A token equal to keyword i, in any letter case, selects the empty variant of that keyword's type code. */
  lemma KeywordSelectsVariant(token: string, i: nat)
    requires i < |Keywords| && EqualNoCase(token, Keywords[i])
    ensures KeywordGeometry(token) == Factory.CreateGeometry(KeywordCodes[i])
    ensures KeywordGeometry(token).Some? && FlatType(KeywordGeometry(token).value) == KeywordCodes[i]
  {
    forall j | 0 <= j < |Keywords| && j != i
      ensures !EqualNoCase(token, Keywords[j])
    {
      if EqualNoCase(token, Keywords[j]) {
        KeywordsExclusive(token, i, j);
      }
    }
    if i == 0 {
    } else if i == 1 {
      assert !EqualNoCase(token, Keywords[0]);
    } else if i == 2 {
      assert !EqualNoCase(token, Keywords[0]) && !EqualNoCase(token, Keywords[1]);
    } else if i == 3 {
      assert !EqualNoCase(token, Keywords[0]) && !EqualNoCase(token, Keywords[1]) && !EqualNoCase(token, Keywords[2]);
    } else if i == 4 {
      assert !EqualNoCase(token, Keywords[0]) && !EqualNoCase(token, Keywords[1]) && !EqualNoCase(token, Keywords[2]);
      assert !EqualNoCase(token, Keywords[3]);
    } else if i == 5 {
      assert !EqualNoCase(token, Keywords[0]) && !EqualNoCase(token, Keywords[1]) && !EqualNoCase(token, Keywords[2]);
      assert !EqualNoCase(token, Keywords[3]) && !EqualNoCase(token, Keywords[4]);
    } else {
      assert !EqualNoCase(token, Keywords[0]) && !EqualNoCase(token, Keywords[1]) && !EqualNoCase(token, Keywords[2]);
      assert !EqualNoCase(token, Keywords[3]) && !EqualNoCase(token, Keywords[4]) && !EqualNoCase(token, Keywords[5]);
    }
  }

  /** A token equal to no keyword, in any letter case, is unsupported. */
  lemma UnknownKeywordUnsupported(token: string)
    requires forall i :: 0 <= i < |Keywords| ==> !EqualNoCase(token, Keywords[i])
    ensures KeywordGeometry(token).None?
  {
    assert !EqualNoCase(token, Keywords[0]) && !EqualNoCase(token, Keywords[1]) && !EqualNoCase(token, Keywords[2]);
    assert !EqualNoCase(token, Keywords[3]) && !EqualNoCase(token, Keywords[4]) && !EqualNoCase(token, Keywords[5]);
    assert !EqualNoCase(token, Keywords[6]);
  }

  /** Letter case never matters to the dispatch: tokens equal up to case select the same variant. */
  lemma KeywordCaseInsensitive(t1: string, t2: string)
    requires EqualNoCase(t1, t2)
    ensures KeywordGeometry(t1) == KeywordGeometry(t2)
  {
    EqualNoCaseSym(t1, t2);
    if i :| 0 <= i < |Keywords| && EqualNoCase(t1, Keywords[i]) {
      EqualNoCaseTrans(t2, t1, Keywords[i]);
      KeywordSelectsVariant(t1, i);
      KeywordSelectsVariant(t2, i);
    } else {
      forall i | 0 <= i < |Keywords|
        ensures !EqualNoCase(t2, Keywords[i])
      {
        if EqualNoCase(t2, Keywords[i]) {
          EqualNoCaseTrans(t1, t2, Keywords[i]);
        }
      }
      UnknownKeywordUnsupported(t1);
      UnknownKeywordUnsupported(t2);
    }
  }

  /** LINEARRING, in any letter case, is not a top-level keyword. */
  lemma LinearRingUnsupported(token: string)
    requires EqualNoCase(token, "LINEARRING")
    ensures KeywordGeometry(token).None?
  {
    EqualNoCaseSym(token, "LINEARRING");
    forall i | 0 <= i < |Keywords|
      ensures !EqualNoCase(token, Keywords[i])
    {
      // the two ten-letter keywords differ from LINEARRING in their first or fifth letter
      assert !EqualNoCase("LINEARRING", Keywords[i]) by {
        assert UpperAscii("LINEARRING"[4]) != UpperAscii(Keywords[1][4]);
        assert UpperAscii("LINEARRING"[0]) != UpperAscii(Keywords[5][0]);
      }
      EqualNoCaseTransNot("LINEARRING", token, Keywords[i]);
    }
    UnknownKeywordUnsupported(token);
  }

  /**
   * createFromWkt over the text and the caller's cursor position. The token
   * read is used only for the dispatch: the importer starts again from the
   * caller's position, and the cursor moves to where it stopped only when it succeeds.
   */
  function CreateFromWkt(text: string, pos: nat, srs: Option<SpatialRef>, readToken: Tokenizer, importWkt: WktImporter): (r: Created)
    // the output slot is set exactly on success, and then carries the given spatial reference
    ensures r.out.Some? <==> r.err == NoError
    ensures r.out.Some? ==> r.out.value.srs == srs
    // on every failure the caller's cursor is left where it was
    ensures r.err != NoError ==> r.cursor == pos
    // no token
    ensures readToken(text, pos).None? ==> r.err == CorruptData
    // a token that names no variant
    ensures readToken(text, pos).Some? && KeywordGeometry(readToken(text, pos).value.word).None? ==>
              r.err == UnsupportedGeometryType
    // a keyword: the importer, run on its empty variant from the caller's position, decides
    ensures readToken(text, pos).Some? && KeywordGeometry(readToken(text, pos).value.word).Some? ==>
              var imported := importWkt(KeywordGeometry(readToken(text, pos).value.word).value, text, pos);
              r.err == imported.err &&
              (r.err == NoError ==> r.out.value.shape == imported.geom.shape && r.cursor == imported.next)
  {
    match readToken(text, pos)
    case None => Created(CorruptData, None, pos)
    case Some(tok) =>
      match KeywordGeometry(tok.word)
      case None => Created(UnsupportedGeometryType, None, pos)
      case Some(empty) =>
        var imported := importWkt(empty, text, pos);
        if imported.err == NoError then Created(NoError, Some(AssignSpatialReference(imported.geom, srs)), imported.next)
        else Created(imported.err, None, pos)
  }

  /**
   * Where the tokenizer stops is irrelevant: two tokenizers that find the same
   * word give the same result, because the importer restarts at the caller's position.
   */
  lemma IgnoresTokenEnd(text: string, pos: nat, srs: Option<SpatialRef>, t1: Tokenizer, t2: Tokenizer, importWkt: WktImporter)
    requires t1(text, pos).Some? == t2(text, pos).Some?
    requires t1(text, pos).Some? ==> t1(text, pos).value.word == t2(text, pos).value.word
    ensures CreateFromWkt(text, pos, srs, t1, importWkt) == CreateFromWkt(text, pos, srs, t2, importWkt)
  {
  }

  /** The text path builds exactly what the type-code factory builds for the keyword's code. */
  lemma AgreesWithFactory(text: string, pos: nat, srs: Option<SpatialRef>, readToken: Tokenizer, importWkt: WktImporter, i: nat)
    requires i < |Keywords|
    requires readToken(text, pos).Some? && EqualNoCase(readToken(text, pos).value.word, Keywords[i])
    ensures Factory.CreateGeometry(KeywordCodes[i]).Some?
    ensures var imported := importWkt(Factory.CreateGeometry(KeywordCodes[i]).value, text, pos);
            CreateFromWkt(text, pos, srs, readToken, importWkt) ==
              if imported.err == NoError then Created(NoError, Some(AssignSpatialReference(imported.geom, srs)), imported.next)
              else Created(imported.err, None, pos)
  {
    KeywordSelectsVariant(readToken(text, pos).value.word, i);
  }

  /**
   * When the variant importers keep the variant they were given, a geometry
   * decoded from text has the type of the keyword that introduced it.
   */
  lemma DecodedTypeMatchesKeyword(text: string, pos: nat, srs: Option<SpatialRef>, readToken: Tokenizer, importWkt: WktImporter, i: nat)
    requires i < |Keywords|
    requires readToken(text, pos).Some? && EqualNoCase(readToken(text, pos).value.word, Keywords[i])
    requires forall e: Geometry :: FlatType(importWkt(e, text, pos).geom) == FlatType(e)
    ensures CreateFromWkt(text, pos, srs, readToken, importWkt).err == NoError ==>
              FlatType(CreateFromWkt(text, pos, srs, readToken, importWkt).out.value) == KeywordCodes[i]
  {
    KeywordSelectsVariant(readToken(text, pos).value.word, i);
  }

  /** A keyword whose body is rejected by the importer leaves no geometry and the cursor where it was. */
  lemma RejectedBodyLeavesNothing(text: string, pos: nat, srs: Option<SpatialRef>, readToken: Tokenizer, importWkt: WktImporter)
    requires readToken(text, pos).Some?
    requires forall e: Geometry :: importWkt(e, text, pos).err == CorruptData
    ensures CreateFromWkt(text, pos, srs, readToken, importWkt) == Created(if KeywordGeometry(readToken(text, pos).value.word).Some? then CorruptData else UnsupportedGeometryType, None, pos)
  {
  }
}
