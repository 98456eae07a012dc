/** Orientation normalisation: the EXIF orientation code read from the
    source file selects a clockwise rotation, which is applied to the
    rescaled raster as a pure geometric transform. */
module Orientation {

  /** Outcome of reading the source's EXIF block: the orientation attribute
      (0 when the attribute is absent), or an I/O failure. */
  datatype ExifRead = Unreadable | Tag(code: int)

  datatype Rotation = NoRotation | Rotate90 | Rotate180 | Rotate270

  /** Clockwise angle of a rotation, in degrees. */
  function Degrees(r: Rotation): (d: int)
    ensures d % 90 == 0 && 0 <= d < 360
    ensures d == 0 <==> r == NoRotation
  {
    match r
    case NoRotation => 0
    case Rotate90 => 90
    case Rotate180 => 180
    case Rotate270 => 270
  }

  /** EXIF code 6 turns the image by 90 degrees, 3 by 180 and 8 by 270;
      every other code, the default 0 and the mirrored codes included,
      leaves it as it is. */
  function RotationFor(code: int): (r: Rotation)
    ensures r == Rotate90 <==> code == 6
    ensures r == Rotate180 <==> code == 3
    ensures r == Rotate270 <==> code == 8
    ensures Degrees(r) == (if code == 6 then 90 else if code == 3 then 180 else if code == 8 then 270 else 0)
  {
    if code == 6 then Rotate90
    else if code == 3 then Rotate180
    else if code == 8 then Rotate270
    else NoRotation
  }

  /** An unreadable EXIF block is not fatal: the image keeps its orientation. */
  function RotationOf(exif: ExifRead): (r: Rotation)
    ensures exif.Unreadable? ==> r == NoRotation
    ensures exif.Tag? ==> r == RotationFor(exif.code)
  {
    match exif
    case Unreadable => NoRotation
    case Tag(code) => RotationFor(code)
  }

  /** Codes that the source does not recognise (identity 1, mirrored 2, 4,
      5 and 7, and the absent-attribute default 0) give no rotation. */
  lemma UnrecognisedCodesKeepOrientation(code: int)
    requires code in {0, 1, 2, 4, 5, 7}
    ensures RotationFor(code) == NoRotation
  {
  }

  /** A raster of `height` rows of `width` pixels each; `rows[y][x]` is the
      pixel in column x of row y, row 0 at the top. */
  datatype Raster = Raster(width: nat, height: nat, rows: seq<seq<int>>)
  {
    predicate Valid()
    {
      |rows| == height && forall y :: 0 <= y < height ==> |rows[y]| == width
    }
  }

  /** Quarter turn clockwise: the bottom-left pixel becomes the top-left one. */
  function TurnClockwise(img: Raster): (out: Raster)
    requires img.Valid()
    ensures out.Valid()
    ensures out.width == img.height && out.height == img.width
    ensures forall y, x :: 0 <= y < out.height && 0 <= x < out.width ==>
      out.rows[y][x] == img.rows[img.height - 1 - x][y]
  {
    Raster(img.height, img.width,
      seq(img.width, y requires 0 <= y < img.width =>
        seq(img.height, x requires 0 <= x < img.height => img.rows[img.height - 1 - x][y])))
  }

  /** Half turn: the bottom-right pixel becomes the top-left one. */
  function TurnHalf(img: Raster): (out: Raster)
    requires img.Valid()
    ensures out.Valid()
    ensures out.width == img.width && out.height == img.height
    ensures forall y, x :: 0 <= y < out.height && 0 <= x < out.width ==>
      out.rows[y][x] == img.rows[img.height - 1 - y][img.width - 1 - x]
  {
    Raster(img.width, img.height,
      seq(img.height, y requires 0 <= y < img.height =>
        seq(img.width, x requires 0 <= x < img.width => img.rows[img.height - 1 - y][img.width - 1 - x])))
  }

  /** Quarter turn counter-clockwise (270 degrees clockwise): the top-right
      pixel becomes the top-left one. */
  function TurnCounterClockwise(img: Raster): (out: Raster)
    requires img.Valid()
    ensures out.Valid()
    ensures out.width == img.height && out.height == img.width
    ensures forall y, x :: 0 <= y < out.height && 0 <= x < out.width ==>
      out.rows[y][x] == img.rows[x][img.width - 1 - y]
  {
    Raster(img.height, img.width,
      seq(img.width, y requires 0 <= y < img.width =>
        seq(img.height, x requires 0 <= x < img.height => img.rows[x][img.width - 1 - y])))
  }

  /** Applies a rotation. Quarter turns swap width and height; the identity
      and the half turn keep them. */
  function Rotate(r: Rotation, img: Raster): (out: Raster)
    requires img.Valid()
    ensures out.Valid()
    ensures r in {Rotate90, Rotate270} ==> out.width == img.height && out.height == img.width
    ensures r in {NoRotation, Rotate180} ==> out.width == img.width && out.height == img.height
    ensures r == NoRotation ==> out == img
    ensures r == Rotate90 ==> out == TurnClockwise(img)
    ensures r == Rotate180 ==> out == TurnHalf(img)
    ensures r == Rotate270 ==> out == TurnCounterClockwise(img)
  {
    match r
    case NoRotation => img
    case Rotate90 => TurnClockwise(img)
    case Rotate180 => TurnHalf(img)
    case Rotate270 => TurnCounterClockwise(img)
  }

  /** The orientation step of a compression request. */
  function Normalize(exif: ExifRead, img: Raster): (out: Raster)
    requires img.Valid()
    ensures out.Valid()
    ensures exif == Tag(6) || exif == Tag(8) ==> out.width == img.height && out.height == img.width
    ensures !(exif == Tag(6) || exif == Tag(8)) ==> out.width == img.width && out.height == img.height
    ensures !(exif == Tag(6) || exif == Tag(8) || exif == Tag(3)) ==> out == img
    ensures exif == Tag(6) ==> out == TurnClockwise(img)
    ensures exif == Tag(3) ==> out == TurnHalf(img)
    ensures exif == Tag(8) ==> out == TurnCounterClockwise(img)
  {
    Rotate(RotationOf(exif), img)
  }

  /** Two rasters are equal when their dimensions and every pixel agree. */
  lemma RasterExtensionality(a: Raster, b: Raster)
    requires a.Valid() && b.Valid()
    requires a.width == b.width && a.height == b.height
    requires forall y, x :: 0 <= y < a.height && 0 <= x < a.width ==> a.rows[y][x] == b.rows[y][x]
    ensures a == b
  {
    forall y | 0 <= y < a.height
      ensures a.rows[y] == b.rows[y]
    {
    }
  }

  /** The counter-clockwise quarter turn undoes the clockwise one, so code 6
      loses no pixel. */
  lemma {:induction false} TurnsCancel(img: Raster)
    requires img.Valid()
    ensures TurnCounterClockwise(TurnClockwise(img)) == img
    ensures TurnClockwise(TurnCounterClockwise(img)) == img
  {
    RasterExtensionality(TurnCounterClockwise(TurnClockwise(img)), img);
    RasterExtensionality(TurnClockwise(TurnCounterClockwise(img)), img);
  }

  /** Two clockwise quarter turns make the half turn of code 3. */
  lemma {:induction false} TwoQuarterTurnsMakeHalf(img: Raster)
    requires img.Valid()
    ensures TurnClockwise(TurnClockwise(img)) == TurnHalf(img)
  {
    RasterExtensionality(TurnClockwise(TurnClockwise(img)), TurnHalf(img));
  }

  /** The half turn is its own inverse. */
  lemma {:induction false} HalfTurnInvolution(img: Raster)
    requires img.Valid()
    ensures TurnHalf(TurnHalf(img)) == img
  {
    RasterExtensionality(TurnHalf(TurnHalf(img)), img);
  }

  /** A 1346 x 1795 buffer tagged 6 comes out 1795 x 1346. */
  lemma Code6Example(img: Raster)
    requires img.Valid() && img.width == 1346 && img.height == 1795
    ensures Normalize(Tag(6), img).width == 1795 && Normalize(Tag(6), img).height == 1346
  {
  }
}
