/** graphics/rotate.go: rotation about the centre. Each destination pixel
    centre is expressed relative to the destination's centre, turned by the
    standard rotation matrix, moved to the source's centre and, when it lands
    inside the source, given the bilinear sample there; destination pixels
    whose point falls outside the source keep their bytes. The cosine and
    sine of the angle are parameters: the model does not compute them. */
module Rotate {
  import opened Wrappers
  import opened Pixels
  import opened Bilinear

  /** A point in continuous pixel coordinates. */
  datatype Point = Point(x: real, y: real)

  /** Half of an extent (lines 16-19: float64(Dx()) / 2). */
  function Half(n: nat): real
  {
    n as real / 2.0
  }

  /** Lines 33-34: the offset d turned by the matrix [cos sin; −sin cos]. */
  function Rotation(cos: real, sin: real, d: Point): Point
  {
    Point(d.x * cos + d.y * sin, d.y * cos - d.x * sin)
  }

  function SquaredLength(p: Point): real
  {
    p.x * p.x + p.y * p.y
  }

  /** Lines 28-38: the source point that destination pixel (x, y) of a
      dw × dh destination maps onto in an sw × sh source. */
  function SourcePoint(dw: nat, dh: nat, sw: nat, sh: nat, cos: real, sin: real, x: nat, y: nat): Point
  {
    var l := Rotation(cos, sin, Point(x as real + 0.5 - Half(dw), y as real + 0.5 - Half(dh)));
    Point(l.x + Half(sw), l.y + Half(sh))
  }

  /** Lines 40-44: the point lies in the half-open bounds of the source. */
  predicate InSource(sw: nat, sh: nat, p: Point)
  {
    0.0 <= p.x < sw as real && 0.0 <= p.y < sh as real
  }

  /** Channel c of destination pixel (x, y) after the rotation, for a
      destination that held `before`: the bilinear sample of src at the
      pixel's source point, or the old byte when that point is outside. */
  function RotatedAt(before: Raster, src: Raster, cos: real, sin: real, x: nat, y: nat, c: nat): Byte
    requires before.Valid() && src.Valid() && x < before.width && y < before.height && c < 4
  {
    var p := SourcePoint(before.width, before.height, src.width, src.height, cos, sin, x, y);
    if InSource(src.width, src.height, p) then Sample(src, p.x, p.y, c) else before.At(x, y, c)
  }

  // ---------------------------------------------------------------------
  // Geometry of the mapping

  /** A point inside the source always lies in the interpolator's domain. */
  lemma InSourceInDomain(sw: nat, sh: nat, p: Point)
    requires InSource(sw, sh, p)
    ensures InDomain(sw, sh, p.x, p.y)
  {
  }

  /** The centre of the destination maps onto the centre of the source. */
  lemma CentreToCentre(dw: nat, dh: nat, sw: nat, sh: nat, cos: real, sin: real, x: nat, y: nat)
    requires x as real + 0.5 == Half(dw) && y as real + 0.5 == Half(dh)
    ensures SourcePoint(dw, dh, sw, sh, cos, sin, x, y) == Point(Half(sw), Half(sh))
  {
    assert Point(x as real + 0.5 - Half(dw), y as real + 0.5 - Half(dh)) == Point(0.0, 0.0);
  }

  /** With cos² + sin² = 1 the rotation keeps the distance from the origin. */
  lemma {:induction false} RotationKeepsLength(cos: real, sin: real, d: Point)
    requires cos * cos + sin * sin == 1.0
    ensures SquaredLength(Rotation(cos, sin, d)) == SquaredLength(d)
  {
    var a, b := d.x, d.y;
    calc {
      SquaredLength(Rotation(cos, sin, d));
      (a * cos + b * sin) * (a * cos + b * sin) + (b * cos - a * sin) * (b * cos - a * sin);
      a * a * (cos * cos) + 2.0 * (a * b) * (cos * sin) + b * b * (sin * sin)
        + (b * b * (cos * cos) - 2.0 * (a * b) * (cos * sin) + a * a * (sin * sin));
      a * a * (cos * cos + sin * sin) + b * b * (cos * cos + sin * sin);
      a * a * 1.0 + b * b * 1.0;
    }
  }

  /** With cos² + sin² = 1 a destination pixel centre and its source point
      are equally far from their images' centres. */
  lemma DistanceFromCentre(dw: nat, dh: nat, sw: nat, sh: nat, cos: real, sin: real, x: nat, y: nat)
    requires cos * cos + sin * sin == 1.0
    ensures var p := SourcePoint(dw, dh, sw, sh, cos, sin, x, y);
      SquaredLength(Point(p.x - Half(sw), p.y - Half(sh)))
        == SquaredLength(Point(x as real + 0.5 - Half(dw), y as real + 0.5 - Half(dh)))
  {
    var d := Point(x as real + 0.5 - Half(dw), y as real + 0.5 - Half(dh));
    var p := SourcePoint(dw, dh, sw, sh, cos, sin, x, y);
    RotationKeepsLength(cos, sin, d);
    assert Point(p.x - Half(sw), p.y - Half(sh)) == Rotation(cos, sin, d);
  }

  // ---------------------------------------------------------------------
  // Whole-pixel rotations

  /** A destination pixel whose source point is exactly the centre of source
      pixel (i, j) receives that pixel unchanged. */
  lemma OntoCentre(before: Raster, src: Raster, cos: real, sin: real, x: nat, y: nat, i: nat, j: nat, c: nat)
    requires before.Valid() && src.Valid() && x < before.width && y < before.height && c < 4
    requires i < src.width && j < src.height
    requires SourcePoint(before.width, before.height, src.width, src.height, cos, sin, x, y)
               == Point(i as real + 0.5, j as real + 0.5)
    ensures RotatedAt(before, src, cos, sin, x, y, c) == src.At(i, j, c)
  {
    SampleAtCentre(src, i, j, c);
  }

  /** Angle 0 (cos 1, sin 0) between images of one size copies the source. */
  lemma IdentityRotation(before: Raster, src: Raster, x: nat, y: nat, c: nat)
    requires before.Valid() && src.Valid() && x < before.width && y < before.height && c < 4
    requires src.width == before.width && src.height == before.height
    ensures RotatedAt(before, src, 1.0, 0.0, x, y, c) == src.At(x, y, c)
  {
    assert SourcePoint(before.width, before.height, src.width, src.height, 1.0, 0.0, x, y)
      == Point(x as real + 0.5, y as real + 0.5);
    OntoCentre(before, src, 1.0, 0.0, x, y, x, y, c);
  }

  /** A half turn (cos −1, sin 0) between images of one size reverses both
      axes. */
  lemma HalfTurn(before: Raster, src: Raster, x: nat, y: nat, c: nat)
    requires before.Valid() && src.Valid() && x < before.width && y < before.height && c < 4
    requires src.width == before.width && src.height == before.height
    ensures RotatedAt(before, src, -1.0, 0.0, x, y, c)
              == src.At(src.width - 1 - x, src.height - 1 - y, c)
  {
    var i, j := src.width - 1 - x, src.height - 1 - y;
    assert SourcePoint(before.width, before.height, src.width, src.height, -1.0, 0.0, x, y)
      == Point(i as real + 0.5, j as real + 0.5);
    OntoCentre(before, src, -1.0, 0.0, x, y, i, j, c);
  }

  /** A quarter turn (cos 0, sin 1) onto a destination with the source's
      sides swapped: destination pixel (x, y) is source pixel
      (y, width − 1 − x), width being the destination's. */
  lemma QuarterTurn(before: Raster, src: Raster, x: nat, y: nat, c: nat)
    requires before.Valid() && src.Valid() && x < before.width && y < before.height && c < 4
    requires src.width == before.height && src.height == before.width
    ensures RotatedAt(before, src, 0.0, 1.0, x, y, c) == src.At(y, before.width - 1 - x, c)
  {
    var i, j := y, before.width - 1 - x;
    assert SourcePoint(before.width, before.height, src.width, src.height, 0.0, 1.0, x, y)
      == Point(i as real + 0.5, j as real + 0.5);
    OntoCentre(before, src, 0.0, 1.0, x, y, i, j, c);
  }

  // ---------------------------------------------------------------------
  // rotateRGBA (lines 13-50)

  /** The inputs of one pixel: the destination's state before the whole
      rotation, the sizes and halves computed once at lines 14-21. */
  predicate Snapshot(dst: Image, before: Raster)
  {
    before.stride == dst.stride && before.width == dst.width && before.height == dst.height
    && |before.pix| == dst.pix.Length
  }

  predicate Halves(dst: Image, src: Image, dx: real, dy: real, sx: real, sy: real)
  {
    dx == Half(dst.width) && dy == Half(dst.height) && sx == Half(src.width) && sy == Half(src.height)
  }

  /** Lines 27-47 for destination pixel (x, y), still as in `before`: it
      receives RotatedAt; no other byte of dst changes. */
  method RotatePixel(dst: Image, src: Image, cos: real, sin: real, dx: real, dy: real, sx: real, sy: real,
                     x: nat, y: nat, ghost before: Raster)
    requires dst.Valid() && src.Valid() && dst.pix != src.pix && x < dst.width && y < dst.height
    requires Halves(dst, src, dx, dy, sx, sy) && Snapshot(dst, before)
    requires forall c: nat :: c < 4 ==> View(dst, dst.width, dst.height).At(x, y, c) == before.At(x, y, c)
    modifies dst.pix
    ensures forall c: nat :: c < 4 ==>
      View(dst, dst.width, dst.height).At(x, y, c) == RotatedAt(before, src.Contents(), cos, sin, x, y, c)
    ensures forall x': nat, c: nat :: x' < dst.width && x' != x && c < 4 ==>
      View(dst, dst.width, dst.height).At(x', y, c) == old(View(dst, dst.width, dst.height)).At(x', y, c)
    ensures KeptOutside(dst.pix[..], old(dst.pix[..]), Offset(dst.stride, x, y, 0), Offset(dst.stride, x, y, 4))
  {
    var px, py := MapPoint(dst, src, cos, sin, dx, dy, sx, sy, x, y);
    if px < 0.0 || px >= src.width as real {
      return;
    } else if py < 0.0 || py >= src.height as real {
      return;
    }
    BinterpRGBA(dst, x, y, src, px, py);
  }

  /** Lines 27-38: the source point of destination pixel (x, y). */
  method MapPoint(dst: Image, src: Image, cos: real, sin: real, dx: real, dy: real, sx: real, sy: real,
                  x: nat, y: nat) returns (px: real, py: real)
    requires Halves(dst, src, dx, dy, sx, sy)
    ensures Point(px, py) == SourcePoint(dst.width, dst.height, src.width, src.height, cos, sin, x, y)
  {
    var ldx := x as real + 0.5 - dx;
    var ldy := y as real + 0.5 - dy;
    var lx := ldx * cos + ldy * sin;
    var ly := ldy * cos - ldx * sin;
    px := lx + sx;
    py := ly + sy;
  }

  /** Lines 26-48 for row y, still as in `before`: every pixel of the row
      receives RotatedAt; nothing outside the row's pixels changes. */
  method RotateRow(dst: Image, src: Image, cos: real, sin: real, dx: real, dy: real, sx: real, sy: real,
                   y: nat, ghost before: Raster)
    requires dst.Valid() && src.Valid() && dst.pix != src.pix && y < dst.height
    requires Halves(dst, src, dx, dy, sx, sy) && Snapshot(dst, before)
    requires forall x: nat, c: nat :: x < dst.width && c < 4 ==>
      View(dst, dst.width, dst.height).At(x, y, c) == before.At(x, y, c)
    modifies dst.pix
    ensures forall x: nat, c: nat :: x < dst.width && c < 4 ==>
      View(dst, dst.width, dst.height).At(x, y, c) == RotatedAt(before, src.Contents(), cos, sin, x, y, c)
    ensures KeptOutside(dst.pix[..], old(dst.pix[..]), y * dst.stride, y * dst.stride + 4 * dst.width)
  {
    var x := 0;
    while x < dst.width
      invariant 0 <= x <= dst.width
      invariant forall x': nat, c: nat :: x' < x && c < 4 ==>
        View(dst, dst.width, dst.height).At(x', y, c) == RotatedAt(before, src.Contents(), cos, sin, x', y, c)
      invariant forall x': nat, c: nat :: x <= x' < dst.width && c < 4 ==>
        View(dst, dst.width, dst.height).At(x', y, c) == before.At(x', y, c)
      invariant KeptOutside(dst.pix[..], old(dst.pix[..]), y * dst.stride, y * dst.stride + 4 * dst.width)
    {
      RotatePixel(dst, src, cos, sin, dx, dy, sx, sy, x, y, before);
      x := x + 1;
    }
  }

  /** One turn of the loop of lines 25-49: with rows 0..y-1 rotated and
      nothing else changed since `before`, row y is rotated too. */
  method RotateNext(dst: Image, src: Image, cos: real, sin: real, dx: real, dy: real, sx: real, sy: real,
                    y: nat, ghost before: Raster)
    requires dst.Valid() && src.Valid() && dst.pix != src.pix && y < dst.height
    requires Halves(dst, src, dx, dy, sx, sy) && Snapshot(dst, before)
    requires forall x': nat, y': nat, c: nat :: x' < dst.width && y' < y && c < 4 ==>
      View(dst, dst.width, dst.height).At(x', y', c) == RotatedAt(before, src.Contents(), cos, sin, x', y', c)
    requires PaddingKept(dst.pix[..], before.pix, dst.stride, dst.width, y)
    requires KeptFrom(dst.pix[..], before.pix, y * dst.stride)
    modifies dst.pix
    ensures forall x': nat, y': nat, c: nat :: x' < dst.width && y' < y + 1 && c < 4 ==>
      View(dst, dst.width, dst.height).At(x', y', c) == RotatedAt(before, src.Contents(), cos, sin, x', y', c)
    ensures PaddingKept(dst.pix[..], before.pix, dst.stride, dst.width, y + 1)
    ensures KeptFrom(dst.pix[..], before.pix, (y + 1) * dst.stride)
  {
    ghost var rowStart := dst.pix[..];
    assert before == Raster(before.pix, dst.stride, dst.width, dst.height);
    forall x': nat, c: nat | x' < dst.width && c < 4
      ensures View(dst, dst.width, dst.height).At(x', y, c) == before.At(x', y, c)
    {
      LaterPixelKept(rowStart, before.pix, dst.stride, dst.width, dst.height, x', y, c);
    }
    RotateRow(dst, src, cos, sin, dx, dy, sx, sy, y, before);
    forall x': nat, y': nat, c: nat | x' < dst.width && y' < y && c < 4
      ensures View(dst, dst.width, dst.height).At(x', y', c) == RotatedAt(before, src.Contents(), cos, sin, x', y', c)
    {
      EarlierPixelKept(dst.pix[..], rowStart, dst.stride, dst.width, dst.height, x', y', c, y);
    }
    CloseRow(dst.pix[..], rowStart, before.pix, dst.stride, dst.width, y);
  }

  /** rotateRGBA: every pixel of dst receives RotatedAt for the cosine and
      sine of the angle, in row-major order; dst's padding, the bytes past its
      last row and the source are untouched. */
  method RotateRGBA(dst: Image, src: Image, angle: real, cosine: real -> real, sine: real -> real)
    requires dst.Valid() && src.Valid() && dst.pix != src.pix
    modifies dst.pix
    ensures forall x: nat, y: nat, c: nat :: x < dst.width && y < dst.height && c < 4 ==>
      View(dst, dst.width, dst.height).At(x, y, c)
        == RotatedAt(old(View(dst, dst.width, dst.height)), old(src.Contents()), cosine(angle), sine(angle), x, y, c)
    ensures PaddingKept(dst.pix[..], old(dst.pix[..]), dst.stride, dst.width, dst.height)
    ensures KeptFrom(dst.pix[..], old(dst.pix[..]), dst.height * dst.stride)
    ensures unchanged(src.pix)
  {
    var dx := dst.width as real / 2.0;
    var dy := dst.height as real / 2.0;
    var sx := src.width as real / 2.0;
    var sy := src.height as real / 2.0;
    var cos := cosine(angle);
    var sin := sine(angle);
    ghost var before := View(dst, dst.width, dst.height);
    var y := 0;
    while y < dst.height
      invariant 0 <= y <= dst.height
      invariant forall x': nat, y': nat, c: nat :: x' < dst.width && y' < y && c < 4 ==>
        View(dst, dst.width, dst.height).At(x', y', c) == RotatedAt(before, src.Contents(), cos, sin, x', y', c)
      invariant PaddingKept(dst.pix[..], before.pix, dst.stride, dst.width, y)
      invariant KeptFrom(dst.pix[..], before.pix, y * dst.stride)
    {
      RotateNext(dst, src, cos, sin, dx, dy, sx, sy, y, before);
      y := y + 1;
    }
  }

  // ---------------------------------------------------------------------
  // Rotate (lines 52-87)

  /** Lines 54-56. */
  datatype RotateOptions = RotateOptions(angle: real)

  /** Rotate: a missing destination or source does nothing; missing options
      mean angle 0; otherwise rotateRGBA. */
  method Rotate(dst: Option<Image>, src: Option<Image>, opt: Option<RotateOptions>,
                cosine: real -> real, sine: real -> real)
    requires dst.Some? && src.Some? ==> dst.value.Valid() && src.value.Valid() && dst.value.pix != src.value.pix
    modifies if dst.Some? then {dst.value.pix} else {}
    ensures dst.Some? && src.None? ==> unchanged(dst.value.pix)
    ensures dst.Some? && src.Some? ==>
      var angle := if opt.Some? then opt.value.angle else 0.0;
      forall x: nat, y: nat, c: nat :: x < dst.value.width && y < dst.value.height && c < 4 ==>
        View(dst.value, dst.value.width, dst.value.height).At(x, y, c)
          == RotatedAt(old(View(dst.value, dst.value.width, dst.value.height)), old(src.value.Contents()),
                       cosine(angle), sine(angle), x, y, c)
    ensures dst.Some? && src.Some? ==>
      PaddingKept(dst.value.pix[..], old(dst.value.pix[..]), dst.value.stride, dst.value.width, dst.value.height)
      && KeptFrom(dst.value.pix[..], old(dst.value.pix[..]), dst.value.height * dst.value.stride)
  {
    if dst.None? || src.None? {
      return;
    }
    var angle := 0.0;
    if opt.Some? {
      angle := opt.value.angle;
    }
    RotateRGBA(dst.value, src.value, angle, cosine, sine);
  }
}
