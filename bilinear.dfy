/** Bilinear interpolation of an RGBA image at a fractional point
    (graphics/interp/bilinear.go), with exact real arithmetic standing in for
    float64.

    Pixel (i, j) of a zero-origin image covers the unit square at (i, j); its
    centre is (i + 0.5, j + 0.5). To sample at (sx, sy) the interpolator takes
    the pixel columns either side of sx − 0.5 and the rows either side of
    sy − 0.5, clamps them to the image, and weighs the four pixels they name
    according to one of eight edge cases, tried in a fixed order. */
module Bilinear {
  import opened Pixels

  // ---------------------------------------------------------------------
  // Offsets (lines 12-15)

  /** Go's int(v) conversion of a float: truncation toward zero. */
  function Trunc(v: real): (n: int)
    ensures 0.0 <= v ==> n as real <= v < n as real + 1.0
    ensures v < 0.0 ==> v <= n as real <= 0.0 && n as real < v + 1.0
  {
    if v < 0.0 then Ceil(v) else v.Floor
  }

  /** Lines 13-15: the byte offset of the pixel holding point (x, y) of a
      zero-origin image; for a point with non-negative coordinates it is
      the offset of pixel (⌊x⌋, ⌊y⌋). */
  function OffRGBA(stride: nat, x: real, y: real): (off: int)
    ensures 0.0 <= x && 0.0 <= y ==> off == Offset(stride, x.Floor, y.Floor, 0)
  {
    Trunc(y) * stride + Trunc(x) * 4
  }

  // ---------------------------------------------------------------------
  // The four surrounding pixels (lines 19-41)

  /** The points at which the interpolator reads only pixels of a non-empty
      width × height image: those less than half a pixel outside it. Further
      out, a clamped column or row leaves the image, and the source indexes
      outside the pixel slice or into a neighbouring row. */
  predicate InDomain(width: nat, height: nat, sx: real, sy: real)
  {
    0 < width && 0 < height && -0.5 < sx < width as real + 0.5 && -0.5 < sy < height as real + 0.5
  }

  /** The columns lowX, highX and rows lowY, highY of the four pixels. */
  datatype Corners = Corners(lowX: int, highX: int, lowY: int, highY: int)

  /** Lines 19-41: the columns either side of sx − 0.5 and the rows either
      side of sy − 0.5, the low ones raised to the image's first column and
      row, the high ones lowered to its last. */
  function ClampedCorners(width: nat, height: nat, sx: real, sy: real): (k: Corners)
    ensures k.lowX >= 0 && k.lowY >= 0
    ensures k.highX <= width - 1 && k.highY <= height - 1
    ensures InDomain(width, height, sx, sy) ==> k.lowX <= k.highX < width && k.lowY <= k.highY < height
  {
    AxisInside(width, sx);
    AxisInside(height, sy);
    var lowX, lowY := (sx - 0.5).Floor, (sy - 0.5).Floor;
    var highX, highY := Ceil(sx - 0.5), Ceil(sy - 0.5);
    Corners(if lowX < 0 then 0 else lowX, if highX >= width then width - 1 else highX,
            if lowY < 0 then 0 else lowY, if highY >= height then height - 1 else highY)
  }

  /** Clamping along one axis, for a point within half a pixel of an axis
      of length n: the two clamped indices are inside the axis and equal
      or adjacent; when they differ the point lies strictly between their
      centres, and within half a pixel of either end they coincide. */
  lemma AxisInside(n: nat, s: real)
    ensures var lo := if (s - 0.5).Floor < 0 then 0 else (s - 0.5).Floor;
            var hi := if Ceil(s - 0.5) >= n then n - 1 else Ceil(s - 0.5);
            0 < n && -0.5 < s < n as real + 0.5 ==>
            0 <= lo <= hi <= lo + 1 && hi < n
            && (lo < hi ==> lo as real < s - 0.5 < hi as real)
            && (s <= 0.5 ==> lo == hi)
            && (n as real - s <= 0.5 ==> lo == hi)
  {
  }

  /** For a point of the domain the four corners are pixels of the image,
      each pair equal or adjacent. */
  lemma CornersInside(width: nat, height: nat, sx: real, sy: real)
    requires InDomain(width, height, sx, sy)
    ensures var k := ClampedCorners(width, height, sx, sy);
            0 <= k.lowX <= k.highX <= k.lowX + 1 && k.highX < width
            && 0 <= k.lowY <= k.highY <= k.lowY + 1 && k.highY < height
            && (k.lowX < k.highX ==> k.lowX as real < sx - 0.5 < k.highX as real)
            && (k.lowY < k.highY ==> k.lowY as real < sy - 0.5 < k.highY as real)
            && (sx <= 0.5 || width as real - sx <= 0.5 ==> k.lowX == k.highX)
            && (sy <= 0.5 || height as real - sy <= 0.5 ==> k.lowY == k.highY)
  {
    AxisInside(width, sx);
    AxisInside(height, sy);
  }

  // ---------------------------------------------------------------------
  // The weights (lines 52-92)

  /** The eight edge cases of lines 69-92, in the order they are tried. */
  datatype Case = Single | TopLeft | BottomRight | TopEdge | LeftEdge | BottomEdge | RightEdge | Interior

  /** Lines 69-92: the first case whose test holds. */
  function SelectCase(width: nat, height: nat, sx: real, sy: real, k: Corners): Case
  {
    var swidth, sheight := width as real, height as real;
    if k.lowX == k.highX && k.lowY == k.highY then Single
    else if sy <= 0.5 && sx <= 0.5 then TopLeft
    else if sheight - sy <= 0.5 && swidth - sx <= 0.5 then BottomRight
    else if sy <= 0.5 || k.lowY == k.highY then TopEdge
    else if sx <= 0.5 || k.lowX == k.highX then LeftEdge
    else if sheight - sy <= 0.5 then BottomEdge
    else if swidth - sx <= 0.5 then RightEdge
    else Interior
  }

  /** The weights of the top-left, top-right, bottom-left and bottom-right
      pixels (frac00, frac01, frac10, frac11). */
  datatype Fracs = Fracs(f00: real, f01: real, f10: real, f11: real)

  /** Lines 52-92: the weights of the case selected. A one-dimensional case
      weighs each of its two pixels by the distance from the point to the
      other's centre; the interior case weighs each of the four by the area
      of the rectangle between the point and the opposite centre. */
  function Fractions(width: nat, height: nat, sx: real, sy: real, k: Corners): Fracs
  {
    var x00, y00 := k.lowX as real + 0.5, k.lowY as real + 0.5;
    var x01, y01 := k.highX as real + 0.5, k.lowY as real + 0.5;
    var x10, y10 := k.lowX as real + 0.5, k.highY as real + 0.5;
    var x11, y11 := k.highX as real + 0.5, k.highY as real + 0.5;
    match SelectCase(width, height, sx, sy, k)
    case Single => Fracs(1.0, 0.0, 0.0, 0.0)
    case TopLeft => Fracs(1.0, 0.0, 0.0, 0.0)
    case BottomRight => Fracs(0.0, 0.0, 0.0, 1.0)
    case TopEdge => Fracs(x01 - sx, sx - x00, 0.0, 0.0)
    case LeftEdge => Fracs(y10 - sy, 0.0, sy - y00, 0.0)
    case BottomEdge => Fracs(0.0, 0.0, x11 - sx, sx - x10)
    case RightEdge => Fracs(0.0, y11 - sy, 0.0, sy - y01)
    case Interior => InteriorFracs(sx, sy, k)
  }

  /** The interior case: each corner is weighed by the area of the rectangle
      between the point and the diagonally opposite centre. */
  function InteriorFracs(sx: real, sy: real, k: Corners): Fracs
  {
    var left, right := sx - (k.lowX as real + 0.5), (k.highX as real + 0.5) - sx;
    var up, down := sy - (k.lowY as real + 0.5), (k.highY as real + 0.5) - sy;
    Fracs(right * down, left * down, right * up, left * up)
  }

  /** Weights that are non-negative and sum to 1. */
  predicate Convex(f: Fracs)
  {
    0.0 <= f.f00 && 0.0 <= f.f01 && 0.0 <= f.f10 && 0.0 <= f.f11 && f.f00 + f.f01 + f.f10 + f.f11 == 1.0
  }

  /** Inside the domain only four of the eight cases are ever taken, and
      which one depends only on which corner pairs coincide: the corner
      cases (TopLeft, BottomRight) and the bottom and right edges are
      unreachable, because near an edge the clamped pair already coincides. */
  lemma ReachableCases(width: nat, height: nat, sx: real, sy: real)
    requires InDomain(width, height, sx, sy)
    ensures var k := ClampedCorners(width, height, sx, sy);
            SelectCase(width, height, sx, sy, k)
              == if k.lowX == k.highX && k.lowY == k.highY then Single
                 else if k.lowY == k.highY then TopEdge
                 else if k.lowX == k.highX then LeftEdge
                 else Interior
  {
    CornersInside(width, height, sx, sy);
  }

  /** The interior case is taken only between four distinct pixels, with
      the point strictly inside the square of their centres. */
  lemma InteriorSquare(width: nat, height: nat, sx: real, sy: real)
    requires InDomain(width, height, sx, sy)
    requires SelectCase(width, height, sx, sy, ClampedCorners(width, height, sx, sy)) == Interior
    ensures var k := ClampedCorners(width, height, sx, sy);
            k.highX == k.lowX + 1 && k.highY == k.lowY + 1
            && k.lowX as real + 0.5 < sx < k.highX as real + 0.5
            && k.lowY as real + 0.5 < sy < k.highY as real + 0.5
  {
    ReachableCases(width, height, sx, sy);
    CornersInside(width, height, sx, sy);
  }

  /** (a + b)(c + d) expanded. */
  lemma ProductSum(a: real, b: real, c: real, d: real)
    ensures a * c + b * c + a * d + b * d == (a + b) * (c + d)
  {
  }

  /** Interior weights: with u + u' == 1 and v + v' == 1, all non-negative,
      the four products are non-negative and sum to 1. */
  lemma ProductsConvex(u: real, u': real, v: real, v': real)
    requires 0.0 <= u && 0.0 <= u' && 0.0 <= v && 0.0 <= v' && u + u' == 1.0 && v + v' == 1.0
    ensures Convex(Fracs(u * v, u' * v, u * v', u' * v'))
  {
    ProductNonNegative(u, v);
    ProductNonNegative(u', v);
    ProductNonNegative(u, v');
    ProductNonNegative(u', v');
    ProductSum(u, u', v, v');
    assert (u + u') * (v + v') == 1.0 * 1.0;
  }

  lemma ProductNonNegative(a: real, b: real)
    requires 0.0 <= a && 0.0 <= b
    ensures 0.0 <= a * b
  {
  }

  /** Inside the domain the weights of every case taken are convex. */
  lemma ConvexFractions(width: nat, height: nat, sx: real, sy: real)
    requires InDomain(width, height, sx, sy)
    ensures Convex(Fractions(width, height, sx, sy, ClampedCorners(width, height, sx, sy)))
  {
    ReachableCases(width, height, sx, sy);
    CornersInside(width, height, sx, sy);
    CasesConvex(width, height, sx, sy, ClampedCorners(width, height, sx, sy));
  }

  /** The four cases taken, for corners that are equal or adjacent with the
      point between their centres, all have convex weights. */
  lemma CasesConvex(width: nat, height: nat, sx: real, sy: real, k: Corners)
    requires k.lowX <= k.highX <= k.lowX + 1 && k.lowY <= k.highY <= k.lowY + 1
    requires k.lowX < k.highX ==> k.lowX as real < sx - 0.5 < k.highX as real
    requires k.lowY < k.highY ==> k.lowY as real < sy - 0.5 < k.highY as real
    requires SelectCase(width, height, sx, sy, k)
               == if k.lowX == k.highX && k.lowY == k.highY then Single
                  else if k.lowY == k.highY then TopEdge
                  else if k.lowX == k.highX then LeftEdge
                  else Interior
    ensures Convex(Fractions(width, height, sx, sy, k))
  {
    if SelectCase(width, height, sx, sy, k) == Interior {
      InteriorConvex(width, height, sx, sy, k);
    } else {
      EdgeConvex(width, height, sx, sy, k);
    }
  }

  /** The single-pixel and one-dimensional cases. */
  lemma EdgeConvex(width: nat, height: nat, sx: real, sy: real, k: Corners)
    requires k.lowX <= k.highX <= k.lowX + 1 && k.lowY <= k.highY <= k.lowY + 1
    requires k.lowX < k.highX ==> k.lowX as real < sx - 0.5 < k.highX as real
    requires k.lowY < k.highY ==> k.lowY as real < sy - 0.5 < k.highY as real
    requires SelectCase(width, height, sx, sy, k) in {Single, TopEdge, LeftEdge}
    requires SelectCase(width, height, sx, sy, k) == TopEdge ==> k.lowX < k.highX
    requires SelectCase(width, height, sx, sy, k) == LeftEdge ==> k.lowY < k.highY
    ensures Convex(Fractions(width, height, sx, sy, k))
  {
  }

  /** The interior case: four products of complementary distances. */
  lemma InteriorConvex(width: nat, height: nat, sx: real, sy: real, k: Corners)
    requires k.highX == k.lowX + 1 && k.highY == k.lowY + 1
    requires k.lowX as real < sx - 0.5 < k.highX as real && k.lowY as real < sy - 0.5 < k.highY as real
    requires SelectCase(width, height, sx, sy, k) == Interior
    ensures Convex(Fractions(width, height, sx, sy, k))
  {
    InteriorFracsConvex(sx, sy, k);
  }

  /** Between two consecutive centres on each axis the four areas are convex. */
  lemma InteriorFracsConvex(sx: real, sy: real, k: Corners)
    requires k.highX == k.lowX + 1 && k.highY == k.lowY + 1
    requires k.lowX as real < sx - 0.5 < k.highX as real && k.lowY as real < sy - 0.5 < k.highY as real
    ensures Convex(InteriorFracs(sx, sy, k))
  {
    var left, right := sx - (k.lowX as real + 0.5), (k.highX as real + 0.5) - sx;
    var up, down := sy - (k.lowY as real + 0.5), (k.highY as real + 0.5) - sy;
    ProductsConvex(right, left, down, up);
  }

  // ---------------------------------------------------------------------
  // The weighted sum and the written byte (lines 94-123)

  /** A sample times its weight. */
  function Weigh(v: real, f: real): real
  {
    v * f
  }

  /** Lines 94-117: channel c of the four pixels, weighed. */
  function Mix(src: Raster, k: Corners, f: Fracs, c: nat): real
    requires src.Valid() && c < 4
    requires 0 <= k.lowX <= k.highX < src.width && 0 <= k.lowY <= k.highY < src.height
  {
    Weigh(src.At(k.lowX, k.lowY, c) as real, f.f00) + Weigh(src.At(k.highX, k.lowY, c) as real, f.f01)
      + Weigh(src.At(k.lowX, k.highY, c) as real, f.f10) + Weigh(src.At(k.highX, k.highY, c) as real, f.f11)
  }

  /** A weighted sample lies between 0 and v when the weights are at most v. */
  lemma WeighBound(p: Byte, f: real)
    requires 0.0 <= f
    ensures 0.0 <= Weigh(p as real, f) <= 255.0 * f
  {
    ProductNonNegative(p as real, f);
    ProductNonNegative(255.0 - p as real, f);
    assert (255.0 - p as real) * f == 255.0 * f - p as real * f;
  }

  /** Four bytes weighed with convex weights sum to a value between 0 and 255. */
  lemma ConvexSumBound(p00: Byte, p01: Byte, p10: Byte, p11: Byte, f: Fracs)
    requires Convex(f)
    ensures 0.0 <= Weigh(p00 as real, f.f00) + Weigh(p01 as real, f.f01) + Weigh(p10 as real, f.f10) + Weigh(p11 as real, f.f11) <= 255.0
  {
    WeighBound(p00, f.f00);
    WeighBound(p01, f.f01);
    WeighBound(p10, f.f10);
    WeighBound(p11, f.f11);
    TermsBound(Weigh(p00 as real, f.f00), Weigh(p01 as real, f.f01), Weigh(p10 as real, f.f10), Weigh(p11 as real, f.f11), f);
  }

  /** Four terms each between 0 and 255 times a convex weight sum to a value
      between 0 and 255. */
  lemma TermsBound(t00: real, t01: real, t10: real, t11: real, f: Fracs)
    requires Convex(f)
    requires 0.0 <= t00 <= 255.0 * f.f00 && 0.0 <= t01 <= 255.0 * f.f01
    requires 0.0 <= t10 <= 255.0 * f.f10 && 0.0 <= t11 <= 255.0 * f.f11
    ensures 0.0 <= t00 + t01 + t10 + t11 <= 255.0
  {
  }

  /** With convex weights the mix is a byte-range value. */
  lemma MixBound(src: Raster, k: Corners, f: Fracs, c: nat)
    requires src.Valid() && c < 4
    requires 0 <= k.lowX <= k.highX < src.width && 0 <= k.lowY <= k.highY < src.height
    requires Convex(f)
    ensures 0.0 <= Mix(src, k, f, c) <= 255.0
  {
    ConvexSumBound(src.At(k.lowX, k.lowY, c), src.At(k.highX, k.lowY, c), src.At(k.lowX, k.highY, c),
                   src.At(k.highX, k.highY, c), f);
  }

  /** Lines 120-123: uint8 of a non-negative float below 256 truncates it. */
  function Uint8(v: real): (b: Byte)
    requires 0.0 <= v < 256.0
    ensures b as real <= v < b as real + 1.0
  {
    v.Floor
  }

  /** Lines 18-123: the byte BinterpRGBA writes for channel c when it
      samples src at (sx, sy): the weighted sum of the four pixels, rounded
      to the nearest integer (halves up). */
  function Sample(src: Raster, sx: real, sy: real, c: nat): (b: Byte)
    requires src.Valid() && InDomain(src.width, src.height, sx, sy) && c < 4
  {
    var k := ClampedCorners(src.width, src.height, sx, sy);
    CornersInside(src.width, src.height, sx, sy);
    var f := Fractions(src.width, src.height, sx, sy, k);
    ConvexFractions(src.width, src.height, sx, sy);
    MixBound(src, k, f, c);
    Uint8(Mix(src, k, f, c) + 0.5)
  }

  // ---------------------------------------------------------------------
  // Properties of the sampler

  /** Sampling at the centre of pixel (i, j) returns that pixel exactly. */
  lemma SampleAtCentre(src: Raster, i: nat, j: nat, c: nat)
    requires src.Valid() && i < src.width && j < src.height && c < 4
    ensures InDomain(src.width, src.height, i as real + 0.5, j as real + 0.5)
    ensures Sample(src, i as real + 0.5, j as real + 0.5, c) == src.At(i, j, c)
  {
    var sx, sy := i as real + 0.5, j as real + 0.5;
    assert (sx - 0.5).Floor == i && Ceil(sx - 0.5) == i;
    assert (sy - 0.5).Floor == j && Ceil(sy - 0.5) == j;
    var k := ClampedCorners(src.width, src.height, sx, sy);
    assert k == Corners(i, i, j, j);
  }

  /** Where the four pixels agree on channel c, the sample is that value:
      the weights always sum to 1. */
  lemma SampleOfUniform(src: Raster, sx: real, sy: real, c: nat, v: Byte)
    requires src.Valid() && InDomain(src.width, src.height, sx, sy) && c < 4
    requires var k := ClampedCorners(src.width, src.height, sx, sy);
             src.At(k.lowX, k.lowY, c) == src.At(k.highX, k.lowY, c) == src.At(k.lowX, k.highY, c)
               == src.At(k.highX, k.highY, c) == v
    ensures Sample(src, sx, sy, c) == v
  {
    var k := ClampedCorners(src.width, src.height, sx, sy);
    CornersInside(src.width, src.height, sx, sy);
    var f := Fractions(src.width, src.height, sx, sy, k);
    ConvexFractions(src.width, src.height, sx, sy);
    MixOfUniform(src, k, f, c, v);
  }

  /** Four equal pixels under convex weights mix to their value. */
  lemma MixOfUniform(src: Raster, k: Corners, f: Fracs, c: nat, v: Byte)
    requires src.Valid() && c < 4
    requires 0 <= k.lowX <= k.highX < src.width && 0 <= k.lowY <= k.highY < src.height
    requires Convex(f)
    requires src.At(k.lowX, k.lowY, c) == src.At(k.highX, k.lowY, c) == src.At(k.lowX, k.highY, c)
               == src.At(k.highX, k.highY, c) == v
    ensures Mix(src, k, f, c) == v as real
  {
    WeighSum(v as real, f);
  }

  /** One value under four weights. */
  lemma WeighSum(v: real, f: Fracs)
    ensures Weigh(v, f.f00) + Weigh(v, f.f01) + Weigh(v, f.f10) + Weigh(v, f.f11) == v * (f.f00 + f.f01 + f.f10 + f.f11)
  {
  }

  /** The 2 × 2 checkerboard of graphics/scale_test.go, on every channel:
      0x80 at (0, 0) and (1, 1), 0 at (1, 0) and (0, 1). */
  const Checkerboard: Raster :=
    Raster([0x80, 0x80, 0x80, 0x80, 0, 0, 0, 0, 0, 0, 0, 0, 0x80, 0x80, 0x80, 0x80], 8, 2, 2)

  /** The checkerboard's pixels. */
  lemma CheckerboardPixels(x: nat, y: nat, c: nat)
    requires x < 2 && y < 2 && c < 4
    ensures Checkerboard.Valid() && Checkerboard.At(x, y, c) == if x == y then 0x80 else 0
  {
    assert Offset(8, x, y, c) == 8 * y + 4 * x + c;
  }

  /** Sampling the checkerboard at its centre (1, 1) weighs each pixel 1/4
      and gives 0x40 (the "down-half" case of graphics/scale_test.go). */
  lemma CheckerboardCentre(c: nat)
    requires c < 4
    ensures Checkerboard.Valid() && InDomain(2, 2, 1.0, 1.0)
    ensures Sample(Checkerboard, 1.0, 1.0, c) == 0x40
  {
    var k := ClampedCorners(2, 2, 1.0, 1.0);
    assert (0.5).Floor == 0 && Ceil(0.5) == 1;
    assert k == Corners(0, 1, 0, 1);
    assert SelectCase(2, 2, 1.0, 1.0, k) == Interior;
    var f := Fractions(2, 2, 1.0, 1.0, k);
    assert f == Fracs(0.25, 0.25, 0.25, 0.25);
    CheckerboardPixels(0, 0, c);
    CheckerboardPixels(1, 0, c);
    CheckerboardPixels(0, 1, c);
    CheckerboardPixels(1, 1, c);
    assert Mix(Checkerboard, k, f, c) == Weigh(128.0, 0.25) + Weigh(0.0, 0.25) + Weigh(0.0, 0.25) + Weigh(128.0, 0.25);
  }

  /** Sampling the checkerboard at (0.75, 0.25), where the "up-double" case
      of graphics/scale_test.go samples for its pixel (1, 0): a top-edge
      blend of 3/4 of 0x80 and 1/4 of 0, giving 0x60. */
  lemma CheckerboardTopEdge(c: nat)
    requires c < 4
    ensures Checkerboard.Valid() && InDomain(2, 2, 0.75, 0.25)
    ensures Sample(Checkerboard, 0.75, 0.25, c) == 0x60
  {
    var k := ClampedCorners(2, 2, 0.75, 0.25);
    assert (0.25).Floor == 0 && Ceil(0.25) == 1 && (-0.25).Floor == -1 && Ceil(-0.25) == 0;
    assert k == Corners(0, 1, 0, 0);
    assert SelectCase(2, 2, 0.75, 0.25, k) == TopEdge;
    var f := Fractions(2, 2, 0.75, 0.25, k);
    assert f == Fracs(0.75, 0.25, 0.0, 0.0);
    CheckerboardPixels(0, 0, c);
    CheckerboardPixels(1, 0, c);
    assert Mix(Checkerboard, k, f, c) == Weigh(128.0, 0.75) + Weigh(0.0, 0.25) + Weigh(128.0, 0.0) + Weigh(0.0, 0.0);
  }

  /** Sampling the checkerboard at (0.75, 0.75), the "up-double" case's
      pixel (1, 1): an interior blend weighing the pixels 9/16, 3/16, 3/16
      and 1/16, giving 0x50. */
  lemma CheckerboardInterior(c: nat)
    requires c < 4
    ensures Checkerboard.Valid() && InDomain(2, 2, 0.75, 0.75)
    ensures Sample(Checkerboard, 0.75, 0.75, c) == 0x50
  {
    var k := ClampedCorners(2, 2, 0.75, 0.75);
    assert (0.25).Floor == 0 && Ceil(0.25) == 1;
    assert k == Corners(0, 1, 0, 1);
    assert SelectCase(2, 2, 0.75, 0.75, k) == Interior;
    var f := Fractions(2, 2, 0.75, 0.75, k);
    assert f == Fracs(0.5625, 0.1875, 0.1875, 0.0625);
    CheckerboardPixels(0, 0, c);
    CheckerboardPixels(1, 0, c);
    CheckerboardPixels(0, 1, c);
    CheckerboardPixels(1, 1, c);
    assert Mix(Checkerboard, k, f, c) == Weigh(128.0, 0.5625) + Weigh(0.0, 0.1875) + Weigh(0.0, 0.1875) + Weigh(128.0, 0.0625);
  }

  // ---------------------------------------------------------------------
  // The imperative interpolator (lines 17-124)

  /** Lines 19-41: the clamped columns and rows, as float64 values. */
  method CornerIndices(width: nat, height: nat, sx: real, sy: real)
    returns (lowX: real, highX: real, lowY: real, highY: real)
    ensures var k := ClampedCorners(width, height, sx, sy);
            lowX == k.lowX as real && highX == k.highX as real && lowY == k.lowY as real && highY == k.highY as real
  {
    var swidth, sheight := width as real, height as real;
    var minX, minY := 0.0, 0.0;
    lowX := (sx - 0.5).Floor as real;
    lowY := (sy - 0.5).Floor as real;
    if lowX < minX {
      lowX := minX;
    }
    if lowY < minY {
      lowY := minY;
    }
    highX := Ceil(sx - 0.5) as real;
    highY := Ceil(sy - 0.5) as real;
    if highX >= swidth {
      highX := swidth - 1.0;
    }
    if highY >= sheight {
      highY := sheight - 1.0;
    }
  }

  /** Lines 52-92: the four weights, set by the first edge case whose test
      holds. */
  method Weights(width: nat, height: nat, sx: real, sy: real, lowX: real, highX: real, lowY: real, highY: real,
                 ghost k: Corners)
    returns (frac00: real, frac01: real, frac10: real, frac11: real)
    requires lowX == k.lowX as real && highX == k.highX as real && lowY == k.lowY as real && highY == k.highY as real
    ensures Fracs(frac00, frac01, frac10, frac11) == Fractions(width, height, sx, sy, k)
  {
    var swidth, sheight := width as real, height as real;
    var x00, y00 := lowX + 0.5, lowY + 0.5;
    var x01, y01 := highX + 0.5, lowY + 0.5;
    var x10, y10 := lowX + 0.5, highY + 0.5;
    var x11, y11 := highX + 0.5, highY + 0.5;
    frac00, frac01, frac10, frac11 := 0.0, 0.0, 0.0, 0.0;
    if lowX == highX && lowY == highY {
      frac00 := 1.0;
    } else if sy <= 0.5 && sx <= 0.5 {
      frac00 := 1.0;
    } else if sheight - sy <= 0.5 && swidth - sx <= 0.5 {
      frac11 := 1.0;
    } else if sy <= 0.5 || lowY == highY {
      frac00 := x01 - sx;
      frac01 := sx - x00;
    } else if sx <= 0.5 || lowX == highX {
      frac00 := y10 - sy;
      frac10 := sy - y00;
    } else if sheight - sy <= 0.5 {
      frac10 := x11 - sx;
      frac11 := sx - x10;
    } else if swidth - sx <= 0.5 {
      frac01 := y11 - sy;
      frac11 := sy - y01;
    } else {
      frac00 := (x01 - sx) * (y10 - sy);
      frac01 := (sx - x00) * (y11 - sy);
      frac10 := (x11 - sx) * (sy - y00);
      frac11 := (sx - x10) * (sy - y01);
    }
  }

  /** Lines 94-117: the four channels of the four pixels, weighed and summed. */
  method Accumulate(src: Image, lowX: real, highX: real, lowY: real, highY: real, ghost k: Corners,
                    frac00: real, frac01: real, frac10: real, frac11: real)
    returns (r: real, g: real, b: real, a: real)
    requires src.Valid() && 0 <= k.lowX <= k.highX < src.width && 0 <= k.lowY <= k.highY < src.height
    requires lowX == k.lowX as real && highX == k.highX as real && lowY == k.lowY as real && highY == k.highY as real
    ensures var f := Fracs(frac00, frac01, frac10, frac11);
            r == Mix(src.Contents(), k, f, 0) && g == Mix(src.Contents(), k, f, 1)
            && b == Mix(src.Contents(), k, f, 2) && a == Mix(src.Contents(), k, f, 3)
  {
    var lx, hx, ly, hy := lowX.Floor, highX.Floor, lowY.Floor, highY.Floor;
    // Array offsets for the surrounding pixels.
    var off00 := OffRGBA(src.stride, lowX, lowY);
    var off01 := OffRGBA(src.stride, highX, lowY);
    var off10 := OffRGBA(src.stride, lowX, highY);
    var off11 := OffRGBA(src.stride, highX, highY);
    r, g, b, a := 0.0, 0.0, 0.0, 0.0;
    var pr, pg, pb, pa := ReadPixel(src, off00, lx, ly);
    r, g, b, a := r + Weigh(pr as real, frac00), g + Weigh(pg as real, frac00), b + Weigh(pb as real, frac00), a + Weigh(pa as real, frac00);
    pr, pg, pb, pa := ReadPixel(src, off01, hx, ly);
    r, g, b, a := r + Weigh(pr as real, frac01), g + Weigh(pg as real, frac01), b + Weigh(pb as real, frac01), a + Weigh(pa as real, frac01);
    pr, pg, pb, pa := ReadPixel(src, off10, lx, hy);
    r, g, b, a := r + Weigh(pr as real, frac10), g + Weigh(pg as real, frac10), b + Weigh(pb as real, frac10), a + Weigh(pa as real, frac10);
    pr, pg, pb, pa := ReadPixel(src, off11, hx, hy);
    r, g, b, a := r + Weigh(pr as real, frac11), g + Weigh(pg as real, frac11), b + Weigh(pb as real, frac11), a + Weigh(pa as real, frac11);
  }

  /** Lines 19-117 followed by the conversions of lines 120-123: the four
      bytes BinterpRGBA writes when it samples src at (sx, sy). */
  method SampleBytes(src: Image, sx: real, sy: real) returns (r: Byte, g: Byte, b: Byte, a: Byte)
    requires src.Valid() && InDomain(src.width, src.height, sx, sy)
    ensures r == Sample(src.Contents(), sx, sy, 0) && g == Sample(src.Contents(), sx, sy, 1)
    ensures b == Sample(src.Contents(), sx, sy, 2) && a == Sample(src.Contents(), sx, sy, 3)
  {
    ghost var s := src.Contents();
    ghost var k := ClampedCorners(src.width, src.height, sx, sy);
    CornersInside(src.width, src.height, sx, sy);
    var lowX, highX, lowY, highY := CornerIndices(src.width, src.height, sx, sy);
    var frac00, frac01, frac10, frac11 := Weights(src.width, src.height, sx, sy, lowX, highX, lowY, highY, k);
    ghost var f := Fracs(frac00, frac01, frac10, frac11);
    ConvexFractions(src.width, src.height, sx, sy);
    var sr, sg, sb, sa := Accumulate(src, lowX, highX, lowY, highY, k, frac00, frac01, frac10, frac11);
    MixBound(s, k, f, 0);
    MixBound(s, k, f, 1);
    MixBound(s, k, f, 2);
    MixBound(s, k, f, 3);
    r, g, b, a := Uint8(sr + 0.5), Uint8(sg + 0.5), Uint8(sb + 0.5), Uint8(sa + 0.5);
  }

  /** BinterpRGBA: dst pixel (x, y) receives the sample of src at (sx, sy);
      no other byte of dst changes. The source is read before dst is
      written, so the two may share their bytes. */
  method BinterpRGBA(dst: Image, x: nat, y: nat, src: Image, sx: real, sy: real)
    requires dst.Valid() && x < dst.width && y < dst.height
    requires src.Valid() && InDomain(src.width, src.height, sx, sy)
    modifies dst.pix
    ensures forall c: nat :: c < 4 ==>
      View(dst, dst.width, dst.height).At(x, y, c) == Sample(old(src.Contents()), sx, sy, c)
    ensures forall x': nat, c: nat :: x' < dst.width && x' != x && c < 4 ==>
      View(dst, dst.width, dst.height).At(x', y, c) == old(View(dst, dst.width, dst.height)).At(x', y, c)
    ensures KeptOutside(dst.pix[..], old(dst.pix[..]), Offset(dst.stride, x, y, 0), Offset(dst.stride, x, y, 4))
  {
    var r, g, b, a := SampleBytes(src, sx, sy);
    var off := y * dst.stride + x * 4;
    WritePixelAt(dst, dst.width, dst.height, off, x, y, r, g, b, a);
  }
}
