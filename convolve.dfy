/** Separable convolution of RGBA images (graphics/convolve.go), with exact
    real arithmetic standing in for float64.

    A separable kernel is two weight vectors X and Y of the same odd length
    2·radius+1. The vertical pass weighs the rows above and below a pixel with
    Y[radius−i] and Y[radius+i]; the horizontal pass weighs the columns left
    and right with X[radius−i] and X[radius+i]. As in the blur, the weight of
    a tap that falls outside the image is added to the centre weight. Both
    passes start that centre weight at X[radius]. The vertical pass's starting
    centre weight is a parameter of the specification functions below, so
    that the code as written (X[radius]) and the outer-product semantics the
    kernel stands for (Y[radius]) can be stated side by side. */
module Convolve {
  import opened Pixels
  import opened Wrappers

  // ---------------------------------------------------------------------
  // Clamping and the conversion to a byte

  /** Lines 13-21: x limited to the range [x0, x1]. */
  function Clamp(x: real, x0: real, x1: real): (r: real)
    ensures x0 <= x1 ==> x0 <= r <= x1
    ensures x0 <= x <= x1 ==> r == x
  {
    if x < x0 then x0 else if x > x1 then x1 else x
  }

  /** Clamping never reverses the order of two values. */
  lemma ClampMonotone(x: real, y: real, x0: real, x1: real)
    requires x <= y && x0 <= x1
    ensures Clamp(x, x0, x1) <= Clamp(y, x0, x1)
  {
  }

  /** Lines 149-152: uint8(clamp(v + 0.5, 0, 255)). Converting a float in
      [0, 255] to uint8 truncates toward zero, which is the floor there, so a
      value in range is rounded to the nearest integer (halves up) and a value
      out of range saturates at 0 or 255. */
  function ToByte(v: real): (b: Byte)
    ensures -0.5 <= v < 255.5 ==> b as real - 0.5 <= v < b as real + 0.5
    ensures v < -0.5 ==> b == 0
    ensures 254.5 <= v ==> b == 255
  {
    Clamp(v + 0.5, 0.0, 255.0).Floor
  }

  /** An integral value in 0..255 converts to itself. */
  lemma ToByteExact(v: Byte)
    ensures ToByte(v as real) == v
  {
  }

  // ---------------------------------------------------------------------
  // Kernels and their validation (lines 23-50, 172-177)

  /** Lines 37-39: the per-axis weights of a separable kernel. */
  datatype SeparableKernel = SeparableKernel(x: seq<real>, y: seq<real>)

  /** The kernels Convolve is given: a separable one, or any other kind,
      described only by its full row-major weights. */
  datatype Kernel = Separable(sep: SeparableKernel) | Dense(weights: seq<real>)

  /** Why a convolution is refused (both are panics in the source). */
  datatype ConvolveError = InvalidKernel | Unimplemented

  /** Line 46: X and Y have the same, odd, length. */
  predicate ValidKernel(k: SeparableKernel)
  {
    |k.x| == |k.y| && |k.x| % 2 == 1
  }

  /** Line 50: the radius of a valid kernel; both vectors have 2·radius+1
      weights, the centre one at index radius. */
  function Radius(k: SeparableKernel): (radius: nat)
    requires ValidKernel(k)
    ensures |k.x| == |k.y| == 2 * radius + 1
  {
    (|k.x| - 1) / 2
  }

  /** Lines 46-49: the validation that precedes both passes. */
  function CheckKernel(k: SeparableKernel): (res: Outcome<ConvolveError>)
    ensures res == Success <==> ValidKernel(k)
    ensures res != Success ==> res == Fail(InvalidKernel)
  {
    if |k.x| != |k.y| || |k.x| % 2 != 1 then Fail(InvalidKernel) else Success
  }

  // ---------------------------------------------------------------------
  // One pass along a line, centred on position p, with weights w of length
  // 2·radius+1 and starting centre weight k0

  /** The sum of a sequence of weights. */
  function Sum(s: seq<real>): real
  {
    if s == [] then 0.0 else s[0] + Sum(s[1..])
  }

  lemma {:induction false} SumConcat(s: seq<real>, t: seq<real>)
    ensures Sum(s + t) == Sum(s) + Sum(t)
  {
    if s == [] {
      assert s + t == t;
    } else {
      assert (s + t)[1..] == s[1..] + t;
      SumConcat(s[1..], t);
    }
  }

  /** A sample times its weight. */
  function Weigh(v: real, f: real): real
  {
    v * f
  }

  /** Weighted sum of the taps at distance 1..n before p that lie on the line. */
  function TapsBefore(line: seq<real>, p: nat, w: seq<real>, radius: nat, n: nat): real
    requires p < |line| && n <= radius < |w|
  {
    if n == 0 then 0.0
    else TapsBefore(line, p, w, radius, n - 1) + (if p < n then 0.0 else Weigh(line[p - n], w[radius - n]))
  }

  /** Weighted sum of the taps at distance 1..n after p that lie on the line. */
  function TapsAfter(line: seq<real>, p: nat, w: seq<real>, radius: nat, n: nat): real
    requires p < |line| && radius + n < |w|
  {
    if n == 0 then 0.0
    else TapsAfter(line, p, w, radius, n - 1) + (if p + n >= |line| then 0.0 else Weigh(line[p + n], w[radius + n]))
  }

  /** Tap n before p lies on the line and samples v. */
  lemma BeforeStep(line: seq<real>, p: nat, w: seq<real>, radius: nat, n: nat, v: real)
    requires p < |line| && 0 < n <= radius < |w| && n <= p && v == line[p - n]
    ensures TapsBefore(line, p, w, radius, n) == TapsBefore(line, p, w, radius, n - 1) + Weigh(v, w[radius - n])
  {
  }

  /** Tap n after p lies on the line and samples v. */
  lemma AfterStep(line: seq<real>, p: nat, w: seq<real>, radius: nat, n: nat, v: real)
    requires p + n < |line| && 0 < n && radius + n < |w| && v == line[p + n]
    ensures TapsAfter(line, p, w, radius, n) == TapsAfter(line, p, w, radius, n - 1) + Weigh(v, w[radius + n])
  {
  }

  /** Tap n after p falls off the line. */
  lemma AfterMissing(line: seq<real>, p: nat, w: seq<real>, radius: nat, n: nat)
    requires p < |line| <= p + n && 0 < n && radius + n < |w|
    ensures TapsAfter(line, p, w, radius, n) == TapsAfter(line, p, w, radius, n - 1)
  {
  }

  /** Total weight of the taps at distance 1..n before p that fall off the line. */
  function FoldBefore(p: nat, w: seq<real>, radius: nat, n: nat): real
    requires n <= radius < |w|
  {
    if n == 0 then 0.0 else FoldBefore(p, w, radius, n - 1) + (if p < n then w[radius - n] else 0.0)
  }

  /** Total weight of the taps at distance 1..n after p that fall off a line of length len. */
  function FoldAfter(len: nat, p: nat, w: seq<real>, radius: nat, n: nat): real
    requires radius + n < |w|
  {
    if n == 0 then 0.0 else FoldAfter(len, p, w, radius, n - 1) + (if p + n >= len then w[radius + n] else 0.0)
  }

  /** Total weight of the taps at distance 1..n before p that lie on the line. */
  function PresentBefore(p: nat, w: seq<real>, radius: nat, n: nat): real
    requires n <= radius < |w|
  {
    if n == 0 then 0.0 else PresentBefore(p, w, radius, n - 1) + (if p < n then 0.0 else w[radius - n])
  }

  /** Total weight of the taps at distance 1..n after p that lie on a line of length len. */
  function PresentAfter(len: nat, p: nat, w: seq<real>, radius: nat, n: nat): real
    requires radius + n < |w|
  {
    if n == 0 then 0.0 else PresentAfter(len, p, w, radius, n - 1) + (if p + n >= len then 0.0 else w[radius + n])
  }

  /** The centre weight after every missing tap's weight is folded into k0. */
  function CentreWeight(len: nat, p: nat, w: seq<real>, radius: nat, k0: real): real
    requires |w| == 2 * radius + 1
  {
    k0 + FoldBefore(p, w, radius, radius) + FoldAfter(len, p, w, radius, radius)
  }

  /** The value one pass computes for position p of a line. */
  function SepPass(line: seq<real>, p: nat, w: seq<real>, radius: nat, k0: real): real
    requires p < |line| && |w| == 2 * radius + 1
  {
    TapsBefore(line, p, w, radius, radius) + TapsAfter(line, p, w, radius, radius)
      + Weigh(line[p], CentreWeight(|line|, p, w, radius, k0))
  }

  lemma {:induction false} SplitBefore(p: nat, w: seq<real>, radius: nat, n: nat)
    requires n <= radius < |w|
    ensures FoldBefore(p, w, radius, n) + PresentBefore(p, w, radius, n) == Sum(w[radius - n..radius])
  {
    if n > 0 {
      SplitBefore(p, w, radius, n - 1);
      assert w[radius - n..radius][1..] == w[radius - (n - 1)..radius];
    }
  }

  lemma {:induction false} SplitAfter(len: nat, p: nat, w: seq<real>, radius: nat, n: nat)
    requires radius + n < |w|
    ensures FoldAfter(len, p, w, radius, n) + PresentAfter(len, p, w, radius, n) == Sum(w[radius + 1..radius + n + 1])
  {
    if n > 0 {
      SplitAfter(len, p, w, radius, n - 1);
      assert w[radius + 1..radius + n + 1] == w[radius + 1..radius + n] + [w[radius + n]];
      SumConcat(w[radius + 1..radius + n], [w[radius + n]]);
    }
  }

  /** Missing taps are never dropped: the folded centre weight and the weights
      of the taps on the line add up to k0 plus every weight but the centre one. */
  lemma EffectiveWeights(len: nat, p: nat, w: seq<real>, radius: nat, k0: real)
    requires |w| == 2 * radius + 1
    ensures CentreWeight(len, p, w, radius, k0) + PresentBefore(p, w, radius, radius)
            + PresentAfter(len, p, w, radius, radius) == k0 + Sum(w) - w[radius]
  {
    SplitBefore(p, w, radius, radius);
    SplitAfter(len, p, w, radius, radius);
    assert w == w[..radius] + ([w[radius]] + w[radius + 1..]);
    SumConcat(w[..radius], [w[radius]] + w[radius + 1..]);
    SumConcat([w[radius]], w[radius + 1..]);
    assert w[radius - radius..radius] == w[..radius];
    assert w[radius + 1..radius + radius + 1] == w[radius + 1..];
  }

  lemma {:induction false} TapsBeforeUniform(line: seq<real>, p: nat, w: seq<real>, radius: nat, n: nat, v: real)
    requires p < |line| && n <= radius < |w|
    requires forall j :: 0 <= j < |line| ==> line[j] == v
    ensures TapsBefore(line, p, w, radius, n) == v * PresentBefore(p, w, radius, n)
  {
    if n > 0 {
      TapsBeforeUniform(line, p, w, radius, n - 1, v);
    }
  }

  lemma {:induction false} TapsAfterUniform(line: seq<real>, p: nat, w: seq<real>, radius: nat, n: nat, v: real)
    requires p < |line| && radius + n < |w|
    requires forall j :: 0 <= j < |line| ==> line[j] == v
    ensures TapsAfter(line, p, w, radius, n) == v * PresentAfter(|line|, p, w, radius, n)
  {
    if n > 0 {
      TapsAfterUniform(line, p, w, radius, n - 1, v);
    }
  }

  lemma MulEqual(v: real, a: real, b: real)
    requires a == b
    ensures v * a == v * b
  {
  }

  lemma Distrib3(v: real, a: real, b: real, c: real)
    ensures v * a + v * b + Weigh(v, c) == v * (c + a + b)
  {
  }

  /** A pass over a constant line scales it by k0 plus every weight but the
      centre one. */
  lemma SepPassUniform(line: seq<real>, p: nat, w: seq<real>, radius: nat, k0: real, v: real)
    requires p < |line| && |w| == 2 * radius + 1
    requires forall j :: 0 <= j < |line| ==> line[j] == v
    ensures SepPass(line, p, w, radius, k0) == v * (k0 + Sum(w) - w[radius])
  {
    TapsBeforeUniform(line, p, w, radius, radius, v);
    TapsAfterUniform(line, p, w, radius, radius, v);
    EffectiveWeights(|line|, p, w, radius, k0);
    Distrib3(v, PresentBefore(p, w, radius, radius), PresentAfter(|line|, p, w, radius, radius),
             CentreWeight(|line|, p, w, radius, k0));
  }

  /** With the centre weight starting at w[radius] (the horizontal pass), a
      pass over a constant line scales it by Σw. */
  lemma CentredPassUniform(line: seq<real>, p: nat, w: seq<real>, radius: nat, v: real)
    requires p < |line| && |w| == 2 * radius + 1
    requires forall j :: 0 <= j < |line| ==> line[j] == v
    ensures SepPass(line, p, w, radius, w[radius]) == v * Sum(w)
  {
    SepPassUniform(line, p, w, radius, w[radius], v);
    assert w[radius] + Sum(w) - w[radius] == Sum(w);
  }

  // ---------------------------------------------------------------------
  // The two passes over an image

  /** Channel c of column x of the source, top to bottom. */
  function Column(src: Raster, x: nat, c: nat): (col: seq<real>)
    requires src.Valid() && x < src.width && c < 4
    ensures |col| == src.height
    ensures forall y :: 0 <= y < src.height ==> col[y] == src.At(x, y, c) as real
  {
    seq(src.height, y requires 0 <= y < src.height => src.At(x, y, c) as real)
  }

  /** Lines 62-96: the vertical pass's value for channel c of pixel (x, y),
      its centre weight starting at k0. */
  function Vertical(src: Raster, k: SeparableKernel, k0: real, x: nat, y: nat, c: nat): real
    requires src.Valid() && ValidKernel(k) && x < src.width && y < src.height && c < 4
  {
    SepPass(Column(src, x, c), y, k.y, Radius(k), k0)
  }

  /** Channel c of row y of the vertical pass's buffer, left to right. */
  function VerticalRow(src: Raster, k: SeparableKernel, k0: real, y: nat, c: nat): (row: seq<real>)
    requires src.Valid() && ValidKernel(k) && y < src.height && c < 4
    ensures |row| == src.width
    ensures forall x :: 0 <= x < src.width ==> row[x] == Vertical(src, k, k0, x, y, c)
  {
    seq(src.width, x requires 0 <= x < src.width => Vertical(src, k, k0, x, y, c))
  }

  /** Lines 111-145: the horizontal pass's accumulator for (x, y, c). */
  function Horizontal(src: Raster, k: SeparableKernel, k0: real, x: nat, y: nat, c: nat): real
    requires src.Valid() && ValidKernel(k) && x < src.width && y < src.height && c < 4
  {
    SepPass(VerticalRow(src, k, k0, y, c), x, k.x, Radius(k), k.x[Radius(k)])
  }

  /** The destination byte for channel c of pixel (x, y). */
  function ConvolveAt(src: Raster, k: SeparableKernel, k0: real, x: nat, y: nat, c: nat): Byte
    requires src.Valid() && ValidKernel(k) && x < src.width && y < src.height && c < 4
  {
    ToByte(Horizontal(src, k, k0, x, y, c))
  }

  /** Line 62 as written: the vertical pass starts its centre weight at X[radius]. */
  function WrittenCentre(k: SeparableKernel): real
    requires ValidKernel(k)
  {
    k.x[Radius(k)]
  }

  /** The centre weight of the kernel's own vertical vector, Y[radius]. */
  function IntendedCentre(k: SeparableKernel): real
    requires ValidKernel(k)
  {
    k.y[Radius(k)]
  }

  /** The total weight of the vertical pass when its centre weight starts
      at k0: k0 plus every Y weight but the centre one. */
  function VerticalWeight(k: SeparableKernel, k0: real): real
    requires ValidKernel(k)
  {
    k0 + Sum(k.y) - k.y[Radius(k)]
  }

  /** Lines 62-96: at row y of an image `height` rows high, the vertical
      pass's folded centre weight and the weights of its taps inside the
      image add up to X[radius] plus every Y weight but Y[radius]. */
  lemma VerticalWeights(k: SeparableKernel, height: nat, y: nat)
    requires ValidKernel(k)
    ensures CentreWeight(height, y, k.y, Radius(k), WrittenCentre(k)) + PresentBefore(y, k.y, Radius(k), Radius(k))
            + PresentAfter(height, y, k.y, Radius(k), Radius(k)) == VerticalWeight(k, k.x[Radius(k)])
  {
    EffectiveWeights(height, y, k.y, Radius(k), WrittenCentre(k));
  }

  /** Lines 111-145: at column x of an image `width` pixels wide, the
      horizontal pass's folded centre weight and the weights of its taps
      inside the image add up to ΣX. */
  lemma HorizontalWeights(k: SeparableKernel, width: nat, x: nat)
    requires ValidKernel(k)
    ensures CentreWeight(width, x, k.x, Radius(k), k.x[Radius(k)]) + PresentBefore(x, k.x, Radius(k), Radius(k))
            + PresentAfter(width, x, k.x, Radius(k), Radius(k)) == Sum(k.x)
  {
    EffectiveWeights(width, x, k.x, Radius(k), k.x[Radius(k)]);
  }

  /** The horizontal pass of a constant row scales it by ΣX. */
  lemma RowPassUniform(row: seq<real>, k: SeparableKernel, x: nat, vs: real)
    requires ValidKernel(k) && x < |row|
    requires forall j :: 0 <= j < |row| ==> row[j] == vs
    ensures SepPass(row, x, k.x, Radius(k), k.x[Radius(k)]) == vs * Sum(k.x)
  {
    CentredPassUniform(row, x, k.x, Radius(k), vs);
  }

  /** The vertical pass of a constant column scales it by VerticalWeight(k, k0). */
  lemma ColumnPassUniform(col: seq<real>, k: SeparableKernel, k0: real, y: nat, vs: real)
    requires ValidKernel(k) && y < |col|
    requires forall j :: 0 <= j < |col| ==> col[j] == vs
    ensures SepPass(col, y, k.y, Radius(k), k0) == vs * VerticalWeight(k, k0)
  {
    SepPassUniform(col, y, k.y, Radius(k), k0, vs);
    MulEqual(vs, VerticalWeight(k, k0), k0 + Sum(k.y) - k.y[Radius(k)]);
  }

  /** A vertical pass that is constant along row y gives a horizontal pass
      scaled by ΣX. */
  lemma HorizontalOfUniformRow(src: Raster, k: SeparableKernel, k0: real, x: nat, y: nat, c: nat, vs: real)
    requires src.Valid() && ValidKernel(k) && c < 4 && x < src.width && y < src.height
    requires forall x' :: 0 <= x' < src.width ==> Vertical(src, k, k0, x', y, c) == vs
    ensures Horizontal(src, k, k0, x, y, c) == vs * Sum(k.x)
  {
    RowPassUniform(VerticalRow(src, k, k0, y, c), k, x, vs);
  }

  /** On a uniform channel the vertical pass scales every value by
      VerticalWeight(k, k0). */
  lemma VerticalUniform(src: Raster, k: SeparableKernel, k0: real, c: nat, v: Byte, y: nat)
    requires src.Valid() && ValidKernel(k) && c < 4 && y < src.height
    requires forall x', y' :: 0 <= x' < src.width && 0 <= y' < src.height ==> src.At(x', y', c) == v
    ensures forall x' :: 0 <= x' < src.width ==> Vertical(src, k, k0, x', y, c) == v as real * VerticalWeight(k, k0)
  {
    UniformColumns(src, c, v);
    ConstantColumns(src, k, k0, c, v as real, y);
  }

  /** The vertical pass of constant columns. */
  lemma ConstantColumns(src: Raster, k: SeparableKernel, k0: real, c: nat, vs: real, y: nat)
    requires src.Valid() && ValidKernel(k) && c < 4 && y < src.height
    requires forall x', j :: 0 <= x' < src.width && 0 <= j < src.height ==> Column(src, x', c)[j] == vs
    ensures forall x' :: 0 <= x' < src.width ==> Vertical(src, k, k0, x', y, c) == vs * VerticalWeight(k, k0)
  {
    forall x' | 0 <= x' < src.width
      ensures Vertical(src, k, k0, x', y, c) == vs * VerticalWeight(k, k0)
    {
      ColumnPassUniform(Column(src, x', c), k, k0, y, vs);
    }
  }

  /** Every column of a uniform channel is constant. */
  lemma UniformColumns(src: Raster, c: nat, v: Byte)
    requires src.Valid() && c < 4
    requires forall x', y' :: 0 <= x' < src.width && 0 <= y' < src.height ==> src.At(x', y', c) == v
    ensures forall x', j :: 0 <= x' < src.width && 0 <= j < src.height ==> Column(src, x', c)[j] == v as real
  {
  }

  /** With the kernel's own centre weight, weights that each sum to 1 leave a
      uniform channel unchanged. */
  lemma IntendedKeepsUniform(src: Raster, k: SeparableKernel, c: nat, v: Byte, x: nat, y: nat)
    requires src.Valid() && ValidKernel(k) && c < 4 && Sum(k.x) == 1.0 && Sum(k.y) == 1.0
    requires forall x', y' :: 0 <= x' < src.width && 0 <= y' < src.height ==> src.At(x', y', c) == v
    requires x < src.width && y < src.height
    ensures ConvolveAt(src, k, IntendedCentre(k), x, y, c) == v
  {
    var k0 := IntendedCentre(k);
    assert VerticalWeight(k, k0) == 1.0;
    VerticalUniform(src, k, k0, c, v, y);
    MulEqual(v as real, VerticalWeight(k, k0), 1.0);
    HorizontalOfUniformRow(src, k, k0, x, y, c, v as real);
    MulEqual(v as real, Sum(k.x), 1.0);
    assert Horizontal(src, k, k0, x, y, c) == v as real;
    ToByteExact(v);
  }

  /** An averaging kernel: X = (1/4, 1/2, 1/4), and Y = (0, 1, 0), which
      leaves columns unchanged. */
  const Averaging: SeparableKernel := SeparableKernel([0.25, 0.5, 0.25], [0.0, 1.0, 0.0])

  /** On any uniform channel, the averaging kernel halves the value as
      written, and keeps it with the kernel's own centre weight: a channel of
      200 comes out as 100. */
  lemma WrittenCentreHalves(src: Raster, c: nat, v: Byte, x: nat, y: nat)
    requires src.Valid() && c < 4
    requires forall x', y' :: 0 <= x' < src.width && 0 <= y' < src.height ==> src.At(x', y', c) == v
    requires x < src.width && y < src.height
    ensures ConvolveAt(src, Averaging, WrittenCentre(Averaging), x, y, c) == ToByte(v as real / 2.0)
    ensures v == 200 ==> ConvolveAt(src, Averaging, WrittenCentre(Averaging), x, y, c) == 100
    ensures ConvolveAt(src, Averaging, IntendedCentre(Averaging), x, y, c) == v
  {
    AveragingWeights();
    VerticalUniform(src, Averaging, 0.5, c, v, y);
    MulEqual(v as real, VerticalWeight(Averaging, 0.5), 0.5);
    HorizontalOfUniformRow(src, Averaging, 0.5, x, y, c, v as real * 0.5);
    MulEqual(v as real * 0.5, Sum(Averaging.x), 1.0);
    assert Horizontal(src, Averaging, 0.5, x, y, c) == v as real / 2.0;
    assert ToByte(100.0) == 100;
    IntendedKeepsUniform(src, Averaging, c, v, x, y);
  }

  /** The weights of the averaging kernel: radius 1, each vector summing to
      1, and a vertical weight of 1/2 as written. */
  lemma AveragingWeights()
    ensures ValidKernel(Averaging) && Radius(Averaging) == 1
    ensures Sum(Averaging.x) == 1.0 && Sum(Averaging.y) == 1.0
    ensures WrittenCentre(Averaging) == 0.5 && VerticalWeight(Averaging, 0.5) == 0.5
  {
    assert Averaging.x[1..][1..][1..] == [];
    assert Averaging.y[1..][1..][1..] == [];
  }

  // ---------------------------------------------------------------------
  // The imperative convolution (lines 45-155)

  /** The four channels of source pixel (x, y), read at its byte offset o
      and converted to float64. */
  method ReadSamples(src: Image, ghost s: Raster, o: nat, x: nat, y: nat) returns (r: real, g: real, b: real, a: real)
    requires src.Valid() && s == src.Contents() && x < src.width && y < src.height && o == Offset(src.stride, x, y, 0)
    ensures r == Column(s, x, 0)[y] && g == Column(s, x, 1)[y]
    ensures b == Column(s, x, 2)[y] && a == Column(s, x, 3)[y]
  {
    var pr, pg, pb, pa := ReadPixel(src, o, x, y);
    r, g, b, a := pr as real, pg as real, pb as real, pa as real;
  }

  /** Lines 64-76: the taps above (x, y) weighed with Y[radius−i], and the
      centre weight k0 with the weight of the taps above the image folded in. */
  method TapsAbove(src: Image, k: SeparableKernel, k0: real, x: nat, y: nat)
    returns (k0': real, r: real, g: real, b: real, a: real)
    requires src.Valid() && ValidKernel(k) && x < src.width && y < src.height
    ensures k0' == k0 + FoldBefore(y, k.y, Radius(k), Radius(k))
    ensures r == TapsBefore(Column(src.Contents(), x, 0), y, k.y, Radius(k), Radius(k))
    ensures g == TapsBefore(Column(src.Contents(), x, 1), y, k.y, Radius(k), Radius(k))
    ensures b == TapsBefore(Column(src.Contents(), x, 2), y, k.y, Radius(k), Radius(k))
    ensures a == TapsBefore(Column(src.Contents(), x, 3), y, k.y, Radius(k), Radius(k))
  {
    var radius := Radius(k);
    var off := y * src.stride + x * 4;
    k0', r, g, b, a := k0, 0.0, 0.0, 0.0, 0.0;
    var i := 1;
    while i <= radius
      invariant 1 <= i <= radius + 1
      invariant k0' == k0 + FoldBefore(y, k.y, radius, i - 1)
      invariant r == TapsBefore(Column(src.Contents(), x, 0), y, k.y, radius, i - 1)
      invariant g == TapsBefore(Column(src.Contents(), x, 1), y, k.y, radius, i - 1)
      invariant b == TapsBefore(Column(src.Contents(), x, 2), y, k.y, radius, i - 1)
      invariant a == TapsBefore(Column(src.Contents(), x, 3), y, k.y, radius, i - 1)
    {
      k0', r, g, b, a := TapAbove(src, k, x, y, off, i, k0, k0', r, g, b, a);
      i := i + 1;
    }
  }

  /** One turn of the loop of lines 64-76: the tap at distance i above (x, y). */
  method TapAbove(src: Image, k: SeparableKernel, x: nat, y: nat, off: int, i: nat,
                  ghost k0: real, k1: real, r: real, g: real, b: real, a: real)
    returns (k0': real, r': real, g': real, b': real, a': real)
    requires src.Valid() && ValidKernel(k) && x < src.width && y < src.height
    requires 1 <= i <= Radius(k) && off == Offset(src.stride, x, y, 0)
    requires k1 == k0 + FoldBefore(y, k.y, Radius(k), i - 1)
    requires r == TapsBefore(Column(src.Contents(), x, 0), y, k.y, Radius(k), i - 1)
    requires g == TapsBefore(Column(src.Contents(), x, 1), y, k.y, Radius(k), i - 1)
    requires b == TapsBefore(Column(src.Contents(), x, 2), y, k.y, Radius(k), i - 1)
    requires a == TapsBefore(Column(src.Contents(), x, 3), y, k.y, Radius(k), i - 1)
    ensures k0' == k0 + FoldBefore(y, k.y, Radius(k), i)
    ensures r' == TapsBefore(Column(src.Contents(), x, 0), y, k.y, Radius(k), i)
    ensures g' == TapsBefore(Column(src.Contents(), x, 1), y, k.y, Radius(k), i)
    ensures b' == TapsBefore(Column(src.Contents(), x, 2), y, k.y, Radius(k), i)
    ensures a' == TapsBefore(Column(src.Contents(), x, 3), y, k.y, Radius(k), i)
  {
    var radius := Radius(k);
    var f := k.y[radius - i];
    k0', r', g', b', a' := k1, r, g, b, a;
    if y - i < 0 {
      k0' := k1 + f;
    } else {
      ghost var s := src.Contents();
      RowsBack(src.stride, x, y, i);
      var pr, pg, pb, pa := ReadSamples(src, s, off - i * src.stride, x, y - i);
      BeforeStep(Column(s, x, 0), y, k.y, radius, i, pr);
      BeforeStep(Column(s, x, 1), y, k.y, radius, i, pg);
      BeforeStep(Column(s, x, 2), y, k.y, radius, i, pb);
      BeforeStep(Column(s, x, 3), y, k.y, radius, i, pa);
      r', g', b', a' := r + Weigh(pr, f), g + Weigh(pg, f), b + Weigh(pb, f), a + Weigh(pa, f);
    }
  }

  /** Lines 78-90: the taps below (x, y), weighed with Y[radius+i], added to
      the sums, and the weight of the taps below the image folded into k0. */
  method TapsBelow(src: Image, k: SeparableKernel, x: nat, y: nat, k0: real, r: real, g: real, b: real, a: real)
    returns (k0': real, r': real, g': real, b': real, a': real)
    requires src.Valid() && ValidKernel(k) && x < src.width && y < src.height
    ensures k0' == k0 + FoldAfter(src.height, y, k.y, Radius(k), Radius(k))
    ensures r' == r + TapsAfter(Column(src.Contents(), x, 0), y, k.y, Radius(k), Radius(k))
    ensures g' == g + TapsAfter(Column(src.Contents(), x, 1), y, k.y, Radius(k), Radius(k))
    ensures b' == b + TapsAfter(Column(src.Contents(), x, 2), y, k.y, Radius(k), Radius(k))
    ensures a' == a + TapsAfter(Column(src.Contents(), x, 3), y, k.y, Radius(k), Radius(k))
  {
    var radius := Radius(k);
    var off := y * src.stride + x * 4;
    k0', r', g', b', a' := k0, r, g, b, a;
    var i := 1;
    while i <= radius
      invariant 1 <= i <= radius + 1
      invariant k0' == k0 + FoldAfter(src.height, y, k.y, radius, i - 1)
      invariant r' == r + TapsAfter(Column(src.Contents(), x, 0), y, k.y, radius, i - 1)
      invariant g' == g + TapsAfter(Column(src.Contents(), x, 1), y, k.y, radius, i - 1)
      invariant b' == b + TapsAfter(Column(src.Contents(), x, 2), y, k.y, radius, i - 1)
      invariant a' == a + TapsAfter(Column(src.Contents(), x, 3), y, k.y, radius, i - 1)
    {
      k0', r', g', b', a' := TapBelow(src, k, x, y, off, i, k0, r, g, b, a, k0', r', g', b', a');
      i := i + 1;
    }
  }

  /** One turn of the loop of lines 78-90: the tap at distance i below (x, y). */
  method TapBelow(src: Image, k: SeparableKernel, x: nat, y: nat, off: int, i: nat,
                  ghost k0: real, ghost r: real, ghost g: real, ghost b: real, ghost a: real, k1: real, r1: real, g1: real, b1: real, a1: real)
    returns (k0': real, r': real, g': real, b': real, a': real)
    requires src.Valid() && ValidKernel(k) && x < src.width && y < src.height
    requires 1 <= i <= Radius(k) && off == Offset(src.stride, x, y, 0)
    requires k1 == k0 + FoldAfter(src.height, y, k.y, Radius(k), i - 1)
    requires r1 == r + TapsAfter(Column(src.Contents(), x, 0), y, k.y, Radius(k), i - 1)
    requires g1 == g + TapsAfter(Column(src.Contents(), x, 1), y, k.y, Radius(k), i - 1)
    requires b1 == b + TapsAfter(Column(src.Contents(), x, 2), y, k.y, Radius(k), i - 1)
    requires a1 == a + TapsAfter(Column(src.Contents(), x, 3), y, k.y, Radius(k), i - 1)
    ensures k0' == k0 + FoldAfter(src.height, y, k.y, Radius(k), i)
    ensures r' == r + TapsAfter(Column(src.Contents(), x, 0), y, k.y, Radius(k), i)
    ensures g' == g + TapsAfter(Column(src.Contents(), x, 1), y, k.y, Radius(k), i)
    ensures b' == b + TapsAfter(Column(src.Contents(), x, 2), y, k.y, Radius(k), i)
    ensures a' == a + TapsAfter(Column(src.Contents(), x, 3), y, k.y, Radius(k), i)
  {
    var radius := Radius(k);
    var f := k.y[radius + i];
    ghost var s := src.Contents();
    k0', r', g', b', a' := k1, r1, g1, b1, a1;
    if y + i >= src.height {
      AfterMissing(Column(s, x, 0), y, k.y, radius, i);
      AfterMissing(Column(s, x, 1), y, k.y, radius, i);
      AfterMissing(Column(s, x, 2), y, k.y, radius, i);
      AfterMissing(Column(s, x, 3), y, k.y, radius, i);
      k0' := k1 + f;
    } else {
      RowsAhead(src.stride, x, y, i);
      var pr, pg, pb, pa := ReadSamples(src, s, off + i * src.stride, x, y + i);
      AfterStep(Column(s, x, 0), y, k.y, radius, i, pr);
      AfterStep(Column(s, x, 1), y, k.y, radius, i, pg);
      AfterStep(Column(s, x, 2), y, k.y, radius, i, pb);
      AfterStep(Column(s, x, 3), y, k.y, radius, i, pa);
      r', g', b', a' := r1 + Weigh(pr, f), g1 + Weigh(pg, f), b1 + Weigh(pb, f), a1 + Weigh(pa, f);
    }
  }

  /** Lines 58-96 for one pixel: the vertical pass's four channel sums at
      (x, y), its centre weight starting at k0. */
  method VerticalTaps(src: Image, k: SeparableKernel, k0: real, x: nat, y: nat) returns (r: real, g: real, b: real, a: real)
    requires src.Valid() && ValidKernel(k) && x < src.width && y < src.height
    ensures r == Vertical(src.Contents(), k, k0, x, y, 0)
    ensures g == Vertical(src.Contents(), k, k0, x, y, 1)
    ensures b == Vertical(src.Contents(), k, k0, x, y, 2)
    ensures a == Vertical(src.Contents(), k, k0, x, y, 3)
  {
    var kc;
    kc, r, g, b, a := TapsAbove(src, k, k0, x, y);
    kc, r, g, b, a := TapsBelow(src, k, x, y, kc, r, g, b, a);
    assert kc == CentreWeight(src.height, y, k.y, Radius(k), k0);
    // The central pixel, with the folded-in weight.
    var pr, pg, pb, pa := ReadSamples(src, src.Contents(), y * src.stride + x * 4, x, y);
    r, g, b, a := r + Weigh(pr, kc), g + Weigh(pg, kc), b + Weigh(pb, kc), a + Weigh(pa, kc);
  }

  /** Lines 113-125: the taps left of (x, y) weighed with X[radius−i], and the
      centre weight X[radius] with the weight of the taps left of the image
      folded in. */
  method TapsLeft(buf: array<real>, width: nat, height: nat, k: SeparableKernel, x: nat, y: nat)
    returns (k0: real, r: real, g: real, b: real, a: real)
    requires buf.Length == width * height * 4 && ValidKernel(k) && x < width && y < height
    ensures k0 == k.x[Radius(k)] + FoldBefore(x, k.x, Radius(k), Radius(k))
    ensures r == TapsBefore(PackedRow(buf[..], width, height, y, 0), x, k.x, Radius(k), Radius(k))
    ensures g == TapsBefore(PackedRow(buf[..], width, height, y, 1), x, k.x, Radius(k), Radius(k))
    ensures b == TapsBefore(PackedRow(buf[..], width, height, y, 2), x, k.x, Radius(k), Radius(k))
    ensures a == TapsBefore(PackedRow(buf[..], width, height, y, 3), x, k.x, Radius(k), Radius(k))
  {
    var radius := Radius(k);
    var off := y * width * 4 + x * 4;
    PackedOffset(width, x, y);
    k0, r, g, b, a := k.x[radius], 0.0, 0.0, 0.0, 0.0;
    var i := 1;
    while i <= radius
      invariant 1 <= i <= radius + 1
      invariant k0 == k.x[radius] + FoldBefore(x, k.x, radius, i - 1)
      invariant r == TapsBefore(PackedRow(buf[..], width, height, y, 0), x, k.x, radius, i - 1)
      invariant g == TapsBefore(PackedRow(buf[..], width, height, y, 1), x, k.x, radius, i - 1)
      invariant b == TapsBefore(PackedRow(buf[..], width, height, y, 2), x, k.x, radius, i - 1)
      invariant a == TapsBefore(PackedRow(buf[..], width, height, y, 3), x, k.x, radius, i - 1)
    {
      k0, r, g, b, a := TapLeft(buf, width, height, k, x, y, off, i, k0, r, g, b, a);
      i := i + 1;
    }
  }

  /** One turn of the loop of lines 113-125: the tap at distance i left of (x, y). */
  method TapLeft(buf: array<real>, width: nat, height: nat, k: SeparableKernel, x: nat, y: nat, off: int, i: nat,
                 k0: real, r: real, g: real, b: real, a: real)
    returns (k0': real, r': real, g': real, b': real, a': real)
    requires buf.Length == width * height * 4 && ValidKernel(k) && x < width && y < height
    requires 1 <= i <= Radius(k) && off == Offset(4 * width, x, y, 0)
    requires k0 == k.x[Radius(k)] + FoldBefore(x, k.x, Radius(k), i - 1)
    requires r == TapsBefore(PackedRow(buf[..], width, height, y, 0), x, k.x, Radius(k), i - 1)
    requires g == TapsBefore(PackedRow(buf[..], width, height, y, 1), x, k.x, Radius(k), i - 1)
    requires b == TapsBefore(PackedRow(buf[..], width, height, y, 2), x, k.x, Radius(k), i - 1)
    requires a == TapsBefore(PackedRow(buf[..], width, height, y, 3), x, k.x, Radius(k), i - 1)
    ensures k0' == k.x[Radius(k)] + FoldBefore(x, k.x, Radius(k), i)
    ensures r' == TapsBefore(PackedRow(buf[..], width, height, y, 0), x, k.x, Radius(k), i)
    ensures g' == TapsBefore(PackedRow(buf[..], width, height, y, 1), x, k.x, Radius(k), i)
    ensures b' == TapsBefore(PackedRow(buf[..], width, height, y, 2), x, k.x, Radius(k), i)
    ensures a' == TapsBefore(PackedRow(buf[..], width, height, y, 3), x, k.x, Radius(k), i)
  {
    var radius := Radius(k);
    var f := k.x[radius - i];
    k0', r', g', b', a' := k0, r, g, b, a;
    if x - i < 0 {
      k0' := k0 + f;
    } else {
      var pr, pg, pb, pa := ReadPacked(buf, width, height, off - i * 4, x - i, y);
      BeforeStep(PackedRow(buf[..], width, height, y, 0), x, k.x, radius, i, pr);
      BeforeStep(PackedRow(buf[..], width, height, y, 1), x, k.x, radius, i, pg);
      BeforeStep(PackedRow(buf[..], width, height, y, 2), x, k.x, radius, i, pb);
      BeforeStep(PackedRow(buf[..], width, height, y, 3), x, k.x, radius, i, pa);
      r', g', b', a' := r + Weigh(pr, f), g + Weigh(pg, f), b + Weigh(pb, f), a + Weigh(pa, f);
    }
  }

  /** Lines 127-139: the taps right of (x, y), weighed with X[radius+i], added
      to the sums, and the weight of the taps right of the image folded into k0. */
  method TapsRight(buf: array<real>, width: nat, height: nat, k: SeparableKernel, x: nat, y: nat,
                   k0: real, r: real, g: real, b: real, a: real)
    returns (k0': real, r': real, g': real, b': real, a': real)
    requires buf.Length == width * height * 4 && ValidKernel(k) && x < width && y < height
    ensures k0' == k0 + FoldAfter(width, x, k.x, Radius(k), Radius(k))
    ensures r' == r + TapsAfter(PackedRow(buf[..], width, height, y, 0), x, k.x, Radius(k), Radius(k))
    ensures g' == g + TapsAfter(PackedRow(buf[..], width, height, y, 1), x, k.x, Radius(k), Radius(k))
    ensures b' == b + TapsAfter(PackedRow(buf[..], width, height, y, 2), x, k.x, Radius(k), Radius(k))
    ensures a' == a + TapsAfter(PackedRow(buf[..], width, height, y, 3), x, k.x, Radius(k), Radius(k))
  {
    var radius := Radius(k);
    var off := y * width * 4 + x * 4;
    PackedOffset(width, x, y);
    k0', r', g', b', a' := k0, r, g, b, a;
    var i := 1;
    while i <= radius
      invariant 1 <= i <= radius + 1
      invariant k0' == k0 + FoldAfter(width, x, k.x, radius, i - 1)
      invariant r' == r + TapsAfter(PackedRow(buf[..], width, height, y, 0), x, k.x, radius, i - 1)
      invariant g' == g + TapsAfter(PackedRow(buf[..], width, height, y, 1), x, k.x, radius, i - 1)
      invariant b' == b + TapsAfter(PackedRow(buf[..], width, height, y, 2), x, k.x, radius, i - 1)
      invariant a' == a + TapsAfter(PackedRow(buf[..], width, height, y, 3), x, k.x, radius, i - 1)
    {
      k0', r', g', b', a' := TapRight(buf, width, height, k, x, y, off, i, k0, r, g, b, a, k0', r', g', b', a');
      i := i + 1;
    }
  }

  /** One turn of the loop of lines 127-139: the tap at distance i right of (x, y). */
  method TapRight(buf: array<real>, width: nat, height: nat, k: SeparableKernel, x: nat, y: nat, off: int, i: nat,
                  ghost k0: real, ghost r: real, ghost g: real, ghost b: real, ghost a: real, k1: real, r1: real, g1: real, b1: real, a1: real)
    returns (k0': real, r': real, g': real, b': real, a': real)
    requires buf.Length == width * height * 4 && ValidKernel(k) && x < width && y < height
    requires 1 <= i <= Radius(k) && off == Offset(4 * width, x, y, 0)
    requires k1 == k0 + FoldAfter(width, x, k.x, Radius(k), i - 1)
    requires r1 == r + TapsAfter(PackedRow(buf[..], width, height, y, 0), x, k.x, Radius(k), i - 1)
    requires g1 == g + TapsAfter(PackedRow(buf[..], width, height, y, 1), x, k.x, Radius(k), i - 1)
    requires b1 == b + TapsAfter(PackedRow(buf[..], width, height, y, 2), x, k.x, Radius(k), i - 1)
    requires a1 == a + TapsAfter(PackedRow(buf[..], width, height, y, 3), x, k.x, Radius(k), i - 1)
    ensures k0' == k0 + FoldAfter(width, x, k.x, Radius(k), i)
    ensures r' == r + TapsAfter(PackedRow(buf[..], width, height, y, 0), x, k.x, Radius(k), i)
    ensures g' == g + TapsAfter(PackedRow(buf[..], width, height, y, 1), x, k.x, Radius(k), i)
    ensures b' == b + TapsAfter(PackedRow(buf[..], width, height, y, 2), x, k.x, Radius(k), i)
    ensures a' == a + TapsAfter(PackedRow(buf[..], width, height, y, 3), x, k.x, Radius(k), i)
  {
    var radius := Radius(k);
    var f := k.x[radius + i];
    k0', r', g', b', a' := k1, r1, g1, b1, a1;
    if x + i >= width {
      AfterMissing(PackedRow(buf[..], width, height, y, 0), x, k.x, radius, i);
      AfterMissing(PackedRow(buf[..], width, height, y, 1), x, k.x, radius, i);
      AfterMissing(PackedRow(buf[..], width, height, y, 2), x, k.x, radius, i);
      AfterMissing(PackedRow(buf[..], width, height, y, 3), x, k.x, radius, i);
      k0' := k1 + f;
    } else {
      var pr, pg, pb, pa := ReadPacked(buf, width, height, off + i * 4, x + i, y);
      AfterStep(PackedRow(buf[..], width, height, y, 0), x, k.x, radius, i, pr);
      AfterStep(PackedRow(buf[..], width, height, y, 1), x, k.x, radius, i, pg);
      AfterStep(PackedRow(buf[..], width, height, y, 2), x, k.x, radius, i, pb);
      AfterStep(PackedRow(buf[..], width, height, y, 3), x, k.x, radius, i, pa);
      r', g', b', a' := r1 + Weigh(pr, f), g1 + Weigh(pg, f), b1 + Weigh(pb, f), a1 + Weigh(pa, f);
    }
  }

  /** Lines 110-145 for one pixel: the horizontal pass's four channel sums at (x, y). */
  method HorizontalTaps(buf: array<real>, width: nat, height: nat, k: SeparableKernel, x: nat, y: nat)
    returns (r: real, g: real, b: real, a: real)
    requires buf.Length == width * height * 4 && ValidKernel(k) && x < width && y < height
    ensures r == SepPass(PackedRow(buf[..], width, height, y, 0), x, k.x, Radius(k), k.x[Radius(k)])
    ensures g == SepPass(PackedRow(buf[..], width, height, y, 1), x, k.x, Radius(k), k.x[Radius(k)])
    ensures b == SepPass(PackedRow(buf[..], width, height, y, 2), x, k.x, Radius(k), k.x[Radius(k)])
    ensures a == SepPass(PackedRow(buf[..], width, height, y, 3), x, k.x, Radius(k), k.x[Radius(k)])
  {
    var k0;
    k0, r, g, b, a := TapsLeft(buf, width, height, k, x, y);
    k0, r, g, b, a := TapsRight(buf, width, height, k, x, y, k0, r, g, b, a);
    // The central pixel, with the folded-in weight.
    var off := y * width * 4 + x * 4;
    PackedOffset(width, x, y);
    var pr, pg, pb, pa := ReadPacked(buf, width, height, off, x, y);
    r, g, b, a := r + Weigh(pr, k0), g + Weigh(pg, k0), b + Weigh(pb, k0), a + Weigh(pa, k0);
  }

  /** Lines 57-103 for one pixel: the vertical pass's sums at (x, y), its
      centre weight starting at k0, stored in buf; no other value of buf row
      y and no value outside the pixel changes. */
  method VerticalPixel(src: Image, k: SeparableKernel, k0: real, buf: array<real>, x: nat, y: nat)
    requires src.Valid() && ValidKernel(k) && x < src.width && y < src.height
    requires buf.Length == src.width * src.height * 4
    modifies buf
    ensures forall c: nat :: c < 4 ==>
      PackedRow(buf[..], src.width, src.height, y, c)[x] == Vertical(src.Contents(), k, k0, x, y, c)
    ensures forall x': nat, c: nat :: x' < src.width && x' != x && c < 4 ==>
      PackedRow(buf[..], src.width, src.height, y, c)[x'] == PackedRow(old(buf[..]), src.width, src.height, y, c)[x']
    ensures KeptOutside(buf[..], old(buf[..]), Offset(4 * src.width, x, y, 0), Offset(4 * src.width, x, y, 4))
  {
    var r, g, b, a := VerticalTaps(src, k, k0, x, y);
    WritePacked(buf, src.width, src.height, x, y, r, g, b, a);
  }

  /** Lines 57-104 for one row: the vertical pass of row y into row y of buf;
      the rest of buf is untouched. */
  method VerticalPassRow(src: Image, k: SeparableKernel, k0: real, buf: array<real>, y: nat)
    requires src.Valid() && ValidKernel(k) && y < src.height && buf.Length == src.width * src.height * 4
    modifies buf
    ensures forall c: nat :: c < 4 ==>
      PackedRow(buf[..], src.width, src.height, y, c) == VerticalRow(src.Contents(), k, k0, y, c)
    ensures KeptOutside(buf[..], old(buf[..]), y * (4 * src.width), y * (4 * src.width) + 4 * src.width)
  {
    var width, height := src.width, src.height;
    ghost var s := src.Contents();
    PackedFits(width, height);
    var x := 0;
    while x < width
      invariant 0 <= x <= width
      invariant forall x': nat, c: nat :: x' < x && c < 4 ==>
        PackedRow(buf[..], width, height, y, c)[x'] == Vertical(s, k, k0, x', y, c)
      invariant KeptOutside(buf[..], old(buf[..]), y * (4 * width), y * (4 * width) + 4 * width)
    {
      VerticalPixel(src, k, k0, buf, x, y);
      x := x + 1;
    }
    forall c: nat | c < 4
      ensures PackedRow(buf[..], width, height, y, c) == VerticalRow(s, k, k0, y, c)
    {
    }
  }

  /** Lines 52-105: the vertical pass of the whole source into a fresh
      buffer; row y of the buffer is row y of the vertical pass. */
  method VerticalPass(src: Image, k: SeparableKernel, k0: real) returns (buf: array<real>)
    requires src.Valid() && ValidKernel(k)
    ensures fresh(buf) && buf.Length == src.width * src.height * 4
    ensures forall y: nat, c: nat :: y < src.height && c < 4 ==>
      PackedRow(buf[..], src.width, src.height, y, c) == VerticalRow(src.Contents(), k, k0, y, c)
  {
    var width, height := src.width, src.height;
    ghost var s := src.Contents();
    buf := new real[width * height * 4];
    var y := 0;
    while y < height
      invariant 0 <= y <= height
      invariant forall y': nat, c: nat :: y' < y && c < 4 ==>
        PackedRow(buf[..], width, height, y', c) == VerticalRow(s, k, k0, y', c)
    {
      ghost var rowStart := buf[..];
      VerticalPassRow(src, k, k0, buf, y);
      forall y': nat, c: nat | y' < y && c < 4
        ensures PackedRow(buf[..], width, height, y', c) == VerticalRow(s, k, k0, y', c)
      {
        PackedRowKept(buf[..], rowStart, width, height, y', y, c);
      }
      y := y + 1;
    }
  }

  /** The byte the horizontal pass writes for channel c of pixel (x, y). */
  function PassOut(buf: seq<real>, width: nat, height: nat, k: SeparableKernel, x: nat, y: nat, c: nat): Byte
    requires |buf| == width * height * 4 && ValidKernel(k) && x < width && y < height && c < 4
  {
    ToByte(SepPass(PackedRow(buf, width, height, y, c), x, k.x, Radius(k), k.x[Radius(k)]))
  }

  /** Lines 110-152 for one pixel: the horizontal pass's sums at (x, y),
      clamped, rounded and stored in dst; no other pixel of the row and no
      byte outside the pixel changes. */
  method HorizontalPixel(dst: Image, buf: array<real>, width: nat, height: nat, k: SeparableKernel, x: nat, y: nat)
    requires Fits(dst.pix.Length, dst.stride, width, height) && x < width && y < height
    requires buf.Length == width * height * 4 && ValidKernel(k)
    modifies dst.pix
    ensures forall c: nat :: c < 4 ==>
      View(dst, width, height).At(x, y, c) == PassOut(buf[..], width, height, k, x, y, c)
    ensures forall x': nat, c: nat :: x' < width && x' != x && c < 4 ==>
      View(dst, width, height).At(x', y, c) == old(View(dst, width, height)).At(x', y, c)
    ensures KeptOutside(dst.pix[..], old(dst.pix[..]), Offset(dst.stride, x, y, 0), Offset(dst.stride, x, y, 4))
  {
    var r, g, b, a := OutputBytes(buf, width, height, k, x, y);
    var dstOff := y * dst.stride + x * 4;
    WritePixelAt(dst, width, height, dstOff, x, y, r, g, b, a);
  }

  /** Lines 110-152 for one pixel: the four bytes the horizontal pass writes
      at (x, y). */
  method OutputBytes(buf: array<real>, width: nat, height: nat, k: SeparableKernel, x: nat, y: nat)
    returns (r: Byte, g: Byte, b: Byte, a: Byte)
    requires buf.Length == width * height * 4 && ValidKernel(k) && x < width && y < height
    ensures r == PassOut(buf[..], width, height, k, x, y, 0) && g == PassOut(buf[..], width, height, k, x, y, 1)
    ensures b == PassOut(buf[..], width, height, k, x, y, 2) && a == PassOut(buf[..], width, height, k, x, y, 3)
  {
    var sr, sg, sb, sa := HorizontalTaps(buf, width, height, k, x, y);
    r, g, b, a := ToByte(sr), ToByte(sg), ToByte(sb), ToByte(sa);
  }

  /** Lines 109-153 for one row: the horizontal pass of buffer row y into
      row y of dst; every other byte of dst is untouched. */
  method HorizontalPassRow(dst: Image, buf: array<real>, width: nat, height: nat, k: SeparableKernel, y: nat)
    requires Fits(dst.pix.Length, dst.stride, width, height) && y < height
    requires buf.Length == width * height * 4 && ValidKernel(k)
    modifies dst.pix
    ensures forall x: nat, c: nat :: x < width && c < 4 ==>
      View(dst, width, height).At(x, y, c) == PassOut(buf[..], width, height, k, x, y, c)
    ensures KeptOutside(dst.pix[..], old(dst.pix[..]), y * dst.stride, y * dst.stride + 4 * width)
  {
    var x := 0;
    while x < width
      invariant 0 <= x <= width
      invariant forall x': nat, c: nat :: x' < x && c < 4 ==>
        View(dst, width, height).At(x', y, c) == PassOut(buf[..], width, height, k, x', y, c)
      invariant KeptOutside(dst.pix[..], old(dst.pix[..]), y * dst.stride, y * dst.stride + 4 * width)
    {
      HorizontalPixel(dst, buf, width, height, k, x, y);
      x := x + 1;
    }
  }

  /** One turn of the loop of lines 108-154: with rows 0..y-1 of dst done and
      nothing else changed since `before`, row y is done too. */
  method HorizontalPassNext(dst: Image, buf: array<real>, width: nat, height: nat, k: SeparableKernel, y: nat,
                            ghost before: seq<Byte>)
    requires Fits(dst.pix.Length, dst.stride, width, height) && y < height
    requires buf.Length == width * height * 4 && ValidKernel(k)
    requires forall x': nat, y': nat, c: nat :: x' < width && y' < y && c < 4 ==>
      View(dst, width, height).At(x', y', c) == PassOut(buf[..], width, height, k, x', y', c)
    requires PaddingKept(dst.pix[..], before, dst.stride, width, y)
    requires KeptFrom(dst.pix[..], before, y * dst.stride)
    modifies dst.pix
    ensures forall x': nat, y': nat, c: nat :: x' < width && y' < y + 1 && c < 4 ==>
      View(dst, width, height).At(x', y', c) == PassOut(buf[..], width, height, k, x', y', c)
    ensures PaddingKept(dst.pix[..], before, dst.stride, width, y + 1)
    ensures KeptFrom(dst.pix[..], before, (y + 1) * dst.stride)
  {
    ghost var rowStart := dst.pix[..];
    HorizontalPassRow(dst, buf, width, height, k, y);
    forall x': nat, y': nat, c: nat | x' < width && y' < y && c < 4
      ensures View(dst, width, height).At(x', y', c) == PassOut(buf[..], width, height, k, x', y', c)
    {
      EarlierPixelKept(dst.pix[..], rowStart, dst.stride, width, height, x', y', c, y);
    }
    CloseRow(dst.pix[..], rowStart, before, dst.stride, width, y);
  }

  /** Lines 107-154: the horizontal pass from the buffer into dst, each sum
      clamped to [0, 255] and rounded to a byte. */
  method HorizontalPass(dst: Image, buf: array<real>, width: nat, height: nat, k: SeparableKernel)
    requires Fits(dst.pix.Length, dst.stride, width, height)
    requires buf.Length == width * height * 4 && ValidKernel(k)
    modifies dst.pix
    ensures forall x: nat, y: nat, c: nat :: x < width && y < height && c < 4 ==>
      View(dst, width, height).At(x, y, c) == PassOut(buf[..], width, height, k, x, y, c)
    ensures PaddingKept(dst.pix[..], old(dst.pix[..]), dst.stride, width, height)
    ensures KeptFrom(dst.pix[..], old(dst.pix[..]), height * dst.stride)
  {
    ghost var before := dst.pix[..];
    var y := 0;
    while y < height
      invariant 0 <= y <= height
      invariant forall x': nat, y': nat, c: nat :: x' < width && y' < y && c < 4 ==>
        View(dst, width, height).At(x', y', c) == PassOut(buf[..], width, height, k, x', y', c)
      invariant PaddingKept(dst.pix[..], before, dst.stride, width, y)
      invariant KeptFrom(dst.pix[..], before, y * dst.stride)
    {
      HorizontalPassNext(dst, buf, width, height, k, y, before);
      y := y + 1;
    }
  }

  /** Lines 50-154 for a valid kernel, the vertical pass's centre weight
      starting at k0: dst's rectangle receives the convolution of the same
      rectangle of src; nothing else in dst changes, and src changes only if
      it shares dst's bytes. */
  method SeparablePasses(dst: Image, src: Image, k: SeparableKernel, k0: real)
    requires dst.Valid() && Fits(src.pix.Length, src.stride, dst.width, dst.height) && ValidKernel(k)
    modifies dst.pix
    ensures forall x: nat, y: nat, c: nat :: x < dst.width && y < dst.height && c < 4 ==>
      View(dst, dst.width, dst.height).At(x, y, c) == ConvolveAt(old(View(src, dst.width, dst.height)), k, k0, x, y, c)
    ensures PaddingKept(dst.pix[..], old(dst.pix[..]), dst.stride, dst.width, dst.height)
    ensures KeptFrom(dst.pix[..], old(dst.pix[..]), dst.height * dst.stride)
    ensures src.pix != dst.pix ==> unchanged(src.pix)
  {
    var width, height := dst.width, dst.height;
    // The source is read through dst's bounds (lines 53-57).
    var window := Image(src.pix, src.stride, width, height);
    var buf := VerticalPass(window, k, k0);
    HorizontalPass(dst, buf, width, height, k);
  }

  /** convolveRGBASep as written: the kernel is validated first (a panic in
      the source, an error here), and the vertical pass's centre weight
      starts at X[radius] (line 62). */
  method ConvolveRGBASep(dst: Image, src: Image, k: SeparableKernel) returns (res: Outcome<ConvolveError>)
    requires dst.Valid() && Fits(src.pix.Length, src.stride, dst.width, dst.height)
    modifies dst.pix
    ensures res == CheckKernel(k)
    ensures !ValidKernel(k) ==> unchanged(dst.pix)
    ensures ValidKernel(k) ==> forall x: nat, y: nat, c: nat :: x < dst.width && y < dst.height && c < 4 ==>
      View(dst, dst.width, dst.height).At(x, y, c)
        == ConvolveAt(old(View(src, dst.width, dst.height)), k, WrittenCentre(k), x, y, c)
    ensures PaddingKept(dst.pix[..], old(dst.pix[..]), dst.stride, dst.width, dst.height)
    ensures KeptFrom(dst.pix[..], old(dst.pix[..]), dst.height * dst.stride)
    ensures src.pix != dst.pix ==> unchanged(src.pix)
  {
    res := CheckKernel(k);
    if res.Fail? {
      return;
    }
    SeparablePasses(dst, src, k, k.x[Radius(k)]);
  }

  /** convolveRGBASep with the vertical pass's centre weight starting at the
      kernel's own Y[radius]: the corrected line 62. */
  method ConvolveRGBASepIntended(dst: Image, src: Image, k: SeparableKernel) returns (res: Outcome<ConvolveError>)
    requires dst.Valid() && Fits(src.pix.Length, src.stride, dst.width, dst.height)
    modifies dst.pix
    ensures res == CheckKernel(k)
    ensures !ValidKernel(k) ==> unchanged(dst.pix)
    ensures ValidKernel(k) ==> forall x: nat, y: nat, c: nat :: x < dst.width && y < dst.height && c < 4 ==>
      View(dst, dst.width, dst.height).At(x, y, c)
        == ConvolveAt(old(View(src, dst.width, dst.height)), k, IntendedCentre(k), x, y, c)
    ensures PaddingKept(dst.pix[..], old(dst.pix[..]), dst.stride, dst.width, dst.height)
    ensures KeptFrom(dst.pix[..], old(dst.pix[..]), dst.height * dst.stride)
    ensures src.pix != dst.pix ==> unchanged(src.pix)
  {
    res := CheckKernel(k);
    if res.Fail? {
      return;
    }
    SeparablePasses(dst, src, k, k.y[Radius(k)]);
  }

  /** Lines 158-182: a separable kernel is convolved by convolveRGBASep as
      written (line 174); any other kind of kernel is refused (a panic in
      the source) and dst is left as it was. */
  method Convolve(dst: Image, src: Image, k: Kernel) returns (res: Outcome<ConvolveError>)
    requires dst.Valid() && Fits(src.pix.Length, src.stride, dst.width, dst.height)
    modifies dst.pix
    ensures k.Dense? ==> res == Fail(Unimplemented) && unchanged(dst.pix)
    ensures k.Separable? ==> res == CheckKernel(k.sep)
    ensures res.Fail? ==> unchanged(dst.pix)
    ensures k.Separable? && ValidKernel(k.sep) ==>
      forall x: nat, y: nat, c: nat :: x < dst.width && y < dst.height && c < 4 ==>
        View(dst, dst.width, dst.height).At(x, y, c)
          == ConvolveAt(old(View(src, dst.width, dst.height)), k.sep, WrittenCentre(k.sep), x, y, c)
    ensures PaddingKept(dst.pix[..], old(dst.pix[..]), dst.stride, dst.width, dst.height)
    ensures KeptFrom(dst.pix[..], old(dst.pix[..]), dst.height * dst.stride)
    ensures src.pix != dst.pix ==> unchanged(src.pix)
  {
    match k {
      case Separable(sep) =>
        res := ConvolveRGBASep(dst, src, sep);
      case Dense(_) =>
        res := Fail(Unimplemented);
    }
  }

  /** Convolve with the corrected vertical centre weight Y[radius]. */
  method ConvolveIntended(dst: Image, src: Image, k: Kernel) returns (res: Outcome<ConvolveError>)
    requires dst.Valid() && Fits(src.pix.Length, src.stride, dst.width, dst.height)
    modifies dst.pix
    ensures k.Dense? ==> res == Fail(Unimplemented) && unchanged(dst.pix)
    ensures k.Separable? ==> res == CheckKernel(k.sep)
    ensures res.Fail? ==> unchanged(dst.pix)
    ensures k.Separable? && ValidKernel(k.sep) ==>
      forall x: nat, y: nat, c: nat :: x < dst.width && y < dst.height && c < 4 ==>
        View(dst, dst.width, dst.height).At(x, y, c)
          == ConvolveAt(old(View(src, dst.width, dst.height)), k.sep, IntendedCentre(k.sep), x, y, c)
    ensures PaddingKept(dst.pix[..], old(dst.pix[..]), dst.stride, dst.width, dst.height)
    ensures KeptFrom(dst.pix[..], old(dst.pix[..]), dst.height * dst.stride)
    ensures src.pix != dst.pix ==> unchanged(src.pix)
  {
    match k {
      case Separable(sep) =>
        res := ConvolveRGBASepIntended(dst, src, sep);
      case Dense(_) =>
        res := Fail(Unimplemented);
    }
  }
}
