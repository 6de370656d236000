/** The one-colour blur vectors of graphics/blur_test.go:84-167 for the
    σ = 0.34, size = 1 kernel: images whose red channel is given and whose
    other channels are 0, blurred with the two-weight kernel. */
module BlurVectors {
  import opened Pixels
  import opened Blur

  /** The kernel blurRGBA builds for σ = 0.34 and size 1: 65536·e^(−(i/σ)²/2)
      truncated, for i = 0 and 1. */
  const Kernel034: seq<nat> := [65536, 867]

  /** The red channel of img, row by row, is rows; its other channels are
      not constrained. */
  predicate ShowsRed(img: Raster, rows: seq<seq<Byte>>)
  {
    img.Valid() && img.height == |rows|
    && (forall y :: 0 <= y < |rows| ==> |rows[y]| == img.width)
    && forall x: nat, y: nat :: x < img.width && y < img.height ==> img.At(x, y, 0) == rows[y][x]
  }

  /** One pass of a two-weight kernel [a, b] at a position holding cur,
      between prev and next: each neighbour weighs b, and the b of a
      neighbour that is missing (first, last) is added to the centre's a. */
  function TwoTap(prev: nat, cur: nat, next: nat, first: bool, last: bool, a: nat, b: nat): nat
  {
    (if first then cur * b else prev * b) + cur * a + (if last then cur * b else next * b)
  }

  lemma TwoTapPass(line: seq<nat>, p: nat, a: nat, b: nat)
    requires p < |line|
    ensures Pass(line, p, [a, b])
      == TwoTap(if p >= 1 then line[p - 1] else 0, line[p], if p + 1 < |line| then line[p + 1] else 0,
                p < 1, p + 1 >= |line|, a, b)
  {
    var k := [a, b];
    assert Before(line, p, k, 1) == if p < 1 then 0 else line[p - 1] * b;
    assert After(line, p, k, 1) == if p + 1 >= |line| then 0 else line[p + 1] * b;
    assert MissingBefore(p, k, 0) == 0 && MissingAfter(|line|, p, k, 0) == 0;
    assert CentreWeight(|line|, p, k) == a + (if p < 1 then b else 0) + (if p + 1 >= |line| then b else 0);
  }

  /** The vertical pass's value at red pixel (x, y) under Kernel034. */
  function RedVertical(rows: seq<seq<Byte>>, x: nat, y: nat): nat
    requires y < |rows| && forall j :: 0 <= j < |rows| ==> x < |rows[j]|
  {
    TwoTap(if y >= 1 then rows[y - 1][x] else 0, rows[y][x], if y + 1 < |rows| then rows[y + 1][x] else 0,
           y < 1, y + 1 >= |rows|, 65536, 867)
  }

  /** The horizontal pass's accumulator at red pixel (x, y) of a w-wide image. */
  function RedHorizontal(rows: seq<seq<Byte>>, w: nat, x: nat, y: nat): nat
    requires y < |rows| && x < w && forall j :: 0 <= j < |rows| ==> |rows[j]| == w
  {
    TwoTap(if x >= 1 then RedVertical(rows, x - 1, y) else 0, RedVertical(rows, x, y),
           if x + 1 < w then RedVertical(rows, x + 1, y) else 0, x < 1, x + 1 >= w, 65536, 867)
  }

  /** The vertical pass over the red channel under Kernel034. */
  lemma RedColumn(img: Raster, rows: seq<seq<Byte>>, x: nat, y: nat)
    requires ShowsRed(img, rows) && x < img.width && y < img.height
    ensures Vertical(img, Kernel034, x, y, 0) == RedVertical(rows, x, y)
  {
    var col := Column(img, x, 0);
    TwoTapPass(col, y, 65536, 867);
    assert col[y] == rows[y][x];
    if y >= 1 {
      assert col[y - 1] == rows[y - 1][x];
    }
    if y + 1 < img.height {
      assert col[y + 1] == rows[y + 1][x];
    }
  }

  /** The horizontal pass over the red channel under Kernel034. */
  lemma RedRow(img: Raster, rows: seq<seq<Byte>>, x: nat, y: nat)
    requires ShowsRed(img, rows) && x < img.width && y < img.height
    ensures Horizontal(img, Kernel034, x, y, 0) == RedHorizontal(rows, img.width, x, y)
  {
    var row := VerticalRow(img, Kernel034, y, 0);
    TwoTapPass(row, x, 65536, 867);
    RedColumn(img, rows, x, y);
    if x >= 1 {
      RedColumn(img, rows, x - 1, y);
    }
    if x + 1 < img.width {
      RedColumn(img, rows, x + 1, y);
    }
  }

  /** Blurring with Kernel034: the red channel of every pixel is the explicit
      two-tap sum of its 3 × 3 neighbourhood, rounded by kSum = 67270². */
  lemma RedBlur(img: Raster, rows: seq<seq<Byte>>, x: nat, y: nat)
    requires ShowsRed(img, rows) && x < img.width && y < img.height
    ensures BlurAt(img, Kernel034, x, y, 0) == (RedHorizontal(rows, img.width, x, y) + 2262626450) / 4525252900
  {
    RedRow(img, rows, x, y);
    assert Sum1D(Kernel034) == 67270;
  }

  // ---------------------------------------------------------------------
  // The vectors

  /** "3x3-dot" (graphics/blur_test.go:84-97): the red channel before and after blurring. */
  const Dot3: seq<seq<Byte>> :=
    [[0x00, 0x00, 0x00],
     [0x00, 0xff, 0x00],
     [0x00, 0x00, 0x00]]
  const Dot3Blurred: seq<seq<Byte>> :=
    [[0x00, 0x03, 0x00],
     [0x03, 0xf2, 0x03],
     [0x00, 0x03, 0x00]]

  /** The vertical pass's buffer, red channel. */
  lemma Dot3Vertical()
    ensures RedVertical(Dot3, 0, 0) == 0 && RedVertical(Dot3, 1, 0) == 221085 && RedVertical(Dot3, 2, 0) == 0
    ensures RedVertical(Dot3, 0, 1) == 0 && RedVertical(Dot3, 1, 1) == 16711680 && RedVertical(Dot3, 2, 1) == 0
    ensures RedVertical(Dot3, 0, 2) == 0 && RedVertical(Dot3, 1, 2) == 221085 && RedVertical(Dot3, 2, 2) == 0
  {
  }

  /** The horizontal pass's accumulators, red channel. */
  lemma Dot3Horizontal()
    ensures RedHorizontal(Dot3, 3, 0, 0) == 191680695 && RedHorizontal(Dot3, 3, 1, 0) == 14489026560 && RedHorizontal(Dot3, 3, 2, 0) == 191680695
    ensures RedHorizontal(Dot3, 3, 0, 1) == 14489026560 && RedHorizontal(Dot3, 3, 1, 1) == 1095216660480 && RedHorizontal(Dot3, 3, 2, 1) == 14489026560
    ensures RedHorizontal(Dot3, 3, 0, 2) == 191680695 && RedHorizontal(Dot3, 3, 1, 2) == 14489026560 && RedHorizontal(Dot3, 3, 2, 2) == 191680695
  {
    Dot3Vertical();
  }

  /** The accumulators divided by kSum and rounded, pixel by pixel. */
  lemma Dot3Rounded(x: nat, y: nat)
    requires x < 3 && y < 3
    ensures (RedHorizontal(Dot3, 3, x, y) + 2262626450) / 4525252900 == Dot3Blurred[y][x]
  {
    Dot3Horizontal();
    if y == 0 {
      if x == 0 { } else if x == 1 { } else { }
    } else if y == 1 {
      if x == 0 { } else if x == 1 { } else { }
    } else {
      if x == 0 { } else if x == 1 { } else { }
    }
  }

  /** The red channel after blurring is the one the test expects. */
  lemma Dot3Vector(img: Raster)
    requires ShowsRed(img, Dot3)
    ensures img.width == 3 && img.height == 3
    ensures forall x: nat, y: nat :: x < img.width && y < img.height ==> BlurAt(img, Kernel034, x, y, 0) == Dot3Blurred[y][x]
  {
    assert img.width == |Dot3[0]| == 3;
    forall x: nat, y: nat | x < img.width && y < img.height
      ensures BlurAt(img, Kernel034, x, y, 0) == Dot3Blurred[y][x]
    {
      RedBlur(img, Dot3, x, y);
      Dot3Rounded(x, y);
    }
  }

  /** "5x5-dot" (graphics/blur_test.go:98-116): the red channel before and after blurring. */
  const Dot5: seq<seq<Byte>> :=
    [[0x00, 0x00, 0x00, 0x00, 0x00],
     [0x00, 0x00, 0x00, 0x00, 0x00],
     [0x00, 0x00, 0xff, 0x00, 0x00],
     [0x00, 0x00, 0x00, 0x00, 0x00],
     [0x00, 0x00, 0x00, 0x00, 0x00]]
  const Dot5Blurred: seq<seq<Byte>> :=
    [[0x00, 0x00, 0x00, 0x00, 0x00],
     [0x00, 0x00, 0x03, 0x00, 0x00],
     [0x00, 0x03, 0xf2, 0x03, 0x00],
     [0x00, 0x00, 0x03, 0x00, 0x00],
     [0x00, 0x00, 0x00, 0x00, 0x00]]

  /** The vertical pass's buffer, red channel. */
  lemma Dot5Vertical()
    ensures RedVertical(Dot5, 0, 0) == 0 && RedVertical(Dot5, 1, 0) == 0 && RedVertical(Dot5, 2, 0) == 0 && RedVertical(Dot5, 3, 0) == 0 && RedVertical(Dot5, 4, 0) == 0
    ensures RedVertical(Dot5, 0, 1) == 0 && RedVertical(Dot5, 1, 1) == 0 && RedVertical(Dot5, 2, 1) == 221085 && RedVertical(Dot5, 3, 1) == 0 && RedVertical(Dot5, 4, 1) == 0
    ensures RedVertical(Dot5, 0, 2) == 0 && RedVertical(Dot5, 1, 2) == 0 && RedVertical(Dot5, 2, 2) == 16711680 && RedVertical(Dot5, 3, 2) == 0 && RedVertical(Dot5, 4, 2) == 0
    ensures RedVertical(Dot5, 0, 3) == 0 && RedVertical(Dot5, 1, 3) == 0 && RedVertical(Dot5, 2, 3) == 221085 && RedVertical(Dot5, 3, 3) == 0 && RedVertical(Dot5, 4, 3) == 0
    ensures RedVertical(Dot5, 0, 4) == 0 && RedVertical(Dot5, 1, 4) == 0 && RedVertical(Dot5, 2, 4) == 0 && RedVertical(Dot5, 3, 4) == 0 && RedVertical(Dot5, 4, 4) == 0
  {
  }

  /** The horizontal pass's accumulators, red channel. */
  lemma Dot5Horizontal()
    ensures RedHorizontal(Dot5, 5, 0, 0) == 0 && RedHorizontal(Dot5, 5, 1, 0) == 0 && RedHorizontal(Dot5, 5, 2, 0) == 0 && RedHorizontal(Dot5, 5, 3, 0) == 0 && RedHorizontal(Dot5, 5, 4, 0) == 0
    ensures RedHorizontal(Dot5, 5, 0, 1) == 0 && RedHorizontal(Dot5, 5, 1, 1) == 191680695 && RedHorizontal(Dot5, 5, 2, 1) == 14489026560 && RedHorizontal(Dot5, 5, 3, 1) == 191680695 && RedHorizontal(Dot5, 5, 4, 1) == 0
    ensures RedHorizontal(Dot5, 5, 0, 2) == 0 && RedHorizontal(Dot5, 5, 1, 2) == 14489026560 && RedHorizontal(Dot5, 5, 2, 2) == 1095216660480 && RedHorizontal(Dot5, 5, 3, 2) == 14489026560 && RedHorizontal(Dot5, 5, 4, 2) == 0
    ensures RedHorizontal(Dot5, 5, 0, 3) == 0 && RedHorizontal(Dot5, 5, 1, 3) == 191680695 && RedHorizontal(Dot5, 5, 2, 3) == 14489026560 && RedHorizontal(Dot5, 5, 3, 3) == 191680695 && RedHorizontal(Dot5, 5, 4, 3) == 0
    ensures RedHorizontal(Dot5, 5, 0, 4) == 0 && RedHorizontal(Dot5, 5, 1, 4) == 0 && RedHorizontal(Dot5, 5, 2, 4) == 0 && RedHorizontal(Dot5, 5, 3, 4) == 0 && RedHorizontal(Dot5, 5, 4, 4) == 0
  {
    Dot5Vertical();
  }

  /** The accumulators divided by kSum and rounded, pixel by pixel. */
  lemma Dot5Rounded(x: nat, y: nat)
    requires x < 5 && y < 5
    ensures (RedHorizontal(Dot5, 5, x, y) + 2262626450) / 4525252900 == Dot5Blurred[y][x]
  {
    Dot5Horizontal();
    if y == 0 {
      if x == 0 { } else if x == 1 { } else if x == 2 { } else if x == 3 { } else { }
    } else if y == 1 {
      if x == 0 { } else if x == 1 { } else if x == 2 { } else if x == 3 { } else { }
    } else if y == 2 {
      if x == 0 { } else if x == 1 { } else if x == 2 { } else if x == 3 { } else { }
    } else if y == 3 {
      if x == 0 { } else if x == 1 { } else if x == 2 { } else if x == 3 { } else { }
    } else {
      if x == 0 { } else if x == 1 { } else if x == 2 { } else if x == 3 { } else { }
    }
  }

  /** The red channel after blurring is the one the test expects. */
  lemma Dot5Vector(img: Raster)
    requires ShowsRed(img, Dot5)
    ensures img.width == 5 && img.height == 5
    ensures forall x: nat, y: nat :: x < img.width && y < img.height ==> BlurAt(img, Kernel034, x, y, 0) == Dot5Blurred[y][x]
  {
    assert img.width == |Dot5[0]| == 5;
    forall x: nat, y: nat | x < img.width && y < img.height
      ensures BlurAt(img, Kernel034, x, y, 0) == Dot5Blurred[y][x]
    {
      RedBlur(img, Dot5, x, y);
      Dot5Rounded(x, y);
    }
  }

  /** "4x4-box" (graphics/blur_test.go:134-149): the red channel before and after blurring. */
  const Box4: seq<seq<Byte>> :=
    [[0x00, 0x00, 0x00, 0x00],
     [0x00, 0xff, 0xff, 0x00],
     [0x00, 0xff, 0xff, 0x00],
     [0x00, 0x00, 0x00, 0x00]]
  const Box4Blurred: seq<seq<Byte>> :=
    [[0x00, 0x03, 0x03, 0x00],
     [0x03, 0xf8, 0xf8, 0x03],
     [0x03, 0xf8, 0xf8, 0x03],
     [0x00, 0x03, 0x03, 0x00]]

  /** The vertical pass's buffer, red channel. */
  lemma Box4Vertical()
    ensures RedVertical(Box4, 0, 0) == 0 && RedVertical(Box4, 1, 0) == 221085 && RedVertical(Box4, 2, 0) == 221085 && RedVertical(Box4, 3, 0) == 0
    ensures RedVertical(Box4, 0, 1) == 0 && RedVertical(Box4, 1, 1) == 16932765 && RedVertical(Box4, 2, 1) == 16932765 && RedVertical(Box4, 3, 1) == 0
    ensures RedVertical(Box4, 0, 2) == 0 && RedVertical(Box4, 1, 2) == 16932765 && RedVertical(Box4, 2, 2) == 16932765 && RedVertical(Box4, 3, 2) == 0
    ensures RedVertical(Box4, 0, 3) == 0 && RedVertical(Box4, 1, 3) == 221085 && RedVertical(Box4, 2, 3) == 221085 && RedVertical(Box4, 3, 3) == 0
  {
  }

  /** The horizontal pass's accumulators, red channel. */
  lemma Box4Horizontal()
    ensures RedHorizontal(Box4, 4, 0, 0) == 191680695 && RedHorizontal(Box4, 4, 1, 0) == 14680707255 && RedHorizontal(Box4, 4, 2, 0) == 14680707255 && RedHorizontal(Box4, 4, 3, 0) == 191680695
    ensures RedHorizontal(Box4, 4, 0, 1) == 14680707255 && RedHorizontal(Box4, 4, 1, 1) == 1124386394295 && RedHorizontal(Box4, 4, 2, 1) == 1124386394295 && RedHorizontal(Box4, 4, 3, 1) == 14680707255
    ensures RedHorizontal(Box4, 4, 0, 2) == 14680707255 && RedHorizontal(Box4, 4, 1, 2) == 1124386394295 && RedHorizontal(Box4, 4, 2, 2) == 1124386394295 && RedHorizontal(Box4, 4, 3, 2) == 14680707255
    ensures RedHorizontal(Box4, 4, 0, 3) == 191680695 && RedHorizontal(Box4, 4, 1, 3) == 14680707255 && RedHorizontal(Box4, 4, 2, 3) == 14680707255 && RedHorizontal(Box4, 4, 3, 3) == 191680695
  {
    Box4Vertical();
  }

  /** The accumulators divided by kSum and rounded, pixel by pixel. */
  lemma Box4Rounded(x: nat, y: nat)
    requires x < 4 && y < 4
    ensures (RedHorizontal(Box4, 4, x, y) + 2262626450) / 4525252900 == Box4Blurred[y][x]
  {
    Box4Horizontal();
    if y == 0 {
      if x == 0 { } else if x == 1 { } else if x == 2 { } else { }
    } else if y == 1 {
      if x == 0 { } else if x == 1 { } else if x == 2 { } else { }
    } else if y == 2 {
      if x == 0 { } else if x == 1 { } else if x == 2 { } else { }
    } else {
      if x == 0 { } else if x == 1 { } else if x == 2 { } else { }
    }
  }

  /** The red channel after blurring is the one the test expects. */
  lemma Box4Vector(img: Raster)
    requires ShowsRed(img, Box4)
    ensures img.width == 4 && img.height == 4
    ensures forall x: nat, y: nat :: x < img.width && y < img.height ==> BlurAt(img, Kernel034, x, y, 0) == Box4Blurred[y][x]
  {
    assert img.width == |Box4[0]| == 4;
    forall x: nat, y: nat | x < img.width && y < img.height
      ensures BlurAt(img, Kernel034, x, y, 0) == Box4Blurred[y][x]
    {
      RedBlur(img, Box4, x, y);
      Box4Rounded(x, y);
    }
  }

  /** "5x5-twodots" (graphics/blur_test.go:150-167): the red channel before and after blurring. */
  const TwoDots5: seq<seq<Byte>> :=
    [[0x00, 0x00, 0x00, 0x00, 0x00],
     [0x00, 0x00, 0x00, 0x00, 0x00],
     [0x00, 0x96, 0x00, 0x96, 0x00],
     [0x00, 0x00, 0x00, 0x00, 0x00],
     [0x00, 0x00, 0x00, 0x00, 0x00]]
  const TwoDots5Blurred: seq<seq<Byte>> :=
    [[0x00, 0x00, 0x00, 0x00, 0x00],
     [0x00, 0x02, 0x00, 0x02, 0x00],
     [0x02, 0x8e, 0x04, 0x8e, 0x02],
     [0x00, 0x02, 0x00, 0x02, 0x00],
     [0x00, 0x00, 0x00, 0x00, 0x00]]

  /** The vertical pass's buffer, red channel. */
  lemma TwoDots5Vertical()
    ensures RedVertical(TwoDots5, 0, 0) == 0 && RedVertical(TwoDots5, 1, 0) == 0 && RedVertical(TwoDots5, 2, 0) == 0 && RedVertical(TwoDots5, 3, 0) == 0 && RedVertical(TwoDots5, 4, 0) == 0
    ensures RedVertical(TwoDots5, 0, 1) == 0 && RedVertical(TwoDots5, 1, 1) == 130050 && RedVertical(TwoDots5, 2, 1) == 0 && RedVertical(TwoDots5, 3, 1) == 130050 && RedVertical(TwoDots5, 4, 1) == 0
    ensures RedVertical(TwoDots5, 0, 2) == 0 && RedVertical(TwoDots5, 1, 2) == 9830400 && RedVertical(TwoDots5, 2, 2) == 0 && RedVertical(TwoDots5, 3, 2) == 9830400 && RedVertical(TwoDots5, 4, 2) == 0
    ensures RedVertical(TwoDots5, 0, 3) == 0 && RedVertical(TwoDots5, 1, 3) == 130050 && RedVertical(TwoDots5, 2, 3) == 0 && RedVertical(TwoDots5, 3, 3) == 130050 && RedVertical(TwoDots5, 4, 3) == 0
    ensures RedVertical(TwoDots5, 0, 4) == 0 && RedVertical(TwoDots5, 1, 4) == 0 && RedVertical(TwoDots5, 2, 4) == 0 && RedVertical(TwoDots5, 3, 4) == 0 && RedVertical(TwoDots5, 4, 4) == 0
  {
  }

  /** The horizontal pass's accumulators, red channel. */
  lemma TwoDots5Horizontal()
    ensures RedHorizontal(TwoDots5, 5, 0, 0) == 0 && RedHorizontal(TwoDots5, 5, 1, 0) == 0 && RedHorizontal(TwoDots5, 5, 2, 0) == 0 && RedHorizontal(TwoDots5, 5, 3, 0) == 0 && RedHorizontal(TwoDots5, 5, 4, 0) == 0
    ensures RedHorizontal(TwoDots5, 5, 0, 1) == 112753350 && RedHorizontal(TwoDots5, 5, 1, 1) == 8522956800 && RedHorizontal(TwoDots5, 5, 2, 1) == 225506700 && RedHorizontal(TwoDots5, 5, 3, 1) == 8522956800 && RedHorizontal(TwoDots5, 5, 4, 1) == 112753350
    ensures RedHorizontal(TwoDots5, 5, 0, 2) == 8522956800 && RedHorizontal(TwoDots5, 5, 1, 2) == 644245094400 && RedHorizontal(TwoDots5, 5, 2, 2) == 17045913600 && RedHorizontal(TwoDots5, 5, 3, 2) == 644245094400 && RedHorizontal(TwoDots5, 5, 4, 2) == 8522956800
    ensures RedHorizontal(TwoDots5, 5, 0, 3) == 112753350 && RedHorizontal(TwoDots5, 5, 1, 3) == 8522956800 && RedHorizontal(TwoDots5, 5, 2, 3) == 225506700 && RedHorizontal(TwoDots5, 5, 3, 3) == 8522956800 && RedHorizontal(TwoDots5, 5, 4, 3) == 112753350
    ensures RedHorizontal(TwoDots5, 5, 0, 4) == 0 && RedHorizontal(TwoDots5, 5, 1, 4) == 0 && RedHorizontal(TwoDots5, 5, 2, 4) == 0 && RedHorizontal(TwoDots5, 5, 3, 4) == 0 && RedHorizontal(TwoDots5, 5, 4, 4) == 0
  {
    TwoDots5Vertical();
  }

  /** The accumulators divided by kSum and rounded, pixel by pixel. */
  lemma TwoDots5Rounded(x: nat, y: nat)
    requires x < 5 && y < 5
    ensures (RedHorizontal(TwoDots5, 5, x, y) + 2262626450) / 4525252900 == TwoDots5Blurred[y][x]
  {
    TwoDots5Horizontal();
    if y == 0 {
      if x == 0 { } else if x == 1 { } else if x == 2 { } else if x == 3 { } else { }
    } else if y == 1 {
      if x == 0 { } else if x == 1 { } else if x == 2 { } else if x == 3 { } else { }
    } else if y == 2 {
      if x == 0 { } else if x == 1 { } else if x == 2 { } else if x == 3 { } else { }
    } else if y == 3 {
      if x == 0 { } else if x == 1 { } else if x == 2 { } else if x == 3 { } else { }
    } else {
      if x == 0 { } else if x == 1 { } else if x == 2 { } else if x == 3 { } else { }
    }
  }

  /** The red channel after blurring is the one the test expects. */
  lemma TwoDots5Vector(img: Raster)
    requires ShowsRed(img, TwoDots5)
    ensures img.width == 5 && img.height == 5
    ensures forall x: nat, y: nat :: x < img.width && y < img.height ==> BlurAt(img, Kernel034, x, y, 0) == TwoDots5Blurred[y][x]
  {
    assert img.width == |TwoDots5[0]| == 5;
    forall x: nat, y: nat | x < img.width && y < img.height
      ensures BlurAt(img, Kernel034, x, y, 0) == TwoDots5Blurred[y][x]
    {
      RedBlur(img, TwoDots5, x, y);
      TwoDots5Rounded(x, y);
    }
  }
}
