/** Gaussian blur in fixed-point integer arithmetic (graphics/blur.go).

    The half kernel `kernel[0..size]` is an input: `kernel[0]` is the centre
    weight and `kernel[i]` the weight of the two taps at distance i. The blur is
    a vertical pass from the source into an integer buffer followed by a
    horizontal pass from the buffer into the destination. A tap that falls
    outside the image adds its weight to the centre weight instead of being
    dropped, so every pixel is a weighted sum of total weight S (the 1-D kernel
    sum) per pass, and the result is divided by kSum = S·S with rounding. */
module Blur {
  import opened Pixels
  import opened Wrappers

  // ---------------------------------------------------------------------
  // Kernel sums

  /** kernel[1] + … + kernel[n]. */
  function TailSum(kernel: seq<nat>, n: nat): nat
    requires n < |kernel|
  {
    if n == 0 then 0 else TailSum(kernel, n - 1) + kernel[n]
  }

  /** The 1-D kernel sum S: the centre weight once, every other weight twice
      (once on each side of the centre). */
  function Sum1D(kernel: seq<nat>): nat
    requires |kernel| >= 1
  {
    kernel[0] + 2 * TailSum(kernel, |kernel| - 1)
  }

  /** The divisor of the final rounding: S·S. */
  function Divisor(kernel: seq<nat>): nat
    requires |kernel| >= 1
  {
    Sum1D(kernel) * Sum1D(kernel)
  }

  /** The sum of a sequence of weights. */
  function Sum(s: seq<nat>): nat
  {
    if s == [] then 0 else Sum(s[..|s| - 1]) + s[|s| - 1]
  }

  /** The full 1-D kernel of length 2·size+1 that the half kernel stands for:
      position j has weight kernel[|j − size|]. */
  function FullKernel(kernel: seq<nat>): (f: seq<nat>)
    requires |kernel| >= 1
    ensures |f| == 2 * |kernel| - 1
  {
    seq(2 * |kernel| - 1, j requires 0 <= j < 2 * |kernel| - 1 =>
      if j < |kernel| then kernel[|kernel| - 1 - j] else kernel[j - |kernel| + 1])
  }

  /** Σ over all cells of the outer product of a and b: Σ_i Σ_j a[i]·b[j]. */
  function OuterSum(a: seq<nat>, b: seq<nat>): nat
  {
    if a == [] then 0 else OuterSum(a[..|a| - 1], b) + Scaled(a[|a| - 1], b)
  }

  /** Σ_j w·b[j]. */
  function Scaled(w: nat, b: seq<nat>): nat
  {
    if b == [] then 0 else Scaled(w, b[..|b| - 1]) + w * b[|b| - 1]
  }

  lemma {:induction false} ScaledIsProduct(w: nat, b: seq<nat>)
    ensures Scaled(w, b) == w * Sum(b)
  {
    if b != [] {
      ScaledIsProduct(w, b[..|b| - 1]);
    }
  }

  lemma {:induction false} OuterSumIsProduct(a: seq<nat>, b: seq<nat>)
    ensures OuterSum(a, b) == Sum(a) * Sum(b)
  {
    if a != [] {
      var init, last := a[..|a| - 1], a[|a| - 1];
      OuterSumIsProduct(init, b);
      ScaledIsProduct(last, b);
      Distrib(Sum(init), last, Sum(b));
    }
  }

  lemma Distrib(x: nat, y: nat, z: nat)
    ensures (x + y) * z == x * z + y * z
  {
  }

  lemma Distrib3(v: nat, a: nat, b: nat, c: nat)
    ensures v * a + v * b + v * c == v * (a + b + c)
  {
  }

  lemma {:induction false} SumConcat(s: seq<nat>, t: seq<nat>)
    ensures Sum(s + t) == Sum(s) + Sum(t)
  {
    if t != [] {
      SumConcat(s, t[..|t| - 1]);
      assert (s + t)[..|s + t| - 1] == s + t[..|t| - 1];
    } else {
      assert s + t == s;
    }
  }

  lemma SumSingle(v: nat)
    ensures Sum([v]) == v
  {
    assert [v][..0] == [];
  }

  /** The sum of a slice of length at least two is its two end values plus
      the sum of what lies between them. */
  lemma SumEnds(f: seq<nat>, lo: nat, hi: nat)
    requires lo + 2 <= hi <= |f|
    ensures Sum(f[lo .. hi]) == f[lo] + Sum(f[lo + 1 .. hi - 1]) + f[hi - 1]
  {
    var inner := f[lo + 1 .. hi - 1];
    assert f[lo .. hi] == [f[lo]] + inner + [f[hi - 1]];
    SumConcat([f[lo]] + inner, [f[hi - 1]]);
    SumConcat([f[lo]], inner);
    SumSingle(f[lo]);
    SumSingle(f[hi - 1]);
  }

  /** Sum of the full kernel read from position size − n to size + n. */
  lemma {:induction false} FullKernelWindow(kernel: seq<nat>, n: nat)
    requires n < |kernel|
    ensures Sum(FullKernel(kernel)[|kernel| - 1 - n .. |kernel| + n]) == kernel[0] + 2 * TailSum(kernel, n)
  {
    var f := FullKernel(kernel);
    var lo, hi := |kernel| - 1 - n, |kernel| + n;
    if n > 0 {
      FullKernelWindow(kernel, n - 1);
      assert lo + 1 == |kernel| - 1 - (n - 1) && hi - 1 == |kernel| + (n - 1);
      SumEnds(f, lo, hi);
      assert f[lo] == kernel[n] && f[hi - 1] == kernel[n];
    } else {
      assert f[lo .. hi] == [kernel[0]];
      SumSingle(kernel[0]);
    }
  }

  /** The source's comment on its kernel sum: the 2-D kernel is the outer
      product of the full 1-D kernel with itself, and its sum is S·S. */
  lemma KernelSumIs2DSum(kernel: seq<nat>)
    requires |kernel| >= 1
    ensures Sum(FullKernel(kernel)) == Sum1D(kernel)
    ensures OuterSum(FullKernel(kernel), FullKernel(kernel)) == Divisor(kernel)
  {
    var f := FullKernel(kernel);
    var size := |kernel| - 1;
    FullKernelWindow(kernel, size);
    assert f[size - size .. size + 1 + size] == f;
    var s := Sum(f);
    assert s == Sum1D(kernel);
    OuterSumIsProduct(f, f);
    assert OuterSum(f, f) == s * s;
  }

  /** Lines 21-26: kSum, the sum of the 2-D kernel. */
  method KernelSum(kernel: seq<nat>) returns (kSum: nat)
    requires |kernel| >= 1
    ensures kSum == Divisor(kernel)
    ensures kSum == OuterSum(FullKernel(kernel), FullKernel(kernel))
  {
    var size := |kernel| - 1;
    kSum := 0;
    var i := 1;
    while i <= size
      invariant 1 <= i <= size + 1
      invariant kSum == TailSum(kernel, i - 1)
    {
      kSum := kSum + kernel[i];
      i := i + 1;
    }
    kSum := 2 * kSum + kernel[0];
    kSum := kSum * kSum;
    KernelSumIs2DSum(kernel);
  }

  // ---------------------------------------------------------------------
  // One pass along a line of samples (a column in the vertical pass, a row
  // in the horizontal pass), centred on position p

  /** Weighted sum of the taps at distance 1..n before p that lie on the line. */
  function Before(line: seq<nat>, p: nat, kernel: seq<nat>, n: nat): nat
    requires p < |line| && n < |kernel|
  {
    if n == 0 then 0
    else Before(line, p, kernel, n - 1) + (if p < n then 0 else line[p - n] * kernel[n])
  }

  /** Weighted sum of the taps at distance 1..n after p that lie on the line. */
  function After(line: seq<nat>, p: nat, kernel: seq<nat>, n: nat): nat
    requires p < |line| && n < |kernel|
  {
    if n == 0 then 0
    else After(line, p, kernel, n - 1) + (if p + n >= |line| then 0 else line[p + n] * kernel[n])
  }

  /** Total weight of the taps at distance 1..n before p that fall off the line. */
  function MissingBefore(p: nat, kernel: seq<nat>, n: nat): nat
    requires n < |kernel|
  {
    if n == 0 then 0 else MissingBefore(p, kernel, n - 1) + (if p < n then kernel[n] else 0)
  }

  /** Total weight of the taps at distance 1..n after p that fall off a line of length len. */
  function MissingAfter(len: nat, p: nat, kernel: seq<nat>, n: nat): nat
    requires n < |kernel|
  {
    if n == 0 then 0 else MissingAfter(len, p, kernel, n - 1) + (if p + n >= len then kernel[n] else 0)
  }

  /** Total weight of the taps at distance 1..n before p that lie on the line. */
  function PresentBefore(p: nat, kernel: seq<nat>, n: nat): nat
    requires n < |kernel|
  {
    if n == 0 then 0 else PresentBefore(p, kernel, n - 1) + (if p < n then 0 else kernel[n])
  }

  /** Total weight of the taps at distance 1..n after p that lie on a line of length len. */
  function PresentAfter(len: nat, p: nat, kernel: seq<nat>, n: nat): nat
    requires n < |kernel|
  {
    if n == 0 then 0 else PresentAfter(len, p, kernel, n - 1) + (if p + n >= len then 0 else kernel[n])
  }

  /** k0: the centre weight with the weight of every missing tap folded in. */
  function CentreWeight(len: nat, p: nat, kernel: seq<nat>): nat
    requires |kernel| >= 1
  {
    kernel[0] + MissingBefore(p, kernel, |kernel| - 1) + MissingAfter(len, p, kernel, |kernel| - 1)
  }

  /** The value one pass computes for position p of a line. */
  function Pass(line: seq<nat>, p: nat, kernel: seq<nat>): nat
    requires p < |line| && |kernel| >= 1
  {
    var size := |kernel| - 1;
    Before(line, p, kernel, size) + After(line, p, kernel, size) + line[p] * CentreWeight(|line|, p, kernel)
  }

  lemma {:induction false} SplitBefore(p: nat, kernel: seq<nat>, n: nat)
    requires n < |kernel|
    ensures MissingBefore(p, kernel, n) + PresentBefore(p, kernel, n) == TailSum(kernel, n)
  {
    if n > 0 {
      SplitBefore(p, kernel, n - 1);
    }
  }

  lemma {:induction false} SplitAfter(len: nat, p: nat, kernel: seq<nat>, n: nat)
    requires n < |kernel|
    ensures MissingAfter(len, p, kernel, n) + PresentAfter(len, p, kernel, n) == TailSum(kernel, n)
  {
    if n > 0 {
      SplitAfter(len, p, kernel, n - 1);
    }
  }

  /** Missing taps are never dropped: the folded centre weight and the weights
      of the taps that lie on the line always add up to S. */
  lemma WeightsSumToS(len: nat, p: nat, kernel: seq<nat>)
    requires |kernel| >= 1
    ensures CentreWeight(len, p, kernel) + PresentBefore(p, kernel, |kernel| - 1)
            + PresentAfter(len, p, kernel, |kernel| - 1) == Sum1D(kernel)
  {
    SplitBefore(p, kernel, |kernel| - 1);
    SplitAfter(len, p, kernel, |kernel| - 1);
  }

  lemma {:induction false} BeforeUniform(line: seq<nat>, p: nat, kernel: seq<nat>, n: nat, v: nat)
    requires p < |line| && n < |kernel|
    requires forall j :: 0 <= j < |line| ==> line[j] == v
    ensures Before(line, p, kernel, n) == v * PresentBefore(p, kernel, n)
  {
    if n > 0 {
      BeforeUniform(line, p, kernel, n - 1, v);
    }
  }

  lemma {:induction false} AfterUniform(line: seq<nat>, p: nat, kernel: seq<nat>, n: nat, v: nat)
    requires p < |line| && n < |kernel|
    requires forall j :: 0 <= j < |line| ==> line[j] == v
    ensures After(line, p, kernel, n) == v * PresentAfter(|line|, p, kernel, n)
  {
    if n > 0 {
      AfterUniform(line, p, kernel, n - 1, v);
    }
  }

  /** A pass over a constant line gives that constant times S everywhere. */
  lemma PassUniform(line: seq<nat>, p: nat, kernel: seq<nat>, v: nat)
    requires p < |line| && |kernel| >= 1
    requires forall j :: 0 <= j < |line| ==> line[j] == v
    ensures Pass(line, p, kernel) == v * Sum1D(kernel)
  {
    var size := |kernel| - 1;
    BeforeUniform(line, p, kernel, size, v);
    AfterUniform(line, p, kernel, size, v);
    WeightsSumToS(|line|, p, kernel);
    Distrib3(v, PresentBefore(p, kernel, size), PresentAfter(|line|, p, kernel, size), CentreWeight(|line|, p, kernel));
  }

  lemma {:induction false} BeforeBound(line: seq<nat>, p: nat, kernel: seq<nat>, n: nat, m: nat)
    requires p < |line| && n < |kernel|
    requires forall j :: 0 <= j < |line| ==> line[j] <= m
    ensures Before(line, p, kernel, n) <= m * PresentBefore(p, kernel, n)
  {
    if n > 0 {
      BeforeBound(line, p, kernel, n - 1, m);
      if p >= n {
        MulLeft(line[p - n], m, kernel[n]);
        assert PresentBefore(p, kernel, n) == PresentBefore(p, kernel, n - 1) + kernel[n];
        Distrib(PresentBefore(p, kernel, n - 1), kernel[n], m);
      }
    }
  }

  lemma {:induction false} AfterBound(line: seq<nat>, p: nat, kernel: seq<nat>, n: nat, m: nat)
    requires p < |line| && n < |kernel|
    requires forall j :: 0 <= j < |line| ==> line[j] <= m
    ensures After(line, p, kernel, n) <= m * PresentAfter(|line|, p, kernel, n)
  {
    if n > 0 {
      AfterBound(line, p, kernel, n - 1, m);
      if p + n < |line| {
        MulLeft(line[p + n], m, kernel[n]);
        assert PresentAfter(|line|, p, kernel, n) == PresentAfter(|line|, p, kernel, n - 1) + kernel[n];
        Distrib(PresentAfter(|line|, p, kernel, n - 1), kernel[n], m);
      }
    }
  }

  /** A pass never exceeds the largest sample times S. */
  lemma PassBound(line: seq<nat>, p: nat, kernel: seq<nat>, m: nat)
    requires p < |line| && |kernel| >= 1
    requires forall j :: 0 <= j < |line| ==> line[j] <= m
    ensures Pass(line, p, kernel) <= m * Sum1D(kernel)
  {
    var size := |kernel| - 1;
    BeforeBound(line, p, kernel, size, m);
    AfterBound(line, p, kernel, size, m);
    WeightsSumToS(|line|, p, kernel);
    MulLeft(line[p], m, CentreWeight(|line|, p, kernel));
    Distrib3(m, PresentBefore(p, kernel, size), PresentAfter(|line|, p, kernel, size), CentreWeight(|line|, p, kernel));
  }

  /** The line read backwards. */
  function Reverse(line: seq<nat>): (r: seq<nat>)
    ensures |r| == |line| && forall j :: 0 <= j < |line| ==> r[j] == line[|line| - 1 - j]
  {
    seq(|line|, j requires 0 <= j < |line| => line[|line| - 1 - j])
  }

  lemma {:induction false} MirrorTaps(line: seq<nat>, p: nat, kernel: seq<nat>, n: nat)
    requires p < |line| && n < |kernel|
    ensures Before(Reverse(line), |line| - 1 - p, kernel, n) == After(line, p, kernel, n)
    ensures After(Reverse(line), |line| - 1 - p, kernel, n) == Before(line, p, kernel, n)
    ensures MissingBefore(|line| - 1 - p, kernel, n) == MissingAfter(|line|, p, kernel, n)
    ensures MissingAfter(|line|, |line| - 1 - p, kernel, n) == MissingBefore(p, kernel, n)
  {
    if n > 0 {
      MirrorTaps(line, p, kernel, n - 1);
    }
  }

  /** The taps at distance i before and after the centre carry the same weight
      kernel[i], so a pass commutes with reading the line backwards. */
  lemma PassMirror(line: seq<nat>, p: nat, kernel: seq<nat>)
    requires p < |line| && |kernel| >= 1
    ensures Pass(Reverse(line), |line| - 1 - p, kernel) == Pass(line, p, kernel)
  {
    MirrorTaps(line, p, kernel, |kernel| - 1);
  }

  // ---------------------------------------------------------------------
  // The two passes over an image

  /** Channel c of column x of the source, top to bottom. */
  function Column(src: Raster, x: nat, c: nat): (col: seq<nat>)
    requires src.Valid() && x < src.width && c < 4
    ensures |col| == src.height
    ensures forall y :: 0 <= y < src.height ==> col[y] == src.At(x, y, c)
  {
    seq(src.height, y requires 0 <= y < src.height => src.At(x, y, c) as nat)
  }

  /** The vertical pass: buf's value for channel c of pixel (x, y). */
  function Vertical(src: Raster, kernel: seq<nat>, x: nat, y: nat, c: nat): nat
    requires src.Valid() && x < src.width && y < src.height && c < 4 && |kernel| >= 1
  {
    Pass(Column(src, x, c), y, kernel)
  }

  /** Channel c of row y of the vertical pass's buffer, left to right. */
  function VerticalRow(src: Raster, kernel: seq<nat>, y: nat, c: nat): (row: seq<nat>)
    requires src.Valid() && y < src.height && c < 4 && |kernel| >= 1
    ensures |row| == src.width
    ensures forall x :: 0 <= x < src.width ==> row[x] == Vertical(src, kernel, x, y, c)
  {
    seq(src.width, x requires 0 <= x < src.width => Vertical(src, kernel, x, y, c))
  }

  /** The horizontal pass over the buffer: the accumulator for (x, y, c). */
  function Horizontal(src: Raster, kernel: seq<nat>, x: nat, y: nat, c: nat): nat
    requires src.Valid() && x < src.width && y < src.height && c < 4 && |kernel| >= 1
  {
    Pass(VerticalRow(src, kernel, y, c), x, kernel)
  }

  /** acc / k rounded to the nearest integer, halves rounded up (line 123). */
  function RoundDiv(acc: nat, k: nat): nat
    requires k > 0
  {
    (acc + k / 2) / k
  }

  /** The blurred channel value: the accumulator divided by kSum, rounded to
      the nearest integer with halves rounded up. */
  function BlurAt(src: Raster, kernel: seq<nat>, x: nat, y: nat, c: nat): nat
    requires src.Valid() && x < src.width && y < src.height && c < 4 && |kernel| >= 1 && kernel[0] > 0
  {
    DivisorPositive(kernel);
    RoundDiv(Horizontal(src, kernel, x, y, c), Divisor(kernel))
  }

  /** kSum is positive whenever the centre weight is. */
  lemma DivisorPositive(kernel: seq<nat>)
    requires |kernel| >= 1 && kernel[0] > 0
    ensures Divisor(kernel) >= Sum1D(kernel) >= kernel[0] > 0
  {
    MulLeft(1, Sum1D(kernel), Sum1D(kernel));
  }

  lemma DivExact(v: nat, k: nat, r: nat)
    requires r < k
    ensures (v * k + r) / k == v
  {
    var n := v * k + r;
    var q, m := n / k, n % k;
    assert n == q * k + m && 0 <= m < k;
    if q > v {
      MulLeft(v + 1, q, k);
      Distrib(v, 1, k);
    } else if q < v {
      MulLeft(q + 1, v, k);
      Distrib(q, 1, k);
    }
  }

  lemma DivBelow(n: nat, k: nat, b: nat)
    requires 0 < k && n < b * k
    ensures n / k < b
  {
    var q, m := n / k, n % k;
    assert n == q * k + m && 0 <= m < k;
    if q >= b {
      MulLeft(b, q, k);
    }
  }

  lemma RoundBound(acc: nat, k: nat)
    requires 0 < k && acc <= 255 * k
    ensures (acc + k / 2) / k <= 255
  {
    DivBelow(acc + k / 2, k, 256);
  }

  lemma Assoc(a: nat, b: nat, c: nat)
    ensures a * b * c == a * (b * c)
  {
  }

  /** Every accumulator stays within 255·kSum, so each output value is at
      most 255 and Go's `uint8` conversion never wraps. (With 255·kSum below
      2^64 the `uint64` accumulators never overflow either.) */
  lemma BlurNoWrap(src: Raster, kernel: seq<nat>, x: nat, y: nat, c: nat)
    requires src.Valid() && x < src.width && y < src.height && c < 4 && |kernel| >= 1 && kernel[0] > 0
    ensures Vertical(src, kernel, x, y, c) <= 255 * Sum1D(kernel)
    ensures Horizontal(src, kernel, x, y, c) <= 255 * Divisor(kernel)
    ensures BlurAt(src, kernel, x, y, c) <= 255
  {
    var s, d := Sum1D(kernel), Divisor(kernel);
    var row := VerticalRow(src, kernel, y, c);
    forall x' | 0 <= x' < src.width
      ensures row[x'] <= 255 * s
    {
      PassBound(Column(src, x', c), y, kernel, 255);
    }
    PassBound(row, x, kernel, 255 * s);
    Assoc(255, s, s);
    DivisorPositive(kernel);
    RoundBound(Horizontal(src, kernel, x, y, c), d);
  }

  /** A uniform channel is left unchanged by the blur. */
  lemma BlurUniform(src: Raster, kernel: seq<nat>, c: nat, v: Byte, x: nat, y: nat)
    requires src.Valid() && c < 4 && |kernel| >= 1 && kernel[0] > 0
    requires forall x', y' :: 0 <= x' < src.width && 0 <= y' < src.height ==> src.At(x', y', c) == v
    requires x < src.width && y < src.height
    ensures BlurAt(src, kernel, x, y, c) == v
  {
    var s, d := Sum1D(kernel), Divisor(kernel);
    var row := VerticalRow(src, kernel, y, c);
    forall x' | 0 <= x' < src.width
      ensures row[x'] == v * s
    {
      PassUniform(Column(src, x', c), y, kernel, v);
    }
    PassUniform(row, x, kernel, v * s);
    Assoc(v, s, s);
    DivisorPositive(kernel);
    DivExact(v, d, d / 2);
  }

  // ---------------------------------------------------------------------
  // The imperative blur (lines 13-131)

  /** A channel value times a weight. */
  function Weigh(v: nat, k: nat): nat
  {
    v * k
  }

  /** Lines 37-53: the taps above (x, y), and the centre weight with the
      weight of the taps above the image folded in. */
  method TapsAbove(src: Image, kernel: seq<nat>, x: nat, y: nat) returns (k0: nat, r: nat, g: nat, b: nat, a: nat)
    requires src.Valid() && x < src.width && y < src.height && |kernel| >= 1
    ensures k0 == kernel[0] + MissingBefore(y, kernel, |kernel| - 1)
    ensures r == Before(Column(src.Contents(), x, 0), y, kernel, |kernel| - 1)
    ensures g == Before(Column(src.Contents(), x, 1), y, kernel, |kernel| - 1)
    ensures b == Before(Column(src.Contents(), x, 2), y, kernel, |kernel| - 1)
    ensures a == Before(Column(src.Contents(), x, 3), y, kernel, |kernel| - 1)
  {
    var size := |kernel| - 1;
    r, g, b, a := 0, 0, 0, 0;
    var off := y * src.stride + x * 4;
    k0 := kernel[0];
    var i := 1;
    while i <= size
      invariant 1 <= i <= size + 1
      invariant k0 == kernel[0] + MissingBefore(y, kernel, i - 1)
      invariant r == Before(Column(src.Contents(), x, 0), y, kernel, i - 1)
      invariant g == Before(Column(src.Contents(), x, 1), y, kernel, i - 1)
      invariant b == Before(Column(src.Contents(), x, 2), y, kernel, i - 1)
      invariant a == Before(Column(src.Contents(), x, 3), y, kernel, i - 1)
    {
      k0, r, g, b, a := TapAbove(src, kernel, x, y, off, i, k0, r, g, b, a);
      i := i + 1;
    }
  }

  /** One turn of the loop of lines 38-53: the tap at distance i above (x, y). */
  method TapAbove(src: Image, kernel: seq<nat>, x: nat, y: nat, off: int, i: nat, k0: nat, r: nat, g: nat, b: nat, a: nat)
    returns (k0': nat, r': nat, g': nat, b': nat, a': nat)
    requires src.Valid() && x < src.width && y < src.height && 1 <= i < |kernel| && off == Offset(src.stride, x, y, 0)
    requires k0 == kernel[0] + MissingBefore(y, kernel, i - 1)
    requires r == Before(Column(src.Contents(), x, 0), y, kernel, i - 1) && g == Before(Column(src.Contents(), x, 1), y, kernel, i - 1)
    requires b == Before(Column(src.Contents(), x, 2), y, kernel, i - 1) && a == Before(Column(src.Contents(), x, 3), y, kernel, i - 1)
    ensures k0' == kernel[0] + MissingBefore(y, kernel, i)
    ensures r' == Before(Column(src.Contents(), x, 0), y, kernel, i) && g' == Before(Column(src.Contents(), x, 1), y, kernel, i)
    ensures b' == Before(Column(src.Contents(), x, 2), y, kernel, i) && a' == Before(Column(src.Contents(), x, 3), y, kernel, i)
  {
    var k := kernel[i];
    k0', r', g', b', a' := k0, r, g, b, a;
    if y - i < 0 {
      k0' := k0 + k;
    } else {
      RowsBack(src.stride, x, y, i);
      var pr, pg, pb, pa := ReadPixel(src, off - i * src.stride, x, y - i);
      r', g', b', a' := r + Weigh(pr, k), g + Weigh(pg, k), b + Weigh(pb, k), a + Weigh(pa, k);
    }
  }

  /** Lines 55-66: the taps below (x, y) added to the sums, and the weight of
      the taps below the image folded into k0. */
  method TapsBelow(src: Image, kernel: seq<nat>, x: nat, y: nat, k0: nat, r: nat, g: nat, b: nat, a: nat)
    returns (k0': nat, r': nat, g': nat, b': nat, a': nat)
    requires src.Valid() && x < src.width && y < src.height && |kernel| >= 1
    ensures k0' == k0 + MissingAfter(src.height, y, kernel, |kernel| - 1)
    ensures r' == r + After(Column(src.Contents(), x, 0), y, kernel, |kernel| - 1)
    ensures g' == g + After(Column(src.Contents(), x, 1), y, kernel, |kernel| - 1)
    ensures b' == b + After(Column(src.Contents(), x, 2), y, kernel, |kernel| - 1)
    ensures a' == a + After(Column(src.Contents(), x, 3), y, kernel, |kernel| - 1)
  {
    var size := |kernel| - 1;
    k0', r', g', b', a' := k0, r, g, b, a;
    var off := y * src.stride + x * 4;
    var i := 1;
    while i <= size
      invariant 1 <= i <= size + 1
      invariant k0' == k0 + MissingAfter(src.height, y, kernel, i - 1)
      invariant r' == r + After(Column(src.Contents(), x, 0), y, kernel, i - 1)
      invariant g' == g + After(Column(src.Contents(), x, 1), y, kernel, i - 1)
      invariant b' == b + After(Column(src.Contents(), x, 2), y, kernel, i - 1)
      invariant a' == a + After(Column(src.Contents(), x, 3), y, kernel, i - 1)
    {
      k0', r', g', b', a' := TapBelow(src, kernel, x, y, off, i, k0, r, g, b, a, k0', r', g', b', a');
      i := i + 1;
    }
  }

  /** One turn of the loop of lines 55-66: the tap at distance i below (x, y). */
  method TapBelow(src: Image, kernel: seq<nat>, x: nat, y: nat, off: int, i: nat,
                  ghost k0: nat, ghost r: nat, ghost g: nat, ghost b: nat, ghost a: nat, k1: nat, r1: nat, g1: nat, b1: nat, a1: nat)
    returns (k0': nat, r': nat, g': nat, b': nat, a': nat)
    requires src.Valid() && x < src.width && y < src.height && 1 <= i < |kernel| && off == Offset(src.stride, x, y, 0)
    requires k1 == k0 + MissingAfter(src.height, y, kernel, i - 1)
    requires r1 == r + After(Column(src.Contents(), x, 0), y, kernel, i - 1) && g1 == g + After(Column(src.Contents(), x, 1), y, kernel, i - 1)
    requires b1 == b + After(Column(src.Contents(), x, 2), y, kernel, i - 1) && a1 == a + After(Column(src.Contents(), x, 3), y, kernel, i - 1)
    ensures k0' == k0 + MissingAfter(src.height, y, kernel, i)
    ensures r' == r + After(Column(src.Contents(), x, 0), y, kernel, i) && g' == g + After(Column(src.Contents(), x, 1), y, kernel, i)
    ensures b' == b + After(Column(src.Contents(), x, 2), y, kernel, i) && a' == a + After(Column(src.Contents(), x, 3), y, kernel, i)
  {
    var k := kernel[i];
    k0', r', g', b', a' := k1, r1, g1, b1, a1;
    if y + i >= src.height {
      k0' := k1 + k;
    } else {
      RowsAhead(src.stride, x, y, i);
      var pr, pg, pb, pa := ReadPixel(src, off + i * src.stride, x, y + i);
      r', g', b', a' := r1 + Weigh(pr, k), g1 + Weigh(pg, k), b1 + Weigh(pb, k), a1 + Weigh(pa, k);
    }
  }

  /** Lines 34-72 for one pixel: the vertical pass's four channel sums at (x, y). */
  method VerticalTaps(src: Image, kernel: seq<nat>, x: nat, y: nat) returns (r: nat, g: nat, b: nat, a: nat)
    requires src.Valid() && x < src.width && y < src.height && |kernel| >= 1
    ensures r == Vertical(src.Contents(), kernel, x, y, 0)
    ensures g == Vertical(src.Contents(), kernel, x, y, 1)
    ensures b == Vertical(src.Contents(), kernel, x, y, 2)
    ensures a == Vertical(src.Contents(), kernel, x, y, 3)
  {
    var k0;
    k0, r, g, b, a := TapsAbove(src, kernel, x, y);
    k0, r, g, b, a := TapsBelow(src, kernel, x, y, k0, r, g, b, a);
    // The central pixel, with the folded-in weight.
    var pr, pg, pb, pa := ReadPixel(src, y * src.stride + x * 4, x, y);
    r, g, b, a := r + Weigh(pr, k0), g + Weigh(pg, k0), b + Weigh(pb, k0), a + Weigh(pa, k0);
  }

  /** Lines 89-101: the taps left of (x, y), and the centre weight with the
      weight of the taps left of the image folded in. */
  method TapsLeft(buf: array<nat>, width: nat, height: nat, kernel: seq<nat>, x: nat, y: nat)
    returns (k0: nat, r: nat, g: nat, b: nat, a: nat)
    requires buf.Length == width * height * 4 && x < width && y < height && |kernel| >= 1
    ensures k0 == kernel[0] + MissingBefore(x, kernel, |kernel| - 1)
    ensures r == Before(PackedRow(buf[..], width, height, y, 0), x, kernel, |kernel| - 1)
    ensures g == Before(PackedRow(buf[..], width, height, y, 1), x, kernel, |kernel| - 1)
    ensures b == Before(PackedRow(buf[..], width, height, y, 2), x, kernel, |kernel| - 1)
    ensures a == Before(PackedRow(buf[..], width, height, y, 3), x, kernel, |kernel| - 1)
  {
    var size := |kernel| - 1;
    r, g, b, a := 0, 0, 0, 0;
    var off := y * width * 4 + x * 4;
    PackedOffset(width, x, y);
    k0 := kernel[0];
    var i := 1;
    while i <= size
      invariant 1 <= i <= size + 1
      invariant k0 == kernel[0] + MissingBefore(x, kernel, i - 1)
      invariant r == Before(PackedRow(buf[..], width, height, y, 0), x, kernel, i - 1)
      invariant g == Before(PackedRow(buf[..], width, height, y, 1), x, kernel, i - 1)
      invariant b == Before(PackedRow(buf[..], width, height, y, 2), x, kernel, i - 1)
      invariant a == Before(PackedRow(buf[..], width, height, y, 3), x, kernel, i - 1)
    {
      k0, r, g, b, a := TapLeft(buf, width, height, kernel, x, y, off, i, k0, r, g, b, a);
      i := i + 1;
    }
  }

  /** One turn of the loop of lines 90-101: the tap at distance i left of (x, y). */
  method TapLeft(buf: array<nat>, width: nat, height: nat, kernel: seq<nat>, x: nat, y: nat, off: int, i: nat,
                 k0: nat, r: nat, g: nat, b: nat, a: nat)
    returns (k0': nat, r': nat, g': nat, b': nat, a': nat)
    requires buf.Length == width * height * 4 && x < width && y < height && 1 <= i < |kernel|
    requires off == Offset(4 * width, x, y, 0)
    requires k0 == kernel[0] + MissingBefore(x, kernel, i - 1)
    requires r == Before(PackedRow(buf[..], width, height, y, 0), x, kernel, i - 1)
    requires g == Before(PackedRow(buf[..], width, height, y, 1), x, kernel, i - 1)
    requires b == Before(PackedRow(buf[..], width, height, y, 2), x, kernel, i - 1)
    requires a == Before(PackedRow(buf[..], width, height, y, 3), x, kernel, i - 1)
    ensures k0' == kernel[0] + MissingBefore(x, kernel, i)
    ensures r' == Before(PackedRow(buf[..], width, height, y, 0), x, kernel, i)
    ensures g' == Before(PackedRow(buf[..], width, height, y, 1), x, kernel, i)
    ensures b' == Before(PackedRow(buf[..], width, height, y, 2), x, kernel, i)
    ensures a' == Before(PackedRow(buf[..], width, height, y, 3), x, kernel, i)
  {
    var k := kernel[i];
    k0', r', g', b', a' := k0, r, g, b, a;
    if x - i < 0 {
      k0' := k0 + k;
    } else {
      var pr, pg, pb, pa := ReadPacked(buf, width, height, off - i * 4, x - i, y);
      r', g', b', a' := r + Weigh(pr, k), g + Weigh(pg, k), b + Weigh(pb, k), a + Weigh(pa, k);
    }
  }

  /** Lines 103-114: the taps right of (x, y) added to the sums, and the
      weight of the taps right of the image folded into k0. */
  method TapsRight(buf: array<nat>, width: nat, height: nat, kernel: seq<nat>, x: nat, y: nat,
                   k0: nat, r: nat, g: nat, b: nat, a: nat)
    returns (k0': nat, r': nat, g': nat, b': nat, a': nat)
    requires buf.Length == width * height * 4 && x < width && y < height && |kernel| >= 1
    ensures k0' == k0 + MissingAfter(width, x, kernel, |kernel| - 1)
    ensures r' == r + After(PackedRow(buf[..], width, height, y, 0), x, kernel, |kernel| - 1)
    ensures g' == g + After(PackedRow(buf[..], width, height, y, 1), x, kernel, |kernel| - 1)
    ensures b' == b + After(PackedRow(buf[..], width, height, y, 2), x, kernel, |kernel| - 1)
    ensures a' == a + After(PackedRow(buf[..], width, height, y, 3), x, kernel, |kernel| - 1)
  {
    var size := |kernel| - 1;
    k0', r', g', b', a' := k0, r, g, b, a;
    var off := y * width * 4 + x * 4;
    PackedOffset(width, x, y);
    var i := 1;
    while i <= size
      invariant 1 <= i <= size + 1
      invariant k0' == k0 + MissingAfter(width, x, kernel, i - 1)
      invariant r' == r + After(PackedRow(buf[..], width, height, y, 0), x, kernel, i - 1)
      invariant g' == g + After(PackedRow(buf[..], width, height, y, 1), x, kernel, i - 1)
      invariant b' == b + After(PackedRow(buf[..], width, height, y, 2), x, kernel, i - 1)
      invariant a' == a + After(PackedRow(buf[..], width, height, y, 3), x, kernel, i - 1)
    {
      k0', r', g', b', a' := TapRight(buf, width, height, kernel, x, y, off, i, k0, r, g, b, a, k0', r', g', b', a');
      i := i + 1;
    }
  }

  /** One turn of the loop of lines 103-114: the tap at distance i right of (x, y). */
  method TapRight(buf: array<nat>, width: nat, height: nat, kernel: seq<nat>, x: nat, y: nat, off: int, i: nat,
                  ghost k0: nat, ghost r: nat, ghost g: nat, ghost b: nat, ghost a: nat, k1: nat, r1: nat, g1: nat, b1: nat, a1: nat)
    returns (k0': nat, r': nat, g': nat, b': nat, a': nat)
    requires buf.Length == width * height * 4 && x < width && y < height && 1 <= i < |kernel|
    requires off == Offset(4 * width, x, y, 0)
    requires k1 == k0 + MissingAfter(width, x, kernel, i - 1)
    requires r1 == r + After(PackedRow(buf[..], width, height, y, 0), x, kernel, i - 1)
    requires g1 == g + After(PackedRow(buf[..], width, height, y, 1), x, kernel, i - 1)
    requires b1 == b + After(PackedRow(buf[..], width, height, y, 2), x, kernel, i - 1)
    requires a1 == a + After(PackedRow(buf[..], width, height, y, 3), x, kernel, i - 1)
    ensures k0' == k0 + MissingAfter(width, x, kernel, i)
    ensures r' == r + After(PackedRow(buf[..], width, height, y, 0), x, kernel, i)
    ensures g' == g + After(PackedRow(buf[..], width, height, y, 1), x, kernel, i)
    ensures b' == b + After(PackedRow(buf[..], width, height, y, 2), x, kernel, i)
    ensures a' == a + After(PackedRow(buf[..], width, height, y, 3), x, kernel, i)
  {
    var k := kernel[i];
    k0', r', g', b', a' := k1, r1, g1, b1, a1;
    if x + i >= width {
      k0' := k1 + k;
    } else {
      var pr, pg, pb, pa := ReadPacked(buf, width, height, off + i * 4, x + i, y);
      r', g', b', a' := r1 + Weigh(pr, k), g1 + Weigh(pg, k), b1 + Weigh(pb, k), a1 + Weigh(pa, k);
    }
  }

  /** Lines 87-121 for one pixel: the horizontal pass's four channel sums at (x, y). */
  method HorizontalTaps(buf: array<nat>, width: nat, height: nat, kernel: seq<nat>, x: nat, y: nat)
    returns (r: nat, g: nat, b: nat, a: nat)
    requires buf.Length == width * height * 4 && x < width && y < height && |kernel| >= 1
    ensures r == Pass(PackedRow(buf[..], width, height, y, 0), x, kernel)
    ensures g == Pass(PackedRow(buf[..], width, height, y, 1), x, kernel)
    ensures b == Pass(PackedRow(buf[..], width, height, y, 2), x, kernel)
    ensures a == Pass(PackedRow(buf[..], width, height, y, 3), x, kernel)
  {
    var k0;
    k0, r, g, b, a := TapsLeft(buf, width, height, kernel, x, y);
    k0, r, g, b, a := TapsRight(buf, width, height, kernel, x, y, k0, r, g, b, a);
    // The central pixel, with the folded-in weight.
    var off := y * width * 4 + x * 4;
    PackedOffset(width, x, y);
    var pr, pg, pb, pa := ReadPacked(buf, width, height, off, x, y);
    r, g, b, a := r + Weigh(pr, k0), g + Weigh(pg, k0), b + Weigh(pb, k0), a + Weigh(pa, k0);
  }

  /** Lines 34-79 for one pixel: the vertical pass's sums at (x, y), stored
      in buf; no other value of buf row y and no value outside the pixel
      changes. */
  method VerticalPixel(src: Image, kernel: seq<nat>, buf: array<nat>, x: nat, y: nat)
    requires src.Valid() && |kernel| >= 1 && x < src.width && y < src.height
    requires buf.Length == src.width * src.height * 4
    modifies buf
    ensures forall c: nat :: c < 4 ==>
      PackedRow(buf[..], src.width, src.height, y, c)[x] == Vertical(src.Contents(), kernel, x, y, c)
    ensures forall x': nat, c: nat :: x' < src.width && x' != x && c < 4 ==>
      PackedRow(buf[..], src.width, src.height, y, c)[x'] == PackedRow(old(buf[..]), src.width, src.height, y, c)[x']
    ensures KeptOutside(buf[..], old(buf[..]), Offset(4 * src.width, x, y, 0), Offset(4 * src.width, x, y, 4))
  {
    var r, g, b, a := VerticalTaps(src, kernel, x, y);
    WritePacked(buf, src.width, src.height, x, y, r, g, b, a);
  }

  /** Lines 33-80 for one row: the vertical pass of row y into row y of buf;
      the rest of buf is untouched. */
  method VerticalPassRow(src: Image, kernel: seq<nat>, buf: array<nat>, y: nat)
    requires src.Valid() && |kernel| >= 1 && y < src.height && buf.Length == src.width * src.height * 4
    modifies buf
    ensures forall c: nat :: c < 4 ==>
      PackedRow(buf[..], src.width, src.height, y, c) == VerticalRow(src.Contents(), kernel, y, c)
    ensures KeptOutside(buf[..], old(buf[..]), y * (4 * src.width), y * (4 * src.width) + 4 * src.width)
  {
    var width, height := src.width, src.height;
    ghost var s := src.Contents();
    PackedFits(width, height);
    var x := 0;
    while x < width
      invariant 0 <= x <= width
      invariant forall x': nat, c: nat :: x' < x && c < 4 ==>
        PackedRow(buf[..], width, height, y, c)[x'] == Vertical(s, kernel, x', y, c)
      invariant KeptOutside(buf[..], old(buf[..]), y * (4 * width), y * (4 * width) + 4 * width)
    {
      VerticalPixel(src, kernel, buf, x, y);
      x := x + 1;
    }
    forall c: nat | c < 4
      ensures PackedRow(buf[..], width, height, y, c) == VerticalRow(s, kernel, y, c)
    {
    }
  }

  /** Lines 28-81: the vertical pass of the whole source into a fresh buffer;
      row y of the buffer is row y of the vertical pass. */
  method VerticalPass(src: Image, kernel: seq<nat>) returns (buf: array<nat>)
    requires src.Valid() && |kernel| >= 1
    ensures fresh(buf) && buf.Length == src.width * src.height * 4
    ensures forall y: nat, c: nat :: y < src.height && c < 4 ==>
      PackedRow(buf[..], src.width, src.height, y, c) == VerticalRow(src.Contents(), kernel, y, c)
  {
    var width, height := src.width, src.height;
    ghost var s := src.Contents();
    buf := new nat[width * height * 4];
    var y := 0;
    while y < height
      invariant 0 <= y <= height
      invariant forall y': nat, c: nat :: y' < y && c < 4 ==>
        PackedRow(buf[..], width, height, y', c) == VerticalRow(s, kernel, y', c)
    {
      ghost var rowStart := buf[..];
      VerticalPassRow(src, kernel, buf, y);
      forall y': nat, c: nat | y' < y && c < 4
        ensures PackedRow(buf[..], width, height, y', c) == VerticalRow(s, kernel, y', c)
      {
        PackedRowKept(buf[..], rowStart, width, height, y', y, c);
      }
      y := y + 1;
    }
  }

  /** The uint8 conversion of a rounded horizontal sum. */
  function RoundByte(acc: nat, k: nat): Byte
    requires k > 0
  {
    WrapByte(RoundDiv(acc, k))
  }

  /** The byte the horizontal pass writes for channel c of pixel (x, y). */
  function PassOut(buf: seq<nat>, width: nat, height: nat, kernel: seq<nat>, kSum: nat, x: nat, y: nat, c: nat): Byte
    requires |buf| == width * height * 4 && x < width && y < height && c < 4 && |kernel| >= 1 && kSum > 0
  {
    RoundByte(Pass(PackedRow(buf, width, height, y, c), x, kernel), kSum)
  }

  /** Lines 87-128 for one pixel: the horizontal pass's sums at (x, y),
      rounded and stored in dst; no other pixel of the rectangle and no byte
      outside the pixel changes. */
  method HorizontalPixel(dst: Image, buf: array<nat>, width: nat, height: nat, kernel: seq<nat>, kSum: nat, x: nat, y: nat)
    requires Fits(dst.pix.Length, dst.stride, width, height) && x < width && y < height
    requires buf.Length == width * height * 4 && |kernel| >= 1 && kSum > 0
    modifies dst.pix
    ensures forall c: nat :: c < 4 ==>
      View(dst, width, height).At(x, y, c) == PassOut(buf[..], width, height, kernel, kSum, x, y, c)
    ensures forall x': nat, c: nat :: x' < width && x' != x && c < 4 ==>
      View(dst, width, height).At(x', y, c) == old(View(dst, width, height)).At(x', y, c)
    ensures KeptOutside(dst.pix[..], old(dst.pix[..]), Offset(dst.stride, x, y, 0), Offset(dst.stride, x, y, 4))
  {
    var r, g, b, a := HorizontalTaps(buf, width, height, kernel, x, y);
    var dstOff := y * dst.stride + x * 4;
    WritePixelAt(dst, width, height, dstOff, x, y, RoundByte(r, kSum), RoundByte(g, kSum),
                 RoundByte(b, kSum), RoundByte(a, kSum));
  }

  /** Lines 86-129 for one row: the horizontal pass of buffer row y into row
      y of dst; every other byte of dst is untouched. */
  method HorizontalPassRow(dst: Image, buf: array<nat>, width: nat, height: nat, kernel: seq<nat>, kSum: nat, y: nat)
    requires Fits(dst.pix.Length, dst.stride, width, height) && y < height
    requires buf.Length == width * height * 4 && |kernel| >= 1 && kSum > 0
    modifies dst.pix
    ensures forall x: nat, c: nat :: x < width && c < 4 ==>
      View(dst, width, height).At(x, y, c) == PassOut(buf[..], width, height, kernel, kSum, x, y, c)
    ensures KeptOutside(dst.pix[..], old(dst.pix[..]), y * dst.stride, y * dst.stride + 4 * width)
  {
    var x := 0;
    while x < width
      invariant 0 <= x <= width
      invariant forall x': nat, c: nat :: x' < x && c < 4 ==>
        View(dst, width, height).At(x', y, c) == PassOut(buf[..], width, height, kernel, kSum, x', y, c)
      invariant KeptOutside(dst.pix[..], old(dst.pix[..]), y * dst.stride, y * dst.stride + 4 * width)
    {
      HorizontalPixel(dst, buf, width, height, kernel, kSum, x, y);
      x := x + 1;
    }
  }

  /** Lines 83-130: the horizontal pass from the buffer into dst, rounding
      each sum to the nearest multiple of kSum and converting it to a byte. */
  method HorizontalPass(dst: Image, buf: array<nat>, width: nat, height: nat, kernel: seq<nat>, kSum: nat)
    requires Fits(dst.pix.Length, dst.stride, width, height)
    requires buf.Length == width * height * 4 && |kernel| >= 1 && kSum > 0
    modifies dst.pix
    ensures forall x: nat, y: nat, c: nat :: x < width && y < height && c < 4 ==>
      View(dst, width, height).At(x, y, c) == PassOut(buf[..], width, height, kernel, kSum, x, y, c)
    ensures PaddingKept(dst.pix[..], old(dst.pix[..]), dst.stride, width, height)
    ensures KeptFrom(dst.pix[..], old(dst.pix[..]), height * dst.stride)
  {
    ghost var before := dst.pix[..];
    var y := 0;
    while y < height
      invariant 0 <= y <= height
      invariant forall x': nat, y': nat, c: nat :: x' < width && y' < y && c < 4 ==>
        View(dst, width, height).At(x', y', c) == PassOut(buf[..], width, height, kernel, kSum, x', y', c)
      invariant PaddingKept(dst.pix[..], before, dst.stride, width, y)
      invariant KeptFrom(dst.pix[..], before, y * dst.stride)
    {
      HorizontalPassNext(dst, buf, width, height, kernel, kSum, y, before);
      y := y + 1;
    }
  }

  /** One turn of the loop of lines 86-129: with rows 0..y-1 of dst done and
      nothing else changed since `before`, row y is done too. */
  method HorizontalPassNext(dst: Image, buf: array<nat>, width: nat, height: nat, kernel: seq<nat>, kSum: nat, y: nat,
                            ghost before: seq<Byte>)
    requires Fits(dst.pix.Length, dst.stride, width, height) && y < height
    requires buf.Length == width * height * 4 && |kernel| >= 1 && kSum > 0
    requires forall x': nat, y': nat, c: nat :: x' < width && y' < y && c < 4 ==>
      View(dst, width, height).At(x', y', c) == PassOut(buf[..], width, height, kernel, kSum, x', y', c)
    requires PaddingKept(dst.pix[..], before, dst.stride, width, y)
    requires KeptFrom(dst.pix[..], before, y * dst.stride)
    modifies dst.pix
    ensures forall x': nat, y': nat, c: nat :: x' < width && y' < y + 1 && c < 4 ==>
      View(dst, width, height).At(x', y', c) == PassOut(buf[..], width, height, kernel, kSum, x', y', c)
    ensures PaddingKept(dst.pix[..], before, dst.stride, width, y + 1)
    ensures KeptFrom(dst.pix[..], before, (y + 1) * dst.stride)
  {
    ghost var rowStart := dst.pix[..];
    HorizontalPassRow(dst, buf, width, height, kernel, kSum, y);
    forall x': nat, y': nat, c: nat | x' < width && y' < y && c < 4
      ensures View(dst, width, height).At(x', y', c) == PassOut(buf[..], width, height, kernel, kSum, x', y', c)
    {
      EarlierPixelKept(dst.pix[..], rowStart, dst.stride, width, height, x', y', c, y);
    }
    CloseRow(dst.pix[..], rowStart, before, dst.stride, width, y);
  }

  /** blurRGBA: dst receives the blur of src over src's rectangle; nothing
      else in dst changes, and src changes only if it shares dst's bytes. */
  method BlurRGBA(dst: Image, src: Image, kernel: seq<nat>)
    requires src.Valid() && Fits(dst.pix.Length, dst.stride, src.width, src.height)
    requires |kernel| >= 1 && kernel[0] > 0
    modifies dst.pix
    ensures forall x: nat, y: nat, c: nat :: x < src.width && y < src.height && c < 4 ==>
      View(dst, src.width, src.height).At(x, y, c) == BlurAt(old(src.Contents()), kernel, x, y, c)
    ensures PaddingKept(dst.pix[..], old(dst.pix[..]), dst.stride, src.width, src.height)
    ensures KeptFrom(dst.pix[..], old(dst.pix[..]), src.height * dst.stride)
    ensures src.pix != dst.pix ==> unchanged(src.pix)
  {
    ghost var s := src.Contents();
    var kSum := KernelSum(kernel);
    DivisorPositive(kernel);
    var buf := VerticalPass(src, kernel);
    HorizontalPass(dst, buf, src.width, src.height, kernel, kSum);
    forall x: nat, y: nat, c: nat | x < src.width && y < src.height && c < 4
      ensures View(dst, src.width, src.height).At(x, y, c) == BlurAt(s, kernel, x, y, c)
    {
      BlurNoWrap(s, kernel, x, y, c);
    }
  }

  // ---------------------------------------------------------------------
  // Blur's options (lines 133-176)

  /** The default standard deviation (a package variable in the source, fixed here). */
  const DefaultStdDev: real := 0.5

  /** The blurring parameters: the standard deviation, and the kernel size
      (0 for "derive it from the standard deviation"). */
  datatype BlurOptions = BlurOptions(stdDev: real, size: int)

  /** The standard deviation and the kernel size the blur is run with. */
  datatype BlurSettings = BlurSettings(stdDev: real, size: int)

  /** Lines 146-156: a missing options value means the default standard
      deviation and size 0; a size of 0 becomes ⌈6·σ⌉. */
  function BlurParameters(opt: Option<BlurOptions>): (p: BlurSettings)
    ensures p.stdDev == (if opt.Some? then opt.value.stdDev else DefaultStdDev)
    ensures opt.Some? && opt.value.size != 0 ==> p.size == opt.value.size
    ensures (opt.None? || opt.value.size == 0) ==> 6.0 * p.stdDev <= p.size as real < 6.0 * p.stdDev + 1.0
  {
    var sd := if opt.Some? then opt.value.stdDev else DefaultStdDev;
    var size := if opt.Some? then opt.value.size else 0;
    BlurSettings(sd, if size == 0 then Ceil(sd * 6.0) else size)
  }

  /** Blur on RGBA images: `kernel` is the half kernel the floating-point code
      builds for BlurParameters(opt), kernel[0] being the scaled centre weight. */
  method Blur(dst: Image, src: Image, opt: Option<BlurOptions>, kernel: seq<nat>)
    requires src.Valid() && Fits(dst.pix.Length, dst.stride, src.width, src.height)
    requires 0 <= BlurParameters(opt).size && |kernel| == BlurParameters(opt).size + 1 && kernel[0] > 0
    modifies dst.pix
    ensures forall x: nat, y: nat, c: nat :: x < src.width && y < src.height && c < 4 ==>
      View(dst, src.width, src.height).At(x, y, c) == BlurAt(old(src.Contents()), kernel, x, y, c)
    ensures PaddingKept(dst.pix[..], old(dst.pix[..]), dst.stride, src.width, src.height)
    ensures KeptFrom(dst.pix[..], old(dst.pix[..]), src.height * dst.stride)
    ensures src.pix != dst.pix ==> unchanged(src.pix)
  {
    BlurRGBA(dst, src, kernel);
  }
}
