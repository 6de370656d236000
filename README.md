# graphics-go image filters in Dafny

A model of the RGBA filters of the Go package `graphics`:

- the Gaussian blur (`blurRGBA`, `Blur`);
- the separable convolution (`convolveRGBASep`, `Convolve`);
- the bilinear interpolator `interp.BinterpRGBA`;
- the rotation about the centre (`rotateRGBA`, `Rotate`).

An `*image.RGBA` is the datatype `Pixels.Image`. It holds the pixel store `pix` (an `array<Byte>`, the Go `Pix` slice, updated in place), the row stride and the width and height of the image's rectangle. The origin is zero. A read-only snapshot of an image's bytes is the value `Pixels.Raster`.

Each filter is an imperative method whose loops follow the source's loops.

- The per-pixel tap loops and the per-row and per-image passes are separate methods.
- Each method is proved against a specification function: `Blur.BlurAt`, `Convolve.ConvolveAt`, `Bilinear.Sample` and `Rotate.RotatedAt`.
- The properties the source promises are proved about those functions as lemmas:
  - no tap weight is lost at an edge;
  - a uniform image is left unchanged;
  - no byte overflows;
  - weights are convex;
  - centre-to-centre mapping and length preservation for the rotation;
  - the test vectors with one-colour images.
- Every state-changing method also states what it leaves alone: the padding right of each row, every byte after the last row, and the source image when it is not the destination.

Modules:

| module | file | models |
|---|---|---|
| `Wrappers` | wrappers.dfy | `Option` and `Outcome` (success or an error value) |
| `Pixels` | pixels.dfy | the RGBA store: offsets, reads and writes of one pixel, frame predicates |
| `Blur` | blur.dfy | graphics/blur.go |
| `Convolve` | convolve.dfy | graphics/convolve.go |
| `Bilinear` | bilinear.dfy | graphics/interp/bilinear.go |
| `Rotate` | rotate.dfy | graphics/rotate.go |
| `BlurVectors` | blur_vectors.dfy | the one-colour blur vectors of graphics/blur_test.go |

Arithmetic:

- The blur works in unbounded naturals. The source uses `uint64`, and its `uint8` conversion of the rounded result is `Pixels.WrapByte`, which is proved to be a no-op (`Blur.BlurNoWrap`).
- The convolution and the interpolator work in exact reals where the source uses `float64`. Go's `uint8(float)` conversion is truncation, and the model applies it only where the value is proved to lie in 0..255.
- `math.Cos` and `math.Sin` are function parameters of the rotation.

## Model

| member | source | states |
|---|---|---|
| Pixels.WrapByte | graphics/blur.go:125-128 | Go's `uint8` of a non-negative integer below 256 is that integer |
| Pixels.Ceil | graphics/blur.go:155 | `math.Ceil` of a real is the least integer not below it |
| Blur.KernelSumIs2DSum | graphics/blur.go:20-26 | the kernel sum S = k[0] + 2·Σk[1..] is the sum of the full symmetric kernel, and S·S is the sum of its 2-D outer product |
| Blur.KernelSum | graphics/blur.go:20-26 | the loop computes kSum = S·S, the sum of the 2-D kernel |
| Blur.WeightsSumToS | graphics/blur.go:40-72 | at any position of a line of any length, the centre weight with the missing taps folded in plus the present taps' weights is S: no weight is lost at an edge |
| Blur.PassUniform | graphics/blur.go:28-81 | one pass over a constant line v gives v·S at every position |
| Blur.PassBound | graphics/blur.go:28-81 | one pass over a line bounded by m stays at or below m·S |
| Blur.PassMirror | graphics/blur.go:40-72 | a pass over the reversed line at the mirrored position gives the same value: the blur is symmetric |
| Blur.MirrorTaps | graphics/blur.go:40-66 | the taps above and their missing weight at p are the taps below and their missing weight at the mirrored position of the reversed line |
| Blur.Column | graphics/blur.go:40-66 | a view, nothing proved beyond its definition: column x of channel c of the source, top to bottom, as the tap loops read it |
| Blur.VerticalRow | graphics/blur.go:74-79 | a view, nothing proved beyond its definition: row y of the vertical pass's buffer, one vertical-pass value per pixel |
| Blur.DivisorPositive | graphics/blur.go:20-26 | kSum ≥ S ≥ k[0] > 0 when the centre weight is positive, so the divisions of lines 125-128 are defined |
| Blur.BlurNoWrap | graphics/blur.go:68-128 | the buffer values stay within 255·S, the accumulators within 255·kSum, and every rounded output within 255, so neither `uint8` conversion wraps |
| Blur.BlurUniform | graphics/blur_test.go:58-83 | a channel of one value is left unchanged by the blur, for every kernel and image size; this is what the blank vectors check |
| Blur.TapsAbove | graphics/blur.go:37-53 | the sums of the taps above (x, y), and k0 = k[0] plus the weight of every tap above the top edge |
| Blur.TapAbove | graphics/blur.go:38-53 | one turn adds the tap i rows up, or folds its weight into k0 when it lies above the image |
| Blur.TapsBelow | graphics/blur.go:54-66 | the sums of the taps below (x, y) are added, and the weight of every tap below the bottom edge is folded into k0 |
| Blur.TapBelow | graphics/blur.go:54-66 | one turn adds the tap i rows down, or folds its weight into k0 |
| Blur.VerticalTaps | graphics/blur.go:34-72 | the vertical pass's four channel sums at (x, y) |
| Blur.TapsLeft | graphics/blur.go:89-101 | the sums of the buffer taps left of (x, y), and k0 with the weight of every tap beyond the left edge |
| Blur.TapLeft | graphics/blur.go:90-101 | one turn of the left-tap loop |
| Blur.TapsRight | graphics/blur.go:103-115 | the sums of the buffer taps right of (x, y) are added, and the weight of every tap beyond the right edge is folded in |
| Blur.TapRight | graphics/blur.go:103-115 | one turn of the right-tap loop |
| Blur.HorizontalTaps | graphics/blur.go:87-121 | the horizontal pass over buffer row y, for all four channels at x |
| Blur.VerticalPixel | graphics/blur.go:34-79 | buffer pixel (x, y) receives the vertical pass; every other value of row y is unchanged |
| Blur.VerticalPassRow | graphics/blur.go:33-80 | buffer row y receives the vertical pass of row y; nothing outside row y changes |
| Blur.VerticalPass | graphics/blur.go:28-81 | a fresh width·height·4 buffer whose every row is the vertical pass of the source |
| Blur.HorizontalPixel | graphics/blur.go:87-128 | dst pixel (x, y) receives the rounded horizontal pass; the other pixels of its row are unchanged |
| Blur.HorizontalPassRow | graphics/blur.go:86-129 | row y of dst receives the rounded horizontal pass; nothing outside the row's pixels changes |
| Blur.HorizontalPassNext | graphics/blur.go:86-129 | with rows before y done, row y is done too, and the padding and later bytes are kept |
| Blur.HorizontalPass | graphics/blur.go:83-130 | every dst pixel is the rounded horizontal pass of the buffer; the padding and the bytes after the last row are kept |
| Blur.BlurRGBA | graphics/blur.go:13-131 | every dst pixel of src's rectangle is `BlurAt` of the old source; dst's padding and later bytes are kept; an unaliased source is unchanged |
| Blur.BlurParameters | graphics/blur.go:146-156 | missing options give the default standard deviation; a size of 0 or missing options give ⌈6σ⌉; a non-zero size is kept |
| Blur.Blur | graphics/blur.go:145-176 | `blurRGBA` run with the defaulted parameters and a kernel of size+1 weights |
| Convolve.Clamp | graphics/convolve.go:12-21 | the result lies in [x0, x1], and a value already inside is returned unchanged |
| Convolve.ClampMonotone | graphics/convolve.go:12-21 | clamping keeps the order of two values |
| Convolve.ToByte | graphics/convolve.go:147-152 | `uint8(clamp(v + 0.5, 0, 255))` rounds v to the nearest byte, saturating below 0 and above 255 |
| Convolve.ToByteExact | graphics/convolve.go:147-152 | an integral value 0..255 converts to itself |
| Convolve.Radius | graphics/convolve.go:50 | both weight vectors of a valid kernel have length 2·radius+1 |
| Convolve.CheckKernel | graphics/convolve.go:46-49 | success exactly when X and Y have the same odd length; otherwise the invalid-kernel error |
| Convolve.EffectiveWeights | graphics/convolve.go:64-96 | the folded centre weight plus the present taps' weights is k0 plus every weight but the centre one: no weight is lost at an edge |
| Convolve.SepPassUniform | graphics/convolve.go:64-96 | a pass over a constant line v gives v·(k0 + Σw − w[radius]) |
| Convolve.CentredPassUniform | graphics/convolve.go:111-145 | when k0 starts at the vector's own centre weight, a constant line v gives v·Σw |
| Convolve.VerticalWeights | graphics/convolve.go:62-96 | the vertical pass's effective weights sum to X[radius] + ΣY − Y[radius], at every row of any image |
| Convolve.HorizontalWeights | graphics/convolve.go:111-145 | the horizontal pass's effective weights sum to ΣX at every column |
| Convolve.RowPassUniform | graphics/convolve.go:107-145 | the horizontal pass of a constant row v is v·ΣX |
| Convolve.ColumnPassUniform | graphics/convolve.go:57-96 | the vertical pass of a constant column v is v times the vertical weight |
| Convolve.VerticalUniform | graphics/convolve.go:57-104 | on a uniform channel every buffer value of a row is v times the vertical weight |
| Convolve.HorizontalOfUniformRow | graphics/convolve.go:107-145 | a buffer row constant at vs gives accumulators vs·ΣX |
| Convolve.Column | graphics/convolve.go:64-90 | a view, nothing proved beyond its definition: column x of channel c of the source, as reals, top to bottom |
| Convolve.VerticalRow | graphics/convolve.go:98-103 | a view, nothing proved beyond its definition: row y of the vertical pass's buffer |
| Convolve.IntendedKeepsUniform | graphics/convolve.go:45-155 | with the vertical pass centred on Y[radius], and ΣX = ΣY = 1, a uniform channel is left unchanged |
| Convolve.WrittenCentreHalves | graphics/convolve.go:62 | as written, the averaging kernel X = (1/4, 1/2, 1/4), Y = (0, 1, 0) turns every uniform value v into v/2 rounded (200 into 100); the corrected centre keeps v |
| Convolve.AveragingWeights | graphics/convolve.go:46-62 | the averaging kernel is valid with radius 1, both vectors sum to 1, and the as-written vertical weight is 1/2 |
| Convolve.ReadSamples | graphics/convolve.go:64-96 | the four channels of source pixel (x, y) as reals |
| Convolve.TapsAbove | graphics/convolve.go:64-76 | the sums of the taps above (x, y), and k0 with the weight of every tap above the top edge |
| Convolve.TapAbove | graphics/convolve.go:64-76 | one turn of the upward tap loop |
| Convolve.TapsBelow | graphics/convolve.go:78-90 | the sums of the taps below are added, and the weight of every tap below the bottom edge is folded in |
| Convolve.TapBelow | graphics/convolve.go:78-90 | one turn of the downward tap loop |
| Convolve.VerticalTaps | graphics/convolve.go:62-96 | the vertical pass's four channel values at (x, y) for centre weight k0 |
| Convolve.TapsLeft | graphics/convolve.go:113-125 | the sums of the buffer taps left of (x, y), with their missing weight folded into k0 |
| Convolve.TapLeft | graphics/convolve.go:113-125 | one turn of the left-tap loop |
| Convolve.TapsRight | graphics/convolve.go:127-139 | the sums of the buffer taps right of (x, y) are added, with their missing weight folded in |
| Convolve.TapRight | graphics/convolve.go:127-139 | one turn of the right-tap loop |
| Convolve.HorizontalTaps | graphics/convolve.go:111-145 | the horizontal pass over buffer row y at x, for all four channels |
| Convolve.VerticalPixel | graphics/convolve.go:62-103 | buffer pixel (x, y) receives the vertical pass; the rest of row y is unchanged |
| Convolve.VerticalPassRow | graphics/convolve.go:57-104 | buffer row y receives the vertical pass; nothing outside the row changes |
| Convolve.VerticalPass | graphics/convolve.go:52-105 | a fresh buffer holding the vertical pass of every row |
| Convolve.OutputBytes | graphics/convolve.go:110-152 | the four bytes the horizontal pass writes for (x, y) |
| Convolve.HorizontalPixel | graphics/convolve.go:110-152 | dst pixel (x, y) receives those bytes; the rest of its row is unchanged |
| Convolve.HorizontalPassRow | graphics/convolve.go:109-153 | row y of dst receives the horizontal pass |
| Convolve.HorizontalPassNext | graphics/convolve.go:108-154 | with rows before y done, row y is done too; the padding and later bytes are kept |
| Convolve.HorizontalPass | graphics/convolve.go:107-154 | every dst pixel is the clamped, rounded horizontal pass of the buffer |
| Convolve.SeparablePasses | graphics/convolve.go:50-154 | every dst pixel is `ConvolveAt` of the old source for the given vertical centre weight |
| Convolve.ConvolveRGBASep | graphics/convolve.go:45-155 | code as written: an invalid kernel is refused and dst is unchanged; otherwise every pixel is `ConvolveAt` with the vertical centre weight starting at X[radius] |
| Convolve.ConvolveRGBASepIntended | graphics/convolve.go:45-155 | the same with the vertical centre weight starting at Y[radius] |
| Convolve.Convolve | graphics/convolve.go:158-182 | a non-separable kernel gives the unimplemented error and leaves dst unchanged; a separable one is validated and convolved by `convolveRGBASep` as written, the vertical centre weight starting at X[radius] |
| Convolve.ConvolveIntended | graphics/convolve.go:158-182 | the same dispatch onto the corrected pass: a valid separable kernel gives `ConvolveAt` with the vertical centre weight starting at Y[radius] |
| Bilinear.Trunc | graphics/interp/bilinear.go:14 | Go's `int(float)` truncates toward zero |
| Bilinear.OffRGBA | graphics/interp/bilinear.go:13-15 | for a non-negative point, the byte offset of the pixel that holds it |
| Bilinear.ClampedCorners | graphics/interp/bilinear.go:19-41 | the corner columns and rows are clamped into the image; inside the domain lowX ≤ highX < width and lowY ≤ highY < height |
| Bilinear.CornersInside | graphics/interp/bilinear.go:19-50 | inside the domain the corners are equal or adjacent, and a distinct pair has sx − 0.5 or sy − 0.5 strictly between them |
| Bilinear.ReachableCases | graphics/interp/bilinear.go:69-92 | inside the domain only the single-pixel, top-edge, left-edge and interior cases are taken |
| Bilinear.InteriorSquare | graphics/interp/bilinear.go:87-92 | the interior case is taken only between four distinct adjacent pixels |
| Bilinear.ConvexFractions | graphics/interp/bilinear.go:52-92 | inside the domain the four weights are non-negative and sum to 1 |
| Bilinear.InteriorFracsConvex | graphics/interp/bilinear.go:87-92 | the interior case's four area products are convex |
| Bilinear.MixBound | graphics/interp/bilinear.go:94-117 | with convex weights the weighted sum of four bytes lies in [0, 255] |
| Bilinear.MixOfUniform | graphics/interp/bilinear.go:94-117 | four equal bytes under convex weights mix to their value |
| Bilinear.Uint8 | graphics/interp/bilinear.go:120-123 | `uint8` of a float in [0, 256) truncates it |
| Bilinear.SampleAtCentre | graphics/interp/bilinear.go:18-124 | sampling at the centre of pixel (i, j) returns that pixel exactly |
| Bilinear.SampleOfUniform | graphics/interp/bilinear.go:18-124 | where the four neighbours agree, the sample is their value |
| Bilinear.CheckerboardPixels | graphics/scale_test.go:20-23 | the checkerboard holds 0x80 on its diagonal and 0 elsewhere |
| Bilinear.CheckerboardCentre | graphics/scale_test.go:15-27 | sampling the 2×2 checkerboard at (1, 1) gives 0x40 |
| Bilinear.CheckerboardTopEdge | graphics/scale_test.go:28-43 | sampling at (0.75, 0.25) gives 0x60 |
| Bilinear.CheckerboardInterior | graphics/scale_test.go:28-43 | sampling at (0.75, 0.75) gives 0x50 |
| Bilinear.CornerIndices | graphics/interp/bilinear.go:19-41 | the clamped corners as float64 values |
| Bilinear.Weights | graphics/interp/bilinear.go:52-92 | the weights of the first edge case whose test holds |
| Bilinear.Accumulate | graphics/interp/bilinear.go:94-117 | the four channel sums are the weighted mixes |
| Bilinear.SampleBytes | graphics/interp/bilinear.go:18-123 | the four bytes written are `Sample` of src at (sx, sy) |
| Bilinear.BinterpRGBA | graphics/interp/bilinear.go:18-124 | dst pixel (x, y) receives the sample of the old src; every other byte of dst is unchanged |
| Rotate.InSourceInDomain | graphics/rotate.go:40-47 | a point that passes the bounds test is inside the interpolator's domain |
| Rotate.CentreToCentre | graphics/rotate.go:23-38 | the centre of dst maps onto the centre of src, for any angle |
| Rotate.RotationKeepsLength | graphics/rotate.go:33-34 | with cos² + sin² = 1 the rotation keeps distance from the centre |
| Rotate.DistanceFromCentre | graphics/rotate.go:28-38 | a dst pixel centre and its source point are equally far from their images' centres |
| Rotate.OntoCentre | graphics/rotate.go:40-47 | a dst pixel whose source point is a source pixel's centre receives that pixel |
| Rotate.IdentityRotation | graphics/rotate.go:13-50 | angle 0 between images of one size copies the source |
| Rotate.HalfTurn | graphics/rotate.go:13-50 | a half turn between images of one size reverses both axes |
| Rotate.QuarterTurn | graphics/rotate.go:13-50 | a quarter turn onto transposed bounds maps (x, y) to source (y, width − 1 − x) |
| Rotate.MapPoint | graphics/rotate.go:27-38 | the source point of dst pixel (x, y) |
| Rotate.RotatePixel | graphics/rotate.go:27-47 | dst pixel (x, y) becomes `RotatedAt`: the interpolated sample, or its old value when the point is outside src |
| Rotate.RotateRow | graphics/rotate.go:26-48 | every pixel of row y becomes `RotatedAt`; nothing outside the row changes |
| Rotate.RotateNext | graphics/rotate.go:25-49 | with rows before y rotated, row y is rotated too; the padding and later bytes are kept |
| Rotate.RotateRGBA | graphics/rotate.go:13-50 | every dst pixel is `RotatedAt` for cos(angle) and sin(angle); the padding, later bytes and src are unchanged |
| Rotate.Rotate | graphics/rotate.go:59-87 | a missing dst or src does nothing; missing options mean angle 0; otherwise `rotateRGBA` |
| BlurVectors.TwoTapPass | graphics/blur.go:28-121 | one pass of a two-weight kernel [a, b] is (a + b folded in at an edge)·centre plus b times each neighbour present |
| BlurVectors.RedColumn | graphics/blur.go:28-81 | the vertical pass of a one-colour image with the σ = 0.34, size 1 kernel [65536, 867] |
| BlurVectors.RedRow | graphics/blur.go:83-121 | the horizontal pass of such an image |
| BlurVectors.RedBlur | graphics/blur.go:20-128 | the blurred red value is the accumulator plus kSum/2, divided by kSum = 4525252900 |
| BlurVectors.Dot3Vector | graphics/blur_test.go:84-97 | "3x3-dot": the blurred red channel is the expected grid |
| BlurVectors.Dot5Vector | graphics/blur_test.go:98-116 | "5x5-dot": the blurred red channel is the expected grid |
| BlurVectors.Box4Vector | graphics/blur_test.go:134-149 | "4x4-box": the blurred red channel is the expected grid |
| BlurVectors.TwoDots5Vector | graphics/blur_test.go:150-167 | "5x5-twodots": the blurred red channel is the expected grid |

## Left out

- The floating-point construction of the blur kernel (graphics/blur.go:14-19) is left out: the call `math.Pow(1/math.SqrtE, x*x) * (1 << 16)` (line 18) and its `uint64` conversion are not modelled, and the half kernel is an input of `Blur.BlurRGBA` and `Blur.Blur`. The kernel `[65536, 867]` of the test vectors is ⌊65536·e^(−(i/0.34)²/2)⌋ for i = 0, 1.
- Blur.Blur: requires the kernel to have size+1 weights and a positive centre weight. These are properties of the float kernel the source builds and are not derived here.
- Blur.BlurRGBA: requires dst's store to cover src's rectangle with its stride (`Fits`, so 4·width ≤ stride). The source writes dst at `y*dst.Stride + x*4` (graphics/blur.go:124-128): a store that is too short panics there, and a narrower stride writes across rows. Both cases are excluded rather than modelled.
- Blur.Blur: requires a size of at least 0. A negative size panics in `make` or at `kernel[0]` (graphics/blur.go:15, 25), and that panic is not modelled.
- Blur.BlurRGBA: `uint64` accumulator wrap-around is not modelled. The accumulators are unbounded naturals, and `BlurNoWrap` shows the values stay within 255·kSum.
- Blur.BlurParameters: `DefaultStdDev` is a mutable package variable in the source and is a constant here.
- `float64` rounding is not modelled: the convolution, the interpolator and the rotation compute in exact reals.
- `math.Cos` and `math.Sin` are function parameters of `Rotate.RotateRGBA`. The geometric lemmas assume cos² + sin² = 1 where they need it.
- The conversion of a non-RGBA image through `draw.Draw`/`image.NewRGBA` in `Blur`, `Convolve` and `Rotate` is left out: images are RGBA throughout. Two consequences of that code are therefore not modelled.
  - In `Convolve`, `srcRgba, ok :=` (graphics/convolve.go:165) reassigns the `ok` of line 160. So the final copy into dst (lines 179-181) depends on src's type, not dst's. When dst is not RGBA but src is, the result never reaches dst.
  - `Blur` (graphics/blur.go:158-168) declares in the opposite order and copies back correctly.
- Non-zero rectangle origins are left out: every image has its origin at (0, 0).
- Panics are modelled as error results (`ConvolveError`) or as preconditions:
  - an invalid kernel gives `InvalidKernel`;
  - the panicking `SeparableKernel.Weights` / non-separable path gives `Unimplemented`.
- Convolve.ConvolveRGBASep: requires src's store to cover dst's rectangle with its stride (`Fits`, so 4·dst.width ≤ src.stride). The source reads src at dst's coordinates, `y*src.Stride + x*4 ± i*src.Stride` (graphics/convolve.go:53, 62, 68-74). A store that is too short panics there, and a stride below 4·dst.width reads across src's rows. Both cases are excluded rather than modelled.
- Bilinear.BinterpRGBA: requires the point to lie in the domain where the source's indexing stays inside the image. Outside it the source reads out of range or panics.
- Rotate.RotateRGBA: requires dst and src not to share their pixel store. An in-place rotation would read pixels it has already written.
- The rotation calls the package-level `binterpRGBA` at graphics/rotate.go:47. That function is not among the files modelled here, and the model assumes it behaves as `interp.BinterpRGBA`.
- The order in which pixels are visited (row-major, each once) is reflected only in the final state each pass promises, not as a trace.
- graphics/scale.go, the affine transforms, the test I/O and the test harness are not part of this model.
- The blur vectors with σ = 0.83 and 0.85 ("5x5-dot-spread" and the blank ones) use kernels not computed here. The blank ones are covered for every kernel by `Blur.BlurUniform`.
- `TestConvolve`'s comparison of a separable and a dense kernel on an image file is left out. The dense path is not implemented in the source.

## Findings

| source | as written | input that shows it | evidently intended | confidence | as-written member | corrected member |
|---|---|---|---|---|---|---|
| graphics/convolve.go:62 | the vertical pass starts its centre weight at `k.X[radius]` | X = (1/4, 1/2, 1/4), Y = (0, 1, 0) on a uniform image of value 200: every output byte is 100 | the vertical pass uses `k.Y[radius]`, so a kernel whose vectors each sum to 1 keeps a uniform image | not executed | Convolve.WrittenCentreHalves | Convolve.IntendedKeepsUniform |

`Convolve.ConvolveRGBASep` models the code as written. `Convolve.Convolve` calls it, as graphics/convolve.go:174 does. `Convolve.ConvolveRGBASepIntended` uses the corrected centre weight, and `Convolve.ConvolveIntended` is the dispatch onto it.
