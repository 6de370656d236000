/** The RGBA pixel store shared by the blur, the convolution, the bilinear
    interpolator and the rotation: a contiguous byte slice, a row stride and a
    zero-origin rectangle of width × height pixels. Channel c of pixel (x, y)
    lives at byte y·stride + x·4 + c. */
module Pixels {

  /** One 8-bit channel value (Go `uint8`). */
  type Byte = b: int | 0 <= b < 256

  /** Go's `uint8(n)` conversion of a non-negative integer: wraps modulo 256. */
  function WrapByte(n: nat): (b: Byte)
    ensures n < 256 ==> b == n
  {
    n % 256
  }

  /** The least integer not below v (math.Ceil on exact reals). */
  function Ceil(v: real): (n: int)
    ensures v <= n as real < v + 1.0
  {
    -((-v).Floor)
  }

  /** Byte offset of channel c of pixel (x, y) in a zero-origin store. */
  function Offset(stride: nat, x: nat, y: nat, c: nat): nat
  {
    y * stride + x * 4 + c
  }

  /** A store of `len` bytes holds width × height pixels `stride` bytes apart:
      every row holds 4·width bytes and the last row ends inside the store. */
  predicate Fits(len: nat, stride: nat, width: nat, height: nat)
  {
    4 * width <= stride && (height == 0 || (height - 1) * stride + 4 * width <= len)
  }

  lemma MulLeft(a: nat, b: nat, k: nat)
    requires a <= b
    ensures a * k <= b * k
  {
  }

  /** Every channel offset of every pixel of a fitting store is inside it. */
  lemma AllOffsetsInRange(len: nat, stride: nat, width: nat, height: nat)
    requires Fits(len, stride, width, height)
    ensures forall x: nat, y: nat, c: nat :: x < width && y < height && c < 4 ==> Offset(stride, x, y, c) < len
  {
    forall x: nat, y: nat, c: nat | x < width && y < height && c < 4
      ensures Offset(stride, x, y, c) < len
    {
      OffsetInRange(len, stride, width, height, x, y, c);
    }
  }

  /** One channel offset of a pixel of a fitting store is inside it. */
  lemma OffsetInRange(len: nat, stride: nat, width: nat, height: nat, x: nat, y: nat, c: nat)
    requires Fits(len, stride, width, height)
    requires x < width && y < height && c < 4
    ensures Offset(stride, x, y, c) < len
  {
    MulLeft(y, height - 1, stride);
  }

  /** Pixels of earlier rows lie before the start of row y. */
  lemma EarlierRow(stride: nat, width: nat, x: nat, y': nat, c: nat, y: nat)
    requires 4 * width <= stride && y' < y
    requires (x < width && c < 4) || (x == width && c < stride - 4 * width)
    ensures Offset(stride, x, y', c) < y * stride
  {
    MulLeft(y' + 1, y, stride);
    NextRow(stride, y');
  }

  /** The row after y starts where row y's own stride ends. */
  lemma NextRow(stride: nat, y: nat)
    ensures (y + 1) * stride == y * stride + stride
  {
  }

  /** Stepping i rows up from the start of pixel (x, y). */
  lemma RowsBack(stride: nat, x: nat, y: nat, i: nat)
    requires i <= y
    ensures y * stride + x * 4 - i * stride == Offset(stride, x, y - i, 0)
  {
    assert (y - i) * stride == y * stride - i * stride;
  }

  /** Stepping i rows down from the start of pixel (x, y). */
  lemma RowsAhead(stride: nat, x: nat, y: nat, i: nat)
    ensures y * stride + x * 4 + i * stride == Offset(stride, x, y + i, 0)
  {
    assert (y + i) * stride == y * stride + i * stride;
  }

  /** The offset the packed buffers compute for pixel (x, y). */
  lemma PackedOffset(width: nat, x: nat, y: nat)
    ensures y * width * 4 + x * 4 == Offset(4 * width, x, y, 0)
  {
    assert y * width * 4 == y * (4 * width);
  }

  /** The intermediate buffers of the two-pass filters: width·height·4
      values, rows packed without padding. */
  lemma PackedFits(width: nat, height: nat)
    ensures Fits(width * height * 4, 4 * width, width, height)
  {
    if height > 0 {
      assert (height - 1) * (4 * width) + 4 * width == width * height * 4;
    }
  }

  /** A smaller zero-origin window of a fitting store fits too. */
  lemma FitsWindow(len: nat, stride: nat, width: nat, height: nat, w: nat, h: nat)
    requires Fits(len, stride, width, height) && w <= width && h <= height
    ensures Fits(len, stride, w, h)
  {
    if h > 0 {
      MulLeft(h - 1, height - 1, stride);
    }
  }

  /** An immutable pixel store: the value a source image is read as. */
  datatype Raster = Raster(pix: seq<Byte>, stride: nat, width: nat, height: nat)
  {
    predicate Valid()
    {
      Fits(|pix|, stride, width, height)
    }

    /** Channel c of pixel (x, y). */
    function At(x: nat, y: nat, c: nat): Byte
      requires Valid() && x < width && y < height && c < 4
    {
      OffsetInRange(|pix|, stride, width, height, x, y, c);
      pix[Offset(stride, x, y, c)]
    }

    /** The same bytes read through a smaller zero-origin rectangle. */
    function Window(w: nat, h: nat): (r: Raster)
      requires Valid() && w <= width && h <= height
      ensures r.Valid() && r.width == w && r.height == h
      ensures forall x: nat, y: nat, c: nat :: x < w && y < h && c < 4 ==> r.At(x, y, c) == At(x, y, c)
    {
      FitsWindow(|pix|, stride, width, height, w, h);
      Raster(pix, stride, w, h)
    }
  }

  /** Go's `*image.RGBA` with zero-origin bounds: the Pix slice (the only part
      that is ever written), the stride and the size of the rectangle. */
  datatype Image = Image(pix: array<Byte>, stride: nat, width: nat, height: nat)
  {
    predicate Valid()
    {
      Fits(pix.Length, stride, width, height)
    }

    /** The current bytes of the image, as a value. */
    function Contents(): (r: Raster)
      reads pix
      ensures r.pix == pix[..] && r.stride == stride && r.width == width && r.height == height
      ensures Valid() ==> r.Valid()
    {
      Raster(pix[..], stride, width, height)
    }
  }

  /** Every byte at offset `lo` or later is as it was in `before`. */
  ghost predicate KeptFrom<T>(now: seq<T>, before: seq<T>, lo: int)
  {
    |now| == |before| && forall off :: 0 <= off && lo <= off < |now| ==> now[off] == before[off]
  }

  /** Every byte outside offsets lo..hi-1 is as in `before`. */
  ghost predicate KeptOutside<T>(now: seq<T>, before: seq<T>, lo: int, hi: int)
  {
    |now| == |before| && forall off :: 0 <= off < |now| && (off < lo || hi <= off) ==> now[off] == before[off]
  }

  /** A pixel of an earlier row than the changed row y keeps its channels. */
  lemma EarlierPixelKept(now: seq<Byte>, before: seq<Byte>, stride: nat, width: nat, height: nat,
                         x: nat, y': nat, c: nat, y: nat)
    requires Fits(|before|, stride, width, height) && x < width && y' < y < height && c < 4
    requires KeptOutside(now, before, y * stride, y * stride + 4 * width)
    ensures Raster(now, stride, width, height).At(x, y', c) == Raster(before, stride, width, height).At(x, y', c)
  {
    EarlierRow(stride, width, x, y', c, y);
    OffsetInRange(|before|, stride, width, height, x, y', c);
    var off := Offset(stride, x, y', c);
    assert off < y * stride;
    assert now[off] == before[off];
  }

  /** A pixel of row y or later keeps its channels while every byte from
      row y on is kept. */
  lemma LaterPixelKept(now: seq<Byte>, before: seq<Byte>, stride: nat, width: nat, height: nat,
                       x: nat, y: nat, c: nat)
    requires Fits(|before|, stride, width, height) && x < width && y < height && c < 4
    requires KeptFrom(now, before, y * stride)
    ensures Raster(now, stride, width, height).At(x, y, c) == Raster(before, stride, width, height).At(x, y, c)
  {
    OffsetInRange(|before|, stride, width, height, x, y, c);
    var off := Offset(stride, x, y, c);
    assert y * stride <= off;
    assert now[off] == before[off];
  }

  /** The bytes of each of the first `rows` rows that lie right of the first
      `width` pixels (the rest of the row's stride) are as in `before`. */
  ghost predicate PaddingKept<T>(now: seq<T>, before: seq<T>, stride: nat, width: nat, rows: nat)
  {
    |now| == |before| &&
    forall y: nat, k: nat :: y < rows && k < stride - 4 * width && Offset(stride, width, y, k) < |now| ==>
      now[Offset(stride, width, y, k)] == before[Offset(stride, width, y, k)]
  }

  /** Closing a row: once the pixels of row y are written, and nothing before
      row y nor after its last pixel changed, the padding of rows 0..y and
      every byte from row y+1 on are as in `before`. */
  lemma CloseRow<T>(now: seq<T>, rowStart: seq<T>, before: seq<T>, stride: nat, width: nat, y: nat)
    requires 4 * width <= stride
    requires |now| == |rowStart| == |before|
    requires forall off :: 0 <= off < y * stride && off < |now| ==> now[off] == rowStart[off]
    requires KeptFrom(now, before, Offset(stride, width, y, 0))
    requires PaddingKept(rowStart, before, stride, width, y)
    ensures PaddingKept(now, before, stride, width, y + 1)
    ensures KeptFrom(now, before, (y + 1) * stride)
  {
    NextRow(stride, y);
    forall y': nat, k: nat | y' < y + 1 && k < stride - 4 * width && Offset(stride, width, y', k) < |now|
      ensures now[Offset(stride, width, y', k)] == before[Offset(stride, width, y', k)]
    {
      if y' < y {
        EarlierRow(stride, width, width, y', k, y);
      }
    }
  }

  // ---------------------------------------------------------------------
  // Reading and writing pixels

  /** Reads a zero-origin width × height rectangle of an image's current bytes. */
  function View(img: Image, width: nat, height: nat): (r: Raster)
    reads img.pix
    ensures r.pix == img.pix[..] && r.stride == img.stride && r.width == width && r.height == height
  {
    Raster(img.pix[..], img.stride, width, height)
  }

  /** Channel c of row y of a width × height buffer whose rows are packed
      4·width values apart, as the intermediate buffers of the two-pass filters are. */
  function PackedRow<T>(buf: seq<T>, width: nat, height: nat, y: nat, c: nat): (row: seq<T>)
    requires |buf| == width * height * 4 && y < height && c < 4
    ensures |row| == width
    ensures forall x :: 0 <= x < width ==> Offset(4 * width, x, y, c) < |buf| && row[x] == buf[Offset(4 * width, x, y, c)]
  {
    PackedFits(width, height);
    AllOffsetsInRange(|buf|, 4 * width, width, height);
    seq(width, x requires 0 <= x < width => buf[Offset(4 * width, x, y, c)])
  }

  /** The four channels of pixel (x, y), read at its byte offset o. */
  method ReadPixel(img: Image, o: nat, x: nat, y: nat) returns (r: Byte, g: Byte, b: Byte, a: Byte)
    requires img.Valid() && x < img.width && y < img.height && o == Offset(img.stride, x, y, 0)
    ensures r == img.Contents().At(x, y, 0) && g == img.Contents().At(x, y, 1)
    ensures b == img.Contents().At(x, y, 2) && a == img.Contents().At(x, y, 3)
  {
    OffsetInRange(img.pix.Length, img.stride, img.width, img.height, x, y, 3);
    r, g, b, a := img.pix[o + 0], img.pix[o + 1], img.pix[o + 2], img.pix[o + 3];
  }

  /** Stores the four channels of one pixel at byte offset o. */
  method WritePixel(dst: Image, o: nat, r: Byte, g: Byte, b: Byte, a: Byte)
    requires o + 3 < dst.pix.Length
    modifies dst.pix
    ensures dst.pix[..] == old(dst.pix[..])[o := r][o + 1 := g][o + 2 := b][o + 3 := a]
  {
    dst.pix[o + 0] := r;
    dst.pix[o + 1] := g;
    dst.pix[o + 2] := b;
    dst.pix[o + 3] := a;
  }

  /** Stores the four channels of pixel (x, y) of a width × height
      rectangle at its byte offset o; every other pixel, and every byte
      outside the four written, is untouched. */
  method WritePixelAt(dst: Image, width: nat, height: nat, o: nat, x: nat, y: nat, r: Byte, g: Byte, b: Byte, a: Byte)
    requires Fits(dst.pix.Length, dst.stride, width, height) && x < width && y < height
    requires o == Offset(dst.stride, x, y, 0)
    modifies dst.pix
    ensures View(dst, width, height).At(x, y, 0) == r && View(dst, width, height).At(x, y, 1) == g
    ensures View(dst, width, height).At(x, y, 2) == b && View(dst, width, height).At(x, y, 3) == a
    ensures forall x': nat, c: nat :: x' < width && x' != x && c < 4 ==>
      View(dst, width, height).At(x', y, c) == old(View(dst, width, height)).At(x', y, c)
    ensures KeptOutside(dst.pix[..], old(dst.pix[..]), o, o + 4)
  {
    OffsetInRange(dst.pix.Length, dst.stride, width, height, x, y, 3);
    WritePixel(dst, o, r, g, b, a);
    forall x': nat, c: nat | x' < width && x' != x && c < 4
      ensures View(dst, width, height).At(x', y, c) == old(View(dst, width, height)).At(x', y, c)
    {
      OffsetInRange(dst.pix.Length, dst.stride, width, height, x', y, c);
    }
  }

  /** The four values of buffer pixel (x, y), read at its offset o. */
  method ReadPacked<T>(buf: array<T>, width: nat, height: nat, o: nat, x: nat, y: nat)
    returns (r: T, g: T, b: T, a: T)
    requires buf.Length == width * height * 4 && x < width && y < height && o == Offset(4 * width, x, y, 0)
    ensures r == PackedRow(buf[..], width, height, y, 0)[x] && g == PackedRow(buf[..], width, height, y, 1)[x]
    ensures b == PackedRow(buf[..], width, height, y, 2)[x] && a == PackedRow(buf[..], width, height, y, 3)[x]
  {
    PackedFits(width, height);
    OffsetInRange(buf.Length, 4 * width, width, height, x, y, 3);
    r, g, b, a := buf[o + 0], buf[o + 1], buf[o + 2], buf[o + 3];
  }

  /** Stores the four values of buffer pixel (x, y); every other value of
      the buffer is untouched. */
  method WritePacked<T>(buf: array<T>, width: nat, height: nat, x: nat, y: nat, r: T, g: T, b: T, a: T)
    requires buf.Length == width * height * 4 && x < width && y < height
    modifies buf
    ensures PackedRow(buf[..], width, height, y, 0)[x] == r && PackedRow(buf[..], width, height, y, 1)[x] == g
    ensures PackedRow(buf[..], width, height, y, 2)[x] == b && PackedRow(buf[..], width, height, y, 3)[x] == a
    ensures forall x': nat, c: nat :: x' < width && x' != x && c < 4 ==>
      PackedRow(buf[..], width, height, y, c)[x'] == PackedRow(old(buf[..]), width, height, y, c)[x']
    ensures KeptOutside(buf[..], old(buf[..]), Offset(4 * width, x, y, 0), Offset(4 * width, x, y, 4))
  {
    var o := y * width * 4 + x * 4;
    PackedOffset(width, x, y);
    PackedFits(width, height);
    OffsetInRange(buf.Length, 4 * width, width, height, x, y, 3);
    buf[o + 0] := r;
    buf[o + 1] := g;
    buf[o + 2] := b;
    buf[o + 3] := a;
  }

  /** A packed row that lies before every changed value is unchanged. */
  lemma PackedRowKept<T>(now: seq<T>, before: seq<T>, width: nat, height: nat, y': nat, y: nat, c: nat)
    requires |before| == width * height * 4 && y' < y < height && c < 4
    requires KeptOutside(now, before, y * (4 * width), y * (4 * width) + 4 * width)
    ensures PackedRow(now, width, height, y', c) == PackedRow(before, width, height, y', c)
  {
    forall x: nat | x < width
      ensures PackedRow(now, width, height, y', c)[x] == PackedRow(before, width, height, y', c)[x]
    {
      EarlierRow(4 * width, width, x, y', c, y);
    }
  }
}
