/** The average colour of the screen above the light sensor. */
module AreaCapture {
  import opened Basics
  import RealFacts

  type u8 = x: int | 0 <= x < 256

  const UINT32: int := 0x1_0000_0000

  /** Average red, green and blue. */
  datatype Rgb = Rgb(r: real, g: real, b: real)

  /** A locked RGBA_8888 buffer: rows of `stride` pixels of four bytes, `width` of them visible. */
  predicate Fits(out: seq<u8>, width: nat, height: nat, stride: nat) {
    width <= stride && height * (stride * 4) <= |out|
  }

  /** The byte of channel `c` of the pixel in column `x` of row `y`, as the code addresses it: in uint32. */
  function Index(stride: nat, x: nat, y: nat, c: nat): nat {
    (y * (stride * 4) + x * 4 + c) % UINT32
  }

  // ---- The mathematical sums ----

  function RowSum(out: seq<u8>, start: nat, n: nat, c: nat): nat
    requires start + n * 4 <= |out| && c < 4
  {
    if n == 0 then 0 else RowSum(out, start, n - 1, c) + out[start + (n - 1) * 4 + c]
  }

  lemma RowsFit(height: nat, stride: nat, y: nat, width: nat)
    requires y < height && width <= stride
    ensures y * (stride * 4) + width * 4 <= height * (stride * 4)
  {
    assert (y + 1) * (stride * 4) <= height * (stride * 4);
    assert (y + 1) * (stride * 4) == y * (stride * 4) + stride * 4;
  }

  function ChannelSum(out: seq<u8>, width: nat, height: nat, stride: nat, rows: nat, c: nat): nat
    requires Fits(out, width, height, stride) && rows <= height && c < 4
  {
    if rows == 0 then 0
    else
      RowsFit(height, stride, rows - 1, width);
      ChannelSum(out, width, height, stride, rows - 1, c) + RowSum(out, (rows - 1) * (stride * 4), width, c)
  }

  lemma {:induction false} RowSumBound(out: seq<u8>, start: nat, n: nat, c: nat)
    requires start + n * 4 <= |out| && c < 4
    ensures RowSum(out, start, n, c) <= 255 * n
  {
    if n > 0 {
      RowSumBound(out, start, n - 1, c);
    }
  }

  lemma {:induction false} ChannelSumBound(out: seq<u8>, width: nat, height: nat, stride: nat, rows: nat, c: nat)
    requires Fits(out, width, height, stride) && rows <= height && c < 4
    ensures ChannelSum(out, width, height, stride, rows, c) <= 255 * (rows * width)
  {
    if rows > 0 {
      RowsFit(height, stride, rows - 1, width);
      ChannelSumBound(out, width, height, stride, rows - 1, c);
      RowSumBound(out, (rows - 1) * (stride * 4), width, c);
      assert rows * width == (rows - 1) * width + width;
    }
  }

  /** What the code has summed up of channel `c` before it reaches column `x` of row `y`. */
  function SumSoFar(out: seq<u8>, width: nat, height: nat, stride: nat, y: nat, x: nat, c: nat): nat
    requires Fits(out, width, height, stride) && y < height && x <= width && c < 4
  {
    RowsFit(height, stride, y, width);
    ChannelSum(out, width, height, stride, y, c) + RowSum(out, y * (stride * 4), x, c)
  }

  lemma AddressDoesNotWrap(width: nat, height: nat, stride: nat, y: nat, x: nat, c: nat)
    requires width <= stride && height * (stride * 4) <= UINT32 && y < height && x < width && c < 4
    ensures Index(stride, x, y, c) == y * (stride * 4) + x * 4 + c < height * (stride * 4)
  {
    RowsFit(height, stride, y, width);
  }

  lemma WrappedAdd(sum: nat, b: u8)
    ensures (sum % UINT32 + b) % UINT32 == (sum + b) % UINT32
  {
  }

  lemma NextColumn(out: seq<u8>, width: nat, height: nat, stride: nat, y: nat, x: nat, c: nat)
    requires Fits(out, width, height, stride) && y < height && x < width && c < 4
    ensures y * (stride * 4) + x * 4 + c < |out|
    ensures SumSoFar(out, width, height, stride, y, x + 1, c)
         == SumSoFar(out, width, height, stride, y, x, c) + out[y * (stride * 4) + x * 4 + c]
  {
    RowsFit(height, stride, y, width);
  }

  /** One more pixel: the 32-bit address is the pixel's and within the buffer, and the 32-bit sum is the
      mathematical one modulo two to the power 32. */
  lemma PixelAdds(out: seq<u8>, width: nat, height: nat, stride: nat, y: nat, x: nat, c: nat)
    requires Fits(out, width, height, stride) && height * (stride * 4) <= UINT32
    requires y < height && x < width && c < 4
    ensures Index(stride, x, y, c) < |out|
    ensures (SumSoFar(out, width, height, stride, y, x, c) % UINT32 + out[Index(stride, x, y, c)]) % UINT32
         == SumSoFar(out, width, height, stride, y, x + 1, c) % UINT32
  {
    AddressDoesNotWrap(width, height, stride, y, x, c);
    NextColumn(out, width, height, stride, y, x, c);
    WrappedAdd(SumSoFar(out, width, height, stride, y, x, c), out[Index(stride, x, y, c)]);
  }

  lemma PixelAddsAll(out: seq<u8>, width: nat, height: nat, stride: nat, y: nat, x: nat)
    requires Fits(out, width, height, stride) && height * (stride * 4) <= UINT32
    requires y < height && x < width
    ensures forall c: nat | c < 4 ::
              && Index(stride, x, y, c) < |out|
              && (SumSoFar(out, width, height, stride, y, x, c) % UINT32 + out[Index(stride, x, y, c)]) % UINT32
                 == SumSoFar(out, width, height, stride, y, x + 1, c) % UINT32
  {
    forall c: nat | c < 4 {
      PixelAdds(out, width, height, stride, y, x, c);
    }
  }

  /** The quotient of the 32-bit sum of channel `c` and the number of visible pixels. */
  function Average(out: seq<u8>, width: nat, height: nat, stride: nat, c: nat): real
    requires Fits(out, width, height, stride) && width * height > 0 && c < 4
  {
    (ChannelSum(out, width, height, stride, height, c) % UINT32) as real / (width * height) as real
  }

  /** Every access is in bounds, and the result is the average of each channel of the visible pixels. `None` stands
      for the three not-a-numbers that an empty area gives. */
  method GetAreaBrightness(out: array<u8>, width: nat, height: nat, stride: nat) returns (result: Option<Rgb>)
    requires Fits(out[..], width, height, stride) && height * (stride * 4) <= UINT32
    ensures result == if width * height == 0 then None
                      else Some(Rgb(Average(out[..], width, height, stride, 0),
                                    Average(out[..], width, height, stride, 1),
                                    Average(out[..], width, height, stride, 2)))
  {
    var rsum, gsum, bsum := 0, 0, 0;
    ghost var buffer := out[..];
    for y := 0 to height
      invariant rsum == ChannelSum(buffer, width, height, stride, y, 0) % UINT32
      invariant gsum == ChannelSum(buffer, width, height, stride, y, 1) % UINT32
      invariant bsum == ChannelSum(buffer, width, height, stride, y, 2) % UINT32
    {
      for x := 0 to width
        invariant rsum == SumSoFar(buffer, width, height, stride, y, x, 0) % UINT32
        invariant gsum == SumSoFar(buffer, width, height, stride, y, x, 1) % UINT32
        invariant bsum == SumSoFar(buffer, width, height, stride, y, x, 2) % UINT32
      {
        PixelAddsAll(buffer, width, height, stride, y, x);
        rsum := (rsum + out[Index(stride, x, y, 0)]) % UINT32;
        gsum := (gsum + out[Index(stride, x, y, 1)]) % UINT32;
        bsum := (bsum + out[Index(stride, x, y, 2)]) % UINT32;
      }
    }
    var max := (width * height) as real;
    if max == 0.0 {
      return None;
    }
    return Some(Rgb(rsum as real / max, gsum as real / max, bsum as real / max));
  }

  // ---- What the average means ----

  /** Channel `c` of the pixel in column `x` of row `y`. */
  function Pixel(a: seq<u8>, stride: nat, width: nat, height: nat, y: nat, x: nat, c: nat): u8
    requires Fits(a, width, height, stride) && y < height && x < width && c < 4
  {
    RowsFit(height, stride, y, width);
    a[y * (stride * 4) + x * 4 + c]
  }

  /** Channel `c` of the first `rows` pixels of column `x`. */
  function ColumnSum(a: seq<u8>, stride: nat, width: nat, height: nat, rows: nat, x: nat, c: nat): nat
    requires Fits(a, width, height, stride) && rows <= height && x < width && c < 4
  {
    if rows == 0 then 0
    else ColumnSum(a, stride, width, height, rows - 1, x, c) + Pixel(a, stride, width, height, rows - 1, x, c)
  }

  /** Channel `c` of all visible pixels: the sum over the first `columns` columns of the sums over the first `rows`
      rows, each pixel once. */
  function PixelTotal(a: seq<u8>, stride: nat, width: nat, height: nat, rows: nat, columns: nat, c: nat): nat
    requires Fits(a, width, height, stride) && rows <= height && columns <= width && c < 4
  {
    if columns == 0 then 0
    else PixelTotal(a, stride, width, height, rows, columns - 1, c) + ColumnSum(a, stride, width, height, rows, columns - 1, c)
  }

  lemma {:induction false} OneMoreRow(a: seq<u8>, stride: nat, width: nat, height: nat, row: nat, columns: nat, c: nat)
    requires Fits(a, width, height, stride) && row < height && columns <= width && c < 4
    ensures row * (stride * 4) + columns * 4 <= |a|
    ensures PixelTotal(a, stride, width, height, row + 1, columns, c)
         == PixelTotal(a, stride, width, height, row, columns, c) + RowSum(a, row * (stride * 4), columns, c)
  {
    RowsFit(height, stride, row, width);
    if columns > 0 {
      OneMoreRow(a, stride, width, height, row, columns - 1, c);
    }
  }

  lemma {:induction false} NoRows(a: seq<u8>, stride: nat, width: nat, height: nat, columns: nat, c: nat)
    requires Fits(a, width, height, stride) && columns <= width && c < 4
    ensures PixelTotal(a, stride, width, height, 0, columns, c) == 0
  {
    if columns > 0 {
      NoRows(a, stride, width, height, columns - 1, c);
    }
  }

  /** Summing row by row, as the loops do, visits every visible pixel once: it is the sum column by column. */
  lemma {:induction false} SumIsPixelTotal(a: seq<u8>, stride: nat, width: nat, height: nat, rows: nat, c: nat)
    requires Fits(a, width, height, stride) && rows <= height && c < 4
    ensures ChannelSum(a, width, height, stride, rows, c) == PixelTotal(a, stride, width, height, rows, width, c)
  {
    if rows == 0 {
      NoRows(a, stride, width, height, width, c);
    } else {
      SumIsPixelTotal(a, stride, width, height, rows - 1, c);
      OneMoreRow(a, stride, width, height, rows - 1, width, c);
    }
  }

  /** The mean of channel `c` over the visible pixels. */
  function Mean(out: seq<u8>, width: nat, height: nat, stride: nat, c: nat): real
    requires Fits(out, width, height, stride) && width * height > 0 && c < 4
  {
    PixelTotal(out, stride, width, height, height, width, c) as real / (width * height) as real
  }

  /** With at most 16843009 pixels no sum wraps: whatever is on the screen, the average is the mean. */
  lemma AverageIsMean(out: seq<u8>, width: nat, height: nat, stride: nat, c: nat)
    requires Fits(out, width, height, stride) && 0 < width * height <= 16843009 && c < 4
    ensures Average(out, width, height, stride, c) == Mean(out, width, height, stride, c)
  {
    ChannelSumBound(out, width, height, stride, height, c);
    assert height * width == width * height;
    SumIsPixelTotal(out, stride, width, height, height, c);
    BytesFit(ChannelSum(out, width, height, stride, height, c), width * height);
  }

  lemma BytesFit(sum: nat, n: nat)
    requires sum <= 255 * n && n <= 16843009
    ensures sum % UINT32 == sum
  {
  }

  /** Even a wrapped sum keeps the average of a channel within the range of a byte. */
  lemma AverageInByteRange(out: seq<u8>, width: nat, height: nat, stride: nat, c: nat)
    requires Fits(out, width, height, stride) && width * height > 0 && c < 4
    ensures 0.0 <= Average(out, width, height, stride, c) <= 255.0
  {
    var sum, n := ChannelSum(out, width, height, stride, height, c), width * height;
    ChannelSumBound(out, width, height, stride, height, c);
    assert height * width == n;
    assert sum % UINT32 <= sum;
    RealFacts.QuotientBound((sum % UINT32) as real, n as real);
  }

  // ---- Padding and alpha ----

  /** The two buffers show the same colours, whatever their strides, row padding and alpha bytes. */
  ghost predicate SameColours(a: seq<u8>, strideA: nat, b: seq<u8>, strideB: nat, width: nat, height: nat)
    requires Fits(a, width, height, strideA) && Fits(b, width, height, strideB)
  {
    forall y, x, c | 0 <= y < height && 0 <= x < width && 0 <= c < 3 ::
      Pixel(a, strideA, width, height, y, x, c) == Pixel(b, strideB, width, height, y, x, c)
  }

  lemma {:induction false} SameRows(a: seq<u8>, strideA: nat, b: seq<u8>, strideB: nat, width: nat, height: nat, y: nat, n: nat, c: nat)
    requires Fits(a, width, height, strideA) && Fits(b, width, height, strideB)
    requires SameColours(a, strideA, b, strideB, width, height) && y < height && n <= width && c < 3
    ensures y * (strideA * 4) + n * 4 <= |a| && y * (strideB * 4) + n * 4 <= |b|
    ensures RowSum(a, y * (strideA * 4), n, c) == RowSum(b, y * (strideB * 4), n, c)
  {
    RowsFit(height, strideA, y, width);
    RowsFit(height, strideB, y, width);
    if n > 0 {
      SameRows(a, strideA, b, strideB, width, height, y, n - 1, c);
      assert Pixel(a, strideA, width, height, y, n - 1, c) == Pixel(b, strideB, width, height, y, n - 1, c);
    }
  }

  lemma {:induction false} SameSums(a: seq<u8>, strideA: nat, b: seq<u8>, strideB: nat, width: nat, height: nat, rows: nat, c: nat)
    requires Fits(a, width, height, strideA) && Fits(b, width, height, strideB)
    requires SameColours(a, strideA, b, strideB, width, height) && rows <= height && c < 3
    ensures ChannelSum(a, width, height, strideA, rows, c) == ChannelSum(b, width, height, strideB, rows, c)
  {
    if rows > 0 {
      SameSums(a, strideA, b, strideB, width, height, rows - 1, c);
      SameRows(a, strideA, b, strideB, width, height, rows - 1, width, c);
    }
  }

  /** The average depends on the visible colours alone. */
  lemma PaddingAndAlphaDoNotMatter(a: seq<u8>, strideA: nat, b: seq<u8>, strideB: nat, width: nat, height: nat, c: nat)
    requires Fits(a, width, height, strideA) && Fits(b, width, height, strideB)
    requires SameColours(a, strideA, b, strideB, width, height) && width * height > 0 && c < 3
    ensures Average(a, width, height, strideA, c) == Average(b, width, height, strideB, c)
  {
    SameSums(a, strideA, b, strideB, width, height, height, c);
  }

  // ---- The bound on the area is exact ----

  lemma {:induction false} WhiteRowSum(out: seq<u8>, start: nat, n: nat, c: nat)
    requires start + n * 4 <= |out| && c < 4 && forall i | 0 <= i < |out| :: out[i] == 255
    ensures RowSum(out, start, n, c) == 255 * n
  {
    if n > 0 {
      WhiteRowSum(out, start, n - 1, c);
    }
  }

  lemma {:induction false} WhiteSum(out: seq<u8>, width: nat, height: nat, stride: nat, rows: nat, c: nat)
    requires Fits(out, width, height, stride) && rows <= height && c < 4 && forall i | 0 <= i < |out| :: out[i] == 255
    ensures ChannelSum(out, width, height, stride, rows, c) == 255 * (rows * width)
  {
    if rows > 0 {
      RowsFit(height, stride, rows - 1, width);
      WhiteSum(out, width, height, stride, rows - 1, c);
      WhiteRowSum(out, (rows - 1) * (stride * 4), width, c);
      assert rows * width == (rows - 1) * width + width;
    }
  }

  lemma QuotientsDiffer(a: nat, b: nat, n: nat)
    requires n > 0
    ensures a as real / n as real == b as real / n as real <==> a == b
  {
    assert a as real / n as real * n as real == a as real;
    assert b as real / n as real * n as real == b as real;
  }

  /** 16843009 pixels is the exact limit: on a white screen the average is the mean if and only if the area is
      no larger. */
  lemma AreaLimitIsExact(out: seq<u8>, width: nat, height: nat, stride: nat, c: nat)
    requires Fits(out, width, height, stride) && width * height > 0 && c < 4
    requires forall i | 0 <= i < |out| :: out[i] == 255
    ensures Average(out, width, height, stride, c) == Mean(out, width, height, stride, c) <==> width * height <= 16843009
  {
    WhiteSum(out, width, height, stride, height, c);
    SumIsPixelTotal(out, stride, width, height, height, c);
    assert height * width == width * height;
    var sum := ChannelSum(out, width, height, stride, height, c);
    QuotientsDiffer(sum % UINT32, sum, width * height);
  }
}
