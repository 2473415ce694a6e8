/**
 * The CPU-side buffer work of a 3DS texture upload: rounding dimensions up
 * to powers of two, padding an image into a larger buffer, the tiled Morton
 * reorder the GPU expects, and the per-pixel byte rotation of the 32-bit path.
 */
module Texture3ds {
  import opened Wrappers
  import opened Common

  datatype TextureError =
    | TargetTooSmall      // padImage: the input is wider or taller than the target
    | NotMultipleOf8      // reverse_morton_order: a dimension is not a multiple of 8

  // ---------------------------------------------------------------------------
  // nextPowerOf2
  // ---------------------------------------------------------------------------

  /** Exactly one bit of `x` is set. */
  predicate IsPowerOfTwo(x: bv32)
  {
    x != 0 && x & (x - 1) == 0
  }

  /**
   * `nextPowerOf2` on a 32-bit `unsigned int`: zero gives one; otherwise the
   * bits below the highest set bit of `n - 1` are smeared right and one is
   * added. Above 2^31 there is no 32-bit power of two left and the sum wraps
   * to zero.
   */
  function NextPowerOf2(n: bv32): (r: bv32)
    ensures n == 0 ==> r == 1
    ensures 0 < n <= 0x8000_0000 ==> IsPowerOfTwo(r) && n <= r && r >> 1 < n
    ensures 0x8000_0000 < n ==> r == 0
  {
    if n == 0 then 1
    else
      var m := n - 1;
      var m1 := m | (m >> 1);
      var m2 := m1 | (m1 >> 2);
      var m4 := m2 | (m2 >> 4);
      var m8 := m4 | (m4 >> 8);
      var m16 := m8 | (m8 >> 16);
      m16 + 1
  }

  /** The result is the least power of two at or above `n`: no smaller one is. */
  lemma NextPowerOf2Least(n: bv32, p: bv32)
    requires 0 < n && IsPowerOfTwo(p) && n <= p
    ensures NextPowerOf2(n) <= p
  {
    var r := NextPowerOf2(n);
    assert IsPowerOfTwo(r) && r >> 1 < n;
  }

  /** A power of two is its own next power of two. */
  lemma NextPowerOf2Fixed(p: bv32)
    requires IsPowerOfTwo(p)
    ensures NextPowerOf2(p) == p
  {
    NextPowerOf2Least(p, p);
  }

  // ---------------------------------------------------------------------------
  // Row-major positions
  //
  // Buffers are rows of equal length. A position is counted row by row, so
  // the solver meets no product of two variables; `RowsIs` ties the count to
  // the multiplication the code performs.
  // ---------------------------------------------------------------------------

  /** The number of entries in `n` rows of `b` entries. */
  function Rows(n: nat, b: nat): nat
  {
    if n == 0 then 0 else Rows(n - 1, b) + b
  }

  lemma {:induction false} RowsIs(n: nat, b: nat)
    ensures Rows(n, b) == n * b
  {
    if n > 0 {
      RowsIs(n - 1, b);
    }
  }

  lemma {:induction false} RowsLe(a: nat, n: nat, b: nat)
    requires a <= n
    ensures Rows(a, b) <= Rows(n, b)
    decreases n
  {
    if a < n {
      RowsLe(a, n - 1, b);
    }
  }

  /** Entry `r` of row `q` when every row holds `b` entries. */
  function Mix(q: nat, r: nat, b: nat): nat
  {
    Rows(q, b) + r
  }

  /** A position in one of the first `n` rows lies before the end of row `n - 1`. */
  lemma MixBelow(q: nat, r: nat, b: nat, n: nat)
    requires q < n && r < b
    ensures Mix(q, r, b) < Rows(n, b)
  {
    RowsLe(q + 1, n, b);
  }

  /** The row a position lies in. */
  function RowOf(k: nat, b: nat): nat
    decreases k
  {
    if b == 0 || k < b then 0 else 1 + RowOf(k - b, b)
  }

  /** The column a position lies in. */
  function ColOf(k: nat, b: nat): nat
    decreases k
  {
    if b == 0 || k < b then k else ColOf(k - b, b)
  }

  /** Every position is some column of some row. */
  lemma {:induction false} MixSplit(k: nat, b: nat)
    requires 0 < b
    ensures ColOf(k, b) < b && Mix(RowOf(k, b), ColOf(k, b), b) == k
    decreases k
  {
    if b <= k {
      MixSplit(k - b, b);
    }
  }

  /** `MixSplit` for every position at once. */
  lemma MixSplitAll(b: nat)
    requires 0 < b
    ensures forall k: nat :: ColOf(k, b) < b && Mix(RowOf(k, b), ColOf(k, b), b) == k
  {
    forall k: nat
      ensures ColOf(k, b) < b && Mix(RowOf(k, b), ColOf(k, b), b) == k
    {
      MixSplit(k, b);
    }
  }

  /** Row `y` is the run of `b` positions that starts after `y` full rows. */
  lemma RowSpan(k: nat, y: nat, b: nat)
    requires 0 < b
    ensures RowOf(k, b) == y <==> Rows(y, b) <= k < Rows(y, b) + b
    ensures RowOf(k, b) == y ==> ColOf(k, b) == k - Rows(y, b)
  {
    MixSplit(k, b);
    if Rows(y, b) <= k < Rows(y, b) + b {
      MixParts(y, k - Rows(y, b), b);
    }
    if RowOf(k, b) < y {
      RowsLe(RowOf(k, b) + 1, y, b);
    } else if y < RowOf(k, b) {
      RowsLe(y + 1, RowOf(k, b), b);
    }
  }

  /** `RowSpan` for every position at once. */
  lemma RowSpanAll(y: nat, b: nat)
    requires 0 < b
    ensures forall k: nat :: (RowOf(k, b) == y <==> Rows(y, b) <= k < Rows(y, b) + b)
    ensures forall k: nat :: RowOf(k, b) == y ==> ColOf(k, b) == k - Rows(y, b)
  {
    forall k: nat
      ensures (RowOf(k, b) == y <==> Rows(y, b) <= k < Rows(y, b) + b)
      ensures RowOf(k, b) == y ==> ColOf(k, b) == k - Rows(y, b)
    {
      RowSpan(k, y, b);
    }
  }

  /** Row and column are read back from a position. */
  lemma {:induction false} MixParts(q: nat, r: nat, b: nat)
    requires r < b
    ensures RowOf(Mix(q, r, b), b) == q && ColOf(Mix(q, r, b), b) == r
  {
    if q > 0 {
      MixParts(q - 1, r, b);
    }
  }

  /** A position before the end of row `n - 1` is in one of the first `n` rows. */
  lemma MixRows(k: nat, b: nat, n: nat)
    requires k < Rows(n, b)
    ensures 0 < b && RowOf(k, b) < n
  {
    RowsLe(0, n, b);
    if b == 0 {
      RowsIs(n, b);
    } else {
      MixSplit(k, b);
      if n <= RowOf(k, b) {
        RowsLe(n, RowOf(k, b), b);
      }
    }
  }

  // ---------------------------------------------------------------------------
  // padImage
  // ---------------------------------------------------------------------------

  /**
   * The padded image: `targetHeight` rows of `targetWidth * bpp` bytes; the
   * first `inputWidth * bpp` bytes of each of the first `inputHeight` rows
   * hold the input row, every other byte is `pad`.
   */
  function Padded(image: seq<uint8>, inRow: nat, inputHeight: nat, outRow: nat, targetHeight: nat, pad: uint8)
    : (r: seq<uint8>)
    requires Rows(inputHeight, inRow) <= |image|
    ensures |r| == Rows(targetHeight, outRow)
  {
    seq(Rows(targetHeight, outRow), k requires 0 <= k => PaddedByte(image, inRow, inputHeight, outRow, pad, k))
  }

  /** Position `k` of the padded image: the input byte in the same row and column, or `pad`. */
  function PaddedByte(image: seq<uint8>, inRow: nat, inputHeight: nat, outRow: nat, pad: uint8, k: nat): uint8
    requires Rows(inputHeight, inRow) <= |image|
  {
    var y := RowOf(k, outRow);
    var x := ColOf(k, outRow);
    if y < inputHeight && x < inRow then
      MixBelow(y, x, inRow, inputHeight);
      image[Mix(y, x, inRow)]
    else pad
  }

  /**
   * Byte `x` of row `y` of the padded image is byte `x` of input row `y`
   * inside the input, and `pad` anywhere else.
   */
  lemma PaddedAt(image: seq<uint8>, inRow: nat, inputHeight: nat, outRow: nat, targetHeight: nat, pad: uint8,
                 y: nat, x: nat)
    requires Rows(inputHeight, inRow) <= |image|
    requires y < targetHeight && x < outRow
    ensures Mix(y, x, outRow) < Rows(targetHeight, outRow)
    ensures y < inputHeight && x < inRow ==> Mix(y, x, inRow) < |image|
    ensures Padded(image, inRow, inputHeight, outRow, targetHeight, pad)[Mix(y, x, outRow)] ==
            if y < inputHeight && x < inRow then image[Mix(y, x, inRow)] else pad
  {
    MixBelow(y, x, outRow, targetHeight);
    MixParts(y, x, outRow);
    if y < inputHeight && x < inRow {
      MixBelow(y, x, inRow, inputHeight);
    }
  }

  /** The input image cut back out of a padded buffer: the first `inRow` bytes of the first `inputHeight` rows. */
  function Cropped(padded: seq<uint8>, inRow: nat, inputHeight: nat, outRow: nat): (r: seq<uint8>)
    requires inRow <= outRow && Rows(inputHeight, outRow) <= |padded|
    ensures |r| == Rows(inputHeight, inRow)
  {
    seq(Rows(inputHeight, inRow), k requires 0 <= k < Rows(inputHeight, inRow) =>
      MixRows(k, inRow, inputHeight);
      MixSplit(k, inRow);
      MixBelow(RowOf(k, inRow), ColOf(k, inRow), outRow, inputHeight);
      padded[Mix(RowOf(k, inRow), ColOf(k, inRow), outRow)])
  }

  /** Padding loses nothing: cropping the padded buffer gives the input image back. */
  lemma CroppedPadded(image: seq<uint8>, inRow: nat, inputHeight: nat, outRow: nat, targetHeight: nat, pad: uint8)
    requires inRow <= outRow && inputHeight <= targetHeight
    requires Rows(inputHeight, inRow) == |image|
    ensures Rows(inputHeight, outRow) <= Rows(targetHeight, outRow)
    ensures Cropped(Padded(image, inRow, inputHeight, outRow, targetHeight, pad), inRow, inputHeight, outRow) == image
  {
    RowsLe(inputHeight, targetHeight, outRow);
    var padded := Padded(image, inRow, inputHeight, outRow, targetHeight, pad);
    var back := Cropped(padded, inRow, inputHeight, outRow);
    forall k | 0 <= k < |image|
      ensures back[k] == image[k]
    {
      MixRows(k, inRow, inputHeight);
      MixSplit(k, inRow);
      PaddedAt(image, inRow, inputHeight, outRow, targetHeight, pad, RowOf(k, inRow), ColOf(k, inRow));
    }
  }

  /**
   * `padImage`: the size check, a new buffer filled with `pad`, then each
   * input row copied to the start of its padded row.
   */
  method PadImage(image: seq<uint8>, inputWidth: uint16, inputHeight: uint16, bpp: uint8,
                  targetWidth: uint16, targetHeight: uint16, pad: uint8)
    returns (r: Result<array<uint8>, TextureError>)
    requires Rows(inputHeight, inputWidth * bpp) <= |image|
    ensures r.Err? <==> inputWidth > targetWidth || inputHeight > targetHeight
    ensures r.Err? ==> r.error == TargetTooSmall
    ensures r.Ok? ==> fresh(r.value) &&
                      r.value[..] == Padded(image, inputWidth * bpp, inputHeight, targetWidth * bpp, targetHeight, pad)
  {
    if inputWidth > targetWidth || inputHeight > targetHeight {
      return Err(TargetTooSmall);
    }
    var inputRowBytes := inputWidth * bpp;
    var targetRowBytes := targetWidth * bpp;
    var paddedImageSize := targetHeight * targetRowBytes;
    RowsIs(targetHeight, targetRowBytes);
    var paddedImage := new uint8[paddedImageSize](_ => pad);
    ghost var want := Padded(image, inputRowBytes, inputHeight, targetRowBytes, targetHeight, pad);
    RowsLe(inputWidth, targetWidth, bpp);
    RowsIs(inputWidth, bpp);
    RowsIs(targetWidth, bpp);
    var y := 0;
    while y < inputHeight
      invariant y <= inputHeight
      invariant forall k :: 0 <= k < paddedImageSize ==>
                  paddedImage[k] == if RowOf(k, targetRowBytes) < y then want[k] else pad
    {
      CopyInputRow(paddedImage, image, inputRowBytes, inputHeight, targetRowBytes, targetHeight, pad, y);
      y := y + 1;
    }
    r := Ok(paddedImage);
  }

  /** One pass of the row loop: input row `y` copied to the start of padded row `y`. */
  method CopyInputRow(padded: array<uint8>, image: seq<uint8>, inRow: nat, inputHeight: nat,
                      outRow: nat, targetHeight: nat, pad: uint8, y: nat)
    requires Rows(inputHeight, inRow) <= |image| && inRow <= outRow && y < inputHeight <= targetHeight
    requires padded.Length == Rows(targetHeight, outRow)
    requires forall k :: 0 <= k < padded.Length ==>
               padded[k] == if RowOf(k, outRow) < y then Padded(image, inRow, inputHeight, outRow, targetHeight, pad)[k] else pad
    modifies padded
    ensures forall k :: 0 <= k < padded.Length ==>
              padded[k] == if RowOf(k, outRow) < y + 1 then Padded(image, inRow, inputHeight, outRow, targetHeight, pad)[k] else pad
  {
    RowsLe(y + 1, targetHeight, outRow);
    RowsLe(y + 1, inputHeight, inRow);
    RowsIs(y, inRow);
    RowsIs(y, outRow);
    MemCopy(padded, y * outRow, image, y * inRow, inRow);
    forall k | 0 <= k < padded.Length
      ensures padded[k] == if RowOf(k, outRow) < y + 1 then Padded(image, inRow, inputHeight, outRow, targetHeight, pad)[k] else pad
    {
      PaddedRow(image, inRow, inputHeight, outRow, targetHeight, pad, y, k);
    }
  }

  /**
   * Position `k` against padded row `y`: inside the copied run it holds the
   * input byte the `memcpy` of that row puts there; elsewhere in the row it
   * holds `pad`; outside the row its row number is not `y`.
   */
  lemma PaddedRow(image: seq<uint8>, inRow: nat, inputHeight: nat, outRow: nat, targetHeight: nat, pad: uint8,
                  y: nat, k: nat)
    requires Rows(inputHeight, inRow) <= |image| && inRow <= outRow && y < inputHeight
    requires k < Rows(targetHeight, outRow)
    ensures var want := Padded(image, inRow, inputHeight, outRow, targetHeight, pad);
            var start := Rows(y, outRow);
            Rows(y, inRow) + inRow <= |image| &&
            (start <= k < start + inRow ==> want[k] == image[Rows(y, inRow) + (k - start)]) &&
            (start + inRow <= k < start + outRow ==> want[k] == pad) &&
            (RowOf(k, outRow) < y + 1 <==> RowOf(k, outRow) < y || start <= k < start + outRow)
  {
    RowsLe(y + 1, inputHeight, inRow);
    MixRows(k, outRow, targetHeight);
    RowSpan(k, y, outRow);
  }

  /** `memcpy(dst + dstStart, src + srcStart, count)`: the run of `count` bytes copied, nothing else touched. */
  method MemCopy(dst: array<uint8>, dstStart: nat, src: seq<uint8>, srcStart: nat, count: nat)
    requires dstStart + count <= dst.Length && srcStart + count <= |src|
    modifies dst
    ensures forall k :: 0 <= k < dst.Length ==>
              dst[k] == if dstStart <= k < dstStart + count then src[srcStart + (k - dstStart)] else old(dst[k])
  {
    var i := 0;
    while i < count
      invariant i <= count
      invariant forall k :: 0 <= k < dst.Length ==>
                  dst[k] == if dstStart <= k < dstStart + i then src[srcStart + (k - dstStart)] else old(dst[k])
    {
      dst[dstStart + i] := src[srcStart + i];
      i := i + 1;
    }
  }

  // ---------------------------------------------------------------------------
  // reverse_morton_order
  // ---------------------------------------------------------------------------

  /** `morton_order`: the place inside its tile of pixel `i` of an 8x8 tile (row `i / 8`, column `i % 8`). */
  const MORTON: seq<nat> :=
    [ 0,  1,  4,  5, 16, 17, 20, 21] +
    [ 2,  3,  6,  7, 18, 19, 22, 23] +
    [ 8,  9, 12, 13, 24, 25, 28, 29] +
    [10, 11, 14, 15, 26, 27, 30, 31] +
    [32, 33, 36, 37, 48, 49, 52, 53] +
    [34, 35, 38, 39, 50, 51, 54, 55] +
    [40, 41, 44, 45, 56, 57, 60, 61] +
    [42, 43, 46, 47, 58, 59, 62, 63]

  /** The inverse table: the pixel of the tile that lands at each place. */
  const UNMORTON: seq<nat> :=
    [ 0,  1,  8,  9,  2,  3, 10, 11] +
    [16, 17, 24, 25, 18, 19, 26, 27] +
    [ 4,  5, 12, 13,  6,  7, 14, 15] +
    [20, 21, 28, 29, 22, 23, 30, 31] +
    [32, 33, 40, 41, 34, 35, 42, 43] +
    [48, 49, 56, 57, 50, 51, 58, 59] +
    [36, 37, 44, 45, 38, 39, 46, 47] +
    [52, 53, 60, 61, 54, 55, 62, 63]

  lemma MortonRows0(i: nat)
    requires 0 <= i < 16
    ensures MORTON[i] < 64 && UNMORTON[MORTON[i]] == i
    ensures UNMORTON[i] < 64 && MORTON[UNMORTON[i]] == i
  {
    match i
      case 0 =>
      case 1 =>
      case 2 =>
      case 3 =>
      case 4 =>
      case 5 =>
      case 6 =>
      case 7 =>
      case 8 =>
      case 9 =>
      case 10 =>
      case 11 =>
      case 12 =>
      case 13 =>
      case 14 =>
      case 15 =>
  }

  lemma MortonRows1(i: nat)
    requires 16 <= i < 32
    ensures MORTON[i] < 64 && UNMORTON[MORTON[i]] == i
    ensures UNMORTON[i] < 64 && MORTON[UNMORTON[i]] == i
  {
    match i
      case 16 =>
      case 17 =>
      case 18 =>
      case 19 =>
      case 20 =>
      case 21 =>
      case 22 =>
      case 23 =>
      case 24 =>
      case 25 =>
      case 26 =>
      case 27 =>
      case 28 =>
      case 29 =>
      case 30 =>
      case 31 =>
  }

  lemma MortonRows2(i: nat)
    requires 32 <= i < 48
    ensures MORTON[i] < 64 && UNMORTON[MORTON[i]] == i
    ensures UNMORTON[i] < 64 && MORTON[UNMORTON[i]] == i
  {
    match i
      case 32 =>
      case 33 =>
      case 34 =>
      case 35 =>
      case 36 =>
      case 37 =>
      case 38 =>
      case 39 =>
      case 40 =>
      case 41 =>
      case 42 =>
      case 43 =>
      case 44 =>
      case 45 =>
      case 46 =>
      case 47 =>
  }

  lemma MortonRows3(i: nat)
    requires 48 <= i < 64
    ensures MORTON[i] < 64 && UNMORTON[MORTON[i]] == i
    ensures UNMORTON[i] < 64 && MORTON[UNMORTON[i]] == i
  {
    match i
      case 48 =>
      case 49 =>
      case 50 =>
      case 51 =>
      case 52 =>
      case 53 =>
      case 54 =>
      case 55 =>
      case 56 =>
      case 57 =>
      case 58 =>
      case 59 =>
      case 60 =>
      case 61 =>
      case 62 =>
      case 63 =>
  }

  /** `morton_order` is a permutation of 0..63 and `UNMORTON` undoes it. */
  lemma MortonInverse(i: nat)
    requires i < 64
    ensures MORTON[i] < 64 && UNMORTON[MORTON[i]] == i
    ensures UNMORTON[i] < 64 && MORTON[UNMORTON[i]] == i
  {
    if i < 16 {
      MortonRows0(i);
    } else if i < 32 {
      MortonRows1(i);
    } else if i < 48 {
      MortonRows2(i);
    } else {
      MortonRows3(i);
    }
  }

  /** Both dimensions are whole tiles. */
  predicate Tiled(width: nat, height: nat)
  {
    width % 8 == 0 && height % 8 == 0
  }

  /** The bytes the reorder covers: `width * height` pixels of `bpp` bytes. */
  function Extent(width: nat, height: nat, bpp: nat): nat
  {
    Rows(Rows(height, width), bpp)
  }

  /**
   * One byte of the reorder: byte `j` of pixel `i` (row-major inside the
   * tile) of the 8x8 tile in tile column `tx` and tile row `ty`.
   */
  datatype Texel = Texel(tx: nat, ty: nat, i: nat, j: nat)

  predicate InGrid(p: Texel, width: nat, height: nat, bpp: nat)
  {
    p.tx < width / 8 && p.ty < height / 8 && p.i < 64 && p.j < bpp
  }

  /** Where the byte is written: `(tileNum * 64 + morton_order[i]) * bpp + j`, with `tileNum = tx + ty * tilesX`. */
  function Dest(p: Texel, width: nat, bpp: nat): nat
    requires p.i < 64
  {
    Mix(Mix(Mix(p.ty, p.tx, width / 8), MORTON[p.i], 64), p.j, bpp)
  }

  /**
   * Where the byte is read: pixel column `8 * tx + i % 8` of row
   * `height - 1 - (8 * ty + i / 8)` (the image is flipped vertically), byte
   * `bpp - 1 - j` of that pixel (the bytes of a pixel are reversed).
   */
  function Src(p: Texel, width: nat, height: nat, bpp: nat): nat
    requires Tiled(width, height) && InGrid(p, width, height, bpp)
  {
    Mix(Mix(height - 1 - (8 * p.ty + p.i / 8), 8 * p.tx + p.i % 8, width), bpp - 1 - p.j, bpp)
  }

  /** The byte of the grid whose destination is `k`. */
  function DestTexel(k: nat, width: nat, bpp: nat): Texel
  {
    var cell := RowOf(k, bpp);
    var tile := RowOf(cell, 64);
    MixSplit(cell, 64);
    Texel(ColOf(tile, width / 8), RowOf(tile, width / 8), UNMORTON[ColOf(cell, 64)], ColOf(k, bpp))
  }

  /** The byte of the grid whose source is `k`. */
  function SrcTexel(k: nat, width: nat, height: nat, bpp: nat): Texel
    requires k < Extent(width, height, bpp)
  {
    MixRows(k, bpp, Rows(height, width));
    var pixel := RowOf(k, bpp);
    MixRows(pixel, width, height);
    MixSplit(k, bpp);
    var row := height - 1 - RowOf(pixel, width);
    var col := ColOf(pixel, width);
    Texel(col / 8, row / 8, 8 * (row % 8) + col % 8, bpp - 1 - ColOf(k, bpp))
  }

  /** The tiles hold exactly the pixels of the image. */
  lemma TileCount(width: nat, height: nat)
    requires Tiled(width, height)
    ensures Rows(Rows(height / 8, width / 8), 64) == Rows(height, width)
  {
    var a := height / 8;
    var b := width / 8;
    RowsIs(a, b);
    RowsIs(Rows(a, b), 64);
    RowsIs(height, width);
    assert height == 8 * a && width == 8 * b;
    TileArea(a, b);
  }

  lemma TileArea(a: nat, b: nat)
    ensures (8 * a) * (8 * b) == (a * b) * 64
  {
  }

  /** Each byte of the grid has its own destination in the buffer. */
  lemma DestRoundTrip(p: Texel, width: nat, height: nat, bpp: nat)
    requires Tiled(width, height) && InGrid(p, width, height, bpp)
    ensures Dest(p, width, bpp) < Extent(width, height, bpp)
    ensures DestTexel(Dest(p, width, bpp), width, bpp) == p
  {
    var tilesX := width / 8;
    MortonInverse(p.i);
    var tile := Mix(p.ty, p.tx, tilesX);
    MixBelow(p.ty, p.tx, tilesX, height / 8);
    MixParts(p.ty, p.tx, tilesX);
    var cell := Mix(tile, MORTON[p.i], 64);
    MixBelow(tile, MORTON[p.i], 64, Rows(height / 8, tilesX));
    MixParts(tile, MORTON[p.i], 64);
    MixBelow(cell, p.j, bpp, Rows(Rows(height / 8, tilesX), 64));
    MixParts(cell, p.j, bpp);
    TileCount(width, height);
  }

  /** Each byte of the buffer is the destination of one byte of the grid. */
  lemma DestTexelInGrid(k: nat, width: nat, height: nat, bpp: nat)
    requires Tiled(width, height) && k < Extent(width, height, bpp)
    ensures InGrid(DestTexel(k, width, bpp), width, height, bpp)
    ensures Dest(DestTexel(k, width, bpp), width, bpp) == k
  {
    var tilesX := width / 8;
    TileCount(width, height);
    MixRows(k, bpp, Rows(height, width));
    MixSplit(k, bpp);
    var cell := RowOf(k, bpp);
    MixRows(cell, 64, Rows(height / 8, tilesX));
    MixSplit(cell, 64);
    var tile := RowOf(cell, 64);
    MixRows(tile, tilesX, height / 8);
    MixSplit(tile, tilesX);
    MortonInverse(ColOf(cell, 64));
  }

  /** `DestTexelInGrid` for every byte of the buffer at once. */
  lemma DestTexelsInGrid(width: nat, height: nat, bpp: nat)
    requires Tiled(width, height)
    ensures forall k: nat :: k < Extent(width, height, bpp) ==>
              InGrid(DestTexel(k, width, bpp), width, height, bpp) && Dest(DestTexel(k, width, bpp), width, bpp) == k
  {
    forall k: nat | k < Extent(width, height, bpp)
      ensures InGrid(DestTexel(k, width, bpp), width, height, bpp) && Dest(DestTexel(k, width, bpp), width, bpp) == k
    {
      DestTexelInGrid(k, width, height, bpp);
    }
  }

  /** Each byte of the grid reads its own byte of the buffer. */
  lemma SrcRoundTrip(p: Texel, width: nat, height: nat, bpp: nat)
    requires Tiled(width, height) && InGrid(p, width, height, bpp)
    ensures Src(p, width, height, bpp) < Extent(width, height, bpp)
    ensures SrcTexel(Src(p, width, height, bpp), width, height, bpp) == p
  {
    var row := height - 1 - (8 * p.ty + p.i / 8);
    var col := 8 * p.tx + p.i % 8;
    var flipped := 8 * p.ty + p.i / 8;
    assert flipped / 8 == p.ty && flipped % 8 == p.i / 8;
    assert col / 8 == p.tx && col % 8 == p.i % 8;
    assert 8 * (p.i / 8) + p.i % 8 == p.i;
    MixBelow(row, col, width, height);
    MixParts(row, col, width);
    MixBelow(Mix(row, col, width), bpp - 1 - p.j, bpp, Rows(height, width));
    MixParts(Mix(row, col, width), bpp - 1 - p.j, bpp);
  }

  /** Each byte of the buffer is read by one byte of the grid. */
  lemma SrcTexelInGrid(k: nat, width: nat, height: nat, bpp: nat)
    requires Tiled(width, height) && k < Extent(width, height, bpp)
    ensures InGrid(SrcTexel(k, width, height, bpp), width, height, bpp)
    ensures Src(SrcTexel(k, width, height, bpp), width, height, bpp) == k
  {
    MixRows(k, bpp, Rows(height, width));
    MixSplit(k, bpp);
    MixRows(RowOf(k, bpp), width, height);
    MixSplit(RowOf(k, bpp), width);
  }

  /** The reordered buffer: byte `k` is the source byte of the grid byte whose destination is `k`. */
  function Swizzled(s: seq<uint8>, width: nat, height: nat, bpp: nat): (r: seq<uint8>)
    requires Tiled(width, height) && |s| == Extent(width, height, bpp)
    ensures |r| == |s|
  {
    seq(|s|, k requires 0 <= k < |s| => SwizzledByte(s, width, height, bpp, k))
  }

  function SwizzledByte(s: seq<uint8>, width: nat, height: nat, bpp: nat, k: nat): uint8
    requires Tiled(width, height) && |s| == Extent(width, height, bpp) && k < |s|
  {
    s[SwizzleSource(k, width, height, bpp)]
  }

  /** The offset the byte written at `k` is read from. */
  function SwizzleSource(k: nat, width: nat, height: nat, bpp: nat): (r: nat)
    requires Tiled(width, height) && k < Extent(width, height, bpp)
    ensures r < Extent(width, height, bpp)
  {
    DestTexelInGrid(k, width, height, bpp);
    SrcRoundTrip(DestTexel(k, width, bpp), width, height, bpp);
    Src(DestTexel(k, width, bpp), width, height, bpp)
  }

  /** The reorder undone: byte `k` goes back from the destination of the grid byte that read it. */
  function Unswizzled(t: seq<uint8>, width: nat, height: nat, bpp: nat): (r: seq<uint8>)
    requires Tiled(width, height) && |t| == Extent(width, height, bpp)
    ensures |r| == |t|
  {
    seq(|t|, k requires 0 <= k < |t| => UnswizzledByte(t, width, height, bpp, k))
  }

  function UnswizzledByte(t: seq<uint8>, width: nat, height: nat, bpp: nat, k: nat): uint8
    requires Tiled(width, height) && |t| == Extent(width, height, bpp) && k < |t|
  {
    t[SwizzleTarget(k, width, height, bpp)]
  }

  /** The offset the byte read at `k` is written to. */
  function SwizzleTarget(k: nat, width: nat, height: nat, bpp: nat): (r: nat)
    requires Tiled(width, height) && k < Extent(width, height, bpp)
    ensures r < Extent(width, height, bpp)
  {
    SrcTexelInGrid(k, width, height, bpp);
    DestRoundTrip(SrcTexel(k, width, height, bpp), width, height, bpp);
    Dest(SrcTexel(k, width, height, bpp), width, bpp)
  }

  /**
   * The copy the loops perform: byte `j` of pixel `i` of tile `(tx, ty)`
   * lands at `(tileNum * 64 + morton_order[i]) * bpp + j` and comes from the
   * flipped source row with the pixel's bytes reversed.
   */
  lemma SwizzledMoves(s: seq<uint8>, width: nat, height: nat, bpp: nat, p: Texel)
    requires Tiled(width, height) && |s| == Extent(width, height, bpp) && InGrid(p, width, height, bpp)
    ensures Dest(p, width, bpp) < |s| && Src(p, width, height, bpp) < |s|
    ensures Swizzled(s, width, height, bpp)[Dest(p, width, bpp)] == s[Src(p, width, height, bpp)]
  {
    DestRoundTrip(p, width, height, bpp);
    SrcRoundTrip(p, width, height, bpp);
  }

  /** The reorder loses nothing: undoing it gives the input back. */
  lemma UnswizzledSwizzled(s: seq<uint8>, width: nat, height: nat, bpp: nat)
    requires Tiled(width, height) && |s| == Extent(width, height, bpp)
    ensures Unswizzled(Swizzled(s, width, height, bpp), width, height, bpp) == s
  {
    var t := Swizzled(s, width, height, bpp);
    forall k | 0 <= k < |s|
      ensures Unswizzled(t, width, height, bpp)[k] == s[k]
    {
      SrcTexelInGrid(k, width, height, bpp);
      DestRoundTrip(SrcTexel(k, width, height, bpp), width, height, bpp);
    }
  }

  /** Every buffer is the reorder of some input: the reorder of its undoing. */
  lemma SwizzledUnswizzled(t: seq<uint8>, width: nat, height: nat, bpp: nat)
    requires Tiled(width, height) && |t| == Extent(width, height, bpp)
    ensures Swizzled(Unswizzled(t, width, height, bpp), width, height, bpp) == t
  {
    var s := Unswizzled(t, width, height, bpp);
    forall k | 0 <= k < |t|
      ensures Swizzled(s, width, height, bpp)[k] == t[k]
    {
      DestTexelInGrid(k, width, height, bpp);
      SrcRoundTrip(DestTexel(k, width, bpp), width, height, bpp);
    }
  }

  /**
   * A sequence that reads each of its positions from a distinct position of
   * another sequence of the same length (`idx[k]` for position `k`) is a
   * permutation of it.
   */
  lemma {:induction false} DistinctReadsPermute(r: seq<uint8>, s: seq<uint8>, idx: seq<nat>)
    requires |r| == |s| == |idx|
    requires forall k :: 0 <= k < |r| ==> idx[k] < |s| && r[k] == s[idx[k]]
    requires forall a, b :: 0 <= a < b < |idx| ==> idx[a] != idx[b]
    ensures multiset(r) == multiset(s)
    decreases |r|
  {
    if |r| > 0 {
      var n := |r| - 1;
      var q := idx[n];
      var rest := s[..q] + s[q + 1..];
      var idx' := seq(n, k requires 0 <= k < n => if idx[k] < q then idx[k] else idx[k] - 1);
      forall k | 0 <= k < n
        ensures idx'[k] < |rest| && r[..n][k] == rest[idx'[k]]
      {
        assert idx[k] != q;
      }
      forall a, b | 0 <= a < b < n
        ensures idx'[a] != idx'[b]
      {
        assert idx[a] != idx[b] && idx[a] != q && idx[b] != q;
      }
      DistinctReadsPermute(r[..n], rest, idx');
      assert r == r[..n] + [r[n]];
      assert s == s[..q] + [s[q]] + s[q + 1..];
    }
  }

  /** The reorder is a permutation of the input bytes. */
  lemma SwizzledPermutes(s: seq<uint8>, width: nat, height: nat, bpp: nat)
    requires Tiled(width, height) && |s| == Extent(width, height, bpp)
    ensures multiset(Swizzled(s, width, height, bpp)) == multiset(s)
  {
    var idx := seq(|s|, k requires 0 <= k < |s| => SwizzleSource(k, width, height, bpp));
    forall a, b | 0 <= a < b < |s|
      ensures idx[a] != idx[b]
    {
      DestTexelInGrid(a, width, height, bpp);
      SrcRoundTrip(DestTexel(a, width, bpp), width, height, bpp);
      DestTexelInGrid(b, width, height, bpp);
      SrcRoundTrip(DestTexel(b, width, bpp), width, height, bpp);
    }
    DistinctReadsPermute(Swizzled(s, width, height, bpp), s, idx);
  }

  /** `c` comes before `at` in the order the loops visit bytes: tile column, tile row, pixel, byte. */
  predicate Before(c: Texel, at: Texel)
  {
    c.tx < at.tx || (c.tx == at.tx && (c.ty < at.ty || (c.ty == at.ty && (c.i < at.i || (c.i == at.i && c.j < at.j)))))
  }

  /** The scratch vector holds the reordered bytes of the grid before `at`, and zero elsewhere. */
  predicate Staged(swizzled: array<uint8>, want: seq<uint8>, width: nat, bpp: nat, at: Texel)
    reads swizzled
  {
    |want| == swizzled.Length &&
    forall k :: 0 <= k < swizzled.Length ==>
      swizzled[k] == if Before(DestTexel(k, width, bpp), at) then want[k] else 0
  }

  /**
   * `reverse_morton_order`: rejects dimensions that are not whole tiles;
   * otherwise fills a zeroed scratch vector tile by tile and copies it back
   * over the first `width * height * bpp` bytes of the buffer.
   */
  method ReverseMortonOrder(buffer: array<uint8>, width: nat, height: nat, bpp: nat)
    returns (r: Result<(), TextureError>)
    requires Extent(width, height, bpp) <= buffer.Length
    modifies buffer
    ensures r.Err? <==> !Tiled(width, height)
    ensures r.Err? ==> r.error == NotMultipleOf8 && buffer[..] == old(buffer[..])
    ensures r.Ok? ==>
              buffer[..] == Swizzled(old(buffer[..Extent(width, height, bpp)]), width, height, bpp) +
                            old(buffer[Extent(width, height, bpp)..])
  {
    if width % 8 != 0 || height % 8 != 0 {
      return Err(NotMultipleOf8);
    }
    SwizzleBuffer(buffer, width, height, bpp);
    r := Ok(());
  }

  /** The reorder proper, once the dimensions are whole tiles. */
  method SwizzleBuffer(buffer: array<uint8>, width: nat, height: nat, bpp: nat)
    requires Tiled(width, height) && Extent(width, height, bpp) <= buffer.Length
    modifies buffer
    ensures buffer[..] == Swizzled(old(buffer[..Extent(width, height, bpp)]), width, height, bpp) +
                          old(buffer[Extent(width, height, bpp)..])
  {
    var size := ByteCount(width, height, bpp);
    var swizzled := new uint8[size](_ => 0);
    ghost var want := Swizzled(buffer[..size], width, height, bpp);
    SwizzleColumns(buffer, swizzled, width, height, bpp, want);
    StagedAll(swizzled, want, width, height, bpp);
    MemCopy(buffer, 0, swizzled[..], 0, size);
    assert buffer[..] == want + old(buffer[size..]);
  }

  /** `width * height * bytesPerPixel`, the size of the scratch vector. */
  method ByteCount(width: nat, height: nat, bpp: nat) returns (size: nat)
    ensures size == Extent(width, height, bpp)
  {
    RowsIs(height, width);
    RowsIs(Rows(height, width), bpp);
    size := width * height * bpp;
  }

  /** Once every tile column is done, the scratch vector is the reordered buffer. */
  lemma StagedAll(swizzled: array<uint8>, want: seq<uint8>, width: nat, height: nat, bpp: nat)
    requires Tiled(width, height) && swizzled.Length == Extent(width, height, bpp)
    requires Staged(swizzled, want, width, bpp, Texel(width / 8, 0, 0, 0))
    ensures swizzled[..] == want
  {
    DestTexelsInGrid(width, height, bpp);
  }

  /** The `tileX` loop: every tile column, left to right. */
  method SwizzleColumns(buffer: array<uint8>, swizzled: array<uint8>, width: nat, height: nat, bpp: nat,
                        ghost want: seq<uint8>)
    requires Tiled(width, height) && swizzled != buffer
    requires swizzled.Length == Extent(width, height, bpp) <= buffer.Length
    requires want == Swizzled(buffer[..swizzled.Length], width, height, bpp)
    requires forall k :: 0 <= k < swizzled.Length ==> swizzled[k] == 0
    modifies swizzled
    ensures Staged(swizzled, want, width, bpp, Texel(width / 8, 0, 0, 0))
  {
    var tilesX := width / 8;
    var tileX := 0;
    while tileX < tilesX
      invariant tileX <= tilesX
      invariant Staged(swizzled, want, width, bpp, Texel(tileX, 0, 0, 0))
    {
      SwizzleColumn(buffer, swizzled, width, height, bpp, tileX, want);
      tileX := tileX + 1;
    }
  }

  /** One pass of the `tileX` loop: every tile of column `tileX`. */
  method SwizzleColumn(buffer: array<uint8>, swizzled: array<uint8>, width: nat, height: nat, bpp: nat,
                       tileX: nat, ghost want: seq<uint8>)
    requires Tiled(width, height) && swizzled != buffer && tileX < width / 8
    requires swizzled.Length == Extent(width, height, bpp) <= buffer.Length
    requires want == Swizzled(buffer[..swizzled.Length], width, height, bpp)
    requires Staged(swizzled, want, width, bpp, Texel(tileX, 0, 0, 0))
    modifies swizzled
    ensures Staged(swizzled, want, width, bpp, Texel(tileX + 1, 0, 0, 0))
  {
    var tilesY := height / 8;
    var tileY := 0;
    while tileY < tilesY
      invariant tileY <= tilesY
      invariant Staged(swizzled, want, width, bpp, Texel(tileX, tileY, 0, 0))
    {
      SwizzleTile(buffer, swizzled, width, height, bpp, tileX, tileY, want);
      tileY := tileY + 1;
    }
    DestTexelsInGrid(width, height, bpp);
  }

  /** One pass of the `tileY` loop: the 64 pixels of tile `(tileX, tileY)`. */
  method SwizzleTile(buffer: array<uint8>, swizzled: array<uint8>, width: nat, height: nat, bpp: nat,
                     tileX: nat, tileY: nat, ghost want: seq<uint8>)
    requires Tiled(width, height) && swizzled != buffer && tileX < width / 8 && tileY < height / 8
    requires swizzled.Length == Extent(width, height, bpp) <= buffer.Length
    requires want == Swizzled(buffer[..swizzled.Length], width, height, bpp)
    requires Staged(swizzled, want, width, bpp, Texel(tileX, tileY, 0, 0))
    modifies swizzled
    ensures Staged(swizzled, want, width, bpp, Texel(tileX, tileY + 1, 0, 0))
  {
    var i := 0;
    while i < 64
      invariant i <= 64
      invariant Staged(swizzled, want, width, bpp, Texel(tileX, tileY, i, 0))
    {
      var srcIdx, destIdx := PixelOffsets(width, height, bpp, tileX, tileY, i);
      CopyPixel(buffer, swizzled, width, height, bpp, tileX, tileY, i, srcIdx, destIdx, want);
      i := i + 1;
    }
    DestTexelsInGrid(width, height, bpp);
  }

  /** The offsets of the first byte of pixel `i` of tile `(tileX, tileY)`: where it is read and where it is written. */
  method PixelOffsets(width: nat, height: nat, bpp: nat, tileX: nat, tileY: nat, i: nat)
    returns (srcIdx: nat, destIdx: nat)
    requires Tiled(width, height) && tileY < height / 8 && i < 64
    ensures destIdx == Rows(Mix(Mix(tileY, tileX, width / 8), MORTON[i], 64), bpp)
    ensures srcIdx == Rows(Mix(height - 1 - (8 * tileY + i / 8), 8 * tileX + i % 8, width), bpp)
  {
    var tilesX := width / 8;
    var pixelX := tileX * 8;
    var pixelY := tileY * 8;
    var tileNum := tileX + tileY * tilesX;
    RowsIs(tileY, tilesX);
    RowsIs(tileNum, 64);
    var srcX := pixelX + i % 8;
    var srcY := height - (pixelY + i / 8) - 1;
    RowsIs(srcY, width);
    RowsIs(Mix(srcY, srcX, width), bpp);
    RowsIs(Mix(tileNum, MORTON[i], 64), bpp);
    srcIdx := (srcY * width + srcX) * bpp;
    destIdx := (tileNum * 64 + MORTON[i]) * bpp;
  }

  /** The innermost loop: the `bpp` bytes of pixel `i`, in reverse order. */
  method CopyPixel(buffer: array<uint8>, swizzled: array<uint8>, width: nat, height: nat, bpp: nat,
                   tileX: nat, tileY: nat, i: nat, srcIdx: nat, destIdx: nat, ghost want: seq<uint8>)
    requires Tiled(width, height) && swizzled != buffer
    requires tileX < width / 8 && tileY < height / 8 && i < 64
    requires swizzled.Length == Extent(width, height, bpp) <= buffer.Length
    requires want == Swizzled(buffer[..swizzled.Length], width, height, bpp)
    requires destIdx == Rows(Mix(Mix(tileY, tileX, width / 8), MORTON[i], 64), bpp)
    requires srcIdx == Rows(Mix(height - 1 - (8 * tileY + i / 8), 8 * tileX + i % 8, width), bpp)
    requires Staged(swizzled, want, width, bpp, Texel(tileX, tileY, i, 0))
    modifies swizzled
    ensures Staged(swizzled, want, width, bpp, Texel(tileX, tileY, i + 1, 0))
  {
    var j := 0;
    while j < bpp
      invariant j <= bpp
      invariant Staged(swizzled, want, width, bpp, Texel(tileX, tileY, i, j))
    {
      CopyByte(buffer, swizzled, width, height, bpp, Texel(tileX, tileY, i, j), srcIdx, destIdx, want);
      j := j + 1;
    }
    StagedPixelDone(swizzled, want, width, height, bpp, Texel(tileX, tileY, i, bpp));
  }

  /** One turn of the innermost loop: byte `p.j` of pixel `p.i` of the tile is moved. */
  method CopyByte(buffer: array<uint8>, swizzled: array<uint8>, width: nat, height: nat, bpp: nat,
                  p: Texel, srcIdx: nat, destIdx: nat, ghost want: seq<uint8>)
    requires Tiled(width, height) && swizzled != buffer && InGrid(p, width, height, bpp)
    requires swizzled.Length == Extent(width, height, bpp) <= buffer.Length
    requires want == Swizzled(buffer[..swizzled.Length], width, height, bpp)
    requires destIdx == Rows(Mix(Mix(p.ty, p.tx, width / 8), MORTON[p.i], 64), bpp)
    requires srcIdx == Rows(Mix(height - 1 - (8 * p.ty + p.i / 8), 8 * p.tx + p.i % 8, width), bpp)
    requires Staged(swizzled, want, width, bpp, p)
    modifies swizzled
    ensures Staged(swizzled, want, width, bpp, p.(j := p.j + 1))
  {
    SwizzledMoves(buffer[..swizzled.Length], width, height, bpp, p);
    StoreByte(swizzled, want, width, height, bpp, p, destIdx + p.j, buffer[srcIdx + bpp - p.j - 1]);
  }

  /** Past the last byte of pixel `i` is the same place as before the first byte of pixel `i + 1`. */
  lemma StagedPixelDone(swizzled: array<uint8>, want: seq<uint8>, width: nat, height: nat, bpp: nat, at: Texel)
    requires Tiled(width, height) && swizzled.Length == Extent(width, height, bpp) && at.j == bpp
    requires Staged(swizzled, want, width, bpp, at)
    ensures Staged(swizzled, want, width, bpp, at.(i := at.i + 1, j := 0))
  {
    DestTexelsInGrid(width, height, bpp);
  }

  /** `swizzled[destIdx + j] = buffer[srcIdx + bpp - j - 1]`: byte `p` reaches its destination. */
  method StoreByte(swizzled: array<uint8>, ghost want: seq<uint8>, width: nat, height: nat, bpp: nat,
                   ghost p: Texel, dest: nat, value: uint8)
    requires Tiled(width, height) && InGrid(p, width, height, bpp)
    requires swizzled.Length == Extent(width, height, bpp)
    requires dest == Dest(p, width, bpp) && dest < |want| && value == want[dest]
    requires Staged(swizzled, want, width, bpp, p)
    modifies swizzled
    ensures Staged(swizzled, want, width, bpp, p.(j := p.j + 1))
  {
    DestTexelsInGrid(width, height, bpp);
    DestRoundTrip(p, width, height, bpp);
    swizzled[dest] := value;
  }

  // ---------------------------------------------------------------------------
  // The RGBA rotation of the FOX5 texture path
  // ---------------------------------------------------------------------------

  /** The byte of the same pixel that moves to offset `k`: the next one, cyclically. */
  function PixelNext(k: nat): nat
  {
    if k % 4 == 3 then k - 3 else k + 1
  }

  /** The byte of the same pixel that moves back to offset `k`: the previous one, cyclically. */
  function PixelPrev(k: nat): nat
  {
    if k % 4 == 0 then k + 3 else k - 1
  }

  /** Moving to the next byte of a pixel and back again, either way round, is the identity. */
  lemma PixelNextPrev(k: nat)
    ensures PixelPrev(PixelNext(k)) == k && PixelNext(PixelPrev(k)) == k
  {
  }

  /** Every 4-byte pixel `[a, b, c, d]` becomes `[b, c, d, a]`. */
  function Rotated(s: seq<uint8>): (r: seq<uint8>)
    requires |s| % 4 == 0
    ensures |r| == |s|
  {
    seq(|s|, k requires 0 <= k < |s| => s[PixelNext(k)])
  }

  /** The rotation undone: every 4-byte pixel `[b, c, d, a]` becomes `[a, b, c, d]`. */
  function RotatedBack(s: seq<uint8>): (r: seq<uint8>)
    requires |s| % 4 == 0
    ensures |r| == |s|
  {
    seq(|s|, k requires 0 <= k < |s| => s[PixelPrev(k)])
  }

  /** Pixel `g` of the rotated buffer, written out: `[a, b, c, d]` became `[b, c, d, a]`. */
  lemma RotatedGroup(s: seq<uint8>, g: nat)
    requires |s| % 4 == 0 && 4 * g + 4 <= |s|
    ensures Rotated(s)[4 * g] == s[4 * g + 1] && Rotated(s)[4 * g + 1] == s[4 * g + 2]
    ensures Rotated(s)[4 * g + 2] == s[4 * g + 3] && Rotated(s)[4 * g + 3] == s[4 * g]
  {
  }

  /** The rotation loses nothing. */
  lemma RotatedBackRotated(s: seq<uint8>)
    requires |s| % 4 == 0
    ensures RotatedBack(Rotated(s)) == s
  {
    var t := RotatedBack(Rotated(s));
    forall k | 0 <= k < |s|
      ensures t[k] == s[k]
    {
      PixelNextPrev(k);
    }
  }

  /** Every buffer is the rotation of some buffer. */
  lemma RotatedRotatedBack(s: seq<uint8>)
    requires |s| % 4 == 0
    ensures Rotated(RotatedBack(s)) == s
  {
    var t := Rotated(RotatedBack(s));
    forall k | 0 <= k < |s|
      ensures t[k] == s[k]
    {
      PixelNextPrev(k);
    }
  }

  /** The rotation is a permutation of the bytes. */
  lemma RotatedPermutes(s: seq<uint8>)
    requires |s| % 4 == 0
    ensures multiset(Rotated(s)) == multiset(s)
  {
    var idx := seq(|s|, k requires 0 <= k < |s| => PixelNext(k));
    forall a, b | 0 <= a < b < |s|
      ensures idx[a] != idx[b]
    {
      PixelNextPrev(a);
      PixelNextPrev(b);
    }
    DistinctReadsPermute(Rotated(s), s, idx);
  }

  /** The swap loop over the first `dataSize` bytes, four at a time. */
  method RotatePixels(data: array<uint8>, dataSize: nat)
    requires dataSize <= data.Length && dataSize % 4 == 0
    modifies data
    ensures data[..] == Rotated(old(data[..dataSize])) + old(data[dataSize..])
  {
    ghost var orig := data[..];
    ghost var want := Rotated(data[..dataSize]);
    var i := 0;
    ghost var g := 0;
    while i < dataSize
      invariant i == 4 * g && i <= dataSize
      invariant RotatedBelow(data, want, orig, i)
    {
      RotateStep(data, want, orig, dataSize, i, g);
      i := i + 4;
      g := g + 1;
    }
    assert data[..] == want + orig[dataSize..];
  }

  /** The bytes below `i` are rotated; the rest are as they were. */
  predicate RotatedBelow(data: array<uint8>, want: seq<uint8>, orig: seq<uint8>, i: nat)
    reads data
  {
    |orig| == data.Length && i <= |want| <= data.Length &&
    forall k :: 0 <= k < data.Length ==> data[k] == if k < i then want[k] else orig[k]
  }

  /** One pass of the swap loop, for pixel `g`. */
  method RotateStep(data: array<uint8>, ghost want: seq<uint8>, ghost orig: seq<uint8>, dataSize: nat,
                    i: nat, ghost g: nat)
    requires dataSize <= data.Length == |orig| && dataSize % 4 == 0 && i == 4 * g && i + 4 <= dataSize
    requires want == Rotated(orig[..dataSize])
    requires RotatedBelow(data, want, orig, i)
    modifies data
    ensures RotatedBelow(data, want, orig, i + 4)
  {
    RotatedGroup(orig[..dataSize], g);
    SwapPixel(data, i);
  }

  /** One pass of the swap loop: `[a, b, c, d]` at `i` becomes `[b, c, d, a]`. */
  method SwapPixel(data: array<uint8>, i: nat)
    requires i + 4 <= data.Length
    modifies data
    ensures data[i] == old(data[i + 1]) && data[i + 1] == old(data[i + 2])
    ensures data[i + 2] == old(data[i + 3]) && data[i + 3] == old(data[i])
    ensures forall k :: 0 <= k < data.Length && !(i <= k < i + 4) ==> data[k] == old(data[k])
  {
    var temp1 := data[i];
    var temp2 := data[i + 1];
    var temp3 := data[i + 2];
    var temp4 := data[i + 3];
    data[i] := temp2;
    data[i + 1] := temp3;
    data[i + 2] := temp4;
    data[i + 3] := temp1;
  }
}
