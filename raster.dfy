/**
 * Decoded RGB images and Pillow's nearest-neighbour resize (`Image.resize(size,
 * Image.NEAREST)`), which samples, for each target pixel, the source pixel under the target
 * pixel's centre: column floor((x + 0.5) * srcWidth / width), and likewise for rows.
 */
module Raster {
  import opened Models

  /** All rows have the same length. */
  predicate IsRect<T>(rows: seq<seq<T>>)
  {
    forall y :: 0 <= y < |rows| ==> |rows[y]| == |rows[0]|
  }

  /** A decoded image: a non-empty rectangle of pixels, rows top to bottom. */
  type RgbImage = rows: seq<seq<Rgb>> | |rows| > 0 && |rows[0]| > 0 && IsRect(rows)
    witness [[Rgb(0, 0, 0)]]

  function Width(img: RgbImage): nat
  {
    |img[0]|
  }

  function Height(img: RgbImage): nat
  {
    |img|
  }

  /** The source coordinate sampled for target coordinate `d` when `srcLen` source pixels are
      stretched over `dstLen` target pixels. */
  function SourceIndex(d: nat, srcLen: nat, dstLen: nat): (s: nat)
    requires d < dstLen && srcLen > 0
    ensures s < srcLen
  {
    SourceIndexBound(d, srcLen, dstLen);
    ((2 * d + 1) * srcLen) / (2 * dstLen)
  }

  lemma SourceIndexBound(d: nat, srcLen: nat, dstLen: nat)
    requires d < dstLen && srcLen > 0
    ensures 0 <= ((2 * d + 1) * srcLen) / (2 * dstLen) < srcLen
  {
    var num := (2 * d + 1) * srcLen;
    var den := 2 * dstLen;
    ScaleOrder(0, srcLen, 2 * d + 1);
    assert num < den * srcLen by {
      assert den * srcLen - num == (2 * dstLen - 2 * d - 1) * srcLen;
      assert 2 * dstLen - 2 * d - 1 >= 1;
    }
    DivBelow(num, den, srcLen);
  }

  lemma DivBelow(a: int, b: int, c: int)
    requires a >= 0 && b > 0 && a < b * c
    ensures 0 <= a / b < c
  {
    var q := a / b;
    var r := a % b;
    assert a == b * q + r && 0 <= r < b;
    ScaleOrder(c, q, b);
    ScaleOrder(q, -1, b);
  }

  /** Scaling by a positive factor keeps order. */
  lemma ScaleOrder(x: int, y: int, b: int)
    requires b > 0
    ensures x <= y <==> b * x <= b * y
  {
    assert b * y - b * x == b * (y - x);
  }

  /** Resizing to the image's own size samples every pixel at its own place. */
  lemma SourceIndexIdentity(d: nat, n: nat)
    requires d < n
    ensures SourceIndex(d, n, n) == d
  {
    var num := (2 * d + 1) * n;
    assert num == (2 * n) * d + n;
    DivUnique(num, 2 * n, d, n);
  }

  lemma DivUnique(a: int, b: int, q: int, r: int)
    requires b > 0 && 0 <= r < b && a == b * q + r
    ensures a / b == q
  {
    var q' := a / b;
    var r' := a % b;
    assert a == b * q' + r';
    ScaleOrder(q' + 1, q, b);
    ScaleOrder(q + 1, q', b);
    assert b * (q' + 1) == b * q' + b;
    assert b * (q + 1) == b * q + b;
  }

  /** `img.resize((width, height), Image.NEAREST)`. */
  function ResizeNearest(img: RgbImage, width: nat, height: nat): (r: seq<seq<Rgb>>)
    ensures |r| == height
    ensures forall y :: 0 <= y < height ==> |r[y]| == width
    ensures forall y, x :: 0 <= y < height && 0 <= x < width ==>
      r[y][x] == img[SourceIndex(y, Height(img), height)][SourceIndex(x, Width(img), width)]
  {
    seq(height, y requires 0 <= y < height =>
      var sy := SourceIndex(y, Height(img), height);
      seq(width, x requires 0 <= x < width => img[sy][SourceIndex(x, Width(img), width)]))
  }

  /** Resizing to the current size changes nothing. */
  lemma ResizeSameSize(img: RgbImage)
    ensures ResizeNearest(img, Width(img), Height(img)) == img
  {
    var r := ResizeNearest(img, Width(img), Height(img));
    forall y | 0 <= y < Height(img)
      ensures r[y] == img[y]
    {
      SourceIndexIdentity(y, Height(img));
      forall x | 0 <= x < Width(img)
        ensures r[y][x] == img[y][x]
      {
        SourceIndexIdentity(x, Width(img));
      }
    }
  }
}
