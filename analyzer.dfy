/**
 * `TextureAnalyzer` (app/minecraft/texturepack/analyzer.py): decides whether a texture is
 * transparent and, for solid textures, computes its truncated mean colour and that colour's
 * CIE L*a*b* value. Image decoding (`Image.open(...).convert("RGBA")`) is the parameter
 * `decode`; skimage's `rgb2lab` is the parameter `toLab`.
 */
module Analyzer {
  import opened Wrappers
  import opened Models

  /** The RGBA pixels of a decoded texture, in row-major order; a PNG has at least one. */
  type Image = s: seq<Pixel> | |s| > 0 witness [Pixel(0, 0, 0, 0)]

  const DefaultTransparencyThreshold: real := 0.05

  /** Number of pixels whose alpha is below 255 (fully or partly transparent). */
  function CountTranslucent(px: seq<Pixel>): (n: nat)
    ensures n <= |px|
  {
    if px == [] then 0
    else CountTranslucent(px[..|px| - 1]) + (if px[|px| - 1].a < 255 then 1 else 0)
  }

  /** The count is zero exactly for fully opaque images and `|px|` exactly when no pixel is
      opaque. */
  lemma {:induction false} CountTranslucentExtremes(px: seq<Pixel>)
    ensures CountTranslucent(px) == 0 <==> forall i :: 0 <= i < |px| ==> px[i].a == 255
    ensures CountTranslucent(px) == |px| <==> forall i :: 0 <= i < |px| ==> px[i].a < 255
  {
    if px != [] {
      var init := px[..|px| - 1];
      CountTranslucentExtremes(init);
      assert forall i :: 0 <= i < |init| ==> init[i] == px[i];
    }
  }

  /** `_has_transparency`: the share of non-opaque pixels is strictly above the threshold. */
  predicate HasTransparency(px: Image, threshold: real)
  {
    (CountTranslucent(px) as real) / (|px| as real) > threshold
  }

  /** At the default threshold a texture is transparent exactly when more than one pixel in
      twenty is not opaque; exactly 5% counts as solid. */
  lemma DefaultThresholdIffTwentieth(px: Image)
    ensures HasTransparency(px, DefaultTransparencyThreshold) <==> 20 * CountTranslucent(px) > |px|
  {
    RatioAbove(CountTranslucent(px) as real, |px| as real, DefaultTransparencyThreshold);
  }

  /** A ratio with a positive denominator is above `t` exactly when the numerator is above
      `t` times the denominator. */
  lemma RatioAbove(c: real, n: real, t: real)
    requires n > 0.0
    ensures c / n > t <==> c > t * n
  {
    var q := c / n;
    assert q * n == c;
    assert (q - t) * n == c - t * n;
  }

  /** The three colour channels averaged separately. */
  datatype Channel3 = Red | Green | Blue

  function Component(p: Pixel, c: Channel3): int
  {
    match c
    case Red => p.r
    case Green => p.g
    case Blue => p.b
  }

  /** Sum of one channel over a pixel sequence. */
  function ChannelSum(px: seq<Pixel>, c: Channel3): int
  {
    if px == [] then 0 else ChannelSum(px[..|px| - 1], c) + Component(px[|px| - 1], c)
  }

  /** The pixels with alpha > 0 (numpy's `rgb[alpha > 0]`), in order. */
  function Visible(px: seq<Pixel>): (v: seq<Pixel>)
    ensures |v| <= |px|
    ensures forall p :: p in v <==> p in px && p.a > 0
  {
    if px == [] then []
    else
      var init := px[..|px| - 1];
      var last := px[|px| - 1];
      assert forall p :: p in px <==> p in init || p == last;
      Visible(init) + (if last.a > 0 then [last] else [])
  }

  /** The pixels `_compute_average_rgb` averages: the visible ones, or every pixel when none
      is visible. */
  function Contributing(px: Image): (cs: seq<Pixel>)
    ensures |cs| > 0
    ensures (exists p :: p in px && p.a > 0) ==> forall p :: p in cs <==> p in px && p.a > 0
    ensures (forall p :: p in px ==> p.a == 0) ==> cs == px
  {
    var vis := Visible(px);
    if vis == [] then px
    else
      assert vis[0] in vis;
      vis
  }

  /** One channel's mean, truncated (`int()` of a non-negative mean is its floor). */
  function ChannelMean(cs: seq<Pixel>, c: Channel3): int
    requires |cs| > 0
  {
    ChannelSum(cs, c) / |cs|
  }

  /** `_compute_average_rgb`. */
  function AverageRgb(px: Image): (avg: Rgb)
  {
    var cs := Contributing(px);
    Rgb(ChannelMean(cs, Red), ChannelMean(cs, Green), ChannelMean(cs, Blue))
  }

  /** A channel sum lies between |cs|·lo and |cs|·hi when every component does. */
  lemma {:induction false} ChannelSumBounds(cs: seq<Pixel>, c: Channel3, lo: int, hi: int)
    requires forall i :: 0 <= i < |cs| ==> lo <= Component(cs[i], c) <= hi
    ensures |cs| * lo <= ChannelSum(cs, c) <= |cs| * hi
  {
    if cs != [] {
      var init := cs[..|cs| - 1];
      var m := |init|;
      forall i | 0 <= i < m
        ensures lo <= Component(init[i], c) <= hi
      {
        assert init[i] == cs[i];
      }
      ChannelSumBounds(init, c, lo, hi);
      var x := Component(cs[m], c);
      assert lo <= x <= hi;
      assert ChannelSum(cs, c) == ChannelSum(init, c) + x;
      MulSucc(m, lo);
      MulSucc(m, hi);
    }
  }

  lemma MulSucc(m: int, k: int)
    ensures (m + 1) * k == m * k + k
  {
  }

  /** The truncated mean of a channel lies between any lower and upper bound of the averaged
      components. */
  lemma ChannelMeanBounds(cs: seq<Pixel>, c: Channel3, lo: int, hi: int)
    requires |cs| > 0
    requires forall p :: p in cs ==> lo <= Component(p, c) <= hi
    ensures lo <= ChannelMean(cs, c) <= hi
  {
    assert forall i :: 0 <= i < |cs| ==> cs[i] in cs;
    ChannelSumBounds(cs, c, lo, hi);
    FloorDivBounds(ChannelSum(cs, c), |cs|, lo, hi);
  }

  /** Floor division by a positive count of a sum between n·lo and n·hi stays in lo..hi. */
  lemma FloorDivBounds(s: int, n: int, lo: int, hi: int)
    requires n > 0 && n * lo <= s <= n * hi
    ensures lo <= s / n <= hi
  {
    var q := s / n;
    assert s == q * n + s % n && 0 <= s % n < n;
    MulMonotone(q, lo - 1, n);
    MulMonotone(hi + 1, q, n);
  }

  /** Multiplication by a positive count keeps order. */
  lemma MulMonotone(a: int, b: int, n: int)
    requires n > 0
    ensures a <= b <==> a * n <= b * n
  {
    assert (b - a) * n == b * n - a * n;
  }

  /** Every component of the average colour lies between the smallest and the largest value of
      that component over the contributing pixels, and so within 0..255. */
  lemma AverageRgbBounds(px: Image, lo: int, hi: int)
    requires forall p :: p in Contributing(px) ==>
      lo <= p.r <= hi && lo <= p.g <= hi && lo <= p.b <= hi
    ensures var avg := AverageRgb(px);
      lo <= avg.r <= hi && lo <= avg.g <= hi && lo <= avg.b <= hi
  {
    var cs := Contributing(px);
    ChannelMeanBounds(cs, Red, lo, hi);
    ChannelMeanBounds(cs, Green, lo, hi);
    ChannelMeanBounds(cs, Blue, lo, hi);
  }

  lemma AverageRgbIsColour(px: Image)
    ensures var avg := AverageRgb(px);
      0 <= avg.r <= 255 && 0 <= avg.g <= 255 && 0 <= avg.b <= 255
  {
    AverageRgbBounds(px, 0, 255);
  }

  /** Fully transparent pixels do not dilute the average when some pixel is visible: the
      average of a texture equals the average of its visible pixels alone. */
  lemma AverageIgnoresInvisible(px: Image)
    requires exists p :: p in px && p.a > 0
    ensures Visible(px) != []
    ensures AverageRgb(px) == AverageRgb(Visible(px))
  {
    var vis := Visible(px);
    var p :| p in px && p.a > 0;
    assert p in vis;
    VisibleIdempotent(px);
  }

  lemma {:induction false} VisibleIdempotent(px: seq<Pixel>)
    ensures Visible(Visible(px)) == Visible(px)
  {
    if px != [] {
      var init := px[..|px| - 1];
      var last := px[|px| - 1];
      VisibleIdempotent(init);
      var tail := if last.a > 0 then [last] else [];
      VisibleAppend(Visible(init), tail);
    }
  }

  lemma {:induction false} VisibleAppend(a: seq<Pixel>, b: seq<Pixel>)
    ensures Visible(a + b) == Visible(a) + Visible(b)
    decreases |b|
  {
    if b == [] {
      assert a + b == a;
    } else {
      var b' := b[..|b| - 1];
      assert (a + b)[..|a + b| - 1] == a + b';
      VisibleAppend(a, b');
    }
  }

  /** The record after `analyze` has looked at it: only the transparency flag and the two
      colours change. */
  function AnalyzeBlock(b: BlockTexture, px: Image, threshold: real, toLab: Rgb -> Lab): (r: BlockTexture)
    ensures r.blockId == b.blockId && r.texturePath == b.texturePath && r.textureSize == b.textureSize
    ensures r.hasTransparency == HasTransparency(px, threshold)
    ensures r.avgColor.None? <==> r.hasTransparency
    ensures r.labColor.None? <==> r.hasTransparency
    ensures r.avgColor.Some? ==> r.avgColor.value == AverageRgb(px) && r.labColor == Some(toLab(r.avgColor.value))
  {
    if HasTransparency(px, threshold) then
      b.(hasTransparency := true, avgColor := None, labColor := None)
    else
      var avg := AverageRgb(px);
      b.(hasTransparency := false, avgColor := Some(avg), labColor := Some(toLab(avg)))
  }

  class TextureAnalyzer {
    const transparencyThreshold: real

    constructor(threshold: real)
      ensures transparencyThreshold == threshold
    {
      transparencyThreshold := threshold;
    }

    /** `analyze`: visits every record once and updates it in place. */
    method Analyze(blocks: array<BlockTexture>, decode: Path -> Image, toLab: Rgb -> Lab)
      modifies blocks
      ensures forall i :: 0 <= i < blocks.Length ==>
        blocks[i] == AnalyzeBlock(old(blocks[i]), decode(old(blocks[i]).texturePath), transparencyThreshold, toLab)
    {
      for i := 0 to blocks.Length
        invariant forall k :: 0 <= k < i ==>
          blocks[k] == AnalyzeBlock(old(blocks[k]), decode(old(blocks[k]).texturePath), transparencyThreshold, toLab)
        invariant forall k :: i <= k < blocks.Length ==> blocks[k] == old(blocks[k])
      {
        var block := blocks[i];
        var hasTransparency := HasTransparency(decode(block.texturePath), transparencyThreshold);
        block := block.(hasTransparency := hasTransparency);
        if !hasTransparency {
          var avgRgb := AverageRgb(decode(block.texturePath));
          var lab := toLab(avgRgb);
          block := block.(avgColor := Some(avgRgb), labColor := Some(lab));
        } else {
          block := block.(avgColor := None, labColor := None);
        }
        blocks[i] := block;
      }
    }
  }
}
