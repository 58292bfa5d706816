/**
 * `ImageToBlockMapper` (app/minecraft/image_mapper.py): converts an image into a grid of
 * catalogue records, one per pixel, each the matcher's choice for that pixel's L*a*b*
 * colour. Image decoding is the parameter `decode`, skimage's `rgb2lab` (applied to the
 * pixel divided by 255) the parameter `toLab`.
 */
module ImageMapper {
  import opened Wrappers
  import opened Models
  import opened Raster
  import opened Matcher

  /** The pixels the mapper works on: the decoded image, nearest-resized to `targetSize`
      (width, height) when one is given. */
  function PreparedPixels(img: RgbImage, targetSize: Option<(nat, nat)>): (px: seq<seq<Rgb>>)
    ensures IsRect(px)
    ensures targetSize.None? ==> px == img
    ensures targetSize.Some? ==>
      |px| == targetSize.value.1 && forall y :: 0 <= y < |px| ==> |px[y]| == targetSize.value.0
  {
    match targetSize
    case None => img
    case Some((width, height)) => ResizeNearest(img, width, height)
  }

  class ImageToBlockMapper {
    const matcher: ValidMatcher

    constructor(matcher: ValidMatcher)
      ensures this.matcher == matcher
    {
      this.matcher := matcher;
    }

    /** `map_image`: rows in increasing y, cells in increasing x. */
    method MapImage(imagePath: Path, targetSize: Option<(nat, nat)>, decode: Path -> RgbImage, toLab: Rgb -> Lab)
      returns (grid: seq<seq<BlockTexture>>)
      ensures var px := PreparedPixels(decode(imagePath), targetSize);
        |grid| == |px|
        && (forall y :: 0 <= y < |px| ==> |grid[y]| == |px[y]|)
        && (forall y, x :: 0 <= y < |px| && 0 <= x < |px[y]| ==> grid[y][x] == Nearest(matcher, toLab(px[y][x])))
      ensures forall y, x :: 0 <= y < |grid| && 0 <= x < |grid[y]| ==> grid[y][x] in matcher.blocks
      ensures targetSize.Some? ==>
        |grid| == targetSize.value.1 && forall y :: 0 <= y < |grid| ==> |grid[y]| == targetSize.value.0
    {
      var rgb := PreparedPixels(decode(imagePath), targetSize);
      var height := |rgb|;
      grid := [];
      for y := 0 to height
        invariant |grid| == y
        invariant forall j :: 0 <= j < y ==> |grid[j]| == |rgb[j]|
        invariant forall j, x :: 0 <= j < y && 0 <= x < |rgb[j]| ==> grid[j][x] == Nearest(matcher, toLab(rgb[j][x]))
      {
        var row := MapRow(rgb[y], toLab);
        grid := grid + [row];
      }
    }

    /** The inner loop of `map_image`: one row of pixels, left to right. */
    method MapRow(pixels: seq<Rgb>, toLab: Rgb -> Lab) returns (row: seq<BlockTexture>)
      ensures |row| == |pixels|
      ensures forall x :: 0 <= x < |pixels| ==> row[x] == Nearest(matcher, toLab(pixels[x]))
    {
      row := [];
      for x := 0 to |pixels|
        invariant |row| == x
        invariant forall i :: 0 <= i < x ==> row[i] == Nearest(matcher, toLab(pixels[i]))
      {
        var block := MatchLab(matcher, toLab(pixels[x]));
        row := row + [block];
      }
    }
  }
}
