/**
 * `BlockRenderer` (app/core/renderer.py): turns a block grid into an image by pasting each
 * cell's texture, scaled to `block_size` pixels square, at the cell's pixel position; can
 * add grid lines; maps an image pixel back to its cell; replaces a cell in place; and keeps
 * the textures it loaded in a cache keyed by the texture path's string form.
 *
 * Images are abstract: an `Image` records its size, the pastes in drawing order and the grid
 * lines drawn over them; a `Texture` is identified by the path it was loaded from. The grid
 * the caller passes is an `array2`, as `replace_block` changes it in place.
 */
module Renderer {
  import opened Wrappers
  import opened Models
  import opened CanvasGeometry

  const DefaultBlockSize: int := 16
  const EmptyGridMessage: string := "Empty block grid"

  /** A texture loaded from the file `key`, scaled to `side` x `side` pixels. */
  datatype Texture = Texture(key: string, side: int)

  /** A texture pasted with its top-left corner at (x, y). */
  datatype Paste = Paste(texture: Texture, x: int, y: int)

  /** A one-pixel line from (x0, y0) to (x1, y1). */
  datatype Segment = Segment(x0: int, y0: int, x1: int, y1: int)

  /** An RGBA image on a white background with textures pasted and lines drawn on it. */
  datatype Image = Image(width: int, height: int, pastes: seq<Paste>, lines: seq<Segment>)

  /** The cache key of a block's texture: `str(texture_path)`. */
  function CacheKey(b: BlockTexture): string
  {
    PathString(b.texturePath)
  }

  lemma MulMonotone(a: int, b: int, n: int)
    requires a <= b && n > 0
    ensures a * n <= b * n
  {
    assert b * n - a * n == (b - a) * n;
  }

  lemma MulAtLeastOne(n: int, d: int)
    requires n > 0 && d >= 1
    ensures n * d >= n
  {
  }

  /** Floor division undoes the multiplication of a cell index by the block size. */
  lemma DivOfMulAdd(q: int, n: int, j: int)
    requires n > 0 && 0 <= j < n
    ensures (q * n + j) / n == q
  {
    var k := q * n + j;
    var d := k / n - q;
    assert k == n * (k / n) + k % n;
    assert n * d == j - k % n by {
      assert n * d == n * (k / n) - n * q;
    }
    if d >= 1 {
      MulAtLeastOne(n, d);
    } else if d <= -1 {
      MulAtLeastOne(n, -d);
    }
  }

  /** A floor quotient is below `w` exactly when the dividend is below `w * n`. */
  lemma DivBelow(p: int, n: int, w: int)
    requires n > 0
    ensures p / n < w <==> p < w * n
  {
    var q := p / n;
    assert p == q * n + p % n;
    if q < w {
      MulMonotone(q + 1, w, n);
    } else {
      MulMonotone(w, q, n);
    }
  }

  /** The pastes of the first `m` cells of row `y`, left to right. */
  function RowPastes(grid: array2<BlockTexture>, y: int, bs: int, m: nat): (ps: seq<Paste>)
    reads grid
    requires 0 <= y < grid.Length0 && m <= grid.Length1
    ensures |ps| == m
  {
    if m == 0 then []
    else RowPastes(grid, y, bs, m - 1) + [Paste(Texture(CacheKey(grid[y, m - 1]), bs), (m - 1) * bs, y * bs)]
  }

  /** The pastes of the first `rows` rows, top to bottom. */
  function GridPastes(grid: array2<BlockTexture>, bs: int, rows: nat): (ps: seq<Paste>)
    reads grid
    requires rows <= grid.Length0
    ensures |ps| == Mul(grid.Length1, rows)
  {
    if rows == 0 then []
    else GridPastes(grid, bs, rows - 1) + RowPastes(grid, rows - 1, bs, grid.Length1)
  }

  lemma {:induction false} RowPastesAt(grid: array2<BlockTexture>, y: int, bs: int, m: nat, x: int)
    requires 0 <= y < grid.Length0 && m <= grid.Length1 && 0 <= x < m
    ensures RowPastes(grid, y, bs, m)[x] == Paste(Texture(CacheKey(grid[y, x]), bs), x * bs, y * bs)
  {
    if x < m - 1 {
      RowPastesAt(grid, y, bs, m - 1, x);
    }
  }

  lemma {:induction false} GridPastesAt(grid: array2<BlockTexture>, bs: int, rows: nat, y: nat, x: nat)
    requires rows <= grid.Length0 && y < rows && x < grid.Length1
    ensures && 0 <= Mul(grid.Length1, y) && Mul(grid.Length1, y) + x < Mul(grid.Length1, rows)
            && GridPastes(grid, bs, rows)[Mul(grid.Length1, y) + x] == Paste(Texture(CacheKey(grid[y, x]), bs), x * bs, y * bs)
  {
    if y < rows - 1 {
      GridPastesAt(grid, bs, rows - 1, y, x);
    } else {
      assert |GridPastes(grid, bs, y)| == Mul(grid.Length1, y);
      RowPastesAt(grid, y, bs, grid.Length1, x);
    }
  }

  /** The image `render` draws: (width * block_size) x (height * block_size), one paste per
      cell in row-major order. */
  function Rendered(grid: array2<BlockTexture>, bs: int): Image
    reads grid
  {
    Image(grid.Length1 * bs, grid.Length0 * bs, GridPastes(grid, bs, grid.Length0), [])
  }

  /** The paste for cell (x, y) is the `y * width + x`-th of width * height pastes, and it
      draws the cell's texture at (x * block_size, y * block_size). */
  lemma RenderedPaste(grid: array2<BlockTexture>, bs: int, x: int, y: int)
    requires 0 <= y < grid.Length0 && 0 <= x < grid.Length1
    ensures var img := Rendered(grid, bs);
      && |img.pastes| == grid.Length0 * grid.Length1
      && 0 <= y * grid.Length1 + x < |img.pastes|
      && img.pastes[y * grid.Length1 + x] == Paste(Texture(CacheKey(grid[y, x]), bs), x * bs, y * bs)
  {
    GridPastesAt(grid, bs, grid.Length0, y, x);
    MulIsProduct(grid.Length1, y);
    MulIsProduct(grid.Length1, grid.Length0);
    assert grid.Length1 * y == y * grid.Length1;
  }

  /** Each cell's paste lies wholly inside the image. */
  lemma PasteInImage(grid: array2<BlockTexture>, bs: int, x: int, y: int)
    requires bs > 0 && 0 <= y < grid.Length0 && 0 <= x < grid.Length1
    ensures var img := Rendered(grid, bs);
      && 0 <= x * bs && x * bs + bs <= img.width
      && 0 <= y * bs && y * bs + bs <= img.height
  {
    MulMonotone(x + 1, grid.Length1, bs);
    MulMonotone(y + 1, grid.Length0, bs);
    MulMonotone(0, x, bs);
    MulMonotone(0, y, bs);
    assert (x + 1) * bs == x * bs + bs;
    assert (y + 1) * bs == y * bs + bs;
  }

  /** The first `m` vertical lines of a grid of `h` rows: x = i * block_size, full height. */
  function VerticalLines(h: int, bs: int, m: nat): (ls: seq<Segment>)
    ensures |ls| == m
  {
    if m == 0 then [] else VerticalLines(h, bs, m - 1) + [Segment((m - 1) * bs, 0, (m - 1) * bs, h * bs)]
  }

  /** The first `m` horizontal lines of a grid of `w` columns: y = j * block_size, full width. */
  function HorizontalLines(w: int, bs: int, m: nat): (ls: seq<Segment>)
    ensures |ls| == m
  {
    if m == 0 then [] else HorizontalLines(w, bs, m - 1) + [Segment(0, (m - 1) * bs, w * bs, (m - 1) * bs)]
  }

  /** The lines `render_with_grid` draws over a w x h grid: verticals, then horizontals. */
  function GridLines(w: nat, h: nat, bs: int): seq<Segment>
  {
    VerticalLines(h, bs, w + 1) + HorizontalLines(w, bs, h + 1)
  }

  lemma {:induction false} VerticalAt(h: int, bs: int, m: nat, i: int)
    requires 0 <= i < m
    ensures VerticalLines(h, bs, m)[i] == Segment(i * bs, 0, i * bs, h * bs)
  {
    if i < m - 1 {
      VerticalAt(h, bs, m - 1, i);
    }
  }

  lemma {:induction false} HorizontalAt(w: int, bs: int, m: nat, j: int)
    requires 0 <= j < m
    ensures HorizontalLines(w, bs, m)[j] == Segment(0, j * bs, w * bs, j * bs)
  {
    if j < m - 1 {
      HorizontalAt(w, bs, m - 1, j);
    }
  }

  /** width + 1 vertical lines at every multiple of the block size from 0 to the image width,
      each spanning the image's height, then height + 1 horizontal lines likewise. */
  lemma GridLinesShape(w: nat, h: nat, bs: int)
    ensures |GridLines(w, h, bs)| == (w + 1) + (h + 1)
    ensures forall i :: 0 <= i <= w ==> GridLines(w, h, bs)[i] == Segment(i * bs, 0, i * bs, h * bs)
    ensures forall j :: 0 <= j <= h ==> GridLines(w, h, bs)[w + 1 + j] == Segment(0, j * bs, w * bs, j * bs)
  {
    forall i | 0 <= i <= w
      ensures GridLines(w, h, bs)[i] == Segment(i * bs, 0, i * bs, h * bs)
    {
      VerticalAt(h, bs, w + 1, i);
    }
    forall j | 0 <= j <= h
      ensures GridLines(w, h, bs)[w + 1 + j] == Segment(0, j * bs, w * bs, j * bs)
    {
      HorizontalAt(w, bs, h + 1, j);
    }
  }

  /** The keys of the cells before (x, y) in row-major order. */
  function KeysBefore(grid: array2<BlockTexture>, y: int, x: int): set<string>
    reads grid
  {
    set j, i | 0 <= j < grid.Length0 && 0 <= i < grid.Length1 && (j < y || (j == y && i < x)) :: CacheKey(grid[j, i])
  }

  lemma KeysBeforeStep(grid: array2<BlockTexture>, y: int, x: int)
    requires 0 <= y < grid.Length0 && 0 <= x < grid.Length1
    ensures KeysBefore(grid, y, x + 1) == KeysBefore(grid, y, x) + {CacheKey(grid[y, x])}
  {
    forall k | k in KeysBefore(grid, y, x + 1)
      ensures k in KeysBefore(grid, y, x) + {CacheKey(grid[y, x])}
    {
      var j, i :| 0 <= j < grid.Length0 && 0 <= i < grid.Length1 && (j < y || (j == y && i < x + 1))
        && k == CacheKey(grid[j, i]);
      if j != y || i != x {
        assert k in KeysBefore(grid, y, x);
      }
    }
    forall k | k in KeysBefore(grid, y, x)
      ensures k in KeysBefore(grid, y, x + 1)
    {
      var j, i :| 0 <= j < grid.Length0 && 0 <= i < grid.Length1 && (j < y || (j == y && i < x))
        && k == CacheKey(grid[j, i]);
    }
    assert CacheKey(grid[y, x]) in KeysBefore(grid, y, x + 1);
  }

  lemma KeysBeforeRow(grid: array2<BlockTexture>, y: int)
    ensures KeysBefore(grid, y, grid.Length1) == KeysBefore(grid, y + 1, 0)
  {
    forall k | k in KeysBefore(grid, y + 1, 0)
      ensures k in KeysBefore(grid, y, grid.Length1)
    {
      var j, i :| 0 <= j < grid.Length0 && 0 <= i < grid.Length1 && (j < y + 1 || (j == y + 1 && i < 0))
        && k == CacheKey(grid[j, i]);
    }
  }

  class BlockRenderer {
    const blockSize: int
    /** `_texture_cache`. */
    var cache: map<string, Texture>
    /** The texture files loaded since the cache was last cleared, in order. */
    var loaded: seq<string>

    /** The block size is positive; each cached texture is the file of its key scaled to the
        block size; exactly the cached keys were loaded, each once. */
    predicate Valid()
      reads this
    {
      && blockSize > 0
      && (forall k :: k in cache ==> cache[k] == Texture(k, blockSize))
      && (forall k :: k in cache ==> k in loaded)
      && (forall i :: 0 <= i < |loaded| ==> loaded[i] in cache)
      && (forall i, j :: 0 <= i < j < |loaded| ==> loaded[i] != loaded[j])
    }

    /** `BlockRenderer(block_size)`: an empty cache. */
    constructor(blockSize: int)
      requires blockSize > 0
      ensures Valid() && this.blockSize == blockSize && cache == map[] && loaded == []
    {
      this.blockSize := blockSize;
      cache := map[];
      loaded := [];
    }

    /** `_load_texture`: open and scale the texture only when its key is not cached. */
    method LoadTexture(block: BlockTexture) returns (t: Texture)
      requires Valid()
      modifies this
      ensures Valid() && t == Texture(CacheKey(block), blockSize)
      ensures cache == old(cache)[CacheKey(block) := t]
      ensures cache.Keys == old(cache).Keys + {CacheKey(block)}
      ensures loaded == old(loaded) + (if CacheKey(block) in old(cache) then [] else [CacheKey(block)])
    {
      var cacheKey := PathString(block.texturePath);
      if cacheKey !in cache {
        var texture := Texture(cacheKey, blockSize);
        cache := cache[cacheKey := texture];
        loaded := loaded + [cacheKey];
      }
      t := cache[cacheKey];
    }

    /** `clear_cache`. */
    method ClearCache()
      requires Valid()
      modifies this
      ensures Valid() && cache == map[] && loaded == []
    {
      cache := map[];
      loaded := [];
    }

    /** `render` (without saving): ValueError for a grid with no rows or no columns;
        otherwise the rendered image, every cell's texture cached and no texture loaded
        twice. */
    method Render(grid: array2<BlockTexture>) returns (r: Result<Image, Error>)
      requires Valid()
      modifies this
      ensures Valid()
      ensures grid.Length0 == 0 || grid.Length1 == 0 ==>
        r == Failure(ValueError(EmptyGridMessage)) && cache == old(cache) && loaded == old(loaded)
      ensures grid.Length0 > 0 && grid.Length1 > 0 ==>
        && r == Success(Rendered(grid, blockSize))
        && cache.Keys == old(cache).Keys + KeysBefore(grid, grid.Length0, 0)
    {
      if grid.Length0 == 0 || grid.Length1 == 0 {
        return Failure(ValueError(EmptyGridMessage));
      }
      var height := grid.Length0;
      var width := grid.Length1;
      var outputWidth := width * blockSize;
      var outputHeight := height * blockSize;
      var pastes: seq<Paste> := [];
      for y := 0 to height
        invariant Valid()
        invariant pastes == GridPastes(grid, blockSize, y)
        invariant cache.Keys == old(cache).Keys + KeysBefore(grid, y, 0)
      {
        var row := PasteRow(grid, y, old(cache).Keys);
        pastes := pastes + row;
        KeysBeforeRow(grid, y);
      }
      r := Success(Image(outputWidth, outputHeight, pastes, []));
    }

    /** The inner loop of `render`: load and place the textures of row `y`, left to right. */
    method PasteRow(grid: array2<BlockTexture>, y: int, ghost keys: set<string>) returns (row: seq<Paste>)
      requires Valid() && 0 <= y < grid.Length0
      requires cache.Keys == keys + KeysBefore(grid, y, 0)
      modifies this
      ensures Valid() && row == RowPastes(grid, y, blockSize, grid.Length1)
      ensures cache.Keys == keys + KeysBefore(grid, y, grid.Length1)
    {
      row := [];
      for x := 0 to grid.Length1
        invariant Valid()
        invariant row == RowPastes(grid, y, blockSize, x)
        invariant cache.Keys == keys + KeysBefore(grid, y, x)
      {
        var block := grid[y, x];
        var texture := LoadTexture(block);
        KeysBeforeStep(grid, y, x);
        var pasteX := x * blockSize;
        var pasteY := y * blockSize;
        row := row + [Paste(texture, pasteX, pasteY)];
      }
    }

    /** `render_with_grid` (without saving): the rendered image with the grid lines drawn over
        it, or the ValueError of `render`. */
    method RenderWithGrid(grid: array2<BlockTexture>) returns (r: Result<Image, Error>)
      requires Valid()
      modifies this
      ensures Valid()
      ensures grid.Length0 == 0 || grid.Length1 == 0 ==>
        r == Failure(ValueError(EmptyGridMessage)) && cache == old(cache) && loaded == old(loaded)
      ensures grid.Length0 > 0 && grid.Length1 > 0 ==>
        r == Success(Rendered(grid, blockSize).(lines := GridLines(grid.Length1, grid.Length0, blockSize)))
    {
      var image := Render(grid);
      if image.Failure? {
        return image;
      }
      var height := grid.Length0;
      var width := grid.Length1;
      var lines: seq<Segment> := [];
      for x := 0 to width + 1
        invariant lines == VerticalLines(height, blockSize, x)
      {
        var xPos := x * blockSize;
        lines := lines + [Segment(xPos, 0, xPos, height * blockSize)];
      }
      for y := 0 to height + 1
        invariant lines == VerticalLines(height, blockSize, width + 1) + HorizontalLines(width, blockSize, y)
      {
        var yPos := y * blockSize;
        lines := lines + [Segment(0, yPos, width * blockSize, yPos)];
      }
      r := Success(image.value.(lines := lines));
    }

    /** `get_block_at_position`: the cell under pixel (pixelX, pixelY) by floor division, or
        None outside the grid. */
    function GetBlockAtPosition(grid: array2<BlockTexture>, pixelX: int, pixelY: int): (r: Option<(int, int, BlockTexture)>)
      reads this, grid
      requires Valid()
      ensures r.Some? ==> 0 <= r.value.1 < grid.Length0 && 0 <= r.value.0 < grid.Length1
      ensures r.Some? ==> r.value.2 == grid[r.value.1, r.value.0]
    {
      var gridX := pixelX / blockSize;
      var gridY := pixelY / blockSize;
      if 0 <= gridY < grid.Length0 && 0 <= gridX < grid.Length1 then Some((gridX, gridY, grid[gridY, gridX])) else None
    }

    /** A pixel finds a cell exactly when it lies inside the rendered image, and the cell it
        finds is the one whose paste covers it. */
    lemma PositionInImage(grid: array2<BlockTexture>, pixelX: int, pixelY: int)
      requires Valid()
      ensures var r := GetBlockAtPosition(grid, pixelX, pixelY);
        && (r.Some? <==> 0 <= pixelX < grid.Length1 * blockSize && 0 <= pixelY < grid.Length0 * blockSize)
        && (r.Some? ==>
              && r.value.0 * blockSize <= pixelX < r.value.0 * blockSize + blockSize
              && r.value.1 * blockSize <= pixelY < r.value.1 * blockSize + blockSize)
    {
      DivBelow(pixelX, blockSize, grid.Length1);
      DivBelow(pixelY, blockSize, grid.Length0);
      DivBelow(pixelX, blockSize, 0);
      DivBelow(pixelY, blockSize, 0);
      assert pixelX == (pixelX / blockSize) * blockSize + pixelX % blockSize;
      assert pixelY == (pixelY / blockSize) * blockSize + pixelY % blockSize;
    }

    /** Every pixel of the square where cell (x, y) is pasted maps back to that cell. */
    lemma PositionOfPaste(grid: array2<BlockTexture>, x: int, y: int, dx: int, dy: int)
      requires Valid()
      requires 0 <= y < grid.Length0 && 0 <= x < grid.Length1
      requires 0 <= dx < blockSize && 0 <= dy < blockSize
      ensures GetBlockAtPosition(grid, x * blockSize + dx, y * blockSize + dy) == Some((x, y, grid[y, x]))
    {
      DivOfMulAdd(x, blockSize, dx);
      DivOfMulAdd(y, blockSize, dy);
    }

    /** `replace_block`: in the grid, write the cell and report True; outside, report False
        and leave the grid alone. */
    method ReplaceBlock(grid: array2<BlockTexture>, gridX: int, gridY: int, newBlock: BlockTexture) returns (ok: bool)
      modifies grid
      ensures ok <==> 0 <= gridY < grid.Length0 && 0 <= gridX < grid.Length1
      ensures ok ==> grid[gridY, gridX] == newBlock
      ensures forall j, i :: 0 <= j < grid.Length0 && 0 <= i < grid.Length1 && (i, j) != (gridX, gridY) ==>
        grid[j, i] == old(grid[j, i])
    {
      if 0 <= gridY < grid.Length0 && 0 <= gridX < grid.Length1 {
        grid[gridY, gridX] := newBlock;
        return true;
      }
      return false;
    }
  }
}
