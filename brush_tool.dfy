/**
 * `BrushTool` (app/tools/brush_tool.py): paints the current block over a square footprint of
 * odd side around each cell it is pressed or dragged over, interpolating a drag with the
 * canvas's Bresenham line from the last painted position (the stroke anchor). The footprint,
 * a single dab and a whole stroke are specified here on values; the class's methods are
 * proved against them and the lemmas state what they leave in the grid.
 */
module BrushTools {
  import opened Wrappers
  import opened Models
  import opened CanvasGeometry
  import opened CanvasModel
  import opened Tools
  import opened CanvasWidget

  const BrushName: string := "Brush"
  const BrushCursor: string := "crosshair"
  const LeftButton: string := "left"

  /** The size `set_brush_size` stores. */
  function NormalizedBrushSize(size: int): (r: int)
    ensures r >= 1 && r % 2 == 1
    ensures size < 1 ==> r == 1
    ensures size >= 1 && size % 2 == 1 ==> r == size
    ensures size >= 1 && size % 2 == 0 ==> r == size + 1
  {
    var s := if size < 1 then 1 else size;
    if s % 2 == 0 then s + 1 else s
  }

  /** The stored size is the least odd size of at least `max(size, 1)`, and storing it again
      keeps it. */
  lemma NormalizedBrushSizeLeast(size: int, other: int)
    requires other >= 1 && other >= size && other % 2 == 1
    ensures size <= NormalizedBrushSize(size) <= other
    ensures NormalizedBrushSize(NormalizedBrushSize(size)) == NormalizedBrushSize(size)
  {
  }

  /** Cell `c` lies within `radius` of `p` on both axes. */
  predicate Near(p: Cell, c: Cell, radius: int)
  {
    Abs(c.0 - p.0) <= radius && Abs(c.1 - p.1) <= radius
  }

  /** The first `m` positions of the footprint row at height `y`, left to right. */
  function RowPart(cx: int, y: int, radius: nat, m: nat): (row: seq<Cell>)
    ensures |row| == m
  {
    if m == 0 then [] else RowPart(cx, y, radius, m - 1) + [(cx - radius + m - 1, y)]
  }

  /** The first `rows` rows of the footprint, top to bottom. */
  function AreaPart(cx: int, cy: int, radius: nat, rows: nat): (area: seq<Cell>)
    ensures |area| == Mul(2 * radius + 1, rows)
  {
    if rows == 0 then []
    else AreaPart(cx, cy, radius, rows - 1) + RowPart(cx, cy - radius + rows - 1, radius, 2 * radius + 1)
  }

  /** `_get_brush_area(cx, cy)` for a brush of radius `size // 2`. */
  function BrushArea(cx: int, cy: int, radius: nat): seq<Cell>
  {
    AreaPart(cx, cy, radius, 2 * radius + 1)
  }

  lemma {:induction false} RowPartMembers(cx: int, y: int, radius: nat, m: nat, c: Cell)
    ensures c in RowPart(cx, y, radius, m) <==> c.1 == y && cx - radius <= c.0 < cx - radius + m
  {
    if m > 0 {
      RowPartMembers(cx, y, radius, m - 1, c);
    }
  }

  lemma {:induction false} AreaPartMembers(cx: int, cy: int, radius: nat, rows: nat, c: Cell)
    ensures c in AreaPart(cx, cy, radius, rows) <==>
      cy - radius <= c.1 < cy - radius + rows && cx - radius <= c.0 <= cx + radius
  {
    if rows > 0 {
      AreaPartMembers(cx, cy, radius, rows - 1, c);
      RowPartMembers(cx, cy - radius + rows - 1, radius, 2 * radius + 1, c);
    }
  }

  /** The footprint is exactly the cells within the radius of the centre on both axes, and it
      lists size * size positions. */
  lemma BrushAreaExact(cx: int, cy: int, radius: nat, c: Cell)
    ensures c in BrushArea(cx, cy, radius) <==> Near((cx, cy), c, radius)
    ensures |BrushArea(cx, cy, radius)| == (2 * radius + 1) * (2 * radius + 1)
  {
    AreaPartMembers(cx, cy, radius, 2 * radius + 1, c);
    MulIsProduct(2 * radius + 1, 2 * radius + 1);
  }

  /** Position `k` of a row prefix. */
  lemma {:induction false} RowPartAt(cx: int, y: int, radius: nat, m: nat, k: int)
    requires 0 <= k < m
    ensures RowPart(cx, y, radius, m)[k] == (cx - radius + k, y)
  {
    if k < m - 1 {
      RowPartAt(cx, y, radius, m - 1, k);
    }
  }

  /** Position `col` of row `row` of the footprint sits at index `row * n + col` (n the
      side): the positions are listed row by row, left to right. */
  lemma {:induction false} AreaPartAt(cx: int, cy: int, radius: nat, rows: nat, row: nat, col: nat)
    requires row < rows && col < 2 * radius + 1
    ensures && 0 <= Mul(2 * radius + 1, row) && Mul(2 * radius + 1, row) + col < Mul(2 * radius + 1, rows)
            && AreaPart(cx, cy, radius, rows)[Mul(2 * radius + 1, row) + col] == (cx - radius + col, cy - radius + row)
  {
    if row < rows - 1 {
      AreaPartAt(cx, cy, radius, rows - 1, row, col);
    } else {
      assert |AreaPart(cx, cy, radius, row)| == Mul(2 * radius + 1, row);
      RowPartAt(cx, cy - radius + rows - 1, radius, 2 * radius + 1, col);
    }
  }

  lemma BrushAreaRowMajor(cx: int, cy: int, radius: nat, dx: int, dy: int)
    requires Abs(dx) <= radius && Abs(dy) <= radius
    ensures var k := (2 * radius + 1) * (dy + radius) + (dx + radius);
      && 0 <= k < |BrushArea(cx, cy, radius)|
      && BrushArea(cx, cy, radius)[k] == (cx + dx, cy + dy)
  {
    var n := 2 * radius + 1;
    var row: nat := dy + radius;
    AreaPartAt(cx, cy, radius, n, row, dx + radius);
    MulIsProduct(n, row);
  }

  /** `_paint_at(x, y)` on the canvas state: without a current block nothing; otherwise
      `set_block_at` without immediate render on each footprint position inside the grid,
      then one scheduled render. */
  function PaintFootprint(s: CanvasState, v: View, current: Option<BlockTexture>, x: int, y: int, radius: nat, now: real): (r: CanvasState)
    requires IsGrid(s.grid) && v.zoom > 0.0
    ensures IsGrid(r.grid) && |r.grid| == |s.grid| && GridWidth(r.grid) == GridWidth(s.grid)
    ensures r.rendering == s.rendering
  {
    if current.None? then s
    else Schedule(SetBlocks(s, v, BrushArea(x, y, radius), current.value, now), v, now)
  }

  /** A dab leaves every footprint cell inside the grid holding the block's id and every other
      cell unchanged; positions outside the grid are skipped. */
  lemma FootprintEffect(s: CanvasState, v: View, b: BlockTexture, x: int, y: int, radius: nat, now: real)
    requires IsGrid(s.grid) && v.zoom > 0.0
    ensures var r := PaintFootprint(s, v, Some(b), x, y, radius, now);
      && (forall i, j :: InBounds(s.grid, i, j) && Near((x, y), (i, j), radius) ==> r.grid[j][i].blockId == b.blockId)
      && (forall i, j :: InBounds(s.grid, i, j) && !Near((x, y), (i, j), radius) ==> r.grid[j][i] == s.grid[j][i])
  {
    var area := BrushArea(x, y, radius);
    SetBlocksGrid(s, v, area, b, now);
    PaintCellsEffect(s, area, b);
    forall i, j | InBounds(s.grid, i, j)
      ensures (i, j) in area <==> Near((x, y), (i, j), radius)
    {
      BrushAreaExact(x, y, radius, (i, j));
    }
  }

  /** A sequence of dabs, one per point, in order (the loop of `on_mouse_drag`). */
  function Stroke(s: CanvasState, v: View, pts: seq<Cell>, radius: nat, b: BlockTexture, now: real): (r: CanvasState)
    requires IsGrid(s.grid) && v.zoom > 0.0
    ensures IsGrid(r.grid) && |r.grid| == |s.grid| && GridWidth(r.grid) == GridWidth(s.grid)
    ensures r.rendering == s.rendering
  {
    if pts == [] then s
    else
      var p := pts[|pts| - 1];
      PaintFootprint(Stroke(s, v, pts[..|pts| - 1], radius, b, now), v, Some(b), p.0, p.1, radius, now)
  }

  /** Some point of the stroke has cell `c` in its footprint. */
  predicate Covered(pts: seq<Cell>, radius: int, c: Cell)
  {
    exists k :: 0 <= k < |pts| && Near(pts[k], c, radius)
  }

  /** After a stroke every cell inside the grid that some dab covered holds the block's id,
      and every cell no dab covered is unchanged. */
  lemma {:induction false} StrokeEffect(s: CanvasState, v: View, pts: seq<Cell>, radius: nat, b: BlockTexture, now: real)
    requires IsGrid(s.grid) && v.zoom > 0.0
    ensures var r := Stroke(s, v, pts, radius, b, now);
      && (forall i, j :: InBounds(s.grid, i, j) && Covered(pts, radius, (i, j)) ==> r.grid[j][i].blockId == b.blockId)
      && (forall i, j :: InBounds(s.grid, i, j) && !Covered(pts, radius, (i, j)) ==> r.grid[j][i] == s.grid[j][i])
    decreases |pts|
  {
    if pts != [] {
      var init := pts[..|pts| - 1];
      var p := pts[|pts| - 1];
      StrokeEffect(s, v, init, radius, b, now);
      var q := Stroke(s, v, init, radius, b, now);
      FootprintEffect(q, v, b, p.0, p.1, radius, now);
      forall i, j
        ensures Covered(pts, radius, (i, j)) <==> Covered(init, radius, (i, j)) || Near(p, (i, j), radius)
      {
        CoveredSnoc(pts, radius, (i, j));
      }
    }
  }

  lemma CoveredSnoc(pts: seq<Cell>, radius: int, c: Cell)
    requires pts != []
    ensures Covered(pts, radius, c) <==> Covered(pts[..|pts| - 1], radius, c) || Near(pts[|pts| - 1], c, radius)
  {
    var init := pts[..|pts| - 1];
    if Covered(pts, radius, c) && !Near(pts[|pts| - 1], c, radius) {
      var k :| 0 <= k < |pts| && Near(pts[k], c, radius);
      assert k < |init| && init[k] == pts[k];
    }
    if Covered(init, radius, c) {
      var k :| 0 <= k < |init| && Near(init[k], c, radius);
      assert pts[k] == init[k];
    }
  }

  /** The points a left drag paints along: the Bresenham line from the anchor, or the current
      cell alone when there is no anchor. */
  function DragPoints(anchor: Option<Cell>, x: int, y: int): (pts: seq<Cell>)
    ensures pts != [] && pts[|pts| - 1] == (x, y) && Connected(pts)
    ensures anchor.Some? ==> pts[0] == anchor.value
    ensures anchor.None? ==> pts == [(x, y)]
  {
    if anchor.Some? then
      LineAdjacent(anchor.value.0, anchor.value.1, x, y);
      Line(anchor.value.0, anchor.value.1, x, y)
    else [(x, y)]
  }

  /** A drag paints the footprints of both the anchor and the new cell and of every point of
      the gap-free line between them, and nothing else. */
  lemma DragEffect(s: CanvasState, v: View, anchor: Option<Cell>, x: int, y: int, radius: nat, b: BlockTexture, now: real)
    requires IsGrid(s.grid) && v.zoom > 0.0
    ensures var pts := DragPoints(anchor, x, y);
      var r := Stroke(s, v, pts, radius, b, now);
      && (forall i, j :: InBounds(s.grid, i, j) && Near((x, y), (i, j), radius) ==> r.grid[j][i].blockId == b.blockId)
      && (anchor.Some? ==>
            forall i, j :: InBounds(s.grid, i, j) && Near(anchor.value, (i, j), radius) ==> r.grid[j][i].blockId == b.blockId)
      && (forall i, j :: InBounds(s.grid, i, j) && !Covered(pts, radius, (i, j)) ==> r.grid[j][i] == s.grid[j][i])
  {
    var pts := DragPoints(anchor, x, y);
    StrokeEffect(s, v, pts, radius, b, now);
    forall i, j | Near((x, y), (i, j), radius)
      ensures Covered(pts, radius, (i, j))
    {
      assert Near(pts[|pts| - 1], (i, j), radius);
    }
    if anchor.Some? {
      forall i, j | Near(anchor.value, (i, j), radius)
        ensures Covered(pts, radius, (i, j))
      {
        assert Near(pts[0], (i, j), radius);
      }
    }
  }

  /** `on_mouse_up`'s final render: a forced full render when anything is dirty or pending. */
  function FinishStroke(s: CanvasState, v: View, now: real): (r: CanvasState)
    requires v.zoom > 0.0
    ensures r.grid == s.grid && r.changes == s.changes
  {
    if s.dirty != {} || s.pending then Render(s, v, true, now) else s
  }

  /** Releasing the button leaves nothing dirty or pending, unless a render is already in
      progress or there is no grid to draw (the dirty set then stays as it was). */
  lemma FinishStrokeFlushes(s: CanvasState, v: View, now: real)
    requires v.zoom > 0.0 && !s.rendering
    ensures var r := FinishStroke(s, v, now);
      && !r.pending
      && (s.grid != [] ==> r.dirty == {})
      && (s.grid == [] ==> r.dirty == s.dirty)
  {
    RenderOutcome(s, v, true, now);
  }

  class BrushTool {
    /** The `BaseTool` part: name and activation flag. */
    const tool: BaseTool
    var brushSize: int
    var lastPaintedPos: Option<Cell>

    /** The stored size is odd and at least 1. */
    predicate Valid()
      reads this
    {
      brushSize >= 1 && brushSize % 2 == 1
    }

    /** `size // 2`. */
    function Radius(): (r: nat)
      reads this
      requires Valid()
      ensures 2 * r + 1 == brushSize
    {
      brushSize / 2
    }

    /** A new brush: tool "Brush", inactive, size 1, no stroke anchor. */
    constructor()
      ensures Valid() && fresh(tool) && tool.name == BrushName && !tool.isActive
      ensures brushSize == 1 && lastPaintedPos.None?
    {
      tool := new BaseTool(BrushName);
      brushSize := 1;
      lastPaintedPos := None;
    }

    /** `set_brush_size`: at least 1, and odd (an even size is rounded up); no upper bound. */
    method SetBrushSize(size: int)
      modifies this
      ensures Valid() && brushSize == NormalizedBrushSize(size) && lastPaintedPos == old(lastPaintedPos)
    {
      var s := size;
      if s < 1 {
        s := 1;
      }
      if s % 2 == 0 {
        s := s + 1;
      }
      brushSize := s;
    }

    /** `get_brush_size`. */
    function GetBrushSize(): (s: int)
      reads this
      requires Valid()
      ensures s == brushSize && s >= 1 && s % 2 == 1
    {
      brushSize
    }

    /** `activate` and `deactivate` of the tool part leave the brush's size and stroke anchor
        as they were. */
    method Activate()
      modifies tool
      ensures tool.isActive
      ensures brushSize == old(brushSize) && lastPaintedPos == old(lastPaintedPos)
    {
      tool.Activate();
    }

    method Deactivate()
      modifies tool
      ensures !tool.isActive
      ensures brushSize == old(brushSize) && lastPaintedPos == old(lastPaintedPos)
    {
      tool.Deactivate();
    }

    /** `_get_brush_area`: the footprint around (centerX, centerY), row by row. */
    method GetBrushArea(centerX: int, centerY: int) returns (positions: seq<Cell>)
      requires Valid()
      ensures positions == BrushArea(centerX, centerY, Radius())
    {
      positions := [];
      var radius := brushSize / 2;
      for dy := -radius to radius + 1
        invariant positions == AreaPart(centerX, centerY, radius, dy + radius)
      {
        for dx := -radius to radius + 1
          invariant positions == AreaPart(centerX, centerY, radius, dy + radius) + RowPart(centerX, centerY + dy, radius, dx + radius)
        {
          positions := positions + [(centerX + dx, centerY + dy)];
        }
      }
    }

    /** `_paint_at`. */
    method PaintAt(canvas: Canvas, gridX: int, gridY: int, now: real)
      requires Valid() && canvas.Valid()
      modifies canvas
      ensures canvas.Valid()
      ensures canvas.State() == PaintFootprint(old(canvas.State()), canvas.CurrentView(), canvas.currentBlock, gridX, gridY, Radius(), now)
      ensures canvas.CurrentView() == old(canvas.CurrentView()) && canvas.currentBlock == old(canvas.currentBlock)
      ensures canvas.activeTool == old(canvas.activeTool)
    {
      var currentBlock := canvas.currentBlock;
      if currentBlock.None? {
        return;
      }
      var positions := GetBrushArea(gridX, gridY);
      for i := 0 to |positions|
        invariant canvas.Valid()
        invariant canvas.CurrentView() == old(canvas.CurrentView()) && canvas.currentBlock == currentBlock
        invariant canvas.activeTool == old(canvas.activeTool)
        invariant canvas.State() == SetBlocks(old(canvas.State()), canvas.CurrentView(), positions[..i], currentBlock.value, now)
      {
        assert positions[..i + 1][..i] == positions[..i];
        var (x, y) := positions[i];
        if 0 <= x < canvas.gridWidth && 0 <= y < canvas.gridHeight {
          canvas.SetBlockAt(x, y, currentBlock.value, false, now);
        }
      }
      assert positions[..|positions|] == positions;
      canvas.ScheduleRender(now);
    }

    /** `on_mouse_down`: a left press anchors the stroke at the cell and paints there. */
    method OnMouseDown(canvas: Canvas, gridX: int, gridY: int, button: string, now: real)
      requires Valid() && canvas.Valid()
      modifies this, canvas
      ensures Valid() && brushSize == old(brushSize) && canvas.Valid()
      ensures button != LeftButton ==> lastPaintedPos == old(lastPaintedPos) && canvas.State() == old(canvas.State())
      ensures button == LeftButton ==>
        && lastPaintedPos == Some((gridX, gridY))
        && canvas.State() == PaintFootprint(old(canvas.State()), canvas.CurrentView(), canvas.currentBlock, gridX, gridY, Radius(), now)
      ensures canvas.CurrentView() == old(canvas.CurrentView()) && canvas.currentBlock == old(canvas.currentBlock)
      ensures canvas.activeTool == old(canvas.activeTool)
    {
      if button == LeftButton {
        lastPaintedPos := Some((gridX, gridY));
        PaintAt(canvas, gridX, gridY, now);
      }
    }

    /** `on_mouse_drag`: with the left button and a current block, paint a dab at every point
        from the anchor to the cell (or at the cell alone without an anchor), then move the
        anchor to the cell. Without a current block the anchor stays. */
    method OnMouseDrag(canvas: Canvas, gridX: int, gridY: int, button: string, now: real)
      requires Valid() && canvas.Valid()
      modifies this, canvas
      ensures Valid() && brushSize == old(brushSize) && canvas.Valid()
      ensures button != LeftButton || canvas.currentBlock.None? ==>
        lastPaintedPos == old(lastPaintedPos) && canvas.State() == old(canvas.State())
      ensures button == LeftButton && canvas.currentBlock.Some? ==>
        && lastPaintedPos == Some((gridX, gridY))
        && canvas.State() == Stroke(old(canvas.State()), canvas.CurrentView(),
             DragPoints(old(lastPaintedPos), gridX, gridY), Radius(), canvas.currentBlock.value, now)
      ensures canvas.CurrentView() == old(canvas.CurrentView()) && canvas.currentBlock == old(canvas.currentBlock)
      ensures canvas.activeTool == old(canvas.activeTool)
    {
      if button == LeftButton {
        var currentBlock := canvas.currentBlock;
        if currentBlock.None? {
          return;
        }
        var b := currentBlock.value;
        if lastPaintedPos.Some? {
          var (lastX, lastY) := lastPaintedPos.value;
          var points := BresenhamLine(lastX, lastY, gridX, gridY);
          for i := 0 to |points|
            modifies canvas
            invariant canvas.Valid()
            invariant canvas.CurrentView() == old(canvas.CurrentView()) && canvas.currentBlock == currentBlock
            invariant canvas.activeTool == old(canvas.activeTool)
            invariant canvas.State() == Stroke(old(canvas.State()), canvas.CurrentView(), points[..i], Radius(), b, now)
          {
            assert points[..i + 1][..i] == points[..i];
            PaintAt(canvas, points[i].0, points[i].1, now);
          }
          assert points[..|points|] == points;
        } else {
          PaintAt(canvas, gridX, gridY, now);
          assert [(gridX, gridY)][..0] == [];
        }
        lastPaintedPos := Some((gridX, gridY));
      }
    }

    /** `on_mouse_up`: drop the anchor and force a full render when anything is dirty or
        pending. */
    method OnMouseUp(canvas: Canvas, gridX: int, gridY: int, button: string, now: real)
      requires Valid() && canvas.Valid()
      modifies this, canvas
      ensures Valid() && brushSize == old(brushSize) && canvas.Valid()
      ensures lastPaintedPos.None?
      ensures canvas.State() == FinishStroke(old(canvas.State()), canvas.CurrentView(), now)
      ensures canvas.CurrentView() == old(canvas.CurrentView()) && canvas.currentBlock == old(canvas.currentBlock)
      ensures canvas.activeTool == old(canvas.activeTool)
    {
      lastPaintedPos := None;
      if canvas.dirtyBlocks != {} || canvas.pendingRender {
        canvas.Render(true, now);
      }
    }

    /** `get_cursor`. */
    function Cursor(): (c: string)
      ensures c == BrushCursor
    {
      BrushCursor
    }
  }
}
