/**
 * The editing state of `CanvasWidget` (app/ui/canvas_widget.py) as values: the block grid,
 * the dirty-cell set, the render bookkeeping (`_pending_render`, `_last_render_time`,
 * `_is_rendering`), the draw calls of each render as a frame log, and the calls of the
 * `on_block_changed` callback as a change log. The class in canvas.dfy keeps these in fields
 * and proves each of its methods against the functions here; the lemmas here state what
 * those operations achieve. The current time is a parameter.
 */
module CanvasModel {
  import opened Wrappers
  import opened Models
  import opened CanvasGeometry

  type Cell = (int, int)
  type Grid = seq<seq<BlockTexture>>

  /** `_render_delay`: seconds between two scheduled renders. */
  const RenderDelay: real := 0.016
  /** `_max_batch_size`: this many dirty cells force a scheduled render. */
  const MaxBatchSize: int := 100
  /** Dirty rendering is used below this many dirty cells. */
  const DirtyRenderLimit: int := 50
  /** The grid overlay is drawn from this zoom on. */
  const GridZoomThreshold: real := 0.5

  /** All rows as long as the first. */
  predicate Rectangular(grid: Grid)
  {
    forall j :: 0 <= j < |grid| ==> |grid[j]| == |grid[0]|
  }

  /** A grid as the canvas stores it: empty, or rectangular with non-empty rows. */
  predicate IsGrid(grid: Grid)
  {
    grid == [] || (|grid[0]| > 0 && Rectangular(grid))
  }

  /** `_grid_width`. */
  function GridWidth(grid: Grid): int
  {
    if grid == [] then 0 else |grid[0]|
  }

  predicate InBounds(grid: Grid, x: int, y: int)
  {
    0 <= y < |grid| && 0 <= x < GridWidth(grid)
  }

  /** The grid `set_grid` stores: an empty grid or one with an empty first row becomes []. */
  function Normalise(grid: Grid): (r: Grid)
    requires Rectangular(grid)
    ensures IsGrid(r)
    ensures r == [] <==> grid == [] || grid[0] == []
    ensures r != [] ==> r == grid
  {
    if grid == [] || grid[0] == [] then [] else grid
  }

  /** `get_block_at`. */
  function BlockAt(grid: Grid, x: int, y: int): (r: Option<BlockTexture>)
    requires IsGrid(grid)
    ensures r.Some? <==> InBounds(grid, x, y)
    ensures r.Some? ==> r.value == grid[y][x]
  {
    if 0 <= y < |grid| && 0 <= x < GridWidth(grid) then Some(grid[y][x]) else None
  }

  /** The grid with cell (x, y) replaced. */
  function WithCell(grid: Grid, x: int, y: int, b: BlockTexture): (r: Grid)
    requires IsGrid(grid) && InBounds(grid, x, y)
    ensures IsGrid(r) && |r| == |grid| && GridWidth(r) == GridWidth(grid)
    ensures r[y][x] == b
    ensures forall i, j :: InBounds(grid, i, j) && (i, j) != (x, y) ==> r[j][i] == grid[j][i]
  {
    grid[y := grid[y][x := b]]
  }

  /** Size of the widget and the view of the grid. */
  datatype View = View(width: int, height: int, zoom: real, panX: real, panY: real, showGrid: bool)

  /** Any part of cell (x, y) lies within the widget: the culling test of both render modes. */
  predicate OnScreen(v: View, x: int, y: int)
  {
    var side := CellSide(v.zoom);
    var sx := GridToScreen(x, v.panX, v.zoom);
    var sy := GridToScreen(y, v.panY, v.zoom);
    sx + side >= 0.0 && sx <= v.width as real && sy + side >= 0.0 && sy <= v.height as real
  }

  /** Grid lines (or cell outlines) are drawn. */
  predicate GridOverlay(v: View)
  {
    v.showGrid && v.zoom >= GridZoomThreshold
  }

  /** What one `render` call draws: the dirty cells it redraws; the visible range and the cells
      of a full render; or the "No image loaded" text. */
  datatype Frame =
    | DirtyFrame(drawn: set<Cell>, outlined: bool)
    | FullFrame(startX: int, startY: int, endX: int, endY: int, drawn: set<Cell>, gridLines: bool)
    | NoImageFrame

  /** One call of `on_block_changed(x, y, block)`. */
  datatype Change = Change(x: int, y: int, block: BlockTexture)

  datatype CanvasState = CanvasState(
    grid: Grid,
    dirty: set<Cell>,
    pending: bool,
    lastRender: real,
    rendering: bool,
    frames: seq<Frame>,
    changes: seq<Change>)

  /** The dirty cells `_render_dirty_blocks` draws. */
  function DirtyDrawn(dirty: set<Cell>, grid: Grid, v: View): set<Cell>
  {
    set c | c in dirty && InBounds(grid, c.0, c.1) && OnScreen(v, c.0, c.1)
  }

  /** The cells a full render draws: the clamped visible range, culled by the screen test. */
  function FullDrawn(grid: Grid, v: View): set<Cell>
    requires v.zoom > 0.0
  {
    var x0 := VisibleStart(v.panX, v.zoom);
    var x1 := VisibleEnd(v.width, v.panX, v.zoom, GridWidth(grid));
    var y0 := VisibleStart(v.panY, v.zoom);
    var y1 := VisibleEnd(v.height, v.panY, v.zoom, |grid|);
    set x: int, y: int | x0 <= x <= x1 && y0 <= y <= y1 && OnScreen(v, x, y) :: (x, y)
  }

  lemma NextCellScreen(x: int, pan: real, zoom: real)
    ensures GridToScreen(x + 1, pan, zoom) == GridToScreen(x, pan, zoom) + CellSide(zoom)
  {
    assert (x + 1) as real * BlockSize as real == x as real * BlockSize as real + BlockSize as real;
    assert (x as real * BlockSize as real + BlockSize as real) * zoom
      == x as real * BlockSize as real * zoom + BlockSize as real * zoom;
  }

  /** A full render draws exactly the cells of the grid that show on screen: the clamping
      keeps it inside the grid and the culling loses no visible cell. */
  lemma FullDrawnExact(grid: Grid, v: View, x: int, y: int)
    requires v.zoom > 0.0
    ensures (x, y) in FullDrawn(grid, v) <==> InBounds(grid, x, y) && OnScreen(v, x, y)
  {
    if InBounds(grid, x, y) && OnScreen(v, x, y) {
      NextCellScreen(x, v.panX, v.zoom);
      NextCellScreen(y, v.panY, v.zoom);
      VisibleRangeCovers(v.width, v.panX, v.zoom, GridWidth(grid), x);
      VisibleRangeCovers(v.height, v.panY, v.zoom, |grid|, y);
    }
  }

  /** The render-mode test of `render`. */
  predicate UseDirtyRender(s: CanvasState, forceFull: bool)
  {
    0 < |s.dirty| < DirtyRenderLimit && !forceFull && s.grid != []
  }

  /** `render(force_full)` at time `now`. */
  function Render(s: CanvasState, v: View, forceFull: bool, now: real): (r: CanvasState)
    requires v.zoom > 0.0
    ensures r.grid == s.grid && r.changes == s.changes && r.rendering == s.rendering
  {
    if s.rendering then s
    else
      var started := s.(pending := false, lastRender := now);
      if UseDirtyRender(s, forceFull) then
        started.(dirty := {}, frames := s.frames + [DirtyFrame(DirtyDrawn(s.dirty, s.grid, v), GridOverlay(v))])
      else if s.grid == [] then
        started.(frames := s.frames + [NoImageFrame])
      else
        var frame := FullFrame(
          VisibleStart(v.panX, v.zoom), VisibleStart(v.panY, v.zoom),
          VisibleEnd(v.width, v.panX, v.zoom, GridWidth(s.grid)),
          VisibleEnd(v.height, v.panY, v.zoom, |s.grid|),
          FullDrawn(s.grid, v), GridOverlay(v));
        started.(dirty := {}, frames := s.frames + [frame])
  }

  /** The last frame drawn. */
  function LastFrame(s: CanvasState): Frame
    requires s.frames != []
  {
    s.frames[|s.frames| - 1]
  }

  /** A render while rendering does nothing. Otherwise it draws one frame, dirty mode exactly
      when the test holds, clears the pending flag and stamps the time; it leaves the dirty set
      empty except when there is no grid, where it only draws the "No image loaded" text; a
      full frame's range lies inside the grid. */
  lemma RenderOutcome(s: CanvasState, v: View, forceFull: bool, now: real)
    requires v.zoom > 0.0
    ensures s.rendering ==> Render(s, v, forceFull, now) == s
    ensures !s.rendering ==>
      var r := Render(s, v, forceFull, now);
      && !r.pending && r.lastRender == now
      && |r.frames| == |s.frames| + 1 && r.frames[..|s.frames|] == s.frames
      && (LastFrame(r).DirtyFrame? <==> UseDirtyRender(s, forceFull))
      && (LastFrame(r).NoImageFrame? <==> s.grid == [])
      && r.dirty == (if s.grid == [] then s.dirty else {})
      && (LastFrame(r).FullFrame? ==>
            0 <= LastFrame(r).startX && LastFrame(r).endX <= GridWidth(s.grid) - 1
            && 0 <= LastFrame(r).startY && LastFrame(r).endY <= |s.grid| - 1)
  {
    if !s.rendering {
      var r := Render(s, v, forceFull, now);
      assert r.frames[..|s.frames|] == s.frames;
    }
  }

  /** `_schedule_render` renders when the delay has passed or the batch is full. */
  predicate RenderDue(s: CanvasState, now: real)
  {
    now - s.lastRender >= RenderDelay || |s.dirty| >= MaxBatchSize
  }

  /** `_schedule_render` at time `now`. */
  function Schedule(s: CanvasState, v: View, now: real): (r: CanvasState)
    requires v.zoom > 0.0
    ensures r.grid == s.grid && r.changes == s.changes && r.rendering == s.rendering
  {
    if RenderDue(s, now) then Render(s, v, false, now) else s.(pending := true)
  }

  /** A scheduled render that is not due only raises the pending flag. */
  lemma ScheduleDeferred(s: CanvasState, v: View, now: real)
    requires v.zoom > 0.0 && !RenderDue(s, now)
    ensures Schedule(s, v, now) == s.(pending := true)
    ensures Schedule(s, v, now).dirty == s.dirty
  {
  }

  /** `set_block_at` writes: the cell is in the grid and holds a block with another id. */
  predicate Changes(s: CanvasState, x: int, y: int, b: BlockTexture)
    requires IsGrid(s.grid)
  {
    InBounds(s.grid, x, y) && s.grid[y][x].blockId != b.blockId
  }

  /** The write of `set_block_at`: the cell, the dirty set and the callback. */
  function SetCell(s: CanvasState, x: int, y: int, b: BlockTexture): (r: CanvasState)
    requires IsGrid(s.grid) && InBounds(s.grid, x, y)
    ensures IsGrid(r.grid)
  {
    s.(grid := WithCell(s.grid, x, y, b), dirty := s.dirty + {(x, y)}, changes := s.changes + [Change(x, y, b)])
  }

  /** `set_block_at(x, y, block, immediate_render)` at time `now`. */
  function SetBlock(s: CanvasState, v: View, x: int, y: int, b: BlockTexture, immediate: bool, now: real): (r: CanvasState)
    requires IsGrid(s.grid) && v.zoom > 0.0
    ensures IsGrid(r.grid) && |r.grid| == |s.grid| && GridWidth(r.grid) == GridWidth(s.grid)
  {
    if Changes(s, x, y, b) then
      var t := SetCell(s, x, y, b);
      if immediate then Render(t, v, false, now) else Schedule(t, v, now)
    else s
  }

  /** Out of bounds, or with the same block id, `set_block_at` changes nothing. Otherwise only
      cell (x, y) changes, the callback fires once with (x, y, block), and (x, y) joins the
      dirty set unless a render ran and emptied it. */
  lemma SetBlockEffect(s: CanvasState, v: View, x: int, y: int, b: BlockTexture, immediate: bool, now: real)
    requires IsGrid(s.grid) && v.zoom > 0.0
    ensures !Changes(s, x, y, b) ==> SetBlock(s, v, x, y, b, immediate, now) == s
    ensures Changes(s, x, y, b) ==>
      var r := SetBlock(s, v, x, y, b, immediate, now);
      && r.grid[y][x] == b
      && (forall i, j :: InBounds(s.grid, i, j) && (i, j) != (x, y) ==> r.grid[j][i] == s.grid[j][i])
      && r.changes == s.changes + [Change(x, y, b)]
      && (r.dirty == s.dirty + {(x, y)} || r.dirty == {})
  {
  }

  /** No update is lost on screen: after a change to a visible cell, the cell is still dirty or
      the render that ran drew it. */
  lemma NoLostUpdate(s: CanvasState, v: View, x: int, y: int, b: BlockTexture, immediate: bool, now: real)
    requires IsGrid(s.grid) && v.zoom > 0.0 && !s.rendering
    requires Changes(s, x, y, b) && OnScreen(v, x, y)
    ensures var r := SetBlock(s, v, x, y, b, immediate, now);
      (x, y) in r.dirty || (r.frames != [] && (x, y) in LastFrame(r).drawn)
  {
    var t := SetCell(s, x, y, b);
    FullDrawnExact(t.grid, v, x, y);
    if UseDirtyRender(t, false) {
      assert (x, y) in DirtyDrawn(t.dirty, t.grid, v);
    }
  }

  /** One step of `draw_line_between_blocks`: write the point if it is in the grid and holds
      another block id. */
  function PaintCell(s: CanvasState, c: Cell, b: BlockTexture): (r: CanvasState)
    requires IsGrid(s.grid)
    ensures IsGrid(r.grid) && |r.grid| == |s.grid| && GridWidth(r.grid) == GridWidth(s.grid)
  {
    if Changes(s, c.0, c.1, b) then SetCell(s, c.0, c.1, b) else s
  }

  /** The loop of `draw_line_between_blocks` over its points. */
  function PaintCells(s: CanvasState, cells: seq<Cell>, b: BlockTexture): (r: CanvasState)
    requires IsGrid(s.grid)
    ensures IsGrid(r.grid) && |r.grid| == |s.grid| && GridWidth(r.grid) == GridWidth(s.grid)
    ensures r.frames == s.frames && r.rendering == s.rendering && r.pending == s.pending
    ensures r.lastRender == s.lastRender
  {
    if cells == [] then s else PaintCell(PaintCells(s, cells[..|cells| - 1], b), cells[|cells| - 1], b)
  }

  /** The points of a list that are in the grid and hold another block id there. */
  function ChangedCells(grid: Grid, cells: seq<Cell>, b: BlockTexture): set<Cell>
    requires IsGrid(grid)
  {
    set c | c in cells && InBounds(grid, c.0, c.1) && grid[c.1][c.0].blockId != b.blockId
  }

  /** After painting a list of points every point in the grid holds the block's id, every other
      cell is unchanged, and exactly the points whose id differed joined the dirty set. */
  lemma PaintCellsEffect(s: CanvasState, cells: seq<Cell>, b: BlockTexture)
    requires IsGrid(s.grid)
    ensures var r := PaintCells(s, cells, b);
      && (forall c :: c in cells && InBounds(s.grid, c.0, c.1) ==> r.grid[c.1][c.0].blockId == b.blockId)
      && (forall i, j :: InBounds(s.grid, i, j) && (i, j) !in cells ==> r.grid[j][i] == s.grid[j][i])
      && r.dirty == s.dirty + ChangedCells(s.grid, cells, b)
  {
    PaintCellsWritten(s, cells, b);
    PaintCellsUntouched(s, cells, b);
    PaintCellsDirty(s, cells, b);
  }

  /** One point: it holds the block's id afterwards if it is in the grid, no other cell
      changes, and it joins the dirty set exactly when it held another id. */
  lemma PaintCellStep(q: CanvasState, c: Cell, b: BlockTexture)
    requires IsGrid(q.grid)
    ensures var r := PaintCell(q, c, b);
      && (InBounds(q.grid, c.0, c.1) ==> r.grid[c.1][c.0].blockId == b.blockId)
      && (forall i, j :: InBounds(q.grid, i, j) && (i, j) != c ==> r.grid[j][i] == q.grid[j][i])
      && r.dirty == q.dirty + (if Changes(q, c.0, c.1, b) then {c} else {})
  {
  }

  lemma {:induction false} PaintCellsWritten(s: CanvasState, cells: seq<Cell>, b: BlockTexture)
    requires IsGrid(s.grid)
    ensures forall c :: c in cells && InBounds(s.grid, c.0, c.1) ==> PaintCells(s, cells, b).grid[c.1][c.0].blockId == b.blockId
  {
    if cells != [] {
      var init := cells[..|cells| - 1];
      var last := cells[|cells| - 1];
      PaintCellsWritten(s, init, b);
      var q := PaintCells(s, init, b);
      PaintCellStep(q, last, b);
      forall c | c in cells && InBounds(s.grid, c.0, c.1)
        ensures PaintCells(s, cells, b).grid[c.1][c.0].blockId == b.blockId
      {
        if c != last {
          assert c in init;
        }
      }
    }
  }

  lemma {:induction false} PaintCellsUntouched(s: CanvasState, cells: seq<Cell>, b: BlockTexture)
    requires IsGrid(s.grid)
    ensures forall i, j :: InBounds(s.grid, i, j) && (i, j) !in cells ==> PaintCells(s, cells, b).grid[j][i] == s.grid[j][i]
  {
    if cells != [] {
      var init := cells[..|cells| - 1];
      var last := cells[|cells| - 1];
      PaintCellsUntouched(s, init, b);
      var q := PaintCells(s, init, b);
      PaintCellStep(q, last, b);
      forall i, j | InBounds(s.grid, i, j) && (i, j) !in cells
        ensures PaintCells(s, cells, b).grid[j][i] == s.grid[j][i]
      {
        assert (i, j) !in init && (i, j) != last;
      }
    }
  }

  lemma {:induction false} PaintCellsDirty(s: CanvasState, cells: seq<Cell>, b: BlockTexture)
    requires IsGrid(s.grid)
    ensures PaintCells(s, cells, b).dirty == s.dirty + ChangedCells(s.grid, cells, b)
  {
    if cells != [] {
      var init := cells[..|cells| - 1];
      var c := cells[|cells| - 1];
      PaintCellsDirty(s, init, b);
      PaintCellsWritten(s, init, b);
      PaintCellsUntouched(s, init, b);
      var q := PaintCells(s, init, b);
      PaintCellStep(q, c, b);
      assert forall d :: d in cells <==> d in init || d == c;
      if InBounds(s.grid, c.0, c.1) && c !in init {
        assert q.grid[c.1][c.0] == s.grid[c.1][c.0];
      }
      assert ChangedCells(s.grid, cells, b) == ChangedCells(s.grid, init, b)
        + (if InBounds(s.grid, c.0, c.1) && s.grid[c.1][c.0].blockId != b.blockId then {c} else {});
    }
  }

  /** `draw_line_between_blocks(x0, y0, x1, y1, block)` at time `now`: paint the Bresenham
      points, then schedule one render. */
  function DrawLine(s: CanvasState, v: View, x0: int, y0: int, x1: int, y1: int, b: BlockTexture, now: real): (r: CanvasState)
    requires IsGrid(s.grid) && v.zoom > 0.0
  {
    Schedule(PaintCells(s, Line(x0, y0, x1, y1), b), v, now)
  }

  /** A drawn line leaves every point of the line inside the grid holding the block's id and
      every other cell unchanged, whatever the scheduled render did. */
  lemma DrawLineGrid(s: CanvasState, v: View, x0: int, y0: int, x1: int, y1: int, b: BlockTexture, now: real)
    requires IsGrid(s.grid) && v.zoom > 0.0
    ensures var r := DrawLine(s, v, x0, y0, x1, y1, b, now);
      var pts := Line(x0, y0, x1, y1);
      && (forall c :: c in pts && InBounds(s.grid, c.0, c.1) ==> r.grid[c.1][c.0].blockId == b.blockId)
      && (forall i, j :: InBounds(s.grid, i, j) && (i, j) !in pts ==> r.grid[j][i] == s.grid[j][i])
  {
    PaintCellsEffect(s, Line(x0, y0, x1, y1), b);
  }

  /** When the scheduled render is not due, every changed point of the line is dirty. */
  lemma DrawLineDirty(s: CanvasState, v: View, x0: int, y0: int, x1: int, y1: int, b: BlockTexture, now: real)
    requires IsGrid(s.grid) && v.zoom > 0.0
    requires !RenderDue(PaintCells(s, Line(x0, y0, x1, y1), b), now)
    ensures DrawLine(s, v, x0, y0, x1, y1, b, now).dirty == s.dirty + ChangedCells(s.grid, Line(x0, y0, x1, y1), b)
  {
    PaintCellsEffect(s, Line(x0, y0, x1, y1), b);
  }

  /** The painting loop of the brush: `set_block_at` with `immediate_render=False` on each
      position the brush's own bounds test lets through. */
  function SetBlocks(s: CanvasState, v: View, cells: seq<Cell>, b: BlockTexture, now: real): (r: CanvasState)
    requires IsGrid(s.grid) && v.zoom > 0.0
    ensures IsGrid(r.grid) && |r.grid| == |s.grid| && GridWidth(r.grid) == GridWidth(s.grid)
    ensures r.rendering == s.rendering
  {
    if cells == [] then s
    else
      var q := SetBlocks(s, v, cells[..|cells| - 1], b, now);
      var c := cells[|cells| - 1];
      if InBounds(q.grid, c.0, c.1) then SetBlock(q, v, c.0, c.1, b, false, now) else q
  }

  /** The renders scheduled along the way do not touch the grid: cell by cell, `set_block_at`
      leaves the same grid as the batched loop of `draw_line_between_blocks`. */
  lemma {:induction false} SetBlocksGrid(s: CanvasState, v: View, cells: seq<Cell>, b: BlockTexture, now: real)
    requires IsGrid(s.grid) && v.zoom > 0.0
    ensures SetBlocks(s, v, cells, b, now).grid == PaintCells(s, cells, b).grid
  {
    if cells != [] {
      SetBlocksGrid(s, v, cells[..|cells| - 1], b, now);
    }
  }
}
