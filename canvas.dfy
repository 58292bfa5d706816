/**
 * `CanvasWidget` (app/ui/canvas_widget.py): the editing canvas. Its fields are the widget's
 * own: the grid and its size, the dirty-cell set, the render bookkeeping, zoom and pan, the
 * current block and the active tool. Each method is proved against the value-level functions
 * of CanvasModel (`State()` and `CurrentView()` read the fields back as values). Dear PyGui
 * draw calls become frames in `frames`; `on_block_changed` calls become entries in `changes`;
 * `time.time()` is the parameter `now`.
 */
module CanvasWidget {
  import opened Wrappers
  import opened Models
  import opened CanvasGeometry
  import opened CanvasModel
  import opened Tools

  class Canvas {
    const width: int
    const height: int
    var grid: Grid
    var gridWidth: int
    var gridHeight: int
    var dirtyBlocks: set<Cell>
    var pendingRender: bool
    var lastRenderTime: real
    var isRendering: bool
    var frames: seq<Frame>
    var changes: seq<Change>
    var zoomLevel: real
    var panX: real
    var panY: real
    var showGrid: bool
    var currentBlock: Option<BlockTexture>
    var activeTool: Option<BaseTool>

    /** The widget is wider and taller than the 40-pixel margin of `zoom_to_fit`, the zoom is
        positive, and the stored grid and its size agree. */
    predicate Valid()
      reads this
    {
      width > 40 && height > 40 && zoomLevel > 0.0
      && IsGrid(grid) && gridHeight == |grid| && gridWidth == GridWidth(grid)
    }

    function State(): CanvasState
      reads this
    {
      CanvasState(grid, dirtyBlocks, pendingRender, lastRenderTime, isRendering, frames, changes)
    }

    function CurrentView(): View
      reads this
    {
      View(width, height, zoomLevel, panX, panY, showGrid)
    }

    /** A new canvas: empty grid, zoom 1, no pan, grid overlay on, nothing dirty or drawn. */
    constructor(width: int, height: int)
      requires width > 40 && height > 40
      ensures Valid() && this.width == width && this.height == height
      ensures State() == CanvasState([], {}, false, 0.0, false, [], [])
      ensures zoomLevel == 1.0 && panX == 0.0 && panY == 0.0 && showGrid
      ensures currentBlock.None? && activeTool.None?
    {
      this.width := width;
      this.height := height;
      grid := [];
      gridWidth := 0;
      gridHeight := 0;
      zoomLevel := 1.0;
      panX := 0.0;
      panY := 0.0;
      showGrid := true;
      currentBlock := None;
      activeTool := None;
      isRendering := false;
      pendingRender := false;
      dirtyBlocks := {};
      lastRenderTime := 0.0;
      frames := [];
      changes := [];
    }

    /** `get_block_at`. */
    function GetBlockAt(x: int, y: int): (r: Option<BlockTexture>)
      reads this
      requires Valid()
      ensures r == BlockAt(grid, x, y)
    {
      if 0 <= y < gridHeight && 0 <= x < gridWidth then Some(grid[y][x]) else None
    }

    /** `screen_to_grid`. */
    function ScreenToGridAt(screenX: real, screenY: real): (g: (int, int))
      reads this
      requires Valid()
      ensures g == (ScreenToGrid(screenX, panX, zoomLevel), ScreenToGrid(screenY, panY, zoomLevel))
    {
      (Trunc((screenX - panX) / (BlockSize as real * zoomLevel)),
       Trunc((screenY - panY) / (BlockSize as real * zoomLevel)))
    }

    /** `grid_to_screen`. */
    function GridToScreenAt(gridX: int, gridY: int): (s: (real, real))
      reads this
      ensures s == (GridToScreen(gridX, panX, zoomLevel), GridToScreen(gridY, panY, zoomLevel))
    {
      (gridX as real * BlockSize as real * zoomLevel + panX, gridY as real * BlockSize as real * zoomLevel + panY)
    }

    /** `set_grid`: store the grid (or [] for an empty one), then render. */
    method SetGrid(g: Grid, now: real)
      requires Valid() && Rectangular(g)
      modifies this
      ensures Valid() && grid == Normalise(g)
      ensures State() == CanvasModel.Render(old(State()).(grid := Normalise(g)), CurrentView(), false, now)
      ensures CurrentView() == old(CurrentView()) && currentBlock == old(currentBlock) && activeTool == old(activeTool)
    {
      if g == [] || g[0] == [] {
        grid := [];
        gridWidth := 0;
        gridHeight := 0;
      } else {
        grid := g;
        gridHeight := |g|;
        gridWidth := |g[0]|;
      }
      Render(false, now);
    }

    /** `set_block_at(x, y, block, immediate_render)`. */
    method SetBlockAt(x: int, y: int, block: BlockTexture, immediateRender: bool, now: real)
      requires Valid()
      modifies this
      ensures Valid()
      ensures State() == SetBlock(old(State()), CurrentView(), x, y, block, immediateRender, now)
      ensures CurrentView() == old(CurrentView()) && currentBlock == old(currentBlock) && activeTool == old(activeTool)
    {
      if 0 <= y < gridHeight && 0 <= x < gridWidth {
        if grid[y][x].blockId == block.blockId {
          return;
        }
        grid := grid[y := grid[y][x := block]];
        dirtyBlocks := dirtyBlocks + {(x, y)};
        changes := changes + [Change(x, y, block)];
        if immediateRender {
          Render(false, now);
        } else {
          ScheduleRender(now);
        }
      }
    }

    /** `draw_line_between_blocks`: write every changed point of the Bresenham line, then
        schedule a single render. */
    method DrawLineBetweenBlocks(x0: int, y0: int, x1: int, y1: int, block: BlockTexture, now: real)
      requires Valid()
      modifies this
      ensures Valid()
      ensures State() == DrawLine(old(State()), CurrentView(), x0, y0, x1, y1, block, now)
      ensures CurrentView() == old(CurrentView()) && currentBlock == old(currentBlock) && activeTool == old(activeTool)
    {
      var points := BresenhamLine(x0, y0, x1, y1);
      for i := 0 to |points|
        invariant Valid()
        invariant State() == PaintCells(old(State()), points[..i], block)
        invariant CurrentView() == old(CurrentView()) && currentBlock == old(currentBlock) && activeTool == old(activeTool)
      {
        assert points[..i + 1][..i] == points[..i];
        PaintPoint(points[i], block);
      }
      assert points[..|points|] == points;
      ScheduleRender(now);
    }

    /** The loop body of `draw_line_between_blocks` for one point. */
    method PaintPoint(c: Cell, block: BlockTexture)
      requires Valid()
      modifies this
      ensures Valid()
      ensures State() == PaintCell(old(State()), c, block)
      ensures CurrentView() == old(CurrentView()) && currentBlock == old(currentBlock) && activeTool == old(activeTool)
    {
      var (x, y) := c;
      if 0 <= x < gridWidth && 0 <= y < gridHeight {
        if grid[y][x].blockId != block.blockId {
          grid := grid[y := grid[y][x := block]];
          dirtyBlocks := dirtyBlocks + {(x, y)};
          changes := changes + [Change(x, y, block)];
        }
      }
    }

    /** `set_zoom(zoom, center_x, center_y)`: clamp the zoom; when it changed, move the pan
        so that the grid point under the anchor (the widget's centre by default) stays there,
        and render. */
    method SetZoom(zoom: real, centerX: Option<real>, centerY: Option<real>, now: real)
      requires Valid()
      modifies this
      ensures Valid() && zoomLevel == ClampZoom(zoom) && showGrid == old(showGrid)
      ensures currentBlock == old(currentBlock) && activeTool == old(activeTool)
      ensures zoomLevel == old(zoomLevel) ==> panX == old(panX) && panY == old(panY) && State() == old(State())
      ensures zoomLevel != old(zoomLevel) ==>
        var cx := if centerX.Some? then centerX.value else width as real / 2.0;
        var cy := if centerY.Some? then centerY.value else height as real / 2.0;
        && panX == AdjustPan(cx, old(panX), old(zoomLevel), zoomLevel)
        && panY == AdjustPan(cy, old(panY), old(zoomLevel), zoomLevel)
        && GridCoord(cx, panX, zoomLevel) == GridCoord(cx, old(panX), old(zoomLevel))
        && GridCoord(cy, panY, zoomLevel) == GridCoord(cy, old(panY), old(zoomLevel))
        && State() == CanvasModel.Render(old(State()), CurrentView(), false, now)
    {
      var oldZoom := zoomLevel;
      zoomLevel := ClampZoom(zoom);
      if oldZoom != zoomLevel {
        var cx := if centerX.Some? then centerX.value else width as real / 2.0;
        var cy := if centerY.Some? then centerY.value else height as real / 2.0;
        AdjustPanForZoom(cx, cy, oldZoom, zoomLevel);
        Render(false, now);
      }
    }

    /** `_adjust_pan_for_zoom`. */
    method AdjustPanForZoom(centerX: real, centerY: real, oldZoom: real, newZoom: real)
      requires oldZoom > 0.0 && newZoom > 0.0
      modifies this
      ensures panX == AdjustPan(centerX, old(panX), oldZoom, newZoom)
      ensures panY == AdjustPan(centerY, old(panY), oldZoom, newZoom)
      ensures GridCoord(centerX, panX, newZoom) == GridCoord(centerX, old(panX), oldZoom)
      ensures GridCoord(centerY, panY, newZoom) == GridCoord(centerY, old(panY), oldZoom)
      ensures State() == old(State()) && zoomLevel == old(zoomLevel) && showGrid == old(showGrid)
      ensures gridWidth == old(gridWidth) && gridHeight == old(gridHeight)
      ensures currentBlock == old(currentBlock) && activeTool == old(activeTool)
    {
      var gridX := (centerX - panX) / oldZoom;
      var gridY := (centerY - panY) / oldZoom;
      AnchorKept(centerX, panX, oldZoom, newZoom);
      AnchorKept(centerY, panY, oldZoom, newZoom);
      panX := centerX - gridX * newZoom;
      panY := centerY - gridY * newZoom;
    }

    /** `zoom_in`: multiply the zoom by the factor for its band and `set_zoom` it, anchored on
        the widget's centre. */
    method ZoomIn(now: real)
      requires Valid()
      modifies this
      ensures Valid() && zoomLevel == ClampZoom(old(zoomLevel) * ZoomInFactor(old(zoomLevel)))
      ensures currentBlock == old(currentBlock) && activeTool == old(activeTool) && showGrid == old(showGrid)
      ensures zoomLevel == old(zoomLevel) ==> panX == old(panX) && panY == old(panY) && State() == old(State())
      ensures zoomLevel != old(zoomLevel) ==>
        var cx := width as real / 2.0;
        var cy := height as real / 2.0;
        && panX == AdjustPan(cx, old(panX), old(zoomLevel), zoomLevel)
        && panY == AdjustPan(cy, old(panY), old(zoomLevel), zoomLevel)
        && GridCoord(cx, panX, zoomLevel) == GridCoord(cx, old(panX), old(zoomLevel))
        && GridCoord(cy, panY, zoomLevel) == GridCoord(cy, old(panY), old(zoomLevel))
        && State() == CanvasModel.Render(old(State()), CurrentView(), false, now)
    {
      var zoomFactor: real;
      if zoomLevel < 0.5 {
        zoomFactor := 1.3;
      } else if zoomLevel < 1.0 {
        zoomFactor := 1.25;
      } else if zoomLevel < 4.0 {
        zoomFactor := 1.2;
      } else {
        zoomFactor := 1.15;
      }
      SetZoom(zoomLevel * zoomFactor, None, None, now);
    }

    /** `zoom_out`: multiply the zoom by the factor for its band and `set_zoom` it, anchored on
        the widget's centre. */
    method ZoomOut(now: real)
      requires Valid()
      modifies this
      ensures Valid() && zoomLevel == ClampZoom(old(zoomLevel) * ZoomOutFactor(old(zoomLevel)))
      ensures currentBlock == old(currentBlock) && activeTool == old(activeTool) && showGrid == old(showGrid)
      ensures zoomLevel == old(zoomLevel) ==> panX == old(panX) && panY == old(panY) && State() == old(State())
      ensures zoomLevel != old(zoomLevel) ==>
        var cx := width as real / 2.0;
        var cy := height as real / 2.0;
        && panX == AdjustPan(cx, old(panX), old(zoomLevel), zoomLevel)
        && panY == AdjustPan(cy, old(panY), old(zoomLevel), zoomLevel)
        && GridCoord(cx, panX, zoomLevel) == GridCoord(cx, old(panX), old(zoomLevel))
        && GridCoord(cy, panY, zoomLevel) == GridCoord(cy, old(panY), old(zoomLevel))
        && State() == CanvasModel.Render(old(State()), CurrentView(), false, now)
    {
      var zoomFactor: real;
      if zoomLevel < 0.5 {
        zoomFactor := 0.77;
      } else if zoomLevel < 1.0 {
        zoomFactor := 0.8;
      } else if zoomLevel < 4.0 {
        zoomFactor := 0.83;
      } else {
        zoomFactor := 0.87;
      }
      SetZoom(zoomLevel * zoomFactor, None, None, now);
    }

    /** `zoom_to_fit`: with a grid, pick the zoom that fits it with a 20-pixel margin (not
        clamped to the zoom range), centre it, and render. */
    method ZoomToFit(now: real)
      requires Valid()
      modifies this
      ensures Valid() && showGrid == old(showGrid) && currentBlock == old(currentBlock) && activeTool == old(activeTool)
      ensures grid == [] ==> zoomLevel == old(zoomLevel) && panX == old(panX) && panY == old(panY) && State() == old(State())
      ensures grid != [] ==>
        && zoomLevel == FitZoom(width, height, gridWidth, gridHeight)
        && panX == FitPan(width, gridWidth, zoomLevel) && panY == FitPan(height, gridHeight, zoomLevel)
        && (gridWidth * BlockSize) as real * zoomLevel <= (width - 40) as real
        && (gridHeight * BlockSize) as real * zoomLevel <= (height - 40) as real
        && State() == CanvasModel.Render(old(State()), CurrentView(), false, now)
    {
      if gridWidth == 0 || gridHeight == 0 {
        return;
      }
      var gridPixelWidth := gridWidth * BlockSize;
      var gridPixelHeight := gridHeight * BlockSize;
      var zoomX := (width - 40) as real / gridPixelWidth as real;
      var zoomY := (height - 40) as real / gridPixelHeight as real;
      FitCentres(width, height, gridWidth, gridHeight);
      zoomLevel := if zoomX <= zoomY then zoomX else zoomY;
      panX := (width as real - gridPixelWidth as real * zoomLevel) / 2.0;
      panY := (height as real - gridPixelHeight as real * zoomLevel) / 2.0;
      Render(false, now);
    }

    /** `reset_view`: zoom 1, no pan, then render. */
    method ResetView(now: real)
      requires Valid()
      modifies this
      ensures Valid() && zoomLevel == 1.0 && panX == 0.0 && panY == 0.0 && showGrid == old(showGrid)
      ensures currentBlock == old(currentBlock) && activeTool == old(activeTool)
      ensures State() == CanvasModel.Render(old(State()), CurrentView(), false, now)
    {
      zoomLevel := 1.0;
      panX := 0.0;
      panY := 0.0;
      Render(false, now);
    }

    /** `set_current_block`. */
    method SetCurrentBlock(block: Option<BlockTexture>)
      requires Valid()
      modifies this
      ensures Valid() && currentBlock == block
      ensures State() == old(State()) && CurrentView() == old(CurrentView()) && activeTool == old(activeTool)
    {
      currentBlock := block;
    }

    /** `set_active_tool`: deactivate the previous tool, store the new one, activate it. */
    method SetActiveTool(tool: Option<BaseTool>)
      requires Valid()
      modifies this, Held(activeTool), Held(tool)
      ensures Valid() && activeTool == tool
      ensures tool.Some? ==> tool.value.isActive
      ensures old(activeTool).Some? && old(activeTool) != tool ==> !old(activeTool).value.isActive
      ensures State() == old(State()) && CurrentView() == old(CurrentView()) && currentBlock == old(currentBlock)
    {
      if activeTool.Some? {
        activeTool.value.Deactivate();
      }
      activeTool := tool;
      if activeTool.Some? {
        activeTool.value.Activate();
      }
    }

    /** `_schedule_render` at time `now`. */
    method ScheduleRender(now: real)
      requires Valid()
      modifies this
      ensures Valid()
      ensures State() == Schedule(old(State()), CurrentView(), now)
      ensures CurrentView() == old(CurrentView()) && currentBlock == old(currentBlock) && activeTool == old(activeTool)
    {
      if now - lastRenderTime >= RenderDelay || |dirtyBlocks| >= MaxBatchSize {
        Render(false, now);
      } else {
        pendingRender := true;
      }
    }

    /** `render(force_full)` at time `now`. */
    method Render(forceFull: bool, now: real)
      requires Valid()
      modifies this
      ensures Valid()
      ensures State() == CanvasModel.Render(old(State()), CurrentView(), forceFull, now)
      ensures CurrentView() == old(CurrentView()) && currentBlock == old(currentBlock) && activeTool == old(activeTool)
    {
      if isRendering {
        return;
      }
      isRendering := true;
      lastRenderTime := now;
      pendingRender := false;
      var useDirtyRender := 0 < |dirtyBlocks| < DirtyRenderLimit && !forceFull && grid != [];
      if useDirtyRender {
        RenderDirtyBlocks();
      } else if grid == [] {
        frames := frames + [NoImageFrame];
        isRendering := false;
      } else {
        RenderFull();
      }
    }

    /** The full-redraw branch of `render`: draw the visible cell range, then empty the dirty
        set. */
    method RenderFull()
      requires Valid() && grid != []
      modifies this
      ensures Valid()
      ensures State() == old(State()).(dirty := {}, rendering := false, frames := old(frames) + [FullFrame(
        VisibleStart(panX, zoomLevel), VisibleStart(panY, zoomLevel),
        VisibleEnd(width, panX, zoomLevel, GridWidth(grid)), VisibleEnd(height, panY, zoomLevel, |grid|),
        FullDrawn(grid, CurrentView()), GridOverlay(CurrentView()))])
      ensures CurrentView() == old(CurrentView()) && currentBlock == old(currentBlock) && activeTool == old(activeTool)
    {
      var startX := VisibleStart(panX, zoomLevel);
      var startY := VisibleStart(panY, zoomLevel);
      var endX := VisibleEnd(width, panX, zoomLevel, gridWidth);
      var endY := VisibleEnd(height, panY, zoomLevel, gridHeight);
      var drawn := VisibleCells(CurrentView(), startX, startY, endX, endY);
      frames := frames + [FullFrame(startX, startY, endX, endY, drawn, showGrid && zoomLevel >= GridZoomThreshold)];
      dirtyBlocks := {};
      isRendering := false;
    }

    /** `_render_dirty_blocks`: draw the dirty cells that are in the grid and on screen, then
        empty the dirty set. */
    method RenderDirtyBlocks()
      requires Valid()
      modifies this
      ensures Valid()
      ensures State() == old(State()).(dirty := {}, rendering := false,
        frames := old(frames) + [DirtyFrame(DirtyDrawn(old(dirtyBlocks), grid, CurrentView()), GridOverlay(CurrentView()))])
      ensures CurrentView() == old(CurrentView()) && currentBlock == old(currentBlock) && activeTool == old(activeTool)
    {
      var drawn := DirtyCells(dirtyBlocks, grid, gridWidth, gridHeight, CurrentView());
      frames := frames + [DirtyFrame(drawn, showGrid && zoomLevel >= GridZoomThreshold)];
      dirtyBlocks := {};
      isRendering := false;
    }

    /** The drawing loop of `_render_dirty_blocks` over the dirty set. */
    static method DirtyCells(dirty: set<Cell>, grid: Grid, gridWidth: int, gridHeight: int, v: View)
      returns (drawn: set<Cell>)
      requires IsGrid(grid) && gridHeight == |grid| && gridWidth == GridWidth(grid)
      ensures drawn == DirtyDrawn(dirty, grid, v)
    {
      drawn := {};
      var todo := dirty;
      while todo != {}
        invariant todo <= dirty
        invariant drawn == DirtyDrawn(dirty - todo, grid, v)
        decreases |todo|
      {
        var c :| c in todo;
        var (x, y) := c;
        if 0 <= y < gridHeight && 0 <= x < gridWidth {
          var side := BlockSize as real * v.zoom;
          var screenX := x as real * side + v.panX;
          var screenY := y as real * side + v.panY;
          assert screenX == GridToScreen(x, v.panX, v.zoom) && screenY == GridToScreen(y, v.panY, v.zoom);
          if screenX + side >= 0.0 && screenX <= v.width as real && screenY + side >= 0.0 && screenY <= v.height as real {
            drawn := drawn + {c};
          }
        }
        todo := todo - {c};
      }
    }

    /** The nested loops of a full render that collect the visible cells of the clamped range. */
    static method VisibleCells(v: View, startX: int, startY: int, endX: int, endY: int)
      returns (drawn: set<Cell>)
      requires v.zoom > 0.0
      ensures drawn == (set x: int, y: int | startX <= x <= endX && startY <= y <= endY && OnScreen(v, x, y) :: (x, y))
    {
      drawn := {};
      var y := startY;
      while y <= endY
        invariant y == startY || startY <= y <= endY + 1
        invariant forall c :: c in drawn <==> startX <= c.0 <= endX && startY <= c.1 < y && OnScreen(v, c.0, c.1)
      {
        var x := startX;
        while x <= endX
          invariant x == startX || startX <= x <= endX + 1
          invariant forall c :: c in drawn <==>
            (startX <= c.0 <= endX && startY <= c.1 < y && OnScreen(v, c.0, c.1))
            || (startX <= c.0 < x && c.1 == y && OnScreen(v, c.0, c.1))
        {
          if OnScreen(v, x, y) {
            drawn := drawn + {(x, y)};
          }
          x := x + 1;
        }
        y := y + 1;
      }
      ghost var expected := set x: int, y: int | startX <= x <= endX && startY <= y <= endY && OnScreen(v, x, y) :: (x, y);
      assert forall c :: c in drawn <==> c in expected;
    }
  }
}
