/**
 * `PickerTool` (app/tools/picker_tool.py): the eyedropper. A left press or drag over a cell
 * of the grid makes that cell's block the canvas's current block and notifies the pick
 * callback, when one is set; the grid itself is only read. The callback is modelled by
 * whether one is set and the log of blocks it was called with.
 */
module PickerTools {
  import opened Wrappers
  import opened Models
  import opened CanvasGeometry
  import opened CanvasModel
  import opened Tools
  import opened CanvasWidget

  const PickerName: string := "Eyedropper"
  const PickerCursor: string := "hand"
  const LeftButton: string := "left"

  /** What a pick at (x, y) makes the current block: the cell's block when the cell is in the
      grid, otherwise the current block as it was. */
  function PickedBlock(grid: Grid, x: int, y: int, current: Option<BlockTexture>): (r: Option<BlockTexture>)
    requires IsGrid(grid)
    ensures InBounds(grid, x, y) ==> r == Some(grid[y][x])
    ensures !InBounds(grid, x, y) ==> r == current
  {
    var hit := BlockAt(grid, x, y);
    if hit.Some? then hit else current
  }

  /** What the pick callback is called with: the cell's block, once, when the cell is in the
      grid and a callback is set; nothing otherwise. */
  function Notified(grid: Grid, x: int, y: int, hasCallback: bool): (r: seq<BlockTexture>)
    requires IsGrid(grid)
    ensures |r| <= 1
    ensures r != [] <==> InBounds(grid, x, y) && hasCallback
    ensures r != [] ==> r[0] == grid[y][x]
  {
    var hit := BlockAt(grid, x, y);
    if hit.Some? && hasCallback then [hit.value] else []
  }

  /** The eyedropper picks up what `set_block_at` wrote: after setting an in-grid cell to
      block `b`, picking the cell gives a block with `b`'s id (the very block `b` when the
      cell's id differed). */
  lemma PickAfterSet(s: CanvasState, v: View, x: int, y: int, b: BlockTexture, immediate: bool, now: real, current: Option<BlockTexture>)
    requires IsGrid(s.grid) && v.zoom > 0.0 && InBounds(s.grid, x, y)
    ensures var r := SetBlock(s, v, x, y, b, immediate, now);
      && PickedBlock(r.grid, x, y, current).Some?
      && PickedBlock(r.grid, x, y, current).value.blockId == b.blockId
      && (Changes(s, x, y, b) ==> PickedBlock(r.grid, x, y, current) == Some(b))
  {
    SetBlockEffect(s, v, x, y, b, immediate, now);
  }

  class PickerTool {
    /** The `BaseTool` part: name and activation flag. */
    const tool: BaseTool
    /** Whether `_on_block_picked` is set. */
    var hasCallback: bool
    /** The blocks `_on_block_picked` was called with, oldest first. */
    var picked: seq<BlockTexture>

    /** A new picker: tool "Eyedropper", inactive, no callback. */
    constructor()
      ensures fresh(tool) && tool.name == PickerName && !tool.isActive
      ensures !hasCallback && picked == []
    {
      tool := new BaseTool(PickerName);
      hasCallback := false;
      picked := [];
    }

    /** `set_on_block_picked`: set (or, with None, clear) the callback. */
    method SetOnBlockPicked(callbackSet: bool)
      modifies this
      ensures hasCallback == callbackSet && picked == old(picked)
    {
      hasCallback := callbackSet;
    }

    /** `_pick_block`: copy an in-grid cell into the current block and notify the callback;
        outside the grid nothing happens. The canvas's grid and render state are untouched. */
    method PickBlock(canvas: Canvas, gridX: int, gridY: int)
      requires canvas.Valid()
      modifies this, canvas
      ensures canvas.Valid() && hasCallback == old(hasCallback)
      ensures canvas.currentBlock == PickedBlock(canvas.grid, gridX, gridY, old(canvas.currentBlock))
      ensures picked == old(picked) + Notified(canvas.grid, gridX, gridY, hasCallback)
      ensures canvas.State() == old(canvas.State()) && canvas.CurrentView() == old(canvas.CurrentView())
      ensures canvas.activeTool == old(canvas.activeTool)
    {
      var block := canvas.GetBlockAt(gridX, gridY);
      if block.Some? {
        canvas.SetCurrentBlock(block);
        if hasCallback {
          picked := picked + [block.value];
        }
      }
    }

    /** `on_mouse_down`: only the left button picks. */
    method OnMouseDown(canvas: Canvas, gridX: int, gridY: int, button: string)
      requires canvas.Valid()
      modifies this, canvas
      ensures canvas.Valid() && hasCallback == old(hasCallback)
      ensures canvas.State() == old(canvas.State()) && canvas.CurrentView() == old(canvas.CurrentView())
      ensures canvas.activeTool == old(canvas.activeTool)
      ensures button == LeftButton ==>
        && canvas.currentBlock == PickedBlock(canvas.grid, gridX, gridY, old(canvas.currentBlock))
        && picked == old(picked) + Notified(canvas.grid, gridX, gridY, hasCallback)
      ensures button != LeftButton ==> canvas.currentBlock == old(canvas.currentBlock) && picked == old(picked)
    {
      if button == LeftButton {
        PickBlock(canvas, gridX, gridY);
      }
    }

    /** `on_mouse_drag`: picks continuously, left button only. */
    method OnMouseDrag(canvas: Canvas, gridX: int, gridY: int, button: string)
      requires canvas.Valid()
      modifies this, canvas
      ensures canvas.Valid() && hasCallback == old(hasCallback)
      ensures canvas.State() == old(canvas.State()) && canvas.CurrentView() == old(canvas.CurrentView())
      ensures canvas.activeTool == old(canvas.activeTool)
      ensures button == LeftButton ==>
        && canvas.currentBlock == PickedBlock(canvas.grid, gridX, gridY, old(canvas.currentBlock))
        && picked == old(picked) + Notified(canvas.grid, gridX, gridY, hasCallback)
      ensures button != LeftButton ==> canvas.currentBlock == old(canvas.currentBlock) && picked == old(picked)
    {
      if button == LeftButton {
        PickBlock(canvas, gridX, gridY);
      }
    }

    /** `on_mouse_up` does nothing: it may change neither the picker nor the canvas. */
    method OnMouseUp(canvas: Canvas, gridX: int, gridY: int, button: string)
      ensures picked == old(picked) && canvas.currentBlock == old(canvas.currentBlock)
    {
    }

    /** `get_cursor`. */
    function Cursor(): (c: string)
      ensures c == PickerCursor
    {
      PickerCursor
    }
  }
}
