/**
 * The arithmetic of the editing canvas (app/ui/canvas_widget.py): Python's `int()` on a
 * float, the screen/grid transforms, the zoom clamp and factors, the pan adjustment that
 * keeps the grid point under the anchor fixed, `zoom_to_fit`, the visible cell range of a
 * full render, and the integer Bresenham line. Zoom and pan are exact reals.
 */
module CanvasGeometry {
  /** Texture size in screen pixels at zoom 1 (`_block_size`). */
  const BlockSize: int := 16
  const MinZoom: real := 0.1
  const MaxZoom: real := 32.0

  /** Python's `int()` on a float: truncation toward zero. */
  function Trunc(x: real): (r: int)
    ensures x >= 0.0 ==> r >= 0 && r as real <= x < r as real + 1.0
    ensures x < 0.0 ==> r <= 0 && r as real - 1.0 < x <= r as real
  {
    if x >= 0.0 then x.Floor else -((-x).Floor)
  }

  /** On a whole number truncation is the identity. */
  lemma TruncOfInt(n: int)
    ensures Trunc(n as real) == n
  {
  }

  /** Truncation is not flooring: a value half a unit below zero truncates to 0, not -1. */
  lemma TruncIsNotFloor()
    ensures Trunc(-0.5) == 0 && (-0.5).Floor == -1
  {
  }

  /** Side of one grid cell on screen. */
  function CellSide(zoom: real): real
  {
    BlockSize as real * zoom
  }

  /** `grid_to_screen` on one axis: the top-left corner of a cell. */
  function GridToScreen(g: int, pan: real, zoom: real): (s: real)
  {
    g as real * BlockSize as real * zoom + pan
  }

  /** The exact grid coordinate of a screen position on one axis. */
  function GridCoord(s: real, pan: real, zoom: real): real
    requires zoom > 0.0
  {
    (s - pan) / (BlockSize as real * zoom)
  }

  /** `screen_to_grid` on one axis: the grid coordinate, truncated toward zero. */
  function ScreenToGrid(s: real, pan: real, zoom: real): (g: int)
    requires zoom > 0.0
  {
    Trunc(GridCoord(s, pan, zoom))
  }

  /** The corner of a cell maps back to that cell. */
  lemma ScreenGridRoundTrip(g: int, pan: real, zoom: real)
    requires zoom > 0.0
    ensures ScreenToGrid(GridToScreen(g, pan, zoom), pan, zoom) == g
  {
    var side := BlockSize as real * zoom;
    assert GridToScreen(g, pan, zoom) - pan == g as real * side;
    assert (g as real * side) / side == g as real;
    TruncOfInt(g);
  }

  /** Because `int()` truncates, positions up to one cell left of (or above) the grid fall in
      column (row) 0, just like positions inside the first cell. */
  lemma ScreenToGridNearOrigin(s: real, pan: real, zoom: real)
    requires zoom > 0.0
    requires pan - CellSide(zoom) < s < pan + CellSide(zoom)
    ensures ScreenToGrid(s, pan, zoom) == 0
  {
    var side := CellSide(zoom);
    assert side > 0.0;
    var c := GridCoord(s, pan, zoom);
    assert c == (s - pan) / side;
    assert c * side == s - pan;
    assert -side < s - pan < side;
    assert (-1.0) * side == -side && 1.0 * side == side;
    MulCancelLess(-1.0, c, side);
    MulCancelLess(c, 1.0, side);
  }

  lemma MulCancelLess(a: real, b: real, k: real)
    requires k > 0.0 && a * k < b * k
    ensures a < b
  {
    if a >= b {
      MulOrder(b, a, k);
    }
  }

  lemma MulOrder(a: real, b: real, k: real)
    requires a <= b && k > 0.0
    ensures a * k <= b * k
  {
    assert b * k - a * k == (b - a) * k;
  }

  /** The `max(min_zoom, min(max_zoom, zoom))` of `set_zoom`. */
  function ClampZoom(zoom: real): (z: real)
    ensures MinZoom <= z <= MaxZoom
    ensures MinZoom <= zoom <= MaxZoom ==> z == zoom
    ensures zoom < MinZoom ==> z == MinZoom
    ensures zoom > MaxZoom ==> z == MaxZoom
  {
    var upper := if MaxZoom < zoom then MaxZoom else zoom;
    if MinZoom < upper then upper else MinZoom
  }

  /** `_adjust_pan_for_zoom` on one axis. */
  function AdjustPan(center: real, pan: real, oldZoom: real, newZoom: real): real
    requires oldZoom > 0.0
  {
    center - ((center - pan) / oldZoom) * newZoom
  }

  /** The grid point under the anchor is the same before and after the pan adjustment. */
  lemma AnchorKept(center: real, pan: real, oldZoom: real, newZoom: real)
    requires oldZoom > 0.0 && newZoom > 0.0
    ensures GridCoord(center, AdjustPan(center, pan, oldZoom, newZoom), newZoom) == GridCoord(center, pan, oldZoom)
  {
    var q := (center - pan) / oldZoom;
    var newPan := AdjustPan(center, pan, oldZoom, newZoom);
    assert center - newPan == q * newZoom;
    var b := BlockSize as real;
    calc {
      GridCoord(center, newPan, newZoom);
      (q * newZoom) / (b * newZoom);
      q / b;
      ((center - pan) / oldZoom) / b;
      (center - pan) / (b * oldZoom);
    }
  }

  /** The factor of `zoom_in` at a zoom level. */
  function ZoomInFactor(zoom: real): (f: real)
    ensures f > 1.0
  {
    if zoom < 0.5 then 1.3 else if zoom < 1.0 then 1.25 else if zoom < 4.0 then 1.2 else 1.15
  }

  /** The factor of `zoom_out` at a zoom level. */
  function ZoomOutFactor(zoom: real): (f: real)
    ensures 0.0 < f < 1.0
  {
    if zoom < 0.5 then 0.77 else if zoom < 1.0 then 0.8 else if zoom < 4.0 then 0.83 else 0.87
  }

  /** Zooming in never lowers the zoom and zooming out never raises it; both stay in range. */
  lemma ZoomStepsMonotone(zoom: real)
    requires MinZoom <= zoom <= MaxZoom
    ensures zoom <= ClampZoom(zoom * ZoomInFactor(zoom)) <= MaxZoom
    ensures MinZoom <= ClampZoom(zoom * ZoomOutFactor(zoom)) <= zoom
  {
    var fi := ZoomInFactor(zoom);
    var fo := ZoomOutFactor(zoom);
    assert zoom * fi >= zoom * 1.0;
    assert zoom * fo <= zoom * 1.0;
  }

  /** The zoom `zoom_to_fit` picks for a viewport and a non-empty grid. */
  function FitZoom(viewWidth: int, viewHeight: int, gridWidth: int, gridHeight: int): real
    requires gridWidth > 0 && gridHeight > 0
  {
    var zx := (viewWidth - 40) as real / (gridWidth * BlockSize) as real;
    var zy := (viewHeight - 40) as real / (gridHeight * BlockSize) as real;
    if zx <= zy then zx else zy
  }

  /** `zoom_to_fit` does not clamp: a 1x1 grid on an 800x600 widget gets zoom 35, above
      `MaxZoom`, and the next `zoom_in` then lowers the zoom to `MaxZoom`. */
  lemma FitCanExceedMaxZoom()
    ensures FitZoom(800, 600, 1, 1) == 35.0 > MaxZoom
    ensures ClampZoom(35.0 * ZoomInFactor(35.0)) == MaxZoom < 35.0
  {
  }

  /** The pan `zoom_to_fit` picks on one axis. */
  function FitPan(view: int, cells: int, zoom: real): real
  {
    (view as real - (cells * BlockSize) as real * zoom) / 2.0
  }

  /** With a viewport larger than the 40-pixel margin, the fitted zoom is positive, the grid
      fits with at least 20 pixels on each side, and it is centred on both axes. */
  lemma FitCentres(viewWidth: int, viewHeight: int, gridWidth: int, gridHeight: int)
    requires viewWidth > 40 && viewHeight > 40 && gridWidth > 0 && gridHeight > 0
    ensures var z := FitZoom(viewWidth, viewHeight, gridWidth, gridHeight);
      && z > 0.0
      && (gridWidth * BlockSize) as real * z <= (viewWidth - 40) as real
      && (gridHeight * BlockSize) as real * z <= (viewHeight - 40) as real
      && FitPan(viewWidth, gridWidth, z) >= 20.0 && FitPan(viewHeight, gridHeight, z) >= 20.0
      && 2.0 * FitPan(viewWidth, gridWidth, z) + (gridWidth * BlockSize) as real * z == viewWidth as real
  {
    var z := FitZoom(viewWidth, viewHeight, gridWidth, gridHeight);
    var pw := (gridWidth * BlockSize) as real;
    var ph := (gridHeight * BlockSize) as real;
    var zx := (viewWidth - 40) as real / pw;
    var zy := (viewHeight - 40) as real / ph;
    assert pw > 0.0 && ph > 0.0;
    assert zx > 0.0 && zy > 0.0;
    assert zx * pw == (viewWidth - 40) as real;
    assert zy * ph == (viewHeight - 40) as real;
    assert z == if zx <= zy then zx else zy;
    MulOrder(z, zx, pw);
    MulOrder(z, zy, ph);
  }

  /** First visible cell of a full render on one axis (`start_x` / `start_y`). */
  function VisibleStart(pan: real, zoom: real): (start: int)
    requires zoom > 0.0
    ensures start >= 0
  {
    var t := Trunc((-50.0 - pan) * (1.0 / CellSide(zoom)));
    if 0 < t then t else 0
  }

  /** Last visible cell of a full render on one axis (`end_x` / `end_y`). */
  function VisibleEnd(view: int, pan: real, zoom: real, cells: int): (end: int)
    requires zoom > 0.0
    ensures end <= cells - 1
  {
    var t := Trunc((view as real + 50.0 - pan) * (1.0 / CellSide(zoom)));
    if cells - 1 < t then cells - 1 else t
  }

  /** A cell on screen (any part of it within [0, view]) lies in the visible range: culling
      never drops a cell that shows. */
  lemma VisibleRangeCovers(view: int, pan: real, zoom: real, cells: int, x: int)
    requires zoom > 0.0 && 0 <= x < cells
    requires GridToScreen(x, pan, zoom) <= view as real
    requires GridToScreen(x + 1, pan, zoom) >= 0.0
    ensures VisibleStart(pan, zoom) <= x <= VisibleEnd(view, pan, zoom, cells)
  {
    VisibleEndCovers(view, pan, zoom, cells, x);
    VisibleStartCovers(pan, zoom, x);
  }

  /** A cell whose left (top) edge is at or before the right (bottom) edge of the view is at
      or before the end of the range. */
  lemma VisibleEndCovers(view: int, pan: real, zoom: real, cells: int, x: int)
    requires zoom > 0.0 && 0 <= x < cells
    requires GridToScreen(x, pan, zoom) <= view as real
    ensures x <= VisibleEnd(view, pan, zoom, cells)
  {
    var side := CellSide(zoom);
    var inv := 1.0 / side;
    assert side > 0.0 && inv > 0.0;
    assert side * inv == 1.0;
    var xs := x as real * side;
    assert GridToScreen(x, pan, zoom) == xs + pan;
    MulOrder(xs + 50.0, view as real + 50.0 - pan, inv);
    assert xs * inv == x as real * (side * inv);
    assert (xs + 50.0) * inv == xs * inv + 50.0 * inv;
  }

  /** A cell whose right (bottom) edge is at or after the left (top) edge of the view is at
      or after the start of the range. */
  lemma VisibleStartCovers(pan: real, zoom: real, x: int)
    requires zoom > 0.0 && 0 <= x
    requires GridToScreen(x + 1, pan, zoom) >= 0.0
    ensures VisibleStart(pan, zoom) <= x
  {
    var side := CellSide(zoom);
    var inv := 1.0 / side;
    assert side > 0.0 && inv > 0.0;
    assert side * inv == 1.0;
    var xs := (x + 1) as real * side;
    assert GridToScreen(x + 1, pan, zoom) == xs + pan;
    MulOrder(-50.0 - pan, xs - 50.0, inv);
    assert xs * inv == (x + 1) as real * (side * inv);
    assert (xs - 50.0) * inv == xs * inv - 50.0 * inv;
  }

  /** The fixed data of one `_bresenham_line` call. */
  datatype LineGeom = LineGeom(x1: int, y1: int, dx: int, dy: int, sx: int, sy: int)

  function Abs(n: int): nat
  {
    if n < 0 then -n else n
  }

  function Geom(x0: int, y0: int, x1: int, y1: int): LineGeom
  {
    LineGeom(x1, y1, Abs(x1 - x0), Abs(y1 - y0), if x0 < x1 then 1 else -1, if y0 < y1 then 1 else -1)
  }

  /** Steps left to take on each axis. */
  function StepsX(g: LineGeom, x: int): int
  {
    if g.sx == 1 then g.x1 - x else x - g.x1
  }

  function StepsY(g: LineGeom, y: int): int
  {
    if g.sy == 1 then g.y1 - y else y - g.y1
  }

  /** `k * n` by repeated addition, so that the loop invariant below stays linear. */
  function Mul(k: int, n: nat): int
  {
    if n == 0 then 0 else Mul(k, n - 1) + k
  }

  lemma {:induction false} MulIsProduct(k: int, n: nat)
    ensures Mul(k, n) == k * n
  {
    if n > 0 {
      MulIsProduct(k, n - 1);
    }
  }

  /** The error term the loop keeps with `a` and `b` steps left on the two axes. */
  function ErrFor(g: LineGeom, a: nat, b: nat): int
  {
    g.dx - g.dy + Mul(g.dy, a) - Mul(g.dx, b)
  }

  /** The loop invariant of `_bresenham_line`: the position has not passed the end on either
      axis, and `err` is determined by the steps left. */
  predicate LineInv(g: LineGeom, x: int, y: int, err: int)
  {
    && (g.sx == 1 || g.sx == -1) && (g.sy == 1 || g.sy == -1) && g.dx >= 0 && g.dy >= 0
    && 0 <= StepsX(g, x) <= g.dx && 0 <= StepsY(g, y) <= g.dy
    && err == ErrFor(g, StepsX(g, x) as nat, StepsY(g, y) as nat)
  }

  /** One iteration of the loop after the point has been appended. */
  function LineNext(g: LineGeom, x: int, y: int, err: int): (int, int, int)
  {
    var e2 := 2 * err;
    var x' := if e2 > -g.dy then x + g.sx else x;
    var err' := if e2 > -g.dy then err - g.dy else err;
    var y' := if e2 < g.dx then y + g.sy else y;
    var err'' := if e2 < g.dx then err' + g.dx else err';
    (x', y', err'')
  }

  lemma MulAtLeast(k: int, m: nat)
    requires k >= 0 && m >= 1
    ensures Mul(k, m) >= k
  {
    MulIsProduct(k, m);
    assert k * m == k * (m - 1) + k;
  }

  /** An iteration away from the end keeps the invariant, takes one step on at least one axis
      and at most one on each, and never passes the end. */
  lemma LineNextStep(g: LineGeom, x: int, y: int, err: int)
    requires LineInv(g, x, y, err) && !(x == g.x1 && y == g.y1)
    ensures var (x', y', err') := LineNext(g, x, y, err);
      && LineInv(g, x', y', err')
      && StepsX(g, x') + StepsY(g, y') < StepsX(g, x) + StepsY(g, y)
      && Abs(x' - x) <= 1 && Abs(y' - y) <= 1 && (x', y') != (x, y)
  {
    var a := StepsX(g, x);
    var b := StepsY(g, y);
    var e2 := 2 * err;
    var stepX := e2 > -g.dy;
    var stepY := e2 < g.dx;
    if a == 0 {
      MulAtLeast(g.dx, b);
      assert err == g.dx - g.dy - Mul(g.dx, b);
      assert !stepX;
    }
    if b == 0 {
      MulAtLeast(g.dy, a);
      assert err == g.dx - g.dy + Mul(g.dy, a);
      assert !stepY;
    }
    assert stepX || stepY;
    var a' := if stepX then a - 1 else a;
    var b' := if stepY then b - 1 else b;
    var err1 := if stepX then err - g.dy else err;
    assert err1 == ErrFor(g, a', b);
    var err2 := if stepY then err1 + g.dx else err1;
    assert err2 == ErrFor(g, a', b');
  }

  /** The points `_bresenham_line` appends from a loop state on. */
  function LineFrom(g: LineGeom, x: int, y: int, err: int): (pts: seq<(int, int)>)
    requires LineInv(g, x, y, err)
    ensures |pts| >= 1 && pts[0] == (x, y) && pts[|pts| - 1] == (g.x1, g.y1)
    decreases StepsX(g, x) + StepsY(g, y)
  {
    if x == g.x1 && y == g.y1 then [(x, y)]
    else
      LineNextStep(g, x, y, err);
      var (x', y', err') := LineNext(g, x, y, err);
      [(x, y)] + LineFrom(g, x', y', err')
  }

  /** One more iteration of the loop, seen from the sequence of points. */
  lemma LineFromUnfold(g: LineGeom, x: int, y: int, err: int)
    requires LineInv(g, x, y, err) && !(x == g.x1 && y == g.y1)
    ensures var next := LineNext(g, x, y, err);
      && LineInv(g, next.0, next.1, next.2)
      && StepsX(g, next.0) + StepsY(g, next.1) < StepsX(g, x) + StepsY(g, y)
      && LineFrom(g, x, y, err) == [(x, y)] + LineFrom(g, next.0, next.1, next.2)
  {
    LineNextStep(g, x, y, err);
  }

  /** The starting state of the loop satisfies its invariant. */
  lemma LineStart(x0: int, y0: int, x1: int, y1: int)
    ensures var g := Geom(x0, y0, x1, y1); LineInv(g, x0, y0, g.dx - g.dy)
  {
    var g := Geom(x0, y0, x1, y1);
    assert StepsX(g, x0) == g.dx;
    assert StepsY(g, y0) == g.dy;
    MulIsProduct(g.dx, g.dy);
    MulIsProduct(g.dy, g.dx);
  }

  /** The result of `_bresenham_line(x0, y0, x1, y1)`. */
  function Line(x0: int, y0: int, x1: int, y1: int): (pts: seq<(int, int)>)
    ensures |pts| >= 1 && pts[0] == (x0, y0) && pts[|pts| - 1] == (x1, y1)
  {
    LineStart(x0, y0, x1, y1);
    var g := Geom(x0, y0, x1, y1);
    LineFrom(g, x0, y0, g.dx - g.dy)
  }

  /** Two grid points that touch, sides or corners. */
  predicate Adjacent(p: (int, int), q: (int, int))
  {
    p != q && Abs(p.0 - q.0) <= 1 && Abs(p.1 - q.1) <= 1
  }

  /** Consecutive points are distinct neighbours. */
  predicate Connected(pts: seq<(int, int)>)
  {
    forall k :: 0 <= k < |pts| - 1 ==> Adjacent(pts[k], pts[k + 1])
  }

  lemma ConnectedCons(p: (int, int), rest: seq<(int, int)>)
    requires rest != [] && Adjacent(p, rest[0]) && Connected(rest)
    ensures Connected([p] + rest)
  {
    var pts := [p] + rest;
    forall k | 0 <= k < |pts| - 1
      ensures Adjacent(pts[k], pts[k + 1])
    {
      if k > 0 {
        assert pts[k] == rest[k - 1] && pts[k + 1] == rest[k];
      }
    }
  }

  lemma {:induction false} LineFromConnected(g: LineGeom, x: int, y: int, err: int)
    requires LineInv(g, x, y, err)
    ensures Connected(LineFrom(g, x, y, err))
    decreases StepsX(g, x) + StepsY(g, y)
  {
    if !(x == g.x1 && y == g.y1) {
      LineNextStep(g, x, y, err);
      var (x', y', err') := LineNext(g, x, y, err);
      LineFromConnected(g, x', y', err');
      ConnectedCons((x, y), LineFrom(g, x', y', err'));
    }
  }

  /** The line has no gaps: consecutive points are distinct neighbours. */
  lemma LineAdjacent(x0: int, y0: int, x1: int, y1: int)
    ensures Connected(Line(x0, y0, x1, y1))
  {
    LineStart(x0, y0, x1, y1);
    var g := Geom(x0, y0, x1, y1);
    LineFromConnected(g, x0, y0, g.dx - g.dy);
  }

  lemma LineAppend(done: seq<(int, int)>, todo: seq<(int, int)>)
    requires todo != []
    ensures (done + [todo[0]]) + todo[1..] == done + todo
  {
    assert todo == [todo[0]] + todo[1..];
  }

  /** The state of the loop of `_bresenham_line`: the invariant holds, and the points
      appended so far followed by those still to come form the whole line. */
  predicate LineLoop(g: LineGeom, done: seq<(int, int)>, x: int, y: int, err: int, whole: seq<(int, int)>)
  {
    LineInv(g, x, y, err) && done + LineFrom(g, x, y, err) == whole
  }

  /** Steps left to the end of the line. */
  function StepsLeft(g: LineGeom, x: int, y: int): int
  {
    StepsX(g, x) + StepsY(g, y)
  }

  /** One iteration of the loop of `_bresenham_line`: at the end the appended point completes
      the line; otherwise the next state is a loop state closer to the end. */
  lemma LineLoopStep(g: LineGeom, done: seq<(int, int)>, x: int, y: int, err: int, whole: seq<(int, int)>)
    requires LineLoop(g, done, x, y, err, whole)
    ensures x == g.x1 && y == g.y1 ==> done + [(x, y)] == whole
    ensures !(x == g.x1 && y == g.y1) ==>
      var next := LineNext(g, x, y, err);
      && LineLoop(g, done + [(x, y)], next.0, next.1, next.2, whole)
      && 0 <= StepsLeft(g, next.0, next.1) < StepsLeft(g, x, y)
  {
    LineAppend(done, LineFrom(g, x, y, err));
    if !(x == g.x1 && y == g.y1) {
      LineFromUnfold(g, x, y, err);
    }
  }

  /** `_bresenham_line`. */
  method BresenhamLine(x0: int, y0: int, x1: int, y1: int) returns (points: seq<(int, int)>)
    ensures points == Line(x0, y0, x1, y1)
  {
    points := [];
    var dx: int := Abs(x1 - x0);
    var dy: int := Abs(y1 - y0);
    var sx := if x0 < x1 then 1 else -1;
    var sy := if y0 < y1 then 1 else -1;
    var err := dx - dy;
    var x, y := x0, y0;
    ghost var g := Geom(x0, y0, x1, y1);
    assert g == LineGeom(x1, y1, dx, dy, sx, sy);
    LineStart(x0, y0, x1, y1);
    while true
      invariant LineLoop(g, points, x, y, err, Line(x0, y0, x1, y1))
      decreases StepsLeft(g, x, y)
    {
      LineLoopStep(g, points, x, y, err, Line(x0, y0, x1, y1));
      points := points + [(x, y)];
      if x == x1 && y == y1 {
        break;
      }
      x, y, err := BresenhamStep(g, x, y, err, dx, dy, sx, sy);
    }
  }

  /** The body of the loop of `_bresenham_line` after the point is appended: step on each
      axis whose error test passes. */
  method BresenhamStep(ghost g: LineGeom, x: int, y: int, err: int, dx: int, dy: int, sx: int, sy: int)
    returns (x': int, y': int, err': int)
    requires g.dx == dx && g.dy == dy && g.sx == sx && g.sy == sy
    ensures (x', y', err') == LineNext(g, x, y, err)
  {
    x', y', err' := x, y, err;
    var e2 := 2 * err;
    if e2 > -dy {
      err' := err' - dy;
      x' := x' + sx;
    }
    if e2 < dx {
      err' := err' + dx;
      y' := y' + sy;
    }
  }
}
