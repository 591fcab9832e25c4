/**
 * One cell-aligned grid item (src/components/Grid/GridItem.jsx): how a mouse
 * gesture in pixels becomes a clamped position or size in cells, the
 * gesture state the item keeps between mouse events, and where the item is
 * drawn in pixels.
 */
module GridItem {
  import opened Wrappers
  import opened GridUtils

  function Min(a: int, b: int): (r: int)
    ensures r <= a && r <= b && (r == a || r == b)
  {
    if a < b then a else b
  }

  /**
   * `Math.round(delta / pitch)` for an integer pixel delta and a positive
   * pitch: the nearest integer, halves rounded towards +infinity.
   */
  function RoundDiv(delta: int, pitch: int): (r: int)
    requires pitch > 0
    ensures 2 * pitch * r <= 2 * delta + pitch < 2 * pitch * (r + 1)
  {
    (2 * delta + pitch) / (2 * pitch)
  }

  lemma {:induction false} MulMonotone(b: int, x: int, y: int)
    requires b >= 0 && x <= y
    ensures b * x <= b * y
  {
    assert b * y - b * x == b * (y - x);
  }

  /** Integer division by a positive divisor is the unique quotient bracketing the dividend. */
  lemma {:induction false} DivUnique(a: int, b: int, q: int)
    requires b > 0 && b * q <= a < b * (q + 1)
    ensures a / b == q
  {
    var d := a / b;
    assert b * d <= a < b * d + b;
    assert b * (d + 1) == b * d + b && b * (q + 1) == b * q + b;
    if d < q {
      MulMonotone(b, d + 1, q);
    } else if d > q {
      MulMonotone(b, q + 1, d);
    }
  }

  /** A whole number of cells converts back to itself. */
  lemma {:induction false} RoundDivCells(k: int, pitch: int)
    requires pitch > 0
    ensures RoundDiv(k * pitch, pitch) == k
  {
    assert 2 * (k * pitch) + pitch == (2 * pitch) * k + pitch;
    assert (2 * pitch) * (k + 1) == (2 * pitch) * k + 2 * pitch;
    DivUnique(2 * (k * pitch) + pitch, 2 * pitch, k);
  }

  /** Rounding is monotone in the pixel delta. */
  lemma {:induction false} RoundDivMonotone(d1: int, d2: int, pitch: int)
    requires pitch > 0 && d1 <= d2
    ensures RoundDiv(d1, pitch) <= RoundDiv(d2, pitch)
  {
    var r1, r2 := RoundDiv(d1, pitch), RoundDiv(d2, pitch);
    if r1 > r2 {
      MulMonotone(2 * pitch, r2 + 1, r1);
    }
  }

  // ---------------------------------------------------------------------
  // Clamping into the grid
  // ---------------------------------------------------------------------

  /** `Math.max(0, Math.min(x, cols - w))`. */
  function ClampX(x: int, cols: int, w: int): (r: int)
    ensures r >= 0
    ensures w <= cols ==> r + w <= cols
    ensures 0 <= x && x + w <= cols ==> r == x
  {
    Max(0, Min(x, cols - w))
  }

  /** `Math.max(0, y)`: no lower edge to the grid. */
  function ClampY(y: int): (r: int)
    ensures r >= 0
    ensures y >= 0 ==> r == y
  {
    Max(0, y)
  }

  /** `Math.max(1, Math.min(w, cols - x))`. */
  function ClampW(w: int, cols: int, x: int): (r: int)
    ensures r >= 1
    ensures x < cols ==> x + r <= cols
    ensures 1 <= w && x + w <= cols ==> r == w
  {
    Max(1, Min(w, cols - x))
  }

  /** `Math.max(1, h)`. */
  function ClampH(h: int): (r: int)
    ensures r >= 1
    ensures h >= 1 ==> r == h
  {
    Max(1, h)
  }

  /** The parts of the props and of `gridConfig` the handlers read. */
  datatype Props = Props(id: string, x: int, y: int, w: int, h: int, cols: int, cellSize: int, gap: int, isEditMode: bool)
  {
    predicate HasPitch() {
      cellSize + gap > 0
    }
  }

  /** `dragStart`: where the mouse and the item were when the drag began. */
  datatype DragAnchor = DragAnchor(mouseX: int, mouseY: int, startX: int, startY: int)

  /** `resizeStart`: where the mouse was and the item's size when the resize began. */
  datatype ResizeAnchor = ResizeAnchor(mouseX: int, mouseY: int, startW: int, startH: int)

  /** A callback the item invokes on its parent. */
  datatype Notice =
    | DragStarted(id: string)
    | DragMoved(id: string, x: int, y: int)
    | DragEnded(id: string, x: int, y: int)
    | ResizeStarted(id: string)
    | ResizeMoved(id: string, w: int, h: int)
    | ResizeEnded(id: string, w: int, h: int)

  /** The clamped cell position for the mouse at (`mx`, `my`) during a drag. */
  function DragTarget(p: Props, a: DragAnchor, mx: int, my: int): Pos
    requires p.HasPitch()
  {
    var pitch := p.cellSize + p.gap;
    Pos(ClampX(a.startX + RoundDiv(mx - a.mouseX, pitch), p.cols, p.w),
        ClampY(a.startY + RoundDiv(my - a.mouseY, pitch)))
  }

  /** A drag target lies inside the columns whenever the item is not wider than the grid. */
  lemma {:induction false} DragTargetInGrid(p: Props, a: DragAnchor, mx: int, my: int)
    requires p.HasPitch()
    ensures var t := DragTarget(p, a, mx, my);
      t.x >= 0 && t.y >= 0 && (p.w <= p.cols ==> t.x + p.w <= p.cols)
  {
  }

  /** The mouse back where the drag began gives back the starting cell, when that cell was in the grid. */
  lemma {:induction false} DragTargetAtRest(p: Props, a: DragAnchor)
    requires p.HasPitch()
    requires 0 <= a.startX && a.startX + p.w <= p.cols && 0 <= a.startY
    ensures DragTarget(p, a, a.mouseX, a.mouseY) == Pos(a.startX, a.startY)
  {
    RoundDivCells(0, p.cellSize + p.gap);
  }

  /** The clamped size for the mouse at (`mx`, `my`) during a resize. */
  function ResizeTarget(p: Props, a: ResizeAnchor, mx: int, my: int): (r: (int, int))
    requires p.HasPitch()
  {
    var pitch := p.cellSize + p.gap;
    (ClampW(a.startW + RoundDiv(mx - a.mouseX, pitch), p.cols, p.x),
     ClampH(a.startH + RoundDiv(my - a.mouseY, pitch)))
  }

  /** A resize target is at least 1×1 and ends inside the columns whenever the item starts inside them. */
  lemma {:induction false} ResizeTargetInGrid(p: Props, a: ResizeAnchor, mx: int, my: int)
    requires p.HasPitch()
    ensures var (w, h) := ResizeTarget(p, a, mx, my);
      w >= 1 && h >= 1 && (p.x < p.cols ==> p.x + w <= p.cols)
  {
  }

  /** The gesture state of one item: `dragStart`, `isLocalDragging`, `resizeStart`, `isLocalResizing`. */
  class GridItemState {
    var dragStart: Option<DragAnchor>
    var isLocalDragging: bool
    var resizeStart: Option<ResizeAnchor>
    var isLocalResizing: bool

    constructor ()
      ensures dragStart == None && !isLocalDragging && resizeStart == None && !isLocalResizing
    {
      dragStart := None;
      isLocalDragging := false;
      resizeStart := None;
      isLocalResizing := false;
    }

    /** `handleMouseDown`: ignored outside edit mode; otherwise records the anchor and starts the drag. */
    method MouseDown(p: Props, mx: int, my: int) returns (n: Option<Notice>)
      modifies this
      ensures !p.isEditMode ==> n == None && unchanged(this)
      ensures p.isEditMode ==>
        n == Some(DragStarted(p.id)) && dragStart == Some(DragAnchor(mx, my, p.x, p.y)) && isLocalDragging
        && resizeStart == old(resizeStart) && isLocalResizing == old(isLocalResizing)
    {
      if !p.isEditMode {
        return None;
      }
      dragStart := Some(DragAnchor(mx, my, p.x, p.y));
      isLocalDragging := true;
      n := Some(DragStarted(p.id));
    }

    /** `handleMouseMove`: reports the clamped target only when it differs from the item's current cell. */
    method MouseMove(p: Props, mx: int, my: int) returns (n: Option<Notice>)
      requires p.HasPitch()
      ensures !isLocalDragging || dragStart.None? ==> n == None
      ensures isLocalDragging && dragStart.Some? ==>
        var t := DragTarget(p, dragStart.value, mx, my);
        n == (if t.x != p.x || t.y != p.y then Some(DragMoved(p.id, t.x, t.y)) else None)
    {
      if !isLocalDragging || dragStart.None? {
        return None;
      }
      var a := dragStart.value;
      var pitch := p.cellSize + p.gap;
      var newX := a.startX + RoundDiv(mx - a.mouseX, pitch);
      var newY := a.startY + RoundDiv(my - a.mouseY, pitch);
      newX := ClampX(newX, p.cols, p.w);
      newY := ClampY(newY);
      if newX != p.x || newY != p.y {
        return Some(DragMoved(p.id, newX, newY));
      }
      return None;
    }

    /**
     * `handleMouseUp`: ends the drag and commits the clamped target; without
     * an anchor the item's own cell is committed (clamped).
     */
    method MouseUp(p: Props, mx: int, my: int) returns (n: Option<Notice>)
      requires p.HasPitch()
      modifies this
      ensures !old(isLocalDragging) ==> n == None && unchanged(this)
      ensures old(isLocalDragging) ==>
        !isLocalDragging && dragStart == None
        && resizeStart == old(resizeStart) && isLocalResizing == old(isLocalResizing)
        && n == Some(match old(dragStart)
                     case Some(a) => var t := DragTarget(p, a, mx, my); DragEnded(p.id, t.x, t.y)
                     case None => DragEnded(p.id, ClampX(p.x, p.cols, p.w), ClampY(p.y)))
    {
      if !isLocalDragging {
        return None;
      }
      isLocalDragging := false;
      var pitch := p.cellSize + p.gap;
      var finalX, finalY := p.x, p.y;
      if dragStart.Some? {
        var a := dragStart.value;
        finalX := a.startX + RoundDiv(mx - a.mouseX, pitch);
        finalY := a.startY + RoundDiv(my - a.mouseY, pitch);
      }
      finalX := ClampX(finalX, p.cols, p.w);
      finalY := ClampY(finalY);
      dragStart := None;
      n := Some(DragEnded(p.id, finalX, finalY));
    }

    /** `handleResizeMouseDown`: ignored outside edit mode; otherwise records the anchor and starts the resize. */
    method ResizeMouseDown(p: Props, mx: int, my: int) returns (n: Option<Notice>)
      modifies this
      ensures !p.isEditMode ==> n == None && unchanged(this)
      ensures p.isEditMode ==>
        n == Some(ResizeStarted(p.id)) && resizeStart == Some(ResizeAnchor(mx, my, p.w, p.h)) && isLocalResizing
        && dragStart == old(dragStart) && isLocalDragging == old(isLocalDragging)
    {
      if !p.isEditMode {
        return None;
      }
      resizeStart := Some(ResizeAnchor(mx, my, p.w, p.h));
      isLocalResizing := true;
      n := Some(ResizeStarted(p.id));
    }

    /** `handleResizeMouseMove`: reports the clamped size only when it differs from the item's current size. */
    method ResizeMouseMove(p: Props, mx: int, my: int) returns (n: Option<Notice>)
      requires p.HasPitch()
      ensures !isLocalResizing || resizeStart.None? ==> n == None
      ensures isLocalResizing && resizeStart.Some? ==>
        var (w, h) := ResizeTarget(p, resizeStart.value, mx, my);
        n == (if w != p.w || h != p.h then Some(ResizeMoved(p.id, w, h)) else None)
    {
      if !isLocalResizing || resizeStart.None? {
        return None;
      }
      var a := resizeStart.value;
      var pitch := p.cellSize + p.gap;
      var newW := a.startW + RoundDiv(mx - a.mouseX, pitch);
      var newH := a.startH + RoundDiv(my - a.mouseY, pitch);
      newW := ClampW(newW, p.cols, p.x);
      newH := ClampH(newH);
      if newW != p.w || newH != p.h {
        return Some(ResizeMoved(p.id, newW, newH));
      }
      return None;
    }

    /** `handleResizeMouseUp`: ends the resize and commits the clamped size. */
    method ResizeMouseUp(p: Props, mx: int, my: int) returns (n: Option<Notice>)
      requires p.HasPitch()
      modifies this
      ensures !old(isLocalResizing) ==> n == None && unchanged(this)
      ensures old(isLocalResizing) ==>
        !isLocalResizing && resizeStart == None
        && dragStart == old(dragStart) && isLocalDragging == old(isLocalDragging)
        && n == Some(match old(resizeStart)
                     case Some(a) => var (w, h) := ResizeTarget(p, a, mx, my); ResizeEnded(p.id, w, h)
                     case None => ResizeEnded(p.id, ClampW(p.w, p.cols, p.x), ClampH(p.h)))
    {
      if !isLocalResizing {
        return None;
      }
      isLocalResizing := false;
      var pitch := p.cellSize + p.gap;
      var finalW, finalH := p.w, p.h;
      if resizeStart.Some? {
        var a := resizeStart.value;
        finalW := a.startW + RoundDiv(mx - a.mouseX, pitch);
        finalH := a.startH + RoundDiv(my - a.mouseY, pitch);
      }
      finalW := ClampW(finalW, p.cols, p.x);
      finalH := ClampH(finalH);
      resizeStart := None;
      n := Some(ResizeEnded(p.id, finalW, finalH));
    }
  }

  // ---------------------------------------------------------------------
  // Pixel geometry of the `style` object
  // ---------------------------------------------------------------------

  /** `left` (and, with `y`, `top`): `gap + x * (cellSize + gap)`. */
  function Offset(x: int, cellSize: int, gap: int): int {
    gap + x * (cellSize + gap)
  }

  /** `width` (and, with `h`, `height`): `w * cellSize + (w - 1) * gap`. */
  function Extent(w: int, cellSize: int, gap: int): int {
    w * cellSize + (w - 1) * gap
  }

  /** An item's right edge plus one gap is where the next column starts. */
  lemma {:induction false} AdjacentItemsOneGapApart(x1: int, w1: int, cellSize: int, gap: int)
    ensures Offset(x1 + w1, cellSize, gap) - (Offset(x1, cellSize, gap) + Extent(w1, cellSize, gap)) == gap
  {
    calc {
      Offset(x1 + w1, cellSize, gap) - (Offset(x1, cellSize, gap) + Extent(w1, cellSize, gap));
      gap + (x1 + w1) * (cellSize + gap) - (gap + x1 * (cellSize + gap) + w1 * cellSize + (w1 - 1) * gap);
      { assert (x1 + w1) * (cellSize + gap) == x1 * (cellSize + gap) + w1 * cellSize + w1 * gap; }
      gap;
    }
  }

  /** Two side-by-side items and the gap between them span as much as one item of the summed width. */
  lemma {:induction false} ExtentAdditive(w1: int, w2: int, cellSize: int, gap: int)
    ensures Extent(w1 + w2, cellSize, gap) == Extent(w1, cellSize, gap) + gap + Extent(w2, cellSize, gap)
  {
    assert (w1 + w2) * cellSize == w1 * cellSize + w2 * cellSize;
    assert (w1 + w2 - 1) * gap == (w1 - 1) * gap + gap + (w2 - 1) * gap + gap - gap;
  }

  /** Moving an item one cell moves it by one pitch. */
  lemma {:induction false} OffsetStep(x: int, cellSize: int, gap: int)
    ensures Offset(x + 1, cellSize, gap) == Offset(x, cellSize, gap) + cellSize + gap
  {
    assert (x + 1) * (cellSize + gap) == x * (cellSize + gap) + cellSize + gap;
  }
}
