/**
 * The geometry of the three pointer gestures: resizing from a handle,
 * dragging a box, and committing a freshly drawn box. Pointer positions and
 * the `canvas*` fields are display pixels; every result is resynchronised to
 * original space at `scale`.
 */
module Editing {
  import opened Wrappers
  import opened Geometry
  import opened HitTest

  /** Smallest display width and height a resize leaves and a drawing must exceed. */
  const MinSize: real := 10.0

  /** The handles that move the left, right, top and bottom edge. */
  predicate MovesLeft(h: Handle) { h == NW || h == SW || h == W }
  predicate MovesRight(h: Handle) { h == NE || h == E || h == SE }
  predicate MovesTop(h: Handle) { h == NW || h == N || h == NE }
  predicate MovesBottom(h: Handle) { h == SE || h == S || h == SW }

  /** A handle moves at most one edge per axis. */
  lemma HandleEdgesExclusive(h: Handle)
    ensures !(MovesLeft(h) && MovesRight(h)) && !(MovesTop(h) && MovesBottom(h))
    ensures MovesLeft(h) || MovesRight(h) || MovesTop(h) || MovesBottom(h)
  {
  }

  /** The minimum-size rule of `resizeBox`: only the size is raised, the position is not adjusted. */
  function AtLeastMin(v: real): (r: real)
    ensures r >= MinSize
    ensures v >= MinSize ==> r == v
    ensures v < MinSize ==> r == MinSize
  {
    if v < MinSize then MinSize else v
  }

  /**
   * `resizeBox`: the edges the handle moves are recomputed from the snapshot
   * `snap` taken at mouse-down and the pointer (mx, my), never from the box's
   * current geometry; the other fields keep the current box's values. Width and
   * height are then raised to at least 10 and original space is recomputed.
   */
  function Resized(box: Detection, snap: Detection, h: Handle, mx: real, my: real, scale: real): (r: Detection)
    requires scale > 0.0
    ensures Synced(r, scale) && r.labelText == box.labelText
    ensures r.canvasWidth >= MinSize && r.canvasHeight >= MinSize
    ensures r.canvasX == (if MovesLeft(h) then mx else box.canvasX)
    ensures r.canvasY == (if MovesTop(h) then my else box.canvasY)
    ensures MovesLeft(h) ==> r.canvasWidth == AtLeastMin(snap.canvasX + snap.canvasWidth - mx)
    ensures MovesRight(h) ==> r.canvasWidth == AtLeastMin(mx - snap.canvasX)
    ensures !MovesLeft(h) && !MovesRight(h) ==> r.canvasWidth == AtLeastMin(box.canvasWidth)
    ensures MovesTop(h) ==> r.canvasHeight == AtLeastMin(snap.canvasY + snap.canvasHeight - my)
    ensures MovesBottom(h) ==> r.canvasHeight == AtLeastMin(my - snap.canvasY)
    ensures !MovesTop(h) && !MovesBottom(h) ==> r.canvasHeight == AtLeastMin(box.canvasHeight)
  {
    var newX := if MovesLeft(h) then mx else box.canvasX;
    var newY := if MovesTop(h) then my else box.canvasY;
    var newW :=
      if MovesLeft(h) then snap.canvasX + snap.canvasWidth - mx
      else if MovesRight(h) then mx - snap.canvasX
      else box.canvasWidth;
    var newH :=
      if MovesTop(h) then snap.canvasY + snap.canvasHeight - my
      else if MovesBottom(h) then my - snap.canvasY
      else box.canvasHeight;
    NewDetection(box.labelText, newX, newY, AtLeastMin(newW), AtLeastMin(newH), scale)
  }

  /**
   * While the width stays at or above the minimum, a handle that moves the left
   * edge leaves the right edge where the snapshot had it, and one that moves
   * the right edge puts that edge under the pointer (likewise vertically).
   */
  lemma ResizeKeepsOppositeEdge(box: Detection, snap: Detection, h: Handle, mx: real, my: real, scale: real)
    requires scale > 0.0
    requires box.canvasX == snap.canvasX && box.canvasY == snap.canvasY
    ensures var r := Resized(box, snap, h, mx, my, scale);
      && (MovesLeft(h) && snap.canvasX + snap.canvasWidth - mx >= MinSize ==>
            r.canvasX + r.canvasWidth == snap.canvasX + snap.canvasWidth)
      && (MovesRight(h) && mx - snap.canvasX >= MinSize ==> r.canvasX + r.canvasWidth == mx)
      && (MovesTop(h) && snap.canvasY + snap.canvasHeight - my >= MinSize ==>
            r.canvasY + r.canvasHeight == snap.canvasY + snap.canvasHeight)
      && (MovesBottom(h) && my - snap.canvasY >= MinSize ==> r.canvasY + r.canvasHeight == my)
  {
  }

  /**
   * Resizing works from the snapshot, so a sequence of pointer moves ends where
   * the last move alone would: no drift accumulates.
   */
  lemma ResizeNoDrift(box: Detection, snap: Detection, h: Handle, mx1: real, my1: real, mx2: real, my2: real, scale: real)
    requires scale > 0.0
    ensures Resized(Resized(box, snap, h, mx1, my1, scale), snap, h, mx2, my2, scale)
         == Resized(box, snap, h, mx2, my2, scale)
  {
    var r1 := Resized(box, snap, h, mx1, my1, scale);
    assert AtLeastMin(r1.canvasWidth) == AtLeastMin(box.canvasWidth) || MovesLeft(h) || MovesRight(h);
    assert AtLeastMin(r1.canvasHeight) == AtLeastMin(box.canvasHeight) || MovesTop(h) || MovesBottom(h);
  }

  /** The snapshot box of the resize examples: display (10, 10) with size 50 x 50, at scale 1. */
  const ExampleBox: Detection := Detection("cat", 10.0, 10.0, 50.0, 50.0, 10.0, 10.0, 50.0, 50.0)

  /** Dragging the south-east handle from the example box to (70, 80) gives (10, 10, 60, 70). */
  lemma ResizeSouthEastExample()
    ensures var r := Resized(ExampleBox, ExampleBox, SE, 70.0, 80.0, 1.0);
      r.canvasX == 10.0 && r.canvasY == 10.0 && r.canvasWidth == 60.0 && r.canvasHeight == 70.0
  {
  }

  /**
   * Dragging the north-west handle past the opposite corner, to (55, 55), gives
   * (55, 55, 10, 10): the size is clamped but the position is not moved back,
   * so the opposite corner ends at (65, 65) instead of staying at (60, 60).
   */
  lemma ResizeNorthWestClampExample()
    ensures var r := Resized(ExampleBox, ExampleBox, NW, 55.0, 55.0, 1.0);
      && r.canvasX == 55.0 && r.canvasY == 55.0 && r.canvasWidth == 10.0 && r.canvasHeight == 10.0
      && r.canvasX + r.canvasWidth != ExampleBox.canvasX + ExampleBox.canvasWidth
  {
  }

  /**
   * The drag step of `handleMouseMove`: the display origin is the snapshot's
   * origin moved by the pointer delta, and only `x` and `y` are resynchronised;
   * size and label are the current box's.
   */
  function Dragged(box: Detection, snap: Detection, dx: real, dy: real, scale: real): (r: Detection)
    requires scale > 0.0
    ensures r.canvasX - snap.canvasX == dx && r.canvasY - snap.canvasY == dy
    ensures ToDisplay(r.x, scale) == r.canvasX && ToDisplay(r.y, scale) == r.canvasY
    ensures r.labelText == box.labelText
    ensures r.width == box.width && r.height == box.height
    ensures r.canvasWidth == box.canvasWidth && r.canvasHeight == box.canvasHeight
  {
    var cx := snap.canvasX + dx;
    var cy := snap.canvasY + dy;
    box.(canvasX := cx, canvasY := cy, x := ToOriginal(cx, scale), y := ToOriginal(cy, scale))
  }

  /** A drag keeps a synchronised box synchronised, although it only rewrites `x` and `y`. */
  lemma DragKeepsSynced(box: Detection, snap: Detection, dx: real, dy: real, scale: real)
    requires scale > 0.0 && Synced(box, scale)
    ensures Synced(Dragged(box, snap, dx, dy, scale), scale)
  {
  }

  /** Successive drag steps do not accumulate: the last pointer delta alone decides the position. */
  lemma DragNoDrift(box: Detection, snap: Detection, dx1: real, dy1: real, dx2: real, dy2: real, scale: real)
    requires scale > 0.0
    ensures Dragged(Dragged(box, snap, dx1, dy1, scale), snap, dx2, dy2, scale) == Dragged(box, snap, dx2, dy2, scale)
  {
  }

  /**
   * The commit rule of `handleMouseUp` while drawing: a box is made only when
   * both sides of the dragged rectangle are strictly longer than 10; it spans
   * the two pointer positions and is converted to original space.
   */
  function DrawnBox(labelText: string, sx: real, sy: real, ex: real, ey: real, scale: real): (r: Option<Detection>)
    requires scale > 0.0
    ensures r.Some? <==> Abs(ex - sx) > MinSize && Abs(ey - sy) > MinSize
    ensures r.Some? ==> Synced(r.value, scale) && r.value.labelText == labelText
    ensures r.Some? ==> r.value.canvasWidth > MinSize && r.value.canvasHeight > MinSize
    ensures r.Some? ==> r.value.canvasX == Min(sx, ex) && r.value.canvasX + r.value.canvasWidth == Max(sx, ex)
    ensures r.Some? ==> r.value.canvasY == Min(sy, ey) && r.value.canvasY + r.value.canvasHeight == Max(sy, ey)
  {
    var w := Abs(ex - sx);
    var h := Abs(ey - sy);
    if w > MinSize && h > MinSize then Some(NewDetection(labelText, Min(sx, ex), Min(sy, ey), w, h, scale))
    else None
  }

  /** A committed drawing is the box `addBoundingBox` makes from the min corner and the spans. */
  lemma DrawnBoxIsAdded(labelText: string, sx: real, sy: real, ex: real, ey: real, scale: real)
    requires scale > 0.0
    ensures DrawnBox(labelText, sx, sy, ex, ey, scale)
      == if Abs(ex - sx) > MinSize && Abs(ey - sy) > MinSize
         then Some(NewDetection(labelText, Min(sx, ex), Min(sy, ey), Abs(ex - sx), Abs(ey - sy), scale))
         else None
  {
  }

  /** A drag of exactly 10 pixels is not enough to make a box: the threshold is strict. */
  lemma DrawThresholdIsStrict(scale: real)
    requires scale > 0.0
    ensures DrawnBox("cat", 0.0, 0.0, 10.0, 50.0, scale) == None
    ensures DrawnBox("cat", 0.0, 0.0, 10.5, 50.0, scale).Some?
  {
  }
}
