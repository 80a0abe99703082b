/**
 * Hit testing in DISPLAY space: which stored box lies under the pointer
 * (`getBoxAtPosition`) and which of a box's eight resize handles does
 * (`getResizeHandle`). All rectangles are closed: their edges belong to them.
 */
module HitTest {
  import opened Wrappers
  import opened Geometry

  /** The closed display rectangle of `d` contains the point. */
  predicate Contains(d: Detection, x: real, y: real) {
    d.canvasX <= x <= d.canvasX + d.canvasWidth && d.canvasY <= y <= d.canvasY + d.canvasHeight
  }

  /** The highest position whose box contains the point, or `None` when no box does. */
  function TopmostAt(dets: seq<Detection>, x: real, y: real): (r: Option<nat>)
    ensures r.Some? ==> r.value < |dets| && Contains(dets[r.value], x, y)
    ensures r.Some? ==> forall j :: r.value < j < |dets| ==> !Contains(dets[j], x, y)
    ensures r.None? <==> forall j :: 0 <= j < |dets| ==> !Contains(dets[j], x, y)
  {
    if dets == [] then None
    else if Contains(dets[|dets| - 1], x, y) then Some(|dets| - 1)
    else TopmostAt(dets[..|dets| - 1], x, y)
  }

  /**
   * `getBoxAtPosition` over one image's detections: scans from the last box
   * down and stops at the first that contains the point.
   */
  method FindBoxAt(dets: seq<Detection>, x: real, y: real) returns (r: Option<nat>)
    ensures r == TopmostAt(dets, x, y)
  {
    var i := |dets|;
    while i > 0
      invariant 0 <= i <= |dets|
      invariant forall j :: i <= j < |dets| ==> !Contains(dets[j], x, y)
    {
      i := i - 1;
      if Contains(dets[i], x, y) {
        return Some(i);
      }
    }
    return None;
  }

  /** Of two boxes that both contain a point, the one added later is the one hit (or a still later one). */
  lemma LaterBoxWins(dets: seq<Detection>, i: nat, j: nat, x: real, y: real)
    requires i < j < |dets|
    requires Contains(dets[i], x, y) && Contains(dets[j], x, y)
    ensures TopmostAt(dets, x, y).Some? && TopmostAt(dets, x, y).value >= j
  {
  }

  /** A newly appended box is on top wherever it lies, and changes nothing elsewhere. */
  lemma {:induction false} AppendedBoxOnTop(dets: seq<Detection>, d: Detection, x: real, y: real)
    ensures TopmostAt(dets + [d], x, y) == if Contains(d, x, y) then Some(|dets|) else TopmostAt(dets, x, y)
  {
    assert (dets + [d])[..|dets|] == dets;
  }

  datatype Handle = NW | N | NE | E | SE | S | SW | W

  /** The order `getResizeHandle` tests the handles in. */
  const HandleOrder: seq<Handle> := [NW, N, NE, E, SE, S, SW, W]

  /** Side of a handle square, in display pixels. */
  const HandleSize: real := 8.0

  /** The corner or edge midpoint of `d` a handle is centred on. */
  function HandleCentreX(h: Handle, d: Detection): real {
    match h
    case NW | SW | W => d.canvasX
    case N | S => d.canvasX + d.canvasWidth / 2.0
    case NE | E | SE => d.canvasX + d.canvasWidth
  }

  function HandleCentreY(h: Handle, d: Detection): real {
    match h
    case NW | N | NE => d.canvasY
    case E | W => d.canvasY + d.canvasHeight / 2.0
    case SE | S | SW => d.canvasY + d.canvasHeight
  }

  /** The closed 8x8 square of handle `h`, centred on its anchor, contains the point. */
  predicate InHandle(h: Handle, d: Detection, x: real, y: real) {
    var left := HandleCentreX(h, d) - HandleSize / 2.0;
    var top := HandleCentreY(h, d) - HandleSize / 2.0;
    left <= x <= left + HandleSize && top <= y <= top + HandleSize
  }

  /** The first handle of `hs` whose square contains the point. */
  function FirstHandle(hs: seq<Handle>, d: Detection, x: real, y: real): (r: Option<Handle>)
    ensures r.None? <==> forall k :: 0 <= k < |hs| ==> !InHandle(hs[k], d, x, y)
    ensures r.Some? ==> exists k :: (0 <= k < |hs| && hs[k] == r.value && InHandle(hs[k], d, x, y)
      && forall j :: 0 <= j < k ==> !InHandle(hs[j], d, x, y))
  {
    if hs == [] then None
    else if InHandle(hs[0], d, x, y) then
      assert 0 < |hs| && hs[0] == hs[0];
      Some(hs[0])
    else
      var r := FirstHandle(hs[1..], d, x, y);
      if r.Some? then
        var k :| 0 <= k < |hs[1..]| && hs[1..][k] == r.value && InHandle(hs[1..][k], d, x, y)
          && forall j :: 0 <= j < k ==> !InHandle(hs[1..][j], d, x, y);
        assert hs[k + 1] == r.value;
        r
      else r
  }

  /** The handle of `d` under the point, in the order nw, n, ne, e, se, s, sw, w. */
  function HandleAt(d: Detection, x: real, y: real): Option<Handle> {
    FirstHandle(HandleOrder, d, x, y)
  }

  /** `getResizeHandle`: tests the eight squares in order and returns the first that contains the point. */
  method GetResizeHandle(x: real, y: real, d: Detection) returns (r: Option<Handle>)
    ensures r == HandleAt(d, x, y)
  {
    for i := 0 to |HandleOrder|
      invariant forall j :: 0 <= j < i ==> !InHandle(HandleOrder[j], d, x, y)
    {
      if InHandle(HandleOrder[i], d, x, y) {
        return Some(HandleOrder[i]);
      }
    }
    return None;
  }

  /** What a press in detection mode starts, given the boxes under it. */
  datatype Press = StartDraw | StartResize(index: nat, handle: Handle) | StartDrag(index: nat)

  /**
   * The target of `handleMouseDown`: handles are only tested on the box the hit
   * test already returned, so a resize starts only from inside that box.
   */
  function PressTarget(dets: seq<Detection>, x: real, y: real): (p: Press)
    ensures p.StartDraw? <==> forall j :: 0 <= j < |dets| ==> !Contains(dets[j], x, y)
    ensures p.StartResize? ==> (p.index < |dets| && Contains(dets[p.index], x, y)
      && InHandle(p.handle, dets[p.index], x, y))
    ensures !p.StartDraw? ==> TopmostAt(dets, x, y) == Some(p.index)
    ensures p.StartResize? <==> TopmostAt(dets, x, y).Some? && HandleAt(dets[TopmostAt(dets, x, y).value], x, y).Some?
    ensures p.StartResize? ==> HandleAt(dets[p.index], x, y) == Some(p.handle)
  {
    match TopmostAt(dets, x, y)
    case None => StartDraw
    case Some(i) =>
      match HandleAt(dets[i], x, y)
      case Some(h) => StartResize(i, h)
      case None => StartDrag(i)
  }

  /** The decision `handleMouseDown` makes, by the hit test followed by the handle test on the box hit. */
  method PressOf(dets: seq<Detection>, x: real, y: real) returns (p: Press)
    ensures p == PressTarget(dets, x, y)
  {
    var hit := FindBoxAt(dets, x, y);
    if hit.None? {
      return StartDraw;
    }
    var handle := GetResizeHandle(x, y, dets[hit.value]);
    if handle.Some? {
      p := StartResize(hit.value, handle.value);
    } else {
      p := StartDrag(hit.value);
    }
  }

  /**
   * The part of a handle square outside its box never starts a resize of that
   * box (for a corner, three quarters of the square): the press goes to
   * another box that contains the point, or starts a drawing when none does.
   */
  lemma OuterHandlePartNeverResizes(dets: seq<Detection>, i: nat, h: Handle, x: real, y: real)
    requires i < |dets| && InHandle(h, dets[i], x, y) && !Contains(dets[i], x, y)
    ensures var p := PressTarget(dets, x, y);
      !(p.StartResize? && p.index == i) && !(p.StartDrag? && p.index == i)
  {
  }

  /** For instance, a point of the north-west square outside a lone box starts a new drawing. */
  lemma OuterHandleHalfIsDead()
    ensures var d := Detection([], 10.0, 10.0, 50.0, 50.0, 10.0, 10.0, 50.0, 50.0);
      InHandle(NW, d, 7.0, 7.0) && PressTarget([d], 7.0, 7.0) == StartDraw
  {
  }
}
