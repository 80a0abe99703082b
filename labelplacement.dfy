/**
 * Where the label tag of a box is drawn (`calculateLabelPosition`): a pure
 * function of the box's display rectangle, the canvas size and the measured
 * width of the label text. The box itself is a value and is never changed.
 */
module LabelPlacement {
  import opened Geometry

  /** Distance kept from the canvas edges. */
  const Margin: real := 5.0
  /** Height of a tag. */
  const TagHeight: real := 22.0
  /** Horizontal padding added to the text width. */
  const TagPadding: real := 8.0
  /** Fraction of the canvas area above which a box counts as large. */
  const LargeRatio: real := 0.8

  datatype TagPosition = TagPosition(x: real, y: real)

  function TagWidth(textWidth: real): real {
    textWidth + TagPadding
  }

  /**
   * The source compares `boxArea / canvasArea > 0.8`; with an empty canvas that
   * quotient is +Infinity for a positive area and NaN or -Infinity otherwise.
   * Both cases are the comparison of the box area with 0.8 times the canvas area.
   */
  predicate IsLargeBox(d: Detection, canvasW: real, canvasH: real)
    requires canvasW >= 0.0 && canvasH >= 0.0
  {
    var boxArea := d.canvasWidth * d.canvasHeight;
    var canvasArea := canvasW * canvasH;
    if canvasArea > 0.0 then boxArea / canvasArea > LargeRatio else boxArea > 0.0
  }

  lemma LargeBoxByArea(d: Detection, canvasW: real, canvasH: real)
    requires canvasW >= 0.0 && canvasH >= 0.0
    ensures IsLargeBox(d, canvasW, canvasH) <==>
      d.canvasWidth * d.canvasHeight > LargeRatio * (canvasW * canvasH)
  {
    var canvasArea := canvasW * canvasH;
    if canvasArea > 0.0 {
      var q := d.canvasWidth * d.canvasHeight / canvasArea;
      assert q * canvasArea == d.canvasWidth * d.canvasHeight;
      assert q > LargeRatio <==> q * canvasArea > LargeRatio * canvasArea;
    }
  }

  /**
   * The tag position. A large box gets a tag centred on the canvas, 20 below the
   * box's top but never above y = 27. Otherwise the tag sits 24 above the box,
   * or 5 inside it when that would leave less than the margin; it starts at the
   * box's left edge, moved right to the margin and then left so that it ends at
   * least the margin before the canvas's right edge.
   */
  function LabelPosition(d: Detection, canvasW: real, canvasH: real, textWidth: real): (p: TagPosition)
    requires canvasW >= 0.0 && canvasH >= 0.0
    ensures IsLargeBox(d, canvasW, canvasH) ==>
      p.x + TagWidth(textWidth) / 2.0 == canvasW / 2.0 && p.y == Max(d.canvasY + 20.0, Margin + TagHeight)
    ensures !IsLargeBox(d, canvasW, canvasH) ==>
      p.y == (if d.canvasY - TagHeight - 2.0 < Margin then d.canvasY + Margin else d.canvasY - TagHeight - 2.0)
    ensures !IsLargeBox(d, canvasW, canvasH) ==>
      p.x == (if Max(d.canvasX, Margin) + TagWidth(textWidth) > canvasW - Margin
              then canvasW - TagWidth(textWidth) - Margin else Max(d.canvasX, Margin))
  {
    var x := d.canvasX;
    var y := d.canvasY - TagHeight - 2.0;
    var y := if y < Margin then d.canvasY + Margin else y;
    var x := if x < Margin then Margin else x;
    var labelWidth := TagWidth(textWidth);
    var x := if x + labelWidth > canvasW - Margin then canvasW - labelWidth - Margin else x;
    if IsLargeBox(d, canvasW, canvasH) then
      var y := d.canvasY + 20.0;
      TagPosition((canvasW - labelWidth) / 2.0, if y < Margin + TagHeight then Margin + TagHeight else y)
    else
      TagPosition(x, y)
  }

  /**
   * For a box that is not large, the tag never passes the right margin, and
   * when the canvas is wide enough for the tag and both margins it never
   * passes the left margin either.
   */
  lemma TagWithinHorizontalMargins(d: Detection, canvasW: real, canvasH: real, textWidth: real)
    requires canvasW >= 0.0 && canvasH >= 0.0
    requires !IsLargeBox(d, canvasW, canvasH)
    ensures var p := LabelPosition(d, canvasW, canvasH, textWidth);
      && p.x + TagWidth(textWidth) <= canvasW - Margin
      && (TagWidth(textWidth) + 2.0 * Margin <= canvasW ==> p.x >= Margin)
  {
  }

  /**
   * For a box that is not large, the tag is left-aligned with the box when the
   * box's left edge leaves room for it within the margins, and is drawn just
   * above the box when there is room above it, else just inside its top.
   */
  lemma TagAlignedWithBox(d: Detection, canvasW: real, canvasH: real, textWidth: real)
    requires canvasW >= 0.0 && canvasH >= 0.0
    requires !IsLargeBox(d, canvasW, canvasH)
    ensures var p := LabelPosition(d, canvasW, canvasH, textWidth);
      && (Margin <= d.canvasX && d.canvasX + TagWidth(textWidth) <= canvasW - Margin ==> p.x == d.canvasX)
      && (d.canvasY >= Margin + TagHeight + 2.0 ==> p.y + TagHeight + 2.0 == d.canvasY)
      && (d.canvasY < Margin + TagHeight + 2.0 ==> p.y == d.canvasY + Margin)
  {
  }

  /** A tag is never placed above the top margin when the box's top is on the canvas. */
  lemma TagBelowTopMargin(d: Detection, canvasW: real, canvasH: real, textWidth: real)
    requires canvasW >= 0.0 && canvasH >= 0.0 && d.canvasY >= 0.0
    ensures LabelPosition(d, canvasW, canvasH, textWidth).y >= Margin
  {
  }

  /** A box covering the whole canvas gets its tag centred, at y = 27 when the box starts at the top. */
  lemma FullCanvasTagExample()
    ensures var d := Detection("cat", 0.0, 0.0, 400.0, 300.0, 0.0, 0.0, 400.0, 300.0);
      IsLargeBox(d, 400.0, 300.0) && LabelPosition(d, 400.0, 300.0, 40.0) == TagPosition(176.0, 27.0)
  {
    LargeBoxByArea(Detection("cat", 0.0, 0.0, 400.0, 300.0, 0.0, 0.0, 400.0, 300.0), 400.0, 300.0);
  }
}
