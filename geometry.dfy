/**
 * Boxes in two coordinate spaces. A detection keeps its geometry in ORIGINAL
 * image pixels (`x`, `y`, `width`, `height`) and a mirror in DISPLAY pixels
 * (`canvasX` ... `canvasHeight`); the two are related by the current image
 * scale, display = original * scale.
 */
module Geometry {

  datatype Detection = Detection(
    labelText: string,
    x: real, y: real, width: real, height: real,
    canvasX: real, canvasY: real, canvasWidth: real, canvasHeight: real)

  datatype Size = Size(width: real, height: real)

  function Min(a: real, b: real): real { if a <= b then a else b }
  function Max(a: real, b: real): real { if a >= b then a else b }
  function Abs(a: real): real { if a < 0.0 then -a else a }

  /** Original-space coordinate to display space. */
  function ToDisplay(p: real, scale: real): real {
    p * scale
  }

  /** Display-space coordinate to original space; converting back gives the display value again. */
  function ToOriginal(p: real, scale: real): (r: real)
    requires scale > 0.0
    ensures ToDisplay(r, scale) == p
  {
    p / scale
  }

  lemma OriginalDisplayRoundTrip(p: real, scale: real)
    requires scale > 0.0
    ensures ToOriginal(ToDisplay(p, scale), scale) == p
  {
  }

  /** The display mirror of `d` agrees with its original-space fields at `scale`. */
  predicate Synced(d: Detection, scale: real) {
    && d.canvasX == ToDisplay(d.x, scale)
    && d.canvasY == ToDisplay(d.y, scale)
    && d.canvasWidth == ToDisplay(d.width, scale)
    && d.canvasHeight == ToDisplay(d.height, scale)
  }

  /**
   * The record `addBoundingBox` builds from DISPLAY coordinates: the display
   * fields are the arguments and the original fields are display / scale.
   */
  function NewDetection(labelText: string, x: real, y: real, w: real, h: real, scale: real): (d: Detection)
    requires scale > 0.0
    ensures Synced(d, scale) && d.labelText == labelText
    ensures d.canvasX == x && d.canvasY == y && d.canvasWidth == w && d.canvasHeight == h
  {
    Detection(labelText, ToOriginal(x, scale), ToOriginal(y, scale), ToOriginal(w, scale), ToOriginal(h, scale), x, y, w, h)
  }

  /**
   * What `loadAnnotation` does to each stored detection: the display mirror is
   * recomputed from the original fields, which are kept.
   */
  function Rescaled(d: Detection, scale: real): (r: Detection)
    ensures Synced(r, scale)
    ensures r.labelText == d.labelText && r.x == d.x && r.y == d.y && r.width == d.width && r.height == d.height
  {
    d.(canvasX := ToDisplay(d.x, scale), canvasY := ToDisplay(d.y, scale),
       canvasWidth := ToDisplay(d.width, scale), canvasHeight := ToDisplay(d.height, scale))
  }

  /** Rescaling an already synchronised detection changes nothing. */
  lemma RescaledSynced(d: Detection, scale: real)
    requires Synced(d, scale)
    ensures Rescaled(d, scale) == d
  {
  }

  /** The fit ratio of `calculateImageSize`: the smaller of the two axis ratios. */
  function FitRatio(imgW: real, imgH: real, maxW: real, maxH: real): (r: real)
    requires imgW > 0.0 && imgH > 0.0 && maxW > 0.0 && maxH > 0.0
    ensures r > 0.0
    ensures imgW * r <= maxW && imgH * r <= maxH
    ensures imgW * r == maxW || imgH * r == maxH
  {
    var rw := maxW / imgW;
    var rh := maxH / imgH;
    assert imgW * rw == maxW && imgH * rh == maxH;
    if rw <= rh then
      assert imgH * rw <= imgH * rh;
      rw
    else
      assert imgW * rh <= imgW * rw;
      rh
  }

  /**
   * `calculateImageSize`: the image scaled by the fit ratio. It fits inside the
   * container, fills it along one axis, and keeps the aspect ratio.
   */
  function FitSize(imgW: real, imgH: real, maxW: real, maxH: real): (s: Size)
    requires imgW > 0.0 && imgH > 0.0 && maxW > 0.0 && maxH > 0.0
    ensures 0.0 < s.width <= maxW && 0.0 < s.height <= maxH
    ensures s.width == maxW || s.height == maxH
    ensures s.width * imgH == s.height * imgW
  {
    var r := FitRatio(imgW, imgH, maxW, maxH);
    assert (imgW * r) * imgH == (imgH * r) * imgW;
    Size(imgW * r, imgH * r)
  }

  /** The scale `displayImage` derives, displayed width / natural width, is the fit ratio itself. */
  lemma FitScaleIsRatio(imgW: real, imgH: real, maxW: real, maxH: real)
    requires imgW > 0.0 && imgH > 0.0 && maxW > 0.0 && maxH > 0.0
    ensures FitSize(imgW, imgH, maxW, maxH).width / imgW == FitRatio(imgW, imgH, maxW, maxH)
    ensures FitSize(imgW, imgH, maxW, maxH).height / imgH == FitRatio(imgW, imgH, maxW, maxH)
  {
  }
}
