/**
 * Detection intake: which boxes returned by the detection service become
 * annotations, and when detection runs on its own after an image loads.
 * The service call itself is a parameter: its list of detections, or none
 * when the request failed.
 */
module Intake {
  import opened Wrappers
  import opened Text
  import opened Lists
  import opened Geometry
  import opened Store
  import opened Exporters

  /** A detection as the service returns it: a box in normalised centre form. */
  datatype ServiceDetection = ServiceDetection(labelText: string, confidence: real,
                                               x: real, y: real, width: real, height: real)

  /** A box in original-image pixels, corner form. */
  datatype PixelBox = PixelBox(x: real, y: real, width: real, height: real)

  /** The pixel box of a service detection in an image of the given natural size. */
  function Denormalised(sd: ServiceDetection, imgW: real, imgH: real): (b: PixelBox)
    ensures b.x + b.width / 2.0 == sd.x * imgW && b.width == sd.width * imgW
    ensures b.y + b.height / 2.0 == sd.y * imgH && b.height == sd.height * imgH
  {
    PixelBox((sd.x - sd.width / 2.0) * imgW, (sd.y - sd.height / 2.0) * imgH, sd.width * imgW, sd.height * imgH)
  }

  /** The bounds test: non-empty and entirely inside the image, edges included. */
  predicate InsideImage(b: PixelBox, imgW: real, imgH: real): (r: bool)
    ensures r ==> imgW > 0.0 && imgH > 0.0 && b.x < imgW && b.y < imgH
  {
    b.x >= 0.0 && b.y >= 0.0 && b.width > 0.0 && b.height > 0.0 && b.x + b.width <= imgW && b.y + b.height <= imgH
  }

  /** A service detection is accepted when its label is in the set and its box is inside the image. */
  predicate Accepted(sd: ServiceDetection, labels: seq<string>, imgW: real, imgH: real): (r: bool)
    ensures r ==> sd.labelText in labels && imgW > 0.0 && imgH > 0.0
  {
    sd.labelText in labels && InsideImage(Denormalised(sd, imgW, imgH), imgW, imgH)
  }

  /** A centre-form span of positive length inside [0, 1]. */
  predicate InUnitInterval(centre: real, len: real) {
    0.0 < len && 0.0 <= centre - len / 2.0 && centre + len / 2.0 <= 1.0
  }

  /** Scaling by a positive factor keeps the sign. */
  lemma ScaleKeepsSign(a: real, k: real)
    requires k > 0.0
    ensures a * k >= 0.0 <==> a >= 0.0
    ensures a * k > 0.0 <==> a > 0.0
  {
  }

  /**
   * A normalised centre-form span scaled by a positive image side lands inside
   * [0, side] with a positive length exactly when it was inside [0, 1].
   */
  lemma PixelSpan(centre: real, len: real, side: real, start: real, extent: real)
    requires side > 0.0 && start == (centre - len / 2.0) * side && extent == len * side
    ensures (start >= 0.0 && extent > 0.0 && start + extent <= side) <==> InUnitInterval(centre, len)
  {
    var lo := centre - len / 2.0;
    ScaleKeepsSign(lo, side);
    ScaleKeepsSign(len, side);
    assert side - start - extent == (1.0 - lo - len) * side;
    ScaleKeepsSign(1.0 - lo - len, side);
  }

  /**
   * For an image of positive size, the bounds test is the service's
   * normalised box lying in the unit square, edges included, with a positive
   * size: the image size itself plays no part.
   */
  lemma AcceptedInUnitSquare(sd: ServiceDetection, labels: seq<string>, imgW: real, imgH: real)
    requires imgW > 0.0 && imgH > 0.0
    ensures Accepted(sd, labels, imgW, imgH)
      <==> sd.labelText in labels && InUnitInterval(sd.x, sd.width) && InUnitInterval(sd.y, sd.height)
  {
    var b := Denormalised(sd, imgW, imgH);
    PixelSpan(sd.x, sd.width, imgW, b.x, b.width);
    PixelSpan(sd.y, sd.height, imgH, b.y, b.height);
  }

  /**
   * The detections the intake loop appends, in service order. The pixel box is
   * handed to the box-adding path, which takes it for display coordinates and
   * divides by the display scale again.
   */
  function AcceptedDetections(sds: seq<ServiceDetection>, labels: seq<string>, imgW: real, imgH: real, scale: real): (ds: seq<Detection>)
    requires scale > 0.0
    ensures |ds| <= |sds|
  {
    if sds == [] then []
    else
      var init := AcceptedDetections(sds[..|sds| - 1], labels, imgW, imgH, scale);
      var sd := sds[|sds| - 1];
      if Accepted(sd, labels, imgW, imgH) then
        var b := Denormalised(sd, imgW, imgH);
        init + [NewDetection(sd.labelText, b.x, b.y, b.width, b.height, scale)]
      else init
  }

  /**
   * Every detection the intake keeps carries a label of the set, has its
   * display mirror in step with the scale, and has a display box inside the
   * image's pixel bounds.
   */
  lemma {:induction false} AcceptedDetectionsSound(sds: seq<ServiceDetection>, labels: seq<string>, imgW: real, imgH: real, scale: real)
    requires scale > 0.0
    ensures forall d :: d in AcceptedDetections(sds, labels, imgW, imgH, scale) ==> d.labelText in labels && Synced(d, scale)
    ensures forall d :: d in AcceptedDetections(sds, labels, imgW, imgH, scale) ==>
      (d.canvasX >= 0.0 && d.canvasY >= 0.0 && d.canvasWidth > 0.0 && d.canvasHeight > 0.0
       && d.canvasX + d.canvasWidth <= imgW && d.canvasY + d.canvasHeight <= imgH)
  {
    if sds != [] {
      AcceptedDetectionsSound(sds[..|sds| - 1], labels, imgW, imgH, scale);
    }
  }

  /** The detection intake adds for a service detection: its pixel box, read as display coordinates. */
  function IntakeDetection(sd: ServiceDetection, imgW: real, imgH: real, scale: real): (d: Detection)
    requires scale > 0.0
    ensures d.labelText == sd.labelText && Synced(d, scale)
    ensures var b := Denormalised(sd, imgW, imgH);
      d.canvasX == b.x && d.canvasY == b.y && d.canvasWidth == b.width && d.canvasHeight == b.height
  {
    NewDetection(sd.labelText, (sd.x - sd.width / 2.0) * imgW, (sd.y - sd.height / 2.0) * imgH,
                 sd.width * imgW, sd.height * imgH, scale)
  }

  /** One more service detection adds its box exactly when it is accepted. */
  lemma AcceptedStep(sds: seq<ServiceDetection>, i: nat, labels: seq<string>, imgW: real, imgH: real, scale: real)
    requires i < |sds| && scale > 0.0
    ensures AcceptedDetections(sds[..i + 1], labels, imgW, imgH, scale)
      == AcceptedDetections(sds[..i], labels, imgW, imgH, scale)
         + (if Accepted(sds[i], labels, imgW, imgH) then [IntakeDetection(sds[i], imgW, imgH, scale)] else [])
  {
    var prefix := sds[..i + 1];
    assert prefix[..|prefix| - 1] == sds[..i] && prefix[|prefix| - 1] == sds[i];
    var b := Denormalised(sds[i], imgW, imgH);
    assert b == PixelBox((sds[i].x - sds[i].width / 2.0) * imgW, (sds[i].y - sds[i].height / 2.0) * imgH,
                         sds[i].width * imgW, sds[i].height * imgH);
  }

  /** The intake loop's record after one more service detection: one more `addBoundingBox` exactly when it is accepted. */
  lemma IntakeStep(m: AnnotationMap, key: string, sds: seq<ServiceDetection>, i: nat, labels: seq<string>, imgW: real, imgH: real, scale: real)
    requires i < |sds| && scale > 0.0
    ensures var before := AcceptedDetections(sds[..i], labels, imgW, imgH, scale);
      var after := AcceptedDetections(sds[..i + 1], labels, imgW, imgH, scale);
      && |after| == |before| + (if Accepted(sds[i], labels, imgW, imgH) then 1 else 0)
      && Appended(m, key, after) == if Accepted(sds[i], labels, imgW, imgH)
         then WithDetection(Appended(m, key, before), key, IntakeDetection(sds[i], imgW, imgH, scale))
         else Appended(m, key, before)
  {
    AcceptedStep(sds, i, labels, imgW, imgH, scale);
    var before := AcceptedDetections(sds[..i], labels, imgW, imgH, scale);
    if Accepted(sds[i], labels, imgW, imgH) {
      AppendedSnoc(m, key, before, IntakeDetection(sds[i], imgW, imgH, scale));
    } else {
      AppendEmpty(before);
    }
  }

  /**
   * At display scale 1 the pixel box survives intake unchanged, and exporting
   * it gives back the service's own normalised box.
   */
  lemma IntakeExportRoundTrip(sd: ServiceDetection, labels: seq<string>, imgW: real, imgH: real)
    requires imgW > 0.0 && imgH > 0.0
    requires Accepted(sd, labels, imgW, imgH)
    ensures YoloRowOf(AcceptedDetections([sd], labels, imgW, imgH, 1.0)[0], labels, imgW, imgH)
      == Some(YoloRow(IndexOf(labels, sd.labelText), sd.x, sd.y, sd.width, sd.height))
  {
    assert [sd][..0] == [];
    var b := Denormalised(sd, imgW, imgH);
    var d := AcceptedDetections([sd], labels, imgW, imgH, 1.0)[0];
    assert d == NewDetection(sd.labelText, b.x, b.y, b.width, b.height, 1.0);
    assert d.x == b.x && d.y == b.y && d.width == b.width && d.height == b.height;
    AcceptedInUnitSquare(sd, labels, imgW, imgH);
    SpanRecovered(sd.x, sd.width, imgW, d.x, d.width);
    SpanRecovered(sd.y, sd.height, imgH, d.y, d.height);
  }

  /** Normalising a pixel span by the side it was scaled with gives back its centre and length. */
  lemma SpanRecovered(centre: real, len: real, side: real, start: real, extent: real)
    requires side > 0.0 && start + extent / 2.0 == centre * side && extent == len * side
    ensures (start + extent / 2.0) / side == centre && extent / side == len
  {
  }

  /**
   * Below scale 1 the second division inflates the stored box: a detection
   * covering a 200 by 100 image, stored at display scale 0.5, is recorded as
   * 400 by 200 and the exporter then drops it.
   */
  lemma DoubleScalingDropsFullImageBox()
    ensures var ds := AcceptedDetections([ServiceDetection("cat", 0.9, 0.5, 0.5, 1.0, 1.0)], ["cat"], 200.0, 100.0, 0.5);
      |ds| == 1 && ds[0].width == 400.0 && ds[0].height == 200.0
      && YoloRowOf(ds[0], ["cat"], 200.0, 100.0).None?
  {
    var sd := ServiceDetection("cat", 0.9, 0.5, 0.5, 1.0, 1.0);
    assert [sd][..0] == [];
    assert Accepted(sd, ["cat"], 200.0, 100.0);
  }

  /**
   * The guard that starts detection after an image is displayed: there are
   * detection labels, no run is in progress, and the image's existing boxes
   * are not protected.
   */
  predicate ShouldRunYoloDetection(labelCount: nat, running: bool, protect: bool, hasExisting: bool): (r: bool)
    ensures r ==> labelCount > 0 && !running && !(protect && hasExisting)
    ensures labelCount > 0 && !running && !protect ==> r
  {
    labelCount > 0 && !running && !(protect && hasExisting)
  }

  /** With protection on, an image that already has boxes is never re-detected. */
  lemma ProtectionBlocksRedetection(labelCount: nat, running: bool)
    ensures !ShouldRunYoloDetection(labelCount, running, true, true)
  {
  }

  /** With protection off, any idle state with labels runs detection, boxes or not. */
  lemma NoProtectionRunsWhenIdle(labelCount: nat, hasExisting: bool)
    requires labelCount > 0
    ensures ShouldRunYoloDetection(labelCount, false, false, hasExisting)
  {
  }

  /** The prompt string is empty exactly when there are no detection labels, because no label is empty. */
  lemma {:induction false} PromptsEmptyIffNoLabels(labels: seq<string>)
    requires forall l :: l in labels ==> l != []
    ensures Join(labels, ',') == [] <==> labels == []
  {
    if |labels| > 1 {
      assert labels[0] in labels;
    } else if |labels| == 1 {
      assert labels[0] in labels;
    }
  }
}
