/**
 * The annotation tool's editing state and the handlers that change it: image
 * display, the annotation store, the label sets, the pointer gestures on the
 * canvas and the detection run. Pointer positions, the container size, the
 * decoded image size, the label chosen in the drop-down, file contents and
 * the detection service's answer are parameters of the handlers.
 */
module Annotator {
  import opened Wrappers
  import opened Text
  import opened Lists
  import opened Geometry
  import opened Store
  import opened HitTest
  import opened Editing
  import opened Labels
  import opened Exporters
  import opened Intake

  datatype Mode = Classification | Detection

  /** Which label set a label file replaces. */
  datatype LabelKind = ClassificationKind | DetectionKind

  /** How a detection run begins: refused, or a request sent with the given prompt text. */
  datatype DetectionStart = AlreadyRunning | NoImage | NoLabels | Requested(prompts: string)

  /** How a detection run ends once the service has answered. */
  datatype DetectionOutcome = RequestFailed | NothingDetected | Added(count: nat)

  class AnnotationTool {
    // The document.
    var images: seq<string>
    var currentImageIndex: nat
    var mode: Mode
    var annotations: AnnotationMap
    var classificationLabels: seq<string>
    var detectionLabels: seq<string>

    // The displayed image: its natural size, the display scale and the canvas size.
    var currentImage: Option<Size>
    var imageScale: real
    var canvasWidth: int
    var canvasHeight: int

    // The pointer gesture in progress.
    var isDrawing: bool
    var startX: real
    var startY: real
    var selectedBox: Option<BoxRef>
    var originalBox: Option<Detection>
    var isDragging: bool
    var isResizing: bool
    var resizeHandle: Option<Handle>
    var dragStartX: real
    var dragStartY: real

    // Automatic detection.
    var yoloDetectionEnabled: bool
    var isYoloDetectionRunning: bool
    var protectExistingAnnotations: bool

    /**
     * The state every handler keeps: a positive scale, a positive image size,
     * a snapshot for every drag or resize and a handle for every resize, an
     * image while detection runs, and a selection that still designates a
     * stored box unless that box was spliced out.
     */
    predicate Valid()
      reads this`imageScale, this`currentImage, this`isYoloDetectionRunning, this`isDragging, this`isResizing,
            this`originalBox, this`resizeHandle, this`selectedBox, this`annotations
    {
      imageScale > 0.0
      && (currentImage.Some? ==> currentImage.value.width > 0.0 && currentImage.value.height > 0.0)
      && (isYoloDetectionRunning ==> currentImage.Some?)
      && ((isDragging || isResizing) ==> originalBox.Some?)
      && (isResizing ==> resizeHandle.Some?)
      && (selectedBox.Some? && selectedBox.value.InList? ==> Designated(annotations, selectedBox.value).Some?)
    }

    /** `getCurrentImageKey`. */
    function CurrentKey(): string
      reads this`images, this`currentImageIndex
    {
      ImageKey(images, currentImageIndex)
    }

    /** The detections of the image on screen. */
    function CurrentDetections(): seq<Detection>
      reads this`images, this`currentImageIndex, this`annotations
    {
      DetectionsAt(annotations, CurrentKey())
    }

    /** The display mirrors of the image on screen agree with the display scale. */
    predicate CurrentSynced()
      reads this`images, this`currentImageIndex, this`annotations, this`imageScale
    {
      forall d :: d in CurrentDetections() ==> Synced(d, imageScale)
    }

    constructor ()
      ensures Valid()
      ensures images == [] && currentImageIndex == 0 && mode.Classification? && annotations == map[]
      ensures classificationLabels == [] && detectionLabels == [] && currentImage == None
      ensures !isDrawing && selectedBox == None && originalBox == None
      ensures !isDragging && !isResizing && resizeHandle == None
      ensures yoloDetectionEnabled && !isYoloDetectionRunning && protectExistingAnnotations
    {
      images := [];
      currentImageIndex := 0;
      mode := Mode.Classification;
      annotations := map[];
      classificationLabels := [];
      detectionLabels := [];
      currentImage := None;
      imageScale := 1.0;
      canvasWidth := 0;
      canvasHeight := 0;
      isDrawing := false;
      startX := 0.0;
      startY := 0.0;
      selectedBox := None;
      originalBox := None;
      isDragging := false;
      isResizing := false;
      resizeHandle := None;
      dragStartX := 0.0;
      dragStartY := 0.0;
      yoloDetectionEnabled := true;
      isYoloDetectionRunning := false;
      protectExistingAnnotations := true;
    }

    /** `loadImages`: the chosen image files replace the list and the first becomes current. */
    method LoadImages(names: seq<string>)
      modifies this`images, this`currentImageIndex
      ensures images == names && currentImageIndex == 0
    {
      images := names;
      currentImageIndex := 0;
    }

    /**
     * The end of `loadCurrentImage` once the image is decoded: `displayImage`
     * fits it into the container and sets the scale, `loadAnnotation` brings
     * the record's display mirrors in step, and the auto-detect guard is
     * evaluated; the result says whether detection starts.
     */
    method ShowImage(natural: Size, maxW: real, maxH: real) returns (runDetection: bool)
      requires Valid()
      requires natural.width > 0.0 && natural.height > 0.0 && maxW > 0.0 && maxH > 0.0
      modifies this`currentImage, this`imageScale, this`canvasWidth, this`canvasHeight, this`annotations
      ensures Valid() && CurrentSynced()
      ensures currentImage == Some(natural)
      ensures imageScale == FitRatio(natural.width, natural.height, maxW, maxH)
      ensures canvasWidth == FitSize(natural.width, natural.height, maxW, maxH).width.Floor
      ensures canvasHeight == FitSize(natural.width, natural.height, maxW, maxH).height.Floor
      ensures annotations == Reloaded(old(annotations), CurrentKey(), imageScale)
      ensures runDetection == ShouldRunYoloDetection(|detectionLabels|, isYoloDetectionRunning,
        protectExistingAnnotations, HasExistingDetections(annotations, CurrentKey()))
    {
      var size := FitSize(natural.width, natural.height, maxW, maxH);
      canvasWidth := size.width.Floor;
      canvasHeight := size.height.Floor;
      currentImage := Some(natural);
      FitScaleIsRatio(natural.width, natural.height, maxW, maxH);
      imageScale := size.width / natural.width;
      LoadAnnotation();
      runDetection := |detectionLabels| > 0 && !isYoloDetectionRunning
        && !(protectExistingAnnotations && HasExistingDetections(annotations, CurrentKey()));
    }

    /** `loadAnnotation`: the current record's display mirrors are recomputed for the display scale. */
    method LoadAnnotation()
      requires Valid()
      modifies this`annotations
      ensures Valid() && CurrentSynced()
      ensures annotations == Reloaded(old(annotations), CurrentKey(), imageScale)
    {
      var key := CurrentKey();
      if key in annotations {
        ReloadedSynced(annotations, key, imageScale);
      }
      annotations := Reloaded(annotations, key, imageScale);
    }

    /** `previousImage`: steps back unless on the first image; the new image is then shown by `ShowImage`. */
    method PreviousImage()
      modifies this`currentImageIndex
      ensures currentImageIndex == if old(currentImageIndex) > 0 then old(currentImageIndex) - 1 else old(currentImageIndex)
    {
      if currentImageIndex > 0 {
        currentImageIndex := currentImageIndex - 1;
      }
    }

    /** `nextImage`: steps forward unless on the last image. */
    method NextImage()
      modifies this`currentImageIndex
      ensures currentImageIndex == if old(currentImageIndex) + 1 < |images| then old(currentImageIndex) + 1 else old(currentImageIndex)
    {
      if currentImageIndex + 1 < |images| {
        currentImageIndex := currentImageIndex + 1;
      }
    }

    /** `switchMode`: entering classification mode drops the selection. */
    method SwitchMode(newMode: Mode)
      requires Valid()
      modifies this`mode, this`selectedBox
      ensures Valid()
      ensures mode == newMode
      ensures selectedBox == if newMode.Classification? then None else old(selectedBox)
    {
      mode := newMode;
      if newMode.Classification? {
        selectedBox := None;
      }
    }

    /** `setClassification`: with images loaded, records the choice (empty means none) for the current image. */
    method SetClassification(choice: string)
      requires Valid()
      modifies this`annotations
      ensures Valid()
      ensures annotations == if images == [] then old(annotations) else WithClassification(old(annotations), CurrentKey(), choice)
    {
      if images == [] {
        return;
      }
      annotations := WithClassification(annotations, CurrentKey(), choice);
    }

    /** `addClassificationLabel`: appends the trimmed text unless it is empty or already present. */
    method AddClassificationLabel(raw: string)
      modifies this`classificationLabels
      ensures classificationLabels == WithLabel(old(classificationLabels), raw)
    {
      var l := Trim(raw);
      if l != [] && l !in classificationLabels {
        classificationLabels := classificationLabels + [l];
      }
    }

    /** `removeClassificationLabel`: splices out one position; a position past the end removes nothing. */
    method RemoveClassificationLabel(index: nat)
      modifies this`classificationLabels
      ensures classificationLabels == RemoveAt(old(classificationLabels), index)
    {
      classificationLabels := RemoveAt(classificationLabels, index);
    }

    /** `addDetectionLabel`. */
    method AddDetectionLabel(raw: string)
      modifies this`detectionLabels
      ensures detectionLabels == WithLabel(old(detectionLabels), raw)
    {
      var l := Trim(raw);
      if l != [] && l !in detectionLabels {
        detectionLabels := detectionLabels + [l];
      }
    }

    /** `removeDetectionLabel`. */
    method RemoveDetectionLabel(index: nat)
      modifies this`detectionLabels
      ensures detectionLabels == RemoveAt(old(detectionLabels), index)
    {
      detectionLabels := RemoveAt(detectionLabels, index);
    }

    /**
     * `loadLabelsFromFile` once the file is read: the chosen set is emptied and
     * refilled from the file's lines; the count of labels added is returned,
     * with whether a detection run follows.
     */
    method LoadLabelsFromFile(content: string, kind: LabelKind) returns (addedCount: nat, runDetection: bool)
      modifies this`classificationLabels, this`detectionLabels
      ensures kind == ClassificationKind ==> classificationLabels == LabelFile(content) && detectionLabels == old(detectionLabels)
      ensures kind == DetectionKind ==> detectionLabels == LabelFile(content) && classificationLabels == old(classificationLabels)
      ensures addedCount == |LabelFile(content)|
      ensures runDetection <==> addedCount > 0 && kind == DetectionKind && yoloDetectionEnabled && currentImage.Some?
    {
      var target := ReadLabelLines(content);
      addedCount := |target|;
      if kind == ClassificationKind {
        classificationLabels := target;
      } else {
        detectionLabels := target;
      }
      runDetection := addedCount > 0 && kind == DetectionKind && yoloDetectionEnabled && currentImage.Some?;
    }

    /** `addBoundingBox`: appends a box given in display coordinates to the current image's record. */
    method AddBoundingBox(x: real, y: real, w: real, h: real, labelText: string)
      requires Valid()
      modifies this`annotations
      ensures Valid()
      ensures old(CurrentSynced()) ==> CurrentSynced()
      ensures annotations == WithDetection(old(annotations), CurrentKey(), NewDetection(labelText, x, y, w, h, imageScale))
    {
      annotations := WithDetection(annotations, CurrentKey(), NewDetection(labelText, x, y, w, h, imageScale));
    }

    /**
     * `removeBoundingBox`: splices one position out of the current record, if
     * there is one. The selection is left alone, so it follows its box, and
     * is orphaned when its box is the one removed.
     */
    method RemoveBoundingBox(index: nat)
      requires Valid()
      modifies this`annotations, this`selectedBox
      ensures Valid()
      ensures old(CurrentSynced()) ==> CurrentSynced()
      ensures annotations == WithoutDetection(old(annotations), CurrentKey(), index)
      ensures selectedBox == match old(selectedBox)
        case None => None
        case Some(r) => Some(AfterRemoval(r, old(annotations), CurrentKey(), index))
    {
      var key := CurrentKey();
      if key in annotations {
        var old_m := annotations;
        annotations := WithoutDetection(annotations, key, index);
        if selectedBox.Some? {
          selectedBox := Some(AfterRemoval(selectedBox.value, old_m, key, index));
        }
      } else if selectedBox.Some? {
        selectedBox := Some(AfterRemoval(selectedBox.value, annotations, key, index));
      }
    }

    /** `clearAllBoundingBoxes`: empties the current record, if there is one, and drops the selection. */
    method ClearAllBoundingBoxes()
      requires Valid()
      modifies this`annotations, this`selectedBox
      ensures Valid() && CurrentSynced()
      ensures CurrentKey() in old(annotations) ==> annotations == Cleared(old(annotations), CurrentKey()) && selectedBox == None
      ensures CurrentKey() !in old(annotations) ==> annotations == old(annotations) && selectedBox == old(selectedBox)
    {
      var key := CurrentKey();
      if key in annotations {
        annotations := Cleared(annotations, key);
        selectedBox := None;
      }
    }

    /**
     * `handleMouseDown`: in detection mode, a press on a box selects it and
     * snapshots it, then starts a resize when it is on one of that box's
     * handles and a drag otherwise; a press elsewhere starts drawing, provided
     * a label is chosen.
     */
    method HandleMouseDown(x: real, y: real, chosenLabel: string)
      requires Valid()
      modifies this`selectedBox, this`originalBox, this`isResizing, this`resizeHandle, this`isDragging,
               this`dragStartX, this`dragStartY, this`isDrawing, this`startX, this`startY
      ensures Valid()
      ensures old(mode).Classification? ==>
        (isDrawing == old(isDrawing) && startX == old(startX) && startY == old(startY) && selectedBox == old(selectedBox)
         && originalBox == old(originalBox) && isDragging == old(isDragging) && isResizing == old(isResizing)
         && resizeHandle == old(resizeHandle) && dragStartX == old(dragStartX) && dragStartY == old(dragStartY))
      ensures old(mode).Detection? ==> match old(PressTarget(CurrentDetections(), x, y))
        case StartDraw =>
          originalBox == old(originalBox) && isDragging == old(isDragging) && isResizing == old(isResizing)
          && resizeHandle == old(resizeHandle) && dragStartX == old(dragStartX) && dragStartY == old(dragStartY)
          && (if chosenLabel != [] then isDrawing && startX == x && startY == y && selectedBox == None
              else isDrawing == old(isDrawing) && startX == old(startX) && startY == old(startY) && selectedBox == old(selectedBox))
        case StartResize(i, handle) =>
          selectedBox == Some(InList(old(CurrentKey()), i)) && originalBox == Some(old(CurrentDetections())[i])
          && isResizing && resizeHandle == Some(handle) && isDragging == old(isDragging)
          && dragStartX == x && dragStartY == y
          && isDrawing == old(isDrawing) && startX == old(startX) && startY == old(startY)
        case StartDrag(i) =>
          selectedBox == Some(InList(old(CurrentKey()), i)) && originalBox == Some(old(CurrentDetections())[i])
          && isDragging && isResizing == old(isResizing) && resizeHandle == old(resizeHandle)
          && dragStartX == x && dragStartY == y
          && isDrawing == old(isDrawing) && startX == old(startX) && startY == old(startY)
    {
      if !mode.Detection? {
        return;
      }
      var press := PressOf(CurrentDetections(), x, y);
      if !press.StartDraw? {
        GrabBox(press.index, if press.StartResize? then Some(press.handle) else None, x, y);
      } else if chosenLabel != [] {
        StartDrawing(x, y);
      }
    }

    /**
     * A press on the box at position `index` of the current record selects it,
     * snapshots it, and starts a resize from the handle under the pointer or,
     * with no handle there, a drag.
     */
    method GrabBox(index: nat, handle: Option<Handle>, x: real, y: real)
      requires Valid() && index < |CurrentDetections()|
      modifies this`selectedBox, this`originalBox, this`isResizing, this`resizeHandle, this`isDragging,
               this`dragStartX, this`dragStartY
      ensures Valid()
      ensures selectedBox == Some(InList(old(CurrentKey()), index)) && originalBox == Some(old(CurrentDetections())[index])
      ensures dragStartX == x && dragStartY == y
      ensures handle.Some? ==> isResizing && resizeHandle == handle && isDragging == old(isDragging)
      ensures handle.None? ==> isDragging && isResizing == old(isResizing) && resizeHandle == old(resizeHandle)
    {
      selectedBox := Some(InList(CurrentKey(), index));
      originalBox := Some(CurrentDetections()[index]);
      if handle.Some? {
        isResizing := true;
        resizeHandle := handle;
      } else {
        isDragging := true;
      }
      dragStartX := x;
      dragStartY := y;
    }

    /** A press away from every box starts drawing at the pointer and drops the selection. */
    method StartDrawing(x: real, y: real)
      requires Valid()
      modifies this`selectedBox, this`isDrawing, this`startX, this`startY
      ensures Valid()
      ensures isDrawing && startX == x && startY == y && selectedBox == None
    {
      selectedBox := None;
      isDrawing := true;
      startX := x;
      startY := y;
    }

    /** The store after a pointer move: the selected box dragged or resized from the snapshot. */
    function MovedStore(x: real, y: real): (m: AnnotationMap)
      reads this
      requires Valid()
      ensures m.Keys == annotations.Keys
      ensures mode.Classification? || isDrawing || selectedBox.None? || !(isDragging || isResizing) ==> m == annotations
    {
      if mode.Classification? || isDrawing || selectedBox.None? then annotations
      else
        match Designated(annotations, selectedBox.value)
        case None => annotations
        case Some(box) =>
          if isDragging then
            Replaced(annotations, selectedBox.value, Dragged(box, originalBox.value, x - dragStartX, y - dragStartY, imageScale))
          else if isResizing then
            Replaced(annotations, selectedBox.value, Resized(box, originalBox.value, resizeHandle.value, x, y, imageScale))
          else annotations
    }

    /**
     * `handleMouseMove`: in detection mode, outside drawing, a drag moves the
     * selected box's origin by the pointer's offset from the press, and a
     * resize reshapes it from the snapshot; nothing else in the store changes.
     */
    method HandleMouseMove(x: real, y: real)
      requires Valid()
      modifies this`annotations
      ensures Valid()
      ensures old(CurrentSynced()) ==> CurrentSynced()
      ensures annotations == old(MovedStore(x, y))
    {
      if !mode.Detection? || isDrawing || selectedBox.None? {
        return;
      }
      var r := selectedBox.value;
      var designated := Designated(annotations, r);
      if designated.None? {
        return;
      }
      var box := designated.value;
      if isDragging {
        var moved := Dragged(box, originalBox.value, x - dragStartX, y - dragStartY, imageScale);
        if CurrentSynced() {
          if r.key == CurrentKey() {
            assert box in CurrentDetections();
            DragKeepsSynced(box, originalBox.value, x - dragStartX, y - dragStartY, imageScale);
          }
          SyncedAfterReplace(annotations, r, moved, CurrentKey(), imageScale);
        }
        annotations := Replaced(annotations, r, moved);
      } else if isResizing {
        var resized := Resized(box, originalBox.value, resizeHandle.value, x, y, imageScale);
        if CurrentSynced() {
          SyncedAfterReplace(annotations, r, resized, CurrentKey(), imageScale);
        }
        annotations := Replaced(annotations, r, resized);
      }
    }

    /**
     * `handleMouseUp`, also run when the pointer leaves the canvas: in
     * detection mode a drawing is committed when large enough and every
     * gesture ends.
     */
    method HandleMouseUp(x: real, y: real, chosenLabel: string)
      requires Valid()
      modifies this`annotations, this`isDrawing, this`isDragging, this`isResizing, this`resizeHandle
      ensures Valid()
      ensures old(CurrentSynced()) ==> CurrentSynced()
      ensures mode.Classification? ==> (annotations == old(annotations) && isDrawing == old(isDrawing)
        && isDragging == old(isDragging) && isResizing == old(isResizing) && resizeHandle == old(resizeHandle))
      ensures mode.Detection? ==> !isDrawing && !isDragging && !isResizing && resizeHandle == None
      ensures mode.Detection? && old(isDrawing) ==>
        annotations == match DrawnBox(chosenLabel, startX, startY, x, y, imageScale)
          case Some(d) => WithDetection(old(annotations), CurrentKey(), d)
          case None => old(annotations)
      ensures !old(isDrawing) ==> annotations == old(annotations)
    {
      if !mode.Detection? {
        return;
      }
      if isDrawing {
        FinishDrawing(x, y, chosenLabel);
      }
      EndGesture();
    }

    /** The end of a drawing: the box spanned from the start point is added when large enough. */
    method FinishDrawing(x: real, y: real, chosenLabel: string)
      requires Valid()
      modifies this`annotations, this`isDrawing
      ensures Valid() && !isDrawing
      ensures old(CurrentSynced()) ==> CurrentSynced()
      ensures annotations == match DrawnBox(chosenLabel, startX, startY, x, y, imageScale)
        case Some(d) => WithDetection(old(annotations), CurrentKey(), d)
        case None => old(annotations)
    {
      DrawnBoxIsAdded(chosenLabel, startX, startY, x, y, imageScale);
      var w := Abs(x - startX);
      var h := Abs(y - startY);
      if w > MinSize && h > MinSize {
        AddBoundingBox(Min(startX, x), Min(startY, y), w, h, chosenLabel);
      }
      isDrawing := false;
    }

    /** Every drag and resize ends with the pointer release. */
    method EndGesture()
      requires Valid()
      modifies this`isDragging, this`isResizing, this`resizeHandle
      ensures Valid() && !isDragging && !isResizing && resizeHandle == None
    {
      isDragging := false;
      isResizing := false;
      resizeHandle := None;
    }

    /**
     * `handleDoubleClick`: in detection mode removes the box the hit test
     * returns, keeping the others in order, and drops the selection; a
     * double-click on no box does nothing.
     */
    method HandleDoubleClick(x: real, y: real)
      requires Valid()
      modifies this`annotations, this`selectedBox
      ensures Valid()
      ensures old(CurrentSynced()) ==> CurrentSynced()
      ensures mode.Classification? || TopmostAt(old(CurrentDetections()), x, y).None? ==>
        annotations == old(annotations) && selectedBox == old(selectedBox)
      ensures mode.Detection? && TopmostAt(old(CurrentDetections()), x, y).Some? ==>
        annotations == WithoutDetection(old(annotations), CurrentKey(), TopmostAt(old(CurrentDetections()), x, y).value)
        && selectedBox == None
    {
      if !mode.Detection? {
        return;
      }
      var key := CurrentKey();
      var hit := FindBoxAt(CurrentDetections(), x, y);
      if hit.Some? {
        annotations := WithoutDetection(annotations, key, hit.value);
        selectedBox := None;
      }
    }

    /**
     * The synchronous start of `runYoloDetection`: refused while a run is in
     * progress or without an image; otherwise the flag is raised, and lowered
     * again at once when the prompt text is empty.
     */
    method StartYoloDetection() returns (start: DetectionStart)
      requires Valid()
      modifies this`isYoloDetectionRunning
      ensures Valid()
      ensures old(isYoloDetectionRunning) ==> start == AlreadyRunning && isYoloDetectionRunning
      ensures !old(isYoloDetectionRunning) && currentImage.None? ==> start == NoImage && !isYoloDetectionRunning
      ensures !old(isYoloDetectionRunning) && currentImage.Some? && Join(detectionLabels, ',') == [] ==>
        start == NoLabels && !isYoloDetectionRunning
      ensures !old(isYoloDetectionRunning) && currentImage.Some? && Join(detectionLabels, ',') != [] ==>
        start == Requested(Join(detectionLabels, ',')) && isYoloDetectionRunning
    {
      if isYoloDetectionRunning {
        return AlreadyRunning;
      }
      if currentImage.None? {
        return NoImage;
      }
      isYoloDetectionRunning := true;
      var prompts := Join(detectionLabels, ',');
      if prompts == [] {
        isYoloDetectionRunning := false;
        return NoLabels;
      }
      start := Requested(prompts);
    }

    /**
     * One pass of the intake loop: a service detection whose label is in the
     * set and whose pixel box lies inside the image is added to the current
     * record; any other is skipped.
     */
    method IntakeOne(sd: ServiceDetection, imgW: real, imgH: real) returns (added: bool)
      requires Valid()
      modifies this`annotations
      ensures Valid()
      ensures old(CurrentSynced()) ==> CurrentSynced()
      ensures added == Accepted(sd, detectionLabels, imgW, imgH)
      ensures annotations == if added
        then WithDetection(old(annotations), CurrentKey(), IntakeDetection(sd, imgW, imgH, imageScale))
        else old(annotations)
    {
      if sd.labelText !in detectionLabels {
        return false;
      }
      var x1 := (sd.x - sd.width / 2.0) * imgW;
      var y1 := (sd.y - sd.height / 2.0) * imgH;
      var w := sd.width * imgW;
      var h := sd.height * imgH;
      assert Denormalised(sd, imgW, imgH) == PixelBox(x1, y1, w, h);
      added := x1 >= 0.0 && y1 >= 0.0 && w > 0.0 && h > 0.0 && x1 + w <= imgW && y1 + h <= imgH;
      if added {
        assert IntakeDetection(sd, imgW, imgH, imageScale) == NewDetection(sd.labelText, x1, y1, w, h, imageScale);
        AddBoundingBox(x1, y1, w, h, sd.labelText);
      }
    }

    /**
     * The intake loop of `runYoloDetection`: the accepted detections, in
     * service order, are appended to the current record, and their number is
     * returned.
     */
    method IntakeAll(sds: seq<ServiceDetection>, imgW: real, imgH: real) returns (count: nat)
      requires Valid()
      modifies this`annotations
      ensures Valid()
      ensures old(CurrentSynced()) ==> CurrentSynced()
      ensures annotations == Appended(old(annotations), CurrentKey(), AcceptedDetections(sds, detectionLabels, imgW, imgH, imageScale))
      ensures count == |AcceptedDetections(sds, detectionLabels, imgW, imgH, imageScale)|
    {
      var key := CurrentKey();
      ghost var start := annotations;
      count := 0;
      for i := 0 to |sds|
        invariant Valid()
        invariant old(CurrentSynced()) ==> CurrentSynced()
        invariant annotations == Appended(start, key, AcceptedDetections(sds[..i], detectionLabels, imgW, imgH, imageScale))
        invariant count == |AcceptedDetections(sds[..i], detectionLabels, imgW, imgH, imageScale)|
      {
        IntakeStep(start, key, sds, i, detectionLabels, imgW, imgH, imageScale);
        var added := IntakeOne(sds[i], imgW, imgH);
        if added {
          count := count + 1;
        }
      }
      assert sds[..|sds|] == sds;
    }

    /**
     * The rest of `runYoloDetection` once the service answers (`None` when the
     * request failed): a non-empty answer clears the current image's boxes
     * and adds every accepted detection; the running flag is lowered on every
     * path. The image, key and scale are those current when the answer arrives.
     */
    method FinishYoloDetection(response: Option<seq<ServiceDetection>>) returns (outcome: DetectionOutcome)
      requires Valid() && isYoloDetectionRunning
      modifies this`annotations, this`selectedBox, this`isYoloDetectionRunning
      ensures Valid() && !isYoloDetectionRunning
      ensures response.Some? && response.value != [] ==> CurrentSynced()
      ensures response.None? ==> outcome == RequestFailed
      ensures response == Some([]) ==> outcome == NothingDetected
      ensures response.None? || response == Some([]) ==>
        annotations == old(annotations) && selectedBox == old(selectedBox)
      ensures response.Some? && response.value != [] ==>
        var added := AcceptedDetections(response.value, detectionLabels, currentImage.value.width, currentImage.value.height, imageScale);
        outcome == Added(|added|)
        && annotations == Appended(Cleared(old(annotations), CurrentKey()), CurrentKey(), added)
        && selectedBox == (if CurrentKey() in old(annotations) then None else old(selectedBox))
    {
      isYoloDetectionRunning := false;
      if response.None? {
        return RequestFailed;
      }
      var sds := response.value;
      if sds == [] {
        return NothingDetected;
      }
      ClearAllBoundingBoxes();
      var count := IntakeAll(sds, currentImage.value.width, currentImage.value.height);
      outcome := Added(count);
    }

    /** `exportYoloFormat`, without the zip packaging and download. */
    method ExportYoloFormat() returns (bundle: YoloExport)
      requires Valid()
      ensures bundle == YoloExportOf(mode.Detection?, images, annotations, detectionLabels, currentImage)
    {
      if mode.Classification? {
        return Refused(ClassificationMode);
      }
      if images == [] {
        return Refused(NoImages);
      }
      var hasDetectionAnnotations := exists k :: k in annotations && annotations[k].detections != [];
      if !hasDetectionAnnotations {
        return Refused(NoDetectionAnnotations);
      }
      var files := CollectYoloFiles(images, annotations, detectionLabels, currentImage);
      bundle := Bundle(ClassesText(detectionLabels), files);
    }
  }

  /** Writing a box through a reference keeps a record's mirrors in step when the new box is, or is elsewhere. */
  lemma SyncedAfterReplace(m: AnnotationMap, r: BoxRef, d: Detection, key: string, scale: real)
    requires forall e :: e in DetectionsAt(m, key) ==> Synced(e, scale)
    requires r.InList? && r.key == key ==> Synced(d, scale)
    ensures forall e :: e in DetectionsAt(Replaced(m, r, d), key) ==> Synced(e, scale)
  {
    var m' := Replaced(m, r, d);
    forall e | e in DetectionsAt(m', key)
      ensures Synced(e, scale)
    {
      if key in m && r.InList? && r.key == key {
        var j :| 0 <= j < |m'[key].detections| && m'[key].detections[j] == e;
        if j != r.index {
          assert m[key].detections[j] == e;
        }
      }
    }
  }
}
