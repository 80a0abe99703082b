# Annotation tool: box editing core

A model of the `AnnotationTool` class of a browser-based image annotation
tool. A user loads a folder of images and draws, moves, resizes and deletes
labelled bounding boxes on a canvas. An object-detection service can propose
boxes. The annotations are exported as YOLO label files (one
`<class> <cx> <cy> <w> <h>` row per box, normalised to the image size) or as
CSV.

Every box is stored twice:

- in the image's original pixel coordinates (`x`, `y`, `width`, `height`);
- as a display mirror on the scaled canvas (`canvasX`, … = original × the
  display scale `imageScale`).

The pointer handlers work on the display mirror. The exporters read the
original coordinates.

The model is one Dafny module per concern:

| module | what it holds |
|---|---|
| `Wrappers` | `Option` |
| `Text` | `String.prototype.trim` over the ECMAScript whitespace set; `split`/`join` on one character; ASCII case mapping; decimal rendering of an index |
| `Lists` | `indexOf` and `splice(i, 1)` on sequences |
| `Geometry` | the `Detection` record, the display/original transform, the box that `addBoundingBox` builds, the mirror refresh of `loadAnnotation`, and the fit-to-container size of `displayImage` |
| `Store` | the annotation map keyed by image name, and every update the handlers make to it. A selected box is a `BoxRef` (image key and position, or `Orphan` once spliced out), which stands in for the object reference the source holds |
| `HitTest` | `getBoxAtPosition`, `getResizeHandle`, and what a mouse press on the canvas means |
| `Editing` | `resizeBox`, the drag step of `handleMouseMove`, and the drawn box that `handleMouseUp` commits |
| `LabelPlacement` | `calculateLabelPosition` |
| `Labels` | adding labels, and parsing a label file |
| `Exporters` | `convertToYoloFormat`, `exportYoloFormat` (without the zip) and the rows of `downloadCsv` |
| `Intake` | accepting the detection service's boxes, and the auto-detect guard of `loadCurrentImage` |
| `Shortcuts` | the shortcut field normalisation, display and saving |
| `Annotator` | the class `AnnotationTool` itself: its fields, and its handlers as methods that update them |

Pointer positions, the container size, the decoded image size, the label
chosen in the drop-down, file contents, the detection service's answer and
the measured text width are parameters.

Several places follow the code as written, even where it does something
other than what the interface suggests:

- `resizeBox` clamps a width or height below 10 up to 10 and keeps the moved
  edge at the pointer, so the opposite edge moves
  (`Editing.ResizeNorthWestClampExample`).
- A drawn box is kept only when both sides are strictly greater than 10
  (`Editing.DrawThresholdIsStrict`).
- A drag writes the original `x`/`y` again from the new display position.
  It leaves the sizes alone.
- Service detections are converted to pixels of the natural image size.
  They are then passed to `addBoundingBox`, which takes them for display
  coordinates and divides by the display scale again. Whenever the display
  scale is not 1, the stored box is off
  (`Intake.DoubleScalingDropsFullImageBox`).
- `exportYoloFormat` normalises every image by the size of the image on
  screen, and looks records up by the file name. That is the same as the
  store key whenever the name is non-empty.
- A handle is only looked for on the box the press already hit. The part of
  a handle's 8×8 square outside its box (three quarters of a corner square,
  half of an edge square) never starts a resize. A press there grabs another
  box that contains the point, if there is one. Otherwise it starts a
  drawing when a detection label is chosen, and does nothing when none is
  (`HitTest.OuterHandlePartNeverResizes`).
- The CSV classification row has six cells against a seven-column header
  (`Exporters.ClassificationRowIsShort`).
- The auto-detect guard after an image loads does not consult
  `yoloDetectionEnabled`. Loading a detection label file does.
- `switchMode` clears the selection only when entering classification mode,
  and moving to another image clears nothing. `isDrawing`, `isDragging` and
  `isResizing` survive a mode or image switch, and a selection kept across
  an image switch still designates the box of the earlier image
  (`Annotator.AnnotationTool.SwitchMode`, `NextImage` and `PreviousImage`
  change only the mode, the selection and the index).
- Two images whose names differ only after the last dot get the same YOLO
  file stem. The model keeps both files; see "## Left out" for the zip.

## Model

| member | source | states |
|---|---|---|
| Text.Trim | script.js:409-411 | the result is the input with its leading and trailing ECMAScript whitespace removed: a contiguous slice, everything cut is whitespace, and its ends are not whitespace; it is empty exactly when the input is all whitespace |
| Text.TrimStart | script.js:410 | the longest suffix that does not start with whitespace, and only whitespace was dropped |
| Text.TrimEnd | script.js:410 | the longest prefix that does not end with whitespace, and only whitespace was dropped |
| Text.TrimOfTrimmed | script.js:410 | a string with no whitespace at either end is left as it is |
| Text.TrimIdempotent | script.js:364 | trimming a trimmed label changes nothing |
| Text.IndexOfChar | script.js:409 | the first position of the character, or the length when it is absent |
| Text.Split | script.js:409 | `split` on one character gives at least one part, and no part contains the separator |
| Text.Join | script.js:962 | `join` with one separator: nothing for no parts; otherwise the text starts with the first part, followed by the separator when more parts follow; `SplitJoin` and `JoinSplit` pin it down |
| Text.JoinSplit | script.js:409 | joining the parts of a split with the same separator gives back the text |
| Text.SplitPart | script.js:409 | splitting a separator-free part followed by the separator yields that part first |
| Text.SplitJoin | script.js:962 | splitting a join of separator-free parts gives back the parts |
| Text.LowerChar | script.js:1076 | `toLowerCase` on one character: upper-case ASCII letters become lower-case, every other character is unchanged |
| Text.UpperChar | script.js:1085 | `toUpperCase` on one character, the mirror image |
| Text.ToLower | script.js:1076 | each character is mapped by `LowerChar`, and the length is kept |
| Text.ToUpper | script.js:1069 | each character is mapped by `UpperChar`, and the length is kept |
| Text.LowerUpperLower | script.js:1076-1094 | lower-casing the upper-cased lower-case text gives the lower-case text |
| Text.DecimalString | script.js:853 | the index is rendered as a non-empty string of decimal digits |
| Text.DecimalRoundTrip | script.js:853 | reading the digits back gives the index |
| Text.DecimalInjective | script.js:853 | different indices render differently |
| Lists.IndexOf | script.js:1005 | the first position of an element, and the length exactly when it is absent |
| Lists.IndexOfPrefix | script.js:1005 | appending after the first occurrence of an element does not move it |
| Lists.IndexOfAfter | script.js:1005 | an element absent from a list is found after all of it in a longer list |
| Lists.RemoveAt | script.js:395-399 | `splice(i, 1)`: past the end nothing changes, otherwise the element at i is gone and the rest keep their order |
| Lists.RemoveAtMultiset | script.js:628 | a splice removes exactly one occurrence of the removed element |
| Lists.RemoveAtNoDuplicates | script.js:495-499 | removing a label keeps a duplicate-free label set duplicate-free |
| Geometry.ToOriginal | script.js:575-578 | display to original coordinates divides by the scale, the inverse of the display transform |
| Geometry.OriginalDisplayRoundTrip | script.js:575-578 | a coordinate taken to the display and back is unchanged |
| Geometry.NewDetection | script.js:575-590 | the record keeps the given display box and its original box mirrors it at the scale |
| Geometry.Rescaled | script.js:837-842 | the display mirror is recomputed from the unchanged original box |
| Geometry.RescaledSynced | script.js:837-842 | refreshing a box whose mirror is already in step changes nothing |
| Geometry.FitRatio | script.js:330-336 | the scale is positive, the image fits the container at that scale, and it touches one side of the container |
| Geometry.FitSize | script.js:309-320 | the canvas size is positive, fits the container, touches one side, and keeps the image's aspect ratio |
| Geometry.FitScaleIsRatio | script.js:318-320 | the display scale `imageScale` (canvas size over natural size) is the fit ratio on both axes |
| Store.ImageKey | script.js:852-854 | the key is the image's name when it is non-empty, otherwise `image_` followed by the decimal index; it is never empty |
| Store.FallbackKeysDistinct | script.js:853 | two different positions that both fall back get different keys |
| Store.DetectionsAt | script.js:624-627 | the boxes of an image, or none when it has no record |
| Store.HasExistingDetections | script.js:278-280 | an image has existing boxes exactly when the lookup without creation finds some |
| Store.Ensured | script.js:505-507 | the record for a key is created empty when it is missing, and no other record changes |
| Store.WithDetection | script.js:568-593 | the box is appended to the image's record, which is created when missing; its classification and every other record are unchanged |
| Store.WithClassification | script.js:501-511 | the image's classification becomes the choice, or none for an empty choice; its boxes and every other record are unchanged |
| Store.WithoutDetection | script.js:623-634 | one position is spliced out of an existing record; a missing record leaves the map alone |
| Store.Cleared | script.js:636-647 | an existing record loses all its boxes and keeps its classification; no other record changes |
| Store.AfterRemoval | script.js:623-634 | a selection still designates the same box after a splice unless its box was the one removed, which orphans it |
| Store.Replaced | script.js:1932-1948 | writing through the selection changes only the designated box, and nothing when the selection designates nothing |
| Store.Reloaded | script.js:827-850 | every box of the current record gets its display mirror refreshed for the scale; nothing else changes |
| Store.ReloadedSynced | script.js:836-843 | after the refresh every box of the record is in step, and its labels and original boxes are unchanged |
| Store.BoxesOf | script.js:837-842 | the label and original box of each detection, position by position |
| Store.Appended | script.js:1813-1849 | a sequence of boxes is appended to one record, created when missing; an empty sequence changes nothing |
| Store.AppendedSnoc | script.js:1841-1842 | appending one more box is one more `addBoundingBox` |
| HitTest.TopmostAt | script.js:2024-2040 | the last box in the list containing the point, edges included, or none exactly when no box contains it |
| HitTest.FindBoxAt | script.js:2024-2040 | the backwards scan returns the topmost box at the point |
| HitTest.LaterBoxWins | script.js:2026-2037 | when two boxes contain the point, the hit is at or after the later one |
| HitTest.AppendedBoxOnTop | script.js:2024-2040 | a newly added box is hit first wherever it contains the point |
| HitTest.FirstHandle | script.js:2042-2065 | the first handle, in the order nw, n, ne, e, se, s, sw, w, whose 8×8 square holds the point; none exactly when no square holds it |
| HitTest.GetResizeHandle | script.js:2042-2065 | the loop over the handles returns that handle |
| HitTest.PressTarget | script.js:1876-1907 | a press draws exactly when no box contains the point; otherwise it grabs the topmost box; it resizes exactly when one of that box's handles holds the point, and then from the first such handle |
| HitTest.PressOf | script.js:1876-1883 | the handler's hit test and handle lookup compute that press |
| HitTest.OuterHandlePartNeverResizes | script.js:1876-1883 | a point of a handle square outside its box never resizes or drags that box: it goes to another box containing the point, or starts a drawing |
| HitTest.OuterHandleHalfIsDead | script.js:1876-1883 | a point of the north-west handle square of a lone box, outside that box, starts a drawing |
| Editing.HandleEdgesExclusive | script.js:2093-2127 | no handle moves two opposite edges, and every handle moves some edge |
| Editing.AtLeastMin | script.js:2130-2131 | a width or height below 10 becomes 10, and any other is kept |
| Editing.Resized | script.js:2081-2144 | each edge a handle moves follows the pointer from the snapshot, sizes are at least 10, the other edges stay, and the original box mirrors the new display box |
| Editing.ResizeKeepsOppositeEdge | script.js:2093-2127 | while no clamp applies, the edge opposite the handle stays where the snapshot had it |
| Editing.ResizeNoDrift | script.js:2081-2144 | a resize depends only on the snapshot and the pointer, so successive moves do not accumulate |
| Editing.ResizeSouthEastExample | script.js:2110-2112 | dragging the south-east handle of a 50×50 box at (10,10) to (70,80) gives 60×70 at the same place |
| Editing.ResizeNorthWestClampExample | script.js:2094-2131 | the clamp keeps the moved corner at the pointer, so the opposite corner moves |
| Editing.Dragged | script.js:1932-1942 | the box moves by the pointer's offset from the press, measured from the snapshot; its size is unchanged and its original origin mirrors the new position |
| Editing.DragKeepsSynced | script.js:1937-1942 | dragging a box whose mirror is in step keeps it in step |
| Editing.DragNoDrift | script.js:1932-1942 | successive drag steps depend only on the snapshot and the last offset |
| Editing.DrawnBox | script.js:1961-1980 | a box is kept exactly when both sides exceed 10; it spans the two corners and its original box mirrors it |
| Editing.DrawnBoxIsAdded | script.js:1966-1978 | the kept box is the record `addBoundingBox` builds from the top-left corner and the two side lengths |
| Editing.DrawThresholdIsStrict | script.js:1969 | a side of exactly 10 is not enough, and 10.5 is |
| LabelPlacement.LargeBoxByArea | script.js:2194-2198 | a box counts as large exactly when its area exceeds 0.8 of the canvas area |
| LabelPlacement.LabelPosition | script.js:2168-2210 | a large box gets the tag centred at least 27 from the top; otherwise above the box or inside it near the top, and shifted in from the left and right margins |
| LabelPlacement.TagWithinHorizontalMargins | script.js:2182-2191 | for an ordinary box the tag ends inside the right margin, and starts inside the left margin when the canvas is wide enough |
| LabelPlacement.TagAlignedWithBox | script.js:2172-2184 | with room, the tag sits 2 above the box and starts at the box's left edge |
| LabelPlacement.TagBelowTopMargin | script.js:2172-2207 | the tag is never above the top margin for a box on the canvas |
| LabelPlacement.FullCanvasTagExample | script.js:2198-2207 | with a 40-pixel label text, a box covering a 400×300 canvas gets its tag at (176, 27) |
| Labels.WithLabel | script.js:363-371 | the trimmed text is appended when it is non-empty and new; the set stays duplicate-free and trimmed |
| Labels.WithLabelIdempotent | script.js:363-371 | adding the same text twice adds it once |
| Labels.DedupeInto | script.js:428-433 | the file's lines are appended after the existing labels, each non-empty line at most once |
| Labels.DedupeNoDuplicates | script.js:428-433 | the result holds no duplicates |
| Labels.DedupeOfDistinct | script.js:428-433 | distinct non-empty lines are taken as they are |
| Labels.DedupeKeepsFirstOccurrenceOrder | script.js:428-433 | labels appear in the order of their first occurrence in the file |
| Labels.NonEmptyTrimmed | script.js:409-411 | every line is trimmed and the empty ones are dropped; the order is pinned by `NonEmptyTrimmedAppend` and `NonEmptyTrimmedSingle` |
| Labels.TrimmedLines | script.js:410 | each line trimmed, position by position |
| Labels.NonEmptyTrimmedLast | script.js:409-411 | the last line adds its trimmed text after those of the others when it is not blank |
| Labels.NonEmptyTrimmedAppend | script.js:409-411 | the lines are filtered one by one, so the kept lines of a concatenation are the concatenated kept lines |
| Labels.NonEmptyTrimmedSingle | script.js:410-411 | one line is kept, trimmed, exactly when it is not blank |
| Labels.KeptIffTrimmed | script.js:410-411 | a non-blank text is kept exactly when some line trims to it |
| Labels.NonEmptyTrimmedKeepsOrder | script.js:409-411 | of two kept lines, the one kept first occurs first among the trimmed lines |
| Labels.NonEmptyTrimmedOfWellFormed | script.js:409-411 | lines that are already trimmed and non-empty pass unchanged |
| Labels.LabelFile | script.js:409-433 | a label file gives a duplicate-free set of trimmed non-empty labels, exactly the trimmed non-empty lines |
| Labels.LabelFileKeepsFileOrder | script.js:409-433 | the labels come in the order of their first occurrence among the file's trimmed lines, which fixes each label's class index |
| Labels.ReadLabelLines | script.js:425-433 | the loop that refills the cleared label set computes `LabelFile` |
| Labels.ClassesText | script.js:962 | the class list is empty without labels, and otherwise starts with the first label, followed by a line feed when more follow; `ClassesFileRoundTrip` reads it back |
| Labels.ClassesFileRoundTrip | script.js:962 | loading the `classes.txt` the YOLO export writes gives back the detection labels |
| Exporters.Normalised | script.js:1008-1011 | the normalised centre and size map back to the original box at the image size |
| Exporters.YoloRowOf | script.js:1004-1016 | a box yields a row exactly when its label is known and its normalised box lies in the unit square; the class is the label's first index |
| Exporters.YoloRows | script.js:1004-1019 | at most one row per box, each in the unit square with a valid class; every box with a row has it in the list, and every row in the list is some box's row |
| Exporters.YoloRowsSingle | script.js:1004-1016 | one box gives its own row or none; with `YoloRowsAppend` this fixes the rows of every list, in detection order |
| Exporters.YoloRowsAppend | script.js:1004-1019 | rows are computed box by box, so the rows of a concatenation are the concatenated rows |
| Exporters.UnknownLabelSkipped | script.js:1005-1006 | a box whose label is not in the set contributes no row |
| Exporters.FullImageRow | script.js:1008-1015 | a box covering the whole image becomes `i 0.5 0.5 1 1` |
| Exporters.ConvertToYoloFormat | script.js:995-1020 | without an image on screen there are no rows, otherwise the rows above |
| Exporters.FileStem | script.js:970 | the name up to its last dot, or the whole name when it has none |
| Exporters.LastIndexOf | script.js:970 | the last position of the character, or -1 |
| Exporters.YoloFileFor | script.js:965-976 | an image gets a label file exactly when it has a record and yields at least one row |
| Exporters.YoloFiles | script.js:965-976 | at most one file per image, each non-empty and named after an image; every image that gets a file has it in the list, and every file in the list is some image's file |
| Exporters.YoloFilesAppend | script.js:965-976 | each image's file is decided on its own, so files follow the image order |
| Exporters.CollectYoloFiles | script.js:965-976 | the loop over the images computes those files |
| Exporters.Cells | script.js:908-922 | a classification row has six cells and a detection or empty row seven; the image name comes first, the classification second, the label third, and the cells a row does not fill are empty |
| Exporters.CsvLine | script.js:912-922 | every line starts with the image name followed by a comma |
| Exporters.CsvLineRoundTrip | script.js:912-922 | with no comma in any cell, splitting the line on commas gives back the cells |
| Exporters.HasClassification | script.js:911 | a classification counts when present and non-empty (JavaScript truthiness of a string) |
| Exporters.AnyDetections | script.js:946-957 | some record holds a box, in the same sense as the auto-detect guard's `HasExistingDetections` |
| Exporters.ClassificationRowIsShort | script.js:908-923 | the classification row has one cell fewer than the header, and the empty row as many |
| Exporters.ImageCsvRows | script.js:910-923 | an image gives its classification row first, then one detection row per box in order, or the single empty row when it has neither |
| Exporters.DetectionFieldsAppend | script.js:915-919 | the detection cells of a concatenation are the concatenated cells |
| Exporters.DetectionRows | script.js:915-919 | one detection row per box, with its label, in order |
| Exporters.DetectionFieldsOfDetectionRows | script.js:915-919 | the detection rows carry each box's label and original coordinates |
| Exporters.CsvDetectionsRoundTrip | script.js:910-923 | the detection rows of an image give back its boxes exactly |
| Exporters.CsvTable | script.js:907-924 | at least one row per record |
| Exporters.CsvTableAppend | script.js:910-924 | the table of a concatenation of entries is the concatenation of their tables |
| Exporters.CsvTableSingle | script.js:910-923 | one entry's table is that image's rows; with `CsvTableAppend`, the table is each record's rows in entry order |
| Exporters.ImageRowsOf | script.js:910-923 | the per-image row building computes `ImageCsvRows` |
| Exporters.CsvRowsOf | script.js:910-924 | the loop over the records computes the table |
| Exporters.YoloExportOf | script.js:935-976 | refused outside detection mode, without images, or without any box, in that order; otherwise the class list, and exactly the files of the images that yield rows |
| Exporters.NoImageNoFiles | script.js:998-999 | with no image on screen no label file is produced |
| Intake.Denormalised | script.js:1824-1830 | the service's centre-and-size box becomes a pixel box of the same centre and size |
| Intake.InsideImage | script.js:1842-1843 | a box passes only inside an image of positive size, starting before its right and bottom edges |
| Intake.Accepted | script.js:1817-1843 | an accepted detection has a label of the set, in an image of positive size |
| Intake.PixelSpan | script.js:1827-1843 | scaling a normalised span by a positive image side keeps it inside exactly when it was inside [0, 1] |
| Intake.AcceptedInUnitSquare | script.js:1817-1843 | for an image of positive size, a detection is accepted exactly when its label is in the set and its normalised box lies in the unit square with a positive size |
| Intake.IntakeDetection | script.js:1827-1844 | the stored record keeps the service's label, its display box is the pixel box, and its original box mirrors that at the display scale |
| Intake.AcceptedDetections | script.js:1813-1849 | at most one stored box per service detection |
| Intake.AcceptedDetectionsSound | script.js:1817-1843 | every stored box has a known label, is in step with the scale, and lies inside the image |
| Intake.IntakeStep | script.js:1813-1849 | after one more service detection the record has one more `addBoundingBox` and the count one more exactly when the detection is accepted |
| Intake.AcceptedStep | script.js:1813-1849 | one pass of the loop appends the next detection exactly when it is accepted |
| Intake.IntakeExportRoundTrip | script.js:1827-1843 | at scale 1, an accepted service detection exports as the same YOLO row |
| Intake.SpanRecovered | script.js:1007-1010 | dividing a scaled span by the same side gives back its centre and length |
| Intake.DoubleScalingDropsFullImageBox | script.js:1841-1842 | at display scale 0.5 a service box covering the image is stored at twice the image size and exports no row |
| Intake.ShouldRunYoloDetection | script.js:282-284 | detection runs only with labels, no run in progress, and no protected existing boxes; with protection off, an idle state with labels always runs |
| Intake.ProtectionBlocksRedetection | script.js:277-284 | with protection on, an image that already has boxes is not detected again |
| Intake.NoProtectionRunsWhenIdle | script.js:282-284 | without protection, an idle run with labels always starts |
| Intake.PromptsEmptyIffNoLabels | script.js:1765-1773 | the prompt text is empty exactly when there are no labels |
| Shortcuts.NormalizeShortcutInput | script.js:1074-1087 | "left" or "←" in any case shows "←", "right" or "→" shows "→", "del" or "delete" shows "Del", and any other text shows upper-cased with its length kept |
| Shortcuts.NamesShortcutKey | script.js:1078-1083 | the texts the field turns into a glyph or "Del" are all lower-case already |
| Shortcuts.NormalizeLowered | script.js:1078-1086 | the same case table, on lower-cased text |
| Shortcuts.LowerHasNoUpper | script.js:1076 | lower-cased text holds no upper-case ASCII letter |
| Shortcuts.LowerOfLowerCase | script.js:1076 | lower-casing text without upper-case letters changes nothing |
| Shortcuts.LowerOfUpperOfLowerCase | script.js:1085-1094 | upper-casing and then lower-casing gives back lower-case text |
| Shortcuts.LowerOfDel | script.js:1067-1100 | "Del", shown for the delete key, lower-cases to "del", which saves as "Delete" |
| Shortcuts.ShortcutValue | script.js:1094-1104 | "←" saves "ArrowLeft", "→" saves "ArrowRight", "del" saves "Delete", an empty field saves the default, and any other text saves lower-cased |
| Shortcuts.ShortcutDisplay | script.js:1059-1072 | "ArrowLeft" shows "←", "ArrowRight" shows "→", "Delete" shows "Del", and any other key shows upper-cased |
| Shortcuts.NormalizeIdempotent | script.js:1074-1087 | normalising the field a second time changes nothing |
| Shortcuts.SaveDisplayRoundTrip | script.js:1059-1105 | saving a displayed shortcut gives back the saved key |
| Shortcuts.TypedShortcutSaved | script.js:1074-1105 | typed text saves as the arrow or delete key it names, as the default when empty, and otherwise lower-cased |
| Annotator.AnnotationTool.constructor | script.js:2-34 | no images, classification mode, an empty store and empty label sets, no gesture, detection enabled and idle with protection on |
| Annotator.AnnotationTool.LoadImages | script.js:245-250 | the chosen files replace the list and the first becomes current |
| Annotator.AnnotationTool.ShowImage | script.js:268-284 | the canvas fits the container, the scale is the fit ratio, the current record's mirrors are refreshed, and detection starts exactly when the guard holds |
| Annotator.AnnotationTool.LoadAnnotation | script.js:827-850 | the current record's mirrors are refreshed for the scale and are then in step |
| Annotator.AnnotationTool.PreviousImage | script.js:856-863 | steps back one image unless on the first |
| Annotator.AnnotationTool.NextImage | script.js:865-872 | steps forward one image unless on the last |
| Annotator.AnnotationTool.SwitchMode | script.js:338-361 | the mode is set, and entering classification mode drops the selection |
| Annotator.AnnotationTool.SetClassification | script.js:501-511 | with images loaded the current record's classification is set; without images nothing changes |
| Annotator.AnnotationTool.AddClassificationLabel | script.js:363-371 | the classification set becomes `WithLabel` of the typed text |
| Annotator.AnnotationTool.RemoveClassificationLabel | script.js:395-399 | one position is spliced out of the classification set |
| Annotator.AnnotationTool.AddDetectionLabel | script.js:463-471 | the detection set becomes `WithLabel` of the typed text |
| Annotator.AnnotationTool.RemoveDetectionLabel | script.js:495-499 | one position is spliced out of the detection set |
| Annotator.AnnotationTool.LoadLabelsFromFile | script.js:401-461 | the chosen set is replaced by the file's labels and the other is unchanged; the count is their number; detection follows exactly for a non-empty detection file with detection enabled and an image shown |
| Annotator.AnnotationTool.AddBoundingBox | script.js:568-598 | the box given in display coordinates is appended to the current record, with its original box mirrored |
| Annotator.AnnotationTool.RemoveBoundingBox | script.js:623-634 | one position is spliced out of the current record, and the selection follows its box or is orphaned |
| Annotator.AnnotationTool.ClearAllBoundingBoxes | script.js:636-647 | an existing current record loses its boxes and the selection is dropped; without a record nothing changes |
| Annotator.AnnotationTool.HandleMouseDown | script.js:1867-1909 | in detection mode a press on a box selects and snapshots it and starts a resize on a handle or a drag otherwise; elsewhere it starts drawing when a label is chosen; in classification mode nothing changes |
| Annotator.AnnotationTool.GrabBox | script.js:1878-1897 | the box is selected and snapshotted, and a resize or a drag starts from the pointer |
| Annotator.AnnotationTool.StartDrawing | script.js:1898-1907 | drawing starts at the pointer and the selection is dropped |
| Annotator.AnnotationTool.MovedStore | script.js:1911-1955 | outside detection mode, while drawing, or without a selection or gesture, the store is unchanged |
| Annotator.AnnotationTool.HandleMouseMove | script.js:1911-1955 | the selected box is dragged or resized from its snapshot, and only that box changes |
| Annotator.AnnotationTool.HandleMouseUp | script.js:1957-1993 | in detection mode a drawing commits its box when large enough and every gesture ends; in classification mode nothing changes |
| Annotator.AnnotationTool.FinishDrawing | script.js:1961-1980 | the drawn box is added exactly when both sides exceed 10, and drawing stops |
| Annotator.AnnotationTool.EndGesture | script.js:1986-1988 | drag and resize end |
| Annotator.AnnotationTool.HandleDoubleClick | script.js:1995-2022 | in detection mode the topmost box under the pointer is removed and the selection dropped; otherwise nothing changes |
| Annotator.AnnotationTool.StartYoloDetection | script.js:1747-1773 | refused while running or without an image, the flag then unchanged or down; with no labels the flag goes back down; otherwise the prompts are sent with the flag up |
| Annotator.AnnotationTool.IntakeOne | script.js:1813-1847 | a service detection is added exactly when it is accepted |
| Annotator.AnnotationTool.IntakeAll | script.js:1811-1849 | the accepted detections are appended in service order, and their number is counted |
| Annotator.AnnotationTool.FinishYoloDetection | script.js:1794-1864 | a failed or empty answer changes no box; otherwise the current boxes are replaced by the accepted detections; the flag is lowered on every path |
| Annotator.AnnotationTool.ExportYoloFormat | script.js:935-993 | the export refuses or produces exactly the bundle `YoloExportOf` describes |
| Annotator.SyncedAfterReplace | script.js:1937-1948 | writing an in-step box through the selection keeps the current record in step |

## Left out

- Floating point: coordinates are exact reals. Rounding, `NaN` and infinities are not modelled, and neither is `toFixed(6)` in the YOLO rows.
- The CSV numbers are rendered by a formatter parameter. CSV quoting and escaping are left out, and so is the JSON export.
- The order of the records in the CSV (`Object.entries` of the map) is a parameter: the entries are given as a sequence.
- `toLowerCase`/`toUpperCase` are modelled on ASCII letters only. Other scripts' case mapping is left out.
- `imageScale` is undefined until the first image is displayed. The model starts it at 1.
- ShowImage: requires a positive container size and a positive natural image size. With the container smaller than its 40-pixel border, or an empty image, the source computes a non-positive or NaN scale.
- `canvas.width`/`height` keep the integer part of the fitted size, as the canvas does. `imageScale` uses the untruncated size, as the source does.
- The detection run is split at its `await`. `StartYoloDetection` is the part before the request and `FinishYoloDetection` the part after the answer. Anything that happens between the two is not modelled. A missing `detections` field is the same as an empty list, and a failed request or bad JSON is `None`.
- `currentImage.width`/`height` are read as the image's natural size.
- The legacy `startDrawing`/`draw`/`stopDrawing` methods (script.js:513-566) are not bound to any event and are not modelled.
- Not modelled: rendering, the cursor, the bounding-box list and the notifications; `localStorage` (`saveData`/`loadData`); `FileReader`; `fetch`; JSZip and the download.
- `server.py` and the detection model are not part of this model.
- Not modelled: the zero-shot classification and vision-language features, the keyboard dispatch, and `resetShortcutSettings`/`loadShortcutSettings`.
- The zip archive is not modelled. When two images share a file stem, `zip.file` (script.js:973) replaces the earlier entry, so the download holds only the later image's file. `Exporters.YoloFiles` keeps both.
- The MIME-type filter of `loadImages` is not modelled: the model takes the list of accepted file names.
- Annotator.AnnotationTool.HandleMouseMove: keeps the current record in step only when it was in step before (`old(CurrentSynced()) ==> CurrentSynced()`). The same holds for AddBoundingBox, RemoveBoundingBox, HandleMouseUp, FinishDrawing, HandleDoubleClick, IntakeOne and IntakeAll. The handlers themselves never let the record fall out of step. After LoadImages, PreviousImage or NextImage changes the current image, though, `imageScale` still belongs to the previous image until ShowImage runs, and those three methods state nothing about it. So this is not stated as a class invariant.
