/**
 * The exporters. YOLO: one row per detection whose label is in the current
 * detection label set and whose normalised centre-form box lies in the unit
 * square, plus a class list. CSV: rows for classifications and detections.
 * Rows are kept as values; the decimal formatting of numbers is a parameter.
 */
module Exporters {
  import opened Wrappers
  import opened Text
  import opened Lists
  import opened Geometry
  import opened Store
  import opened Labels

  datatype YoloRow = YoloRow(classIndex: nat, centerX: real, centerY: real, width: real, height: real)

  /** The row filter of `convertToYoloFormat`: centre in [0, 1], size in (0, 1]. */
  predicate InUnitSquare(r: YoloRow) {
    0.0 <= r.centerX <= 1.0 && 0.0 <= r.centerY <= 1.0 && 0.0 < r.width <= 1.0 && 0.0 < r.height <= 1.0
  }

  /** The normalised centre form of `d`'s original-space box in an image of the given natural size. */
  function Normalised(classIndex: nat, d: Detection, imgW: real, imgH: real): (r: YoloRow)
    requires imgW > 0.0 && imgH > 0.0
    ensures (r.centerX - r.width / 2.0) * imgW == d.x && r.width * imgW == d.width
    ensures (r.centerY - r.height / 2.0) * imgH == d.y && r.height * imgH == d.height
  {
    YoloRow(classIndex, (d.x + d.width / 2.0) / imgW, (d.y + d.height / 2.0) / imgH, d.width / imgW, d.height / imgH)
  }

  /**
   * The row for one detection, or none when its label is not in `labels` or
   * the normalised box leaves the unit square. The class index is the label's
   * first position. A zero natural size makes the source divide by zero, and
   * every comparison with the resulting infinity or NaN fails, so no row.
   */
  function YoloRowOf(d: Detection, labels: seq<string>, imgW: real, imgH: real): (r: Option<YoloRow>)
    requires imgW >= 0.0 && imgH >= 0.0
    ensures r.Some? <==> (d.labelText in labels && imgW > 0.0 && imgH > 0.0
      && InUnitSquare(Normalised(IndexOf(labels, d.labelText), d, imgW, imgH)))
    ensures r.Some? ==> (r.value.classIndex < |labels| && labels[r.value.classIndex] == d.labelText
      && forall k :: 0 <= k < r.value.classIndex ==> labels[k] != d.labelText)
    ensures r.Some? ==> InUnitSquare(r.value) && r.value == Normalised(r.value.classIndex, d, imgW, imgH)
  {
    var classIndex := IndexOf(labels, d.labelText);
    if classIndex == |labels| || imgW == 0.0 || imgH == 0.0 then None
    else
      var row := Normalised(classIndex, d, imgW, imgH);
      if InUnitSquare(row) then Some(row) else None
  }

  /** The rows for a list of detections, in detection order. */
  function YoloRows(dets: seq<Detection>, labels: seq<string>, imgW: real, imgH: real): (rows: seq<YoloRow>)
    requires imgW >= 0.0 && imgH >= 0.0
    ensures |rows| <= |dets|
    ensures forall r :: r in rows ==> InUnitSquare(r) && r.classIndex < |labels|
    ensures forall i :: 0 <= i < |dets| && YoloRowOf(dets[i], labels, imgW, imgH).Some? ==>
      YoloRowOf(dets[i], labels, imgW, imgH).value in rows
    ensures forall r :: r in rows ==> exists i :: 0 <= i < |dets| && YoloRowOf(dets[i], labels, imgW, imgH) == Some(r)
  {
    if dets == [] then []
    else
      var init := YoloRows(dets[..|dets| - 1], labels, imgW, imgH);
      match YoloRowOf(dets[|dets| - 1], labels, imgW, imgH)
      case Some(r) => init + [r]
      case None => init
  }

  /** Rows of concatenated lists are the concatenated rows: each detection's row is decided on its own. */
  lemma {:induction false} YoloRowsAppend(a: seq<Detection>, b: seq<Detection>, labels: seq<string>, imgW: real, imgH: real)
    requires imgW >= 0.0 && imgH >= 0.0
    ensures YoloRows(a + b, labels, imgW, imgH) == YoloRows(a, labels, imgW, imgH) + YoloRows(b, labels, imgW, imgH)
  {
    if b == [] {
      assert a + b == a;
    } else {
      var b' := b[..|b| - 1];
      DropLastOfAppend(a, b);
      YoloRowsAppend(a, b', labels, imgW, imgH);
    }
  }

  /** A single detection gives its own row, or none. With `YoloRowsAppend` this fixes every list's rows. */
  lemma YoloRowsSingle(d: Detection, labels: seq<string>, imgW: real, imgH: real)
    requires imgW >= 0.0 && imgH >= 0.0
    ensures YoloRows([d], labels, imgW, imgH)
      == if YoloRowOf(d, labels, imgW, imgH).Some? then [YoloRowOf(d, labels, imgW, imgH).value] else []
  {
    assert [d][..0] == [];
  }

  /** A detection whose label was removed from the set is skipped and the other rows are unaffected. */
  lemma UnknownLabelSkipped(a: seq<Detection>, d: Detection, b: seq<Detection>, labels: seq<string>, imgW: real, imgH: real)
    requires imgW >= 0.0 && imgH >= 0.0
    requires d.labelText !in labels
    ensures YoloRows(a + [d] + b, labels, imgW, imgH) == YoloRows(a + b, labels, imgW, imgH)
  {
    YoloRowsAppend(a + [d], b, labels, imgW, imgH);
    YoloRowsAppend(a, [d], labels, imgW, imgH);
    YoloRowsAppend(a, b, labels, imgW, imgH);
    assert YoloRows([d], labels, imgW, imgH) == [] by {
      assert [d][..0] == [];
    }
  }

  /**
   * A detection covering the whole image, with a label at first position `i`,
   * gives the row `i 0.5 0.5 1 1`: the bounds are inclusive at 1.
   */
  lemma FullImageRow(labels: seq<string>, i: nat, imgW: real, imgH: real)
    requires i < |labels| && forall k :: 0 <= k < i ==> labels[k] != labels[i]
    requires imgW > 0.0 && imgH > 0.0
    ensures YoloRowOf(Detection(labels[i], 0.0, 0.0, imgW, imgH, 0.0, 0.0, imgW, imgH), labels, imgW, imgH)
      == Some(YoloRow(i, 0.5, 0.5, 1.0, 1.0))
  {
    assert IndexOf(labels, labels[i]) == i;
    assert (0.0 + imgW / 2.0) / imgW == 0.5;
    assert (0.0 + imgH / 2.0) / imgH == 0.5;
    assert imgW / imgW == 1.0 && imgH / imgH == 1.0;
  }

  /**
   * `convertToYoloFormat`: without a current image there are no rows; otherwise
   * the loop keeps the accepted rows in detection order. The natural size is
   * that of the image on screen, whatever image the detections belong to.
   */
  method ConvertToYoloFormat(dets: seq<Detection>, labels: seq<string>, image: Option<Size>) returns (rows: seq<YoloRow>)
    requires image.Some? ==> image.value.width >= 0.0 && image.value.height >= 0.0
    ensures image.None? ==> rows == []
    ensures image.Some? ==> rows == YoloRows(dets, labels, image.value.width, image.value.height)
  {
    if image.None? {
      return [];
    }
    var w, h := image.value.width, image.value.height;
    rows := [];
    for i := 0 to |dets|
      invariant rows == YoloRows(dets[..i], labels, w, h)
    {
      assert dets[..i + 1][..i] == dets[..i];
      match YoloRowOf(dets[i], labels, w, h)
      case Some(r) => rows := rows + [r];
      case None =>
    }
    assert dets[..|dets|] == dets;
  }

  /**
   * The name a per-image YOLO file gets: the file name up to its last dot, or
   * the whole name when there is no dot or the only text is after a leading dot.
   */
  function FileStem(name: string): (stem: string)
    ensures |stem| <= |name| && stem == name[..|stem|]
    ensures name != [] ==> stem != []
    ensures stem != name ==> (name[|stem|] == '.' && forall k :: |stem| < k < |name| ==> name[k] != '.')
  {
    var dot := LastIndexOf(name, '.');
    if dot > 0 then name[..dot] else name
  }

  /** JavaScript `lastIndexOf` for one character: -1 when absent. */
  function LastIndexOf(s: string, c: char): (i: int)
    ensures -1 <= i < |s|
    ensures i >= 0 ==> s[i] == c
    ensures forall k :: i < k < |s| ==> s[k] != c
  {
    if s == [] then -1
    else if s[|s| - 1] == c then |s| - 1
    else LastIndexOf(s[..|s| - 1], c)
  }

  datatype YoloFile = YoloFile(stem: string, rows: seq<YoloRow>)

  /** The YOLO file for one image name: only for a record with detections and at least one accepted row. */
  function YoloFileFor(name: string, m: AnnotationMap, labels: seq<string>, image: Option<Size>): (f: Option<YoloFile>)
    requires image.Some? ==> image.value.width >= 0.0 && image.value.height >= 0.0
    ensures f.Some? ==> f.value.stem == FileStem(name) && f.value.rows != []
    ensures f.Some? ==> (name in m && image.Some?
      && f.value.rows == YoloRows(m[name].detections, labels, image.value.width, image.value.height))
    ensures f.None? ==> (!HasExistingDetections(m, name) || image.None?
      || YoloRows(m[name].detections, labels, image.value.width, image.value.height) == [])
  {
    if !HasExistingDetections(m, name) || image.None? then None
    else
      var rows := YoloRows(m[name].detections, labels, image.value.width, image.value.height);
      if rows == [] then None else Some(YoloFile(FileStem(name), rows))
  }

  /** The files for a list of image names, in image order. */
  function YoloFiles(names: seq<string>, m: AnnotationMap, labels: seq<string>, image: Option<Size>): (fs: seq<YoloFile>)
    requires image.Some? ==> image.value.width >= 0.0 && image.value.height >= 0.0
    ensures |fs| <= |names|
    ensures forall f :: f in fs ==> f.rows != [] && exists n :: n in names && f.stem == FileStem(n)
    ensures forall n :: n in names && YoloFileFor(n, m, labels, image).Some? ==> YoloFileFor(n, m, labels, image).value in fs
    ensures forall f :: f in fs ==> exists n :: n in names && YoloFileFor(n, m, labels, image) == Some(f)
  {
    if names == [] then []
    else
      var init := YoloFiles(names[..|names| - 1], m, labels, image);
      var last := names[|names| - 1];
      match YoloFileFor(last, m, labels, image)
      case Some(f) => init + [f]
      case None => init
  }

  /** Files of concatenated name lists are the concatenated files: each image's file is decided on its own. */
  lemma {:induction false} YoloFilesAppend(a: seq<string>, b: seq<string>, m: AnnotationMap, labels: seq<string>, image: Option<Size>)
    requires image.Some? ==> image.value.width >= 0.0 && image.value.height >= 0.0
    ensures YoloFiles(a + b, m, labels, image) == YoloFiles(a, m, labels, image) + YoloFiles(b, m, labels, image)
  {
    if b == [] {
      assert a + b == a;
    } else {
      var b', last := b[..|b| - 1], b[|b| - 1];
      DropLastOfAppend(a, b);
      YoloFilesAppend(a, b', m, labels, image);
      var tail := match YoloFileFor(last, m, labels, image) case Some(f) => [f] case None => [];
      assert YoloFiles(a + b, m, labels, image) == YoloFiles(a + b', m, labels, image) + tail;
      assert YoloFiles(b, m, labels, image) == YoloFiles(b', m, labels, image) + tail;
      AppendAssoc(YoloFiles(a, m, labels, image), YoloFiles(b', m, labels, image), tail);
    }
  }

  /** The loop of `exportYoloFormat` over the loaded images. */
  method CollectYoloFiles(names: seq<string>, m: AnnotationMap, labels: seq<string>, image: Option<Size>)
    returns (files: seq<YoloFile>)
    requires image.Some? ==> image.value.width >= 0.0 && image.value.height >= 0.0
    ensures files == YoloFiles(names, m, labels, image)
  {
    files := [];
    for i := 0 to |names|
      invariant files == YoloFiles(names[..i], m, labels, image)
    {
      assert names[..i + 1][..i] == names[..i];
      var rows := ConvertToYoloFormat(DetectionsAt(m, names[i]), labels, image);
      if HasExistingDetections(m, names[i]) && rows != [] {
        files := files + [YoloFile(FileStem(names[i]), rows)];
      }
    }
    assert names[..|names|] == names;
  }

  /** CSV rows. A classification row has one field fewer than the header, as the source writes it. */
  datatype CsvRow =
    | ClassificationRow(image: string, classification: string)
    | DetectionRow(image: string, labelText: string, x: real, y: real, width: real, height: real)
    | EmptyRow(image: string)

  const CsvHeader: seq<string> := ["Image", "Classification", "Detection_Label", "X", "Y", "Width", "Height"]

  /** The fields of a row; `fmt` is JavaScript's number-to-text conversion. */
  function Cells(row: CsvRow, fmt: real -> string): (r: seq<string>)
    ensures |r| == if row.ClassificationRow? then |CsvHeader| - 1 else |CsvHeader|
    ensures r[0] == row.image && r[1] == (if row.ClassificationRow? then row.classification else [])
    ensures row.DetectionRow? ==> r[2] == row.labelText
    ensures !row.DetectionRow? ==> forall k :: 2 <= k < |r| ==> r[k] == []
  {
    match row
    case ClassificationRow(image, c) => [image, c, [], [], [], []]
    case DetectionRow(image, l, x, y, w, h) => [image, [], l, fmt(x), fmt(y), fmt(w), fmt(h)]
    case EmptyRow(image) => [image, [], [], [], [], [], []]
  }

  /** A row as a line of text, fields joined by commas with no quoting. */
  function CsvLine(row: CsvRow, fmt: real -> string): (r: string)
    ensures |row.image| < |r| && r[..|row.image|] == row.image && r[|row.image|] == ','
  {
    Join(Cells(row, fmt), ',')
  }

  /** A line reads back into its cells when no cell holds a comma. */
  lemma CsvLineRoundTrip(row: CsvRow, fmt: real -> string)
    requires forall c :: c in Cells(row, fmt) ==> ',' !in c
    ensures Split(CsvLine(row, fmt), ',') == Cells(row, fmt)
  {
    SplitJoin(Cells(row, fmt), ',');
  }

  lemma ClassificationRowIsShort(image: string, c: string, fmt: real -> string)
    ensures |Cells(ClassificationRow(image, c), fmt)| == |CsvHeader| - 1
    ensures |Cells(EmptyRow(image), fmt)| == |CsvHeader|
  {
  }

  /** A classification counts when it is present and non-empty (JavaScript truthiness). */
  predicate HasClassification(a: Annotation): (r: bool)
    ensures r <==> a.classification.Some? && |a.classification.value| > 0
  {
    a.classification.Some? && a.classification.value != []
  }

  /**
   * The rows of one image: its classification, then one row per detection in
   * order, or a single empty row when it has neither.
   */
  function ImageCsvRows(name: string, a: Annotation): (rows: seq<CsvRow>)
    ensures |rows| >= 1
    ensures |rows| == (if HasClassification(a) then 1 else 0) + |a.detections|
      + (if !HasClassification(a) && a.detections == [] then 1 else 0)
    ensures forall r :: r in rows ==> r.image == name
    ensures HasClassification(a) ==> rows[0] == ClassificationRow(name, a.classification.value)
    ensures !HasClassification(a) && a.detections == [] ==> rows == [EmptyRow(name)]
    ensures var k := if HasClassification(a) then 1 else 0;
      rows[k..k + |a.detections|] == DetectionRows(name, a.detections)
  {
    var classRows := if HasClassification(a) then [ClassificationRow(name, a.classification.value)] else [];
    var detRows := DetectionRows(name, a.detections);
    var emptyRows := if !HasClassification(a) && a.detections == [] then [EmptyRow(name)] else [];
    classRows + detRows + emptyRows
  }

  /** The detection rows read back: label and original-space box. */
  function DetectionFields(rows: seq<CsvRow>): seq<(string, real, real, real, real)> {
    if rows == [] then []
    else
      var rest := DetectionFields(rows[1..]);
      match rows[0]
      case DetectionRow(_, l, x, y, w, h) => [(l, x, y, w, h)] + rest
      case _ => rest
  }

  lemma {:induction false} DetectionFieldsAppend(a: seq<CsvRow>, b: seq<CsvRow>)
    ensures DetectionFields(a + b) == DetectionFields(a) + DetectionFields(b)
  {
    if a == [] {
      assert a + b == b;
    } else {
      DropFirstOfAppend(a, b);
      DetectionFieldsAppend(a[1..], b);
      var head := match a[0] case DetectionRow(_, l, x, y, w, h) => [(l, x, y, w, h)] case _ => [];
      assert DetectionFields(a + b) == head + DetectionFields(a[1..] + b);
      assert DetectionFields(a) == head + DetectionFields(a[1..]);
      AppendAssoc(head, DetectionFields(a[1..]), DetectionFields(b));
    }
  }

  /** One detection row per detection, in order. */
  function DetectionRows(name: string, ds: seq<Detection>): (rows: seq<CsvRow>)
    ensures |rows| == |ds|
    ensures forall i :: 0 <= i < |ds| ==> rows[i].DetectionRow? && rows[i].labelText == ds[i].labelText
  {
    seq(|ds|, i requires 0 <= i < |ds| =>
      DetectionRow(name, ds[i].labelText, ds[i].x, ds[i].y, ds[i].width, ds[i].height))
  }

  /** The label and original-space box of each detection. */
  function BoxFields(ds: seq<Detection>): seq<(string, real, real, real, real)> {
    seq(|ds|, i requires 0 <= i < |ds| => (ds[i].labelText, ds[i].x, ds[i].y, ds[i].width, ds[i].height))
  }

  lemma {:induction false} DetectionFieldsOfDetectionRows(name: string, ds: seq<Detection>)
    ensures DetectionFields(DetectionRows(name, ds)) == BoxFields(ds)
  {
    if ds != [] {
      DetectionFieldsOfDetectionRows(name, ds[1..]);
      assert DetectionRows(name, ds)[1..] == DetectionRows(name, ds[1..]);
      assert BoxFields(ds) == [BoxFields(ds)[0]] + BoxFields(ds[1..]);
    }
  }

  /** Reading the detection rows of an image back gives its detections' labels and boxes, in order. */
  lemma CsvDetectionsRoundTrip(name: string, a: Annotation)
    ensures DetectionFields(ImageCsvRows(name, a)) == BoxFields(a.detections)
  {
    var classRows := if HasClassification(a) then [ClassificationRow(name, a.classification.value)] else [];
    var detRows := DetectionRows(name, a.detections);
    var emptyRows := if !HasClassification(a) && a.detections == [] then [EmptyRow(name)] else [];
    DetectionFieldsAppend(classRows + detRows, emptyRows);
    DetectionFieldsAppend(classRows, detRows);
    DetectionFieldsOfDetectionRows(name, a.detections);
    assert DetectionFields(classRows) == [] by {
      if classRows != [] { assert classRows[1..] == []; }
    }
    assert DetectionFields(emptyRows) == [] by {
      if emptyRows != [] { assert emptyRows[1..] == []; }
    }
    assert ImageCsvRows(name, a) == classRows + detRows + emptyRows;
  }

  /** The data rows of `downloadCsv` for the entries of the annotation map, in enumeration order. */
  function CsvTable(entries: seq<(string, Annotation)>): (rows: seq<CsvRow>)
    ensures |rows| >= |entries|
  {
    if entries == [] then []
    else CsvTable(entries[..|entries| - 1]) + ImageCsvRows(entries[|entries| - 1].0, entries[|entries| - 1].1)
  }

  /** The table of a concatenation of entries is the concatenation of their tables. */
  lemma {:induction false} CsvTableAppend(e1: seq<(string, Annotation)>, e2: seq<(string, Annotation)>)
    ensures CsvTable(e1 + e2) == CsvTable(e1) + CsvTable(e2)
  {
    if e2 == [] {
      assert e1 + e2 == e1;
    } else {
      var e2', last := e2[..|e2| - 1], e2[|e2| - 1];
      DropLastOfAppend(e1, e2);
      CsvTableAppend(e1, e2');
      assert CsvTable(e1 + e2) == CsvTable(e1 + e2') + ImageCsvRows(last.0, last.1);
      assert CsvTable(e2) == CsvTable(e2') + ImageCsvRows(last.0, last.1);
      AppendAssoc(CsvTable(e1), CsvTable(e2'), ImageCsvRows(last.0, last.1));
    }
  }

  /** One entry's table is that image's rows. With `CsvTableAppend` this gives each record's rows in entry order. */
  lemma CsvTableSingle(name: string, a: Annotation)
    ensures CsvTable([(name, a)]) == ImageCsvRows(name, a)
  {
    assert [(name, a)][..0] == [];
  }

  /** The rows `downloadCsv` writes for one image. */
  method ImageRowsOf(name: string, a: Annotation) returns (rows: seq<CsvRow>)
    ensures rows == ImageCsvRows(name, a)
  {
    rows := [];
    if HasClassification(a) {
      rows := rows + [ClassificationRow(name, a.classification.value)];
    }
    var prefix := rows;
    for j := 0 to |a.detections|
      invariant rows == prefix + DetectionRows(name, a.detections[..j])
    {
      var d := a.detections[j];
      rows := rows + [DetectionRow(name, d.labelText, d.x, d.y, d.width, d.height)];
    }
    if !HasClassification(a) && a.detections == [] {
      rows := rows + [EmptyRow(name)];
    }
  }

  /** The loop of `downloadCsv`. */
  method CsvRowsOf(entries: seq<(string, Annotation)>) returns (rows: seq<CsvRow>)
    ensures rows == CsvTable(entries)
  {
    rows := [];
    for i := 0 to |entries|
      invariant rows == CsvTable(entries[..i])
    {
      assert entries[..i + 1][..i] == entries[..i];
      var imageRows := ImageRowsOf(entries[i].0, entries[i].1);
      rows := rows + imageRows;
    }
    assert entries[..|entries|] == entries;
  }

  datatype ExportRefusal = ClassificationMode | NoImages | NoDetectionAnnotations

  /** The outcome of `exportYoloFormat`: a refusal, or the class list and the per-image files. */
  datatype YoloExport = Refused(reason: ExportRefusal) | Bundle(classes: string, files: seq<YoloFile>)

  /** Some image record holds at least one detection. */
  predicate AnyDetections(m: AnnotationMap): (r: bool)
    ensures r <==> exists k :: k in m && HasExistingDetections(m, k)
  {
    exists k :: k in m && m[k].detections != []
  }

  /**
   * `exportYoloFormat`: refused outside detection mode, without images, or
   * when no record holds a detection; otherwise the class list and one file per
   * image, keyed by the image's own file name, that yields at least one row.
   */
  function YoloExportOf(detectionMode: bool, names: seq<string>, m: AnnotationMap, labels: seq<string>, image: Option<Size>)
    : (r: YoloExport)
    requires image.Some? ==> image.value.width >= 0.0 && image.value.height >= 0.0
    ensures r.Refused? <==> !detectionMode || names == [] || !AnyDetections(m)
    ensures r.Refused? ==> r.reason == (if !detectionMode then ClassificationMode
                                         else if names == [] then NoImages else NoDetectionAnnotations)
    ensures r.Bundle? ==> r.classes == ClassesText(labels) && |r.files| <= |names|
    ensures r.Bundle? ==> forall f :: f in r.files ==> f.rows != [] && exists n :: n in names && f.stem == FileStem(n)
    ensures r.Bundle? ==> forall n :: n in names && YoloFileFor(n, m, labels, image).Some? ==>
      YoloFileFor(n, m, labels, image).value in r.files
    ensures r.Bundle? ==> forall f :: f in r.files ==> exists n :: n in names && YoloFileFor(n, m, labels, image) == Some(f)
  {
    if !detectionMode then Refused(ClassificationMode)
    else if names == [] then Refused(NoImages)
    else if !AnyDetections(m) then Refused(NoDetectionAnnotations)
    else Bundle(ClassesText(labels), YoloFiles(names, m, labels, image))
  }

  /** Without a displayed image every per-image file is empty, so the bundle holds only the class list. */
  lemma {:induction false} NoImageNoFiles(names: seq<string>, m: AnnotationMap, labels: seq<string>)
    ensures YoloFiles(names, m, labels, None) == []
  {
    if names != [] {
      NoImageNoFiles(names[..|names| - 1], m, labels);
    }
  }
}
