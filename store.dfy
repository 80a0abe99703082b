/**
 * The per-image annotation store: a map from image key to a record holding the
 * image's classification and its ordered detections. Records are created
 * lazily by the first write and never removed.
 */
module Store {
  import opened Wrappers
  import opened Text
  import opened Geometry
  import opened Lists

  datatype Annotation = Annotation(classification: Option<string>, detections: seq<Detection>)

  type AnnotationMap = map<string, Annotation>

  /** The record a first write creates: no classification, no detections. */
  const EmptyAnnotation: Annotation := Annotation(None, [])

  const FallbackPrefix: string := "image_"

  /**
   * The key of the image at `index` (`getCurrentImageKey`): its file name, or
   * `image_<index>` when there is no image there or its name is empty.
   */
  function ImageKey(names: seq<string>, index: nat): (k: string)
    ensures k != []
    ensures index < |names| && names[index] != [] ==> k == names[index]
    ensures !(index < |names| && names[index] != []) ==>
      |k| > |FallbackPrefix| && k[..|FallbackPrefix|] == FallbackPrefix && k[|FallbackPrefix|..] == DecimalString(index)
  {
    if index < |names| && names[index] != [] then names[index]
    else FallbackPrefix + DecimalString(index)
  }

  /** Two images without a usable name never share a key. */
  lemma FallbackKeysDistinct(names: seq<string>, i: nat, j: nat)
    requires i != j
    requires !(i < |names| && names[i] != []) && !(j < |names| && names[j] != [])
    ensures ImageKey(names, i) != ImageKey(names, j)
  {
    DecimalInjective(i, j);
    assert ImageKey(names, i)[|FallbackPrefix|..] == DecimalString(i);
    assert ImageKey(names, j)[|FallbackPrefix|..] == DecimalString(j);
  }

  /** The detections stored for `key`; a missing record reads as none, without creating one. */
  function DetectionsAt(m: AnnotationMap, key: string): (ds: seq<Detection>)
    ensures key !in m ==> ds == []
    ensures key in m ==> ds == m[key].detections
  {
    if key in m then m[key].detections else []
  }

  /** True when the image already has at least one stored detection. */
  predicate HasExistingDetections(m: AnnotationMap, key: string): (r: bool)
    ensures r <==> DetectionsAt(m, key) != []
  {
    key in m && |m[key].detections| > 0
  }

  /** The record for `key`, creating the empty one when absent. */
  function Ensured(m: AnnotationMap, key: string): (r: AnnotationMap)
    ensures r.Keys == m.Keys + {key}
    ensures key !in m ==> r[key] == EmptyAnnotation
    ensures forall k :: k in m ==> r[k] == m[k]
  {
    if key in m then m else m[key := EmptyAnnotation]
  }

  /** `addBoundingBox` on the store: `d` is appended after the existing detections of `key`. */
  function WithDetection(m: AnnotationMap, key: string, d: Detection): (r: AnnotationMap)
    ensures r.Keys == m.Keys + {key}
    ensures r[key].detections == DetectionsAt(m, key) + [d]
    ensures r[key].classification == (if key in m then m[key].classification else None)
    ensures forall k :: k in m && k != key ==> r[k] == m[k]
  {
    var m' := Ensured(m, key);
    m'[key := m'[key].(detections := m'[key].detections + [d])]
  }

  /** `setClassification` on the store: an empty label is stored as no classification. */
  function WithClassification(m: AnnotationMap, key: string, choice: string): (r: AnnotationMap)
    ensures r.Keys == m.Keys + {key}
    ensures r[key].classification == (if choice == [] then None else Some(choice))
    ensures r[key].detections == DetectionsAt(m, key)
    ensures forall k :: k in m && k != key ==> r[k] == m[k]
  {
    var m' := Ensured(m, key);
    m'[key := m'[key].(classification := if choice == [] then None else Some(choice))]
  }

  /** `removeBoundingBox`: splices one detection out; a missing record is left alone. */
  function WithoutDetection(m: AnnotationMap, key: string, index: nat): (r: AnnotationMap)
    ensures r.Keys == m.Keys
    ensures key in m ==> r[key] == m[key].(detections := RemoveAt(m[key].detections, index))
    ensures forall k :: k in m && k != key ==> r[k] == m[k]
  {
    if key in m then m[key := m[key].(detections := RemoveAt(m[key].detections, index))] else m
  }

  /** `clearAllBoundingBoxes`: empties the detections and keeps the record and its classification. */
  function Cleared(m: AnnotationMap, key: string): (r: AnnotationMap)
    ensures r.Keys == m.Keys
    ensures key in m ==> r[key] == m[key].(detections := [])
    ensures forall k :: k in m && k != key ==> r[k] == m[k]
  {
    if key in m then m[key := m[key].(detections := [])] else m
  }

  /**
   * The source holds the selected box as an object reference. The model names
   * it by its record and position, or as an `Orphan` once the object it
   * referred to has been spliced out of its list.
   */
  datatype BoxRef = InList(key: string, index: nat) | Orphan

  /** The stored detection a reference designates, if it designates one. */
  function Designated(m: AnnotationMap, r: BoxRef): Option<Detection> {
    match r
    case Orphan => None
    case InList(k, i) => if k in m && i < |m[k].detections| then Some(m[k].detections[i]) else None
  }

  /**
   * How a reference is carried across `WithoutDetection(m, key, index)`: a later
   * position moves down by one and the removed position becomes an orphan, so
   * every other box stays designated exactly as an object reference would.
   */
  function AfterRemoval(sel: BoxRef, m: AnnotationMap, key: string, index: nat): (r: BoxRef)
    ensures sel.InList? && sel.key == key && key in m && index < |m[key].detections| && sel.index == index
      ==> r == Orphan
    ensures !(sel.InList? && sel.key == key && sel.index == index) || key !in m || index >= |m[key].detections|
      ==> Designated(WithoutDetection(m, key, index), r) == Designated(m, sel)
  {
    match sel
    case Orphan => Orphan
    case InList(k, j) =>
      if k != key || key !in m || index >= |m[key].detections| then sel
      else if j == index then Orphan
      else if j > index then InList(k, j - 1)
      else sel
  }

  /**
   * An in-place write through a reference: the designated detection becomes
   * `d`; with nothing designated the store is unchanged.
   */
  function Replaced(m: AnnotationMap, r: BoxRef, d: Detection): (m': AnnotationMap)
    ensures m'.Keys == m.Keys
    ensures Designated(m, r).None? ==> m' == m
    ensures Designated(m, r).Some? ==> Designated(m', r) == Some(d)
    ensures forall k :: k in m && !(r.InList? && r.key == k) ==> m'[k] == m[k]
    ensures r.InList? && r.key in m ==> (m'[r.key].classification == m[r.key].classification
      && |m'[r.key].detections| == |m[r.key].detections|
      && forall j :: 0 <= j < |m[r.key].detections| && j != r.index ==> m'[r.key].detections[j] == m[r.key].detections[j])
  {
    if Designated(m, r).None? then m
    else m[r.key := m[r.key].(detections := m[r.key].detections[r.index := d])]
  }

  /**
   * `loadAnnotation`: every detection of the record recomputes its display
   * mirror from its original fields at the current scale.
   */
  function Reloaded(m: AnnotationMap, key: string, scale: real): (r: AnnotationMap)
    ensures r.Keys == m.Keys
    ensures forall k :: k in m && k != key ==> r[k] == m[k]
    ensures key in m ==> (r[key].classification == m[key].classification
      && |r[key].detections| == |m[key].detections|
      && forall j :: 0 <= j < |m[key].detections| ==> r[key].detections[j] == Rescaled(m[key].detections[j], scale))
  {
    if key in m then
      var ds := m[key].detections;
      m[key := m[key].(detections := seq(|ds|, j requires 0 <= j < |ds| => Rescaled(ds[j], scale)))]
    else m
  }

  /** After a reload every detection of the record is in step with the scale, and no box moved in the image. */
  lemma ReloadedSynced(m: AnnotationMap, key: string, scale: real)
    requires key in m
    ensures forall d :: d in Reloaded(m, key, scale)[key].detections ==> Synced(d, scale)
    ensures BoxesOf(Reloaded(m, key, scale)[key].detections) == BoxesOf(m[key].detections)
  {
    var ds := m[key].detections;
    var rs := Reloaded(m, key, scale)[key].detections;
    assert forall d :: d in rs ==> exists j :: 0 <= j < |ds| && d == Rescaled(ds[j], scale);
  }

  /** The labels and original-space boxes of a list of detections: what is saved and exported. */
  function BoxesOf(ds: seq<Detection>): (r: seq<(string, real, real, real, real)>)
    ensures |r| == |ds|
    ensures forall j :: 0 <= j < |ds| ==> r[j] == (ds[j].labelText, ds[j].x, ds[j].y, ds[j].width, ds[j].height)
  {
    seq(|ds|, j requires 0 <= j < |ds| => (ds[j].labelText, ds[j].x, ds[j].y, ds[j].width, ds[j].height))
  }

  /** A run of `addBoundingBox` calls on one record; the record is created only when there is a box to add. */
  function Appended(m: AnnotationMap, key: string, ds: seq<Detection>): (r: AnnotationMap)
    ensures r.Keys == m.Keys + (if ds == [] then {} else {key})
    ensures forall k :: k in m && k != key ==> r[k] == m[k]
    ensures ds == [] ==> r == m
    ensures key in r ==> (r[key].detections == DetectionsAt(m, key) + ds
      && r[key].classification == (if key in m then m[key].classification else None))
  {
    if ds == [] then m
    else
      var e := Ensured(m, key);
      e[key := e[key].(detections := e[key].detections + ds)]
  }

  /** Appending one more detection is one more `addBoundingBox`. */
  lemma AppendedSnoc(m: AnnotationMap, key: string, ds: seq<Detection>, d: Detection)
    ensures Appended(m, key, ds + [d]) == WithDetection(Appended(m, key, ds), key, d)
  {
    var left := Appended(m, key, ds + [d]);
    var right := WithDetection(Appended(m, key, ds), key, d);
    assert DetectionsAt(m, key) + ds + [d] == DetectionsAt(m, key) + (ds + [d]);
    assert left[key] == right[key];
    assert left.Keys == right.Keys;
  }
}
