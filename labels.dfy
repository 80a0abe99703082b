/**
 * The classification and detection label sets: ordered lists whose order gives
 * shortcut numbers and YOLO class indices. Labels are added one at a time from
 * a text field, removed by position, or replaced wholesale from a text file.
 */
module Labels {
  import opened Text
  import opened Lists

  /** Every label is non-empty and has no surrounding whitespace. */
  predicate WellFormed(labels: seq<string>) {
    forall l :: l in labels ==> l != [] && IsTrimmed(l)
  }

  /**
   * `addClassificationLabel` / `addDetectionLabel`: the typed text, trimmed, is
   * appended when it is non-empty and not yet in the set.
   */
  function WithLabel(labels: seq<string>, raw: string): (r: seq<string>)
    ensures |labels| <= |r| <= |labels| + 1 && r[..|labels|] == labels
    ensures forall l :: l in r <==> l in labels || (l == Trim(raw) && l != [])
    ensures NoDuplicates(labels) ==> NoDuplicates(r)
    ensures WellFormed(labels) ==> WellFormed(r)
  {
    var l := Trim(raw);
    if l != [] && l !in labels then
      PushFresh(labels, l);
      labels + [l]
    else labels
  }

  /** Adding the same text twice adds it once. */
  lemma WithLabelIdempotent(labels: seq<string>, raw: string)
    ensures WithLabel(WithLabel(labels, raw), raw) == WithLabel(labels, raw)
  {
  }

  /** One step of the file loader's loop: push `l` when it is non-empty and new. */
  function PushNew(acc: seq<string>, l: string): seq<string> {
    if l != [] && l !in acc then acc + [l] else acc
  }

  /** The file loader's loop over `lines`, starting from `acc`. */
  function DedupeInto(acc: seq<string>, lines: seq<string>): (r: seq<string>)
    ensures |acc| <= |r| && r[..|acc|] == acc
    ensures forall l :: l in r <==> l in acc || (l in lines && l != [])
  {
    if lines == [] then acc else PushNew(DedupeInto(acc, lines[..|lines| - 1]), lines[|lines| - 1])
  }

  lemma {:induction false} DedupeNoDuplicates(acc: seq<string>, lines: seq<string>)
    requires NoDuplicates(acc)
    ensures NoDuplicates(DedupeInto(acc, lines))
  {
    if lines != [] {
      DedupeNoDuplicates(acc, lines[..|lines| - 1]);
    }
  }

  /** Lines that are already distinct and non-empty pass through the loop unchanged. */
  lemma {:induction false} DedupeOfDistinct(acc: seq<string>, lines: seq<string>)
    requires NoDuplicates(acc + lines)
    requires forall l :: l in lines ==> l != []
    ensures DedupeInto(acc, lines) == acc + lines
  {
    if lines != [] {
      var init := lines[..|lines| - 1];
      var last := lines[|lines| - 1];
      assert acc + lines == (acc + init) + [last];
      assert NoDuplicates(acc + init) by {
        forall i, j | 0 <= i < j < |acc + init|
          ensures (acc + init)[i] != (acc + init)[j]
        {
          assert (acc + init)[i] == (acc + lines)[i] && (acc + init)[j] == (acc + lines)[j];
        }
      }
      assert forall l :: l in init ==> l in lines;
      DedupeOfDistinct(acc, init);
      assert last in lines && last != [];
      assert last !in acc + init by {
        forall k | 0 <= k < |acc + init|
          ensures (acc + init)[k] != last
        {
          assert (acc + init)[k] == (acc + lines)[k] && last == (acc + lines)[|acc + lines| - 1];
        }
      }
      assert lines == init + [last];
    }
  }

  /**
   * The loop keeps each label's first occurrence: of two labels it kept, the
   * one that appears first in the file comes first.
   */
  lemma {:induction false} DedupeKeepsFirstOccurrenceOrder(lines: seq<string>, i: nat, j: nat)
    requires i < j < |DedupeInto([], lines)|
    ensures IndexOf(lines, DedupeInto([], lines)[i]) < IndexOf(lines, DedupeInto([], lines)[j])
  {
    var n := |lines|;
    var init, last := lines[..n - 1], lines[n - 1];
    assert lines == init + [last];
    var prev := DedupeInto([], init);
    var r := DedupeInto([], lines);
    assert r == PushNew(prev, last);
    assert r[i] == prev[i] && prev[i] in prev;
    IndexOfPrefix(init, [last], prev[i]);
    if j < |prev| {
      DedupeKeepsFirstOccurrenceOrder(init, i, j);
      assert r[j] == prev[j] && prev[j] in prev;
      IndexOfPrefix(init, [last], prev[j]);
    } else {
      assert r[j] == last && last !in prev && last != [];
      IndexOfAfter(init, [last], last);
    }
  }

  /** The trimmed, non-empty lines, in order. */
  function NonEmptyTrimmed(lines: seq<string>): (r: seq<string>)
    ensures |r| <= |lines|
    ensures forall l :: l in r ==> l != [] && IsTrimmed(l)
    ensures forall l :: l in r <==> l != [] && exists m :: m in lines && Trim(m) == l
  {
    if lines == [] then []
    else
      var init := NonEmptyTrimmed(lines[..|lines| - 1]);
      var t := Trim(lines[|lines| - 1]);
      assert forall m :: m in lines <==> m in lines[..|lines| - 1] || m == lines[|lines| - 1];
      if t != [] then init + [t] else init
  }

  /** Every line trimmed, empty ones included, position by position. */
  function TrimmedLines(lines: seq<string>): (r: seq<string>)
    ensures |r| == |lines|
    ensures forall i :: 0 <= i < |lines| ==> r[i] == Trim(lines[i])
  {
    seq(|lines|, i requires 0 <= i < |lines| => Trim(lines[i]))
  }

  /** Lines are filtered one by one, so the kept lines of a concatenation are the concatenated kept lines. */
  lemma {:induction false} NonEmptyTrimmedAppend(a: seq<string>, b: seq<string>)
    ensures NonEmptyTrimmed(a + b) == NonEmptyTrimmed(a) + NonEmptyTrimmed(b)
  {
    if b == [] {
      AppendEmpty(a);
    } else {
      var b' := b[..|b| - 1];
      DropLastOfAppend(a, b);
      NonEmptyTrimmedAppend(a, b');
      NonEmptyTrimmedLast(a + b);
      NonEmptyTrimmedLast(b);
      var t := Trim(b[|b| - 1]);
      AppendAssoc(NonEmptyTrimmed(a), NonEmptyTrimmed(b'), if t != [] then [t] else []);
    }
  }

  /** The kept lines of a file are those of all but its last line, then the last one when it is not blank. */
  lemma NonEmptyTrimmedLast(lines: seq<string>)
    requires lines != []
    ensures var t := Trim(lines[|lines| - 1]);
      NonEmptyTrimmed(lines) == NonEmptyTrimmed(lines[..|lines| - 1]) + (if t != [] then [t] else [])
  {
  }

  /** One line is kept, trimmed, exactly when it is not blank. */
  lemma NonEmptyTrimmedSingle(m: string)
    ensures NonEmptyTrimmed([m]) == if Trim(m) != [] then [Trim(m)] else []
  {
    assert [m][..0] == [];
  }

  /** The trimmed lines of a file are those of all but its last line, then the last one trimmed. */
  lemma TrimmedLinesLast(lines: seq<string>)
    requires lines != []
    ensures TrimmedLines(lines) == TrimmedLines(lines[..|lines| - 1]) + [Trim(lines[|lines| - 1])]
  {
  }

  /** A non-blank text is among the kept lines exactly when some line trims to it. */
  lemma KeptIffTrimmed(lines: seq<string>, x: string)
    requires x != []
    ensures x in NonEmptyTrimmed(lines) <==> x in TrimmedLines(lines)
  {
    if x in NonEmptyTrimmed(lines) {
      var m :| m in lines && Trim(m) == x;
      var k :| 0 <= k < |lines| && lines[k] == m;
      assert TrimmedLines(lines)[k] == x;
    }
    if x in TrimmedLines(lines) {
      var k :| 0 <= k < |lines| && TrimmedLines(lines)[k] == x;
      assert lines[k] in lines && Trim(lines[k]) == x;
    }
  }

  /**
   * Dropping blank lines keeps the order of the others: of two kept lines,
   * the one found first among the kept lines is found first in the file.
   */
  lemma {:induction false} NonEmptyTrimmedKeepsOrder(lines: seq<string>, x: string, y: string)
    requires x in NonEmptyTrimmed(lines) && y in NonEmptyTrimmed(lines)
    requires IndexOf(NonEmptyTrimmed(lines), x) < IndexOf(NonEmptyTrimmed(lines), y)
    ensures IndexOf(TrimmedLines(lines), x) < IndexOf(TrimmedLines(lines), y)
  {
    var init := lines[..|lines| - 1];
    assert x in NonEmptyTrimmed(init) by {
      if x !in NonEmptyTrimmed(init) {
        KeptLast(lines, x);
      }
    }
    KeptEarlier(lines, x);
    if y in NonEmptyTrimmed(init) {
      KeptEarlier(lines, y);
      NonEmptyTrimmedKeepsOrder(init, x, y);
    } else {
      KeptLast(lines, y);
    }
  }

  /** A text kept from the lines before the last keeps its place among the kept and among the trimmed lines. */
  lemma KeptEarlier(lines: seq<string>, x: string)
    requires lines != [] && x in NonEmptyTrimmed(lines[..|lines| - 1])
    ensures IndexOf(NonEmptyTrimmed(lines), x) == IndexOf(NonEmptyTrimmed(lines[..|lines| - 1]), x)
    ensures x in TrimmedLines(lines[..|lines| - 1])
    ensures IndexOf(TrimmedLines(lines), x) == IndexOf(TrimmedLines(lines[..|lines| - 1]), x)
  {
    var init := lines[..|lines| - 1];
    var t := Trim(lines[|lines| - 1]);
    var tail := if t != [] then [t] else [];
    NonEmptyTrimmedLast(lines);
    IndexOfPrefix(NonEmptyTrimmed(init), tail, x);
    KeptIffTrimmed(init, x);
    TrimmedLinesLast(lines);
    IndexOfPrefix(TrimmedLines(init), [t], x);
  }

  /** A text first kept from the last line comes last among the kept and among the trimmed lines. */
  lemma KeptLast(lines: seq<string>, y: string)
    requires lines != [] && y in NonEmptyTrimmed(lines) && y !in NonEmptyTrimmed(lines[..|lines| - 1])
    ensures |NonEmptyTrimmed(lines)| == |NonEmptyTrimmed(lines[..|lines| - 1])| + 1
    ensures IndexOf(NonEmptyTrimmed(lines), y) == |NonEmptyTrimmed(lines[..|lines| - 1])|
    ensures y !in TrimmedLines(lines[..|lines| - 1])
    ensures IndexOf(TrimmedLines(lines), y) == |TrimmedLines(lines[..|lines| - 1])|
  {
    var init := lines[..|lines| - 1];
    KeptLastAmongKept(lines, y);
    KeptIffTrimmed(init, y);
    TrimmedLinesLast(lines);
    IndexOfAfter(TrimmedLines(init), [y], y);
  }

  /** The kept-lines half of `KeptLast`: the text is the last line, trimmed, and is kept last. */
  lemma KeptLastAmongKept(lines: seq<string>, y: string)
    requires lines != [] && y in NonEmptyTrimmed(lines) && y !in NonEmptyTrimmed(lines[..|lines| - 1])
    ensures y != [] && y == Trim(lines[|lines| - 1])
    ensures |NonEmptyTrimmed(lines)| == |NonEmptyTrimmed(lines[..|lines| - 1])| + 1
    ensures IndexOf(NonEmptyTrimmed(lines), y) == |NonEmptyTrimmed(lines[..|lines| - 1])|
  {
    var init := lines[..|lines| - 1];
    var t := Trim(lines[|lines| - 1]);
    NonEmptyTrimmedLast(lines);
    assert y == t;
    IndexOfAfter(NonEmptyTrimmed(init), [t], y);
  }

  /** Lines that are already trimmed and non-empty are kept as they are. */
  lemma {:induction false} NonEmptyTrimmedOfWellFormed(lines: seq<string>)
    requires WellFormed(lines)
    ensures NonEmptyTrimmed(lines) == lines
  {
    if lines != [] {
      NonEmptyTrimmedOfWellFormed(lines[..|lines| - 1]);
      TrimOfTrimmed(lines[|lines| - 1]);
      assert lines == lines[..|lines| - 1] + [lines[|lines| - 1]];
    }
  }

  /**
   * `loadLabelsFromFile`: the content is split on line feeds, every line is
   * trimmed, empty lines are dropped and repeated labels keep their first
   * occurrence; the result replaces the whole set.
   */
  function LabelFile(content: string): (r: seq<string>)
    ensures NoDuplicates(r) && WellFormed(r)
    ensures forall l :: l in r <==> l != [] && exists m :: m in Split(content, '\n') && Trim(m) == l
  {
    DedupeNoDuplicates([], NonEmptyTrimmed(Split(content, '\n')));
    DedupeInto([], NonEmptyTrimmed(Split(content, '\n')))
  }

  /**
   * The labels of a file come in the order of their first occurrence among the
   * file's trimmed lines, so a label's class index follows the file.
   */
  lemma LabelFileKeepsFileOrder(content: string, i: nat, j: nat)
    requires i < j < |LabelFile(content)|
    ensures var r := LabelFile(content);
      IndexOf(TrimmedLines(Split(content, '\n')), r[i]) < IndexOf(TrimmedLines(Split(content, '\n')), r[j])
  {
    var lines := NonEmptyTrimmed(Split(content, '\n'));
    var r := LabelFile(content);
    DedupeKeepsFirstOccurrenceOrder(lines, i, j);
    assert r[i] in r && r[j] in r;
    NonEmptyTrimmedKeepsOrder(Split(content, '\n'), r[i], r[j]);
  }

  /** The file loader's loop after one more line. */
  lemma DedupeIntoStep(lines: seq<string>, i: nat)
    requires i < |lines|
    ensures DedupeInto([], lines[..i + 1]) == PushNew(DedupeInto([], lines[..i]), lines[i])
  {
    assert lines[..i + 1][..i] == lines[..i];
  }

  /**
   * The reading loop of `loadLabelsFromFile`: each line not already taken is
   * pushed, so the result is the label file's list of labels.
   */
  method ReadLabelLines(content: string) returns (labels: seq<string>)
    ensures labels == LabelFile(content)
  {
    var lines := NonEmptyTrimmed(Split(content, '\n'));
    labels := [];
    for i := 0 to |lines|
      invariant labels == DedupeInto([], lines[..i])
    {
      DedupeIntoStep(lines, i);
      var l := lines[i];
      if l != [] && l !in labels {
        labels := labels + [l];
      }
    }
    assert lines[..|lines|] == lines;
  }

  /** The class list the YOLO export writes: the detection labels joined by line feeds. */
  function ClassesText(labels: seq<string>): (r: string)
    ensures labels == [] ==> r == []
    ensures labels != [] ==> |labels[0]| <= |r| && r[..|labels[0]|] == labels[0]
    ensures |labels| > 1 ==> |r| > |labels[0]| && r[|labels[0]|] == '\n'
  {
    Join(labels, '\n')
  }

  /**
   * Loading the class list the YOLO export wrote gives back the label set it
   * was written from, provided no label holds a line feed.
   */
  lemma ClassesFileRoundTrip(labels: seq<string>)
    requires NoDuplicates(labels) && WellFormed(labels)
    requires forall l :: l in labels ==> '\n' !in l
    ensures LabelFile(ClassesText(labels)) == labels
  {
    if labels == [] {
      assert Split(ClassesText(labels), '\n') == [[]];
      assert NonEmptyTrimmed([[]]) == [];
    } else {
      SplitJoin(labels, '\n');
      NonEmptyTrimmedOfWellFormed(labels);
      assert [] + labels == labels;
      DedupeOfDistinct([], labels);
    }
  }
}
