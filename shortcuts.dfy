/**
 * Keyboard-shortcut settings: how a typed key name is normalised in the
 * settings field, how the field is stored as a key name on save, and how a
 * stored key name is shown when the settings open again.
 */
module Shortcuts {
  import opened Text

  const LeftArrowGlyph: string := "\U{2190}"
  const RightArrowGlyph: string := "\U{2192}"

  /** No ASCII capital letter occurs in `s`. */
  predicate NoUpperAscii(s: string) {
    forall k :: 0 <= k < |s| ==> !IsUpperAscii(s[k])
  }

  /** No ASCII small letter occurs in `s`. */
  predicate NoLowerAscii(s: string) {
    forall k :: 0 <= k < |s| ==> !IsLowerAscii(s[k])
  }

  /**
   * The text a shortcut field shows after each keystroke: the arrow names and
   * glyphs become the glyphs, "del"/"delete" becomes "Del", and anything else
   * is upper-cased. Letter case of the typed text does not matter.
   */
  function NormalizeShortcutInput(input: string): (r: string)
    ensures var v := ToLower(input); v == LeftArrowGlyph || v == "left" ==> r == LeftArrowGlyph
    ensures var v := ToLower(input); v == RightArrowGlyph || v == "right" ==> r == RightArrowGlyph
    ensures var v := ToLower(input); v == "del" || v == "delete" ==> r == "Del"
    ensures !NamesShortcutKey(ToLower(input)) ==> r == ToUpper(input) && NoLowerAscii(r) && |r| == |input|
  {
    var v := ToLower(input);
    assert forall k :: 0 <= k < |input| ==> UpperChar(LowerChar(input[k])) == UpperChar(input[k]);
    assert ToUpper(v) == ToUpper(input);
    NormalizeLowered(v)
  }

  /** The lower-cased texts the shortcut field turns into a glyph or "Del". */
  predicate NamesShortcutKey(value: string): (r: bool)
    ensures r ==> ToLower(value) == value
  {
    value == LeftArrowGlyph || value == "left" || value == RightArrowGlyph || value == "right"
    || value == "del" || value == "delete"
  }

  /** The case analysis of `NormalizeShortcutInput` on the lower-cased text. */
  function NormalizeLowered(value: string): (r: string)
    ensures value == LeftArrowGlyph || value == "left" ==> r == LeftArrowGlyph
    ensures value == RightArrowGlyph || value == "right" ==> r == RightArrowGlyph
    ensures value == "del" || value == "delete" ==> r == "Del"
    ensures !NamesShortcutKey(value) ==> r == ToUpper(value) && NoLowerAscii(r) && |r| == |value|
  {
    if value == LeftArrowGlyph || value == "left" then LeftArrowGlyph
    else if value == RightArrowGlyph || value == "right" then RightArrowGlyph
    else if value == "del" || value == "delete" then "Del"
    else ToUpper(value)
  }

  /** The lower-cased text has no capital letter. */
  lemma LowerHasNoUpper(s: string)
    ensures NoUpperAscii(ToLower(s))
  {
  }

  /** Text without capital letters is its own lower case. */
  lemma LowerOfLowerCase(s: string)
    requires NoUpperAscii(s)
    ensures ToLower(s) == s
  {
  }

  /** Upper-casing text without capital letters and lower-casing it again gives it back. */
  lemma LowerOfUpperOfLowerCase(s: string)
    requires NoUpperAscii(s)
    ensures ToLower(ToUpper(s)) == s
  {
    assert forall k :: 0 <= k < |s| ==> LowerChar(UpperChar(s[k])) == s[k];
  }

  /** "Del", the text shown for the delete key, lower-cases to "del", the text saved as "Delete". */
  lemma LowerOfDel()
    ensures ToLower("Del") == "del"
  {
    assert LowerChar('D') == 'd';
  }

  /**
   * The key name saved for one shortcut: the field's text lower-cased, with the
   * glyphs and "del" mapped back to key names; an empty field falls back to the
   * default.
   */
  function ShortcutValue(input: string, default: string): (r: string)
    ensures ToLower(input) == LeftArrowGlyph ==> r == "ArrowLeft"
    ensures ToLower(input) == RightArrowGlyph ==> r == "ArrowRight"
    ensures ToLower(input) == "del" ==> r == "Delete"
    ensures ToLower(input) == [] ==> r == default
    ensures ToLower(input) != [] ==> r != []
    ensures ToLower(input) !in {[], LeftArrowGlyph, RightArrowGlyph, "del"} ==> r == ToLower(input)
  {
    var value := ToLower(input);
    var named :=
      if value == LeftArrowGlyph then "ArrowLeft"
      else if value == RightArrowGlyph then "ArrowRight"
      else if value == "del" then "Delete"
      else value;
    if named == [] then default else named
  }

  /** The text a shortcut field shows for a stored key name. */
  function ShortcutDisplay(key: string): (r: string)
    ensures key == "ArrowLeft" ==> r == LeftArrowGlyph
    ensures key == "ArrowRight" ==> r == RightArrowGlyph
    ensures key == "Delete" ==> r == "Del"
    ensures key !in {"ArrowLeft", "ArrowRight", "Delete"} ==> r == ToUpper(key)
  {
    if key == "ArrowLeft" then LeftArrowGlyph
    else if key == "ArrowRight" then RightArrowGlyph
    else if key == "Delete" then "Del"
    else ToUpper(key)
  }

  /** Normalising a field that is already normalised changes nothing. */
  lemma NormalizeIdempotent(input: string)
    ensures NormalizeShortcutInput(NormalizeShortcutInput(input)) == NormalizeShortcutInput(input)
  {
    var value := ToLower(input);
    var r := NormalizeLowered(value);
    if r == LeftArrowGlyph || r == RightArrowGlyph {
      LowerOfLowerCase(r);
    } else if r == "Del" {
      LowerOfDel();
    } else {
      LowerHasNoUpper(input);
      LowerOfUpperOfLowerCase(value);
    }
  }

  /**
   * Opening the settings and saving them unchanged keeps every shortcut: the
   * three named keys, and any key name with no capital letter that is not
   * itself one of the displayed forms.
   */
  lemma SaveDisplayRoundTrip(key: string, default: string)
    requires key == "ArrowLeft" || key == "ArrowRight" || key == "Delete"
      || (key != [] && NoUpperAscii(key) && key != LeftArrowGlyph && key != RightArrowGlyph && key != "del")
    ensures ShortcutValue(ShortcutDisplay(key), default) == key
  {
    if key == "ArrowLeft" {
      LowerOfLowerCase(LeftArrowGlyph);
    } else if key == "ArrowRight" {
      LowerOfLowerCase(RightArrowGlyph);
    } else if key == "Delete" {
      LowerOfDel();
    } else {
      LowerOfUpperOfLowerCase(key);
    }
  }

  /**
   * What a typed field is saved as: the arrow words and glyphs become the arrow
   * key names, "del" and "delete" become "Delete", and other text is saved
   * lower-cased, or replaced by the default when empty.
   */
  lemma TypedShortcutSaved(input: string, default: string)
    ensures var value := ToLower(input);
      ShortcutValue(NormalizeShortcutInput(input), default)
        == if value == LeftArrowGlyph || value == "left" then "ArrowLeft"
           else if value == RightArrowGlyph || value == "right" then "ArrowRight"
           else if value == "del" || value == "delete" then "Delete"
           else if value == [] then default
           else value
  {
    var value := ToLower(input);
    var r := NormalizeLowered(value);
    if r == LeftArrowGlyph || r == RightArrowGlyph {
      LowerOfLowerCase(r);
    } else if r == "Del" {
      LowerOfDel();
    } else {
      LowerHasNoUpper(input);
      LowerOfUpperOfLowerCase(value);
    }
  }
}
