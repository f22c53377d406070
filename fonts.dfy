/** The font classifier: the generic CSS family of a font, and the
    `font-style` a local font gets from its name and its italic flag.

    The renderer asks a poppler `GfxFont` for these attributes; here they are an
    immutable record filled in by the caller.
 */
module Fonts {

  datatype Option<T> = None | Some(value: T)

  /** The attributes of a font that the style rules read. */
  datatype FontInfo = FontInfo(
    isFixedWidth: bool,
    isSerif: bool,
    isBold: bool,
    isItalic: bool,
    ascent: real,
    descent: real)

  /** `general_font_family`: fixed width wins over serif, sans-serif is the
      default. */
  function GenericFamily(font: FontInfo): (family: string)
    ensures family == "monospace" <==> font.isFixedWidth
    ensures family == "serif" <==> !font.isFixedWidth && font.isSerif
    ensures family == "sans-serif" <==> !font.isFixedWidth && !font.isSerif
  {
    if font.isFixedWidth then "monospace"
    else if font.isSerif then "serif"
    else "sans-serif"
  }

  /** Case folding of one character as the C locale's `toupper` does it
      (ASCII letters only). */
  function ToUpper(c: char): char
  {
    if 'a' <= c <= 'z' then (c as int - 32) as char else c
  }

  /** `pat` occurs in `s` at position `k`, ignoring letter case. */
  predicate IEqualAt(s: string, pat: string, k: int)
  {
    0 <= k && k + |pat| <= |s| &&
    forall j :: 0 <= j < |pat| ==> ToUpper(s[k + j]) == ToUpper(pat[j])
  }

  /** `s` contains the non-empty `pat` somewhere, ignoring letter case. */
  ghost predicate IContains(s: string, pat: string)
  {
    pat != [] && exists k :: IEqualAt(s, pat, k)
  }

  /** The first case-insensitive occurrence of `pat` at or after `k`. */
  function IFindFrom(s: string, pat: string, k: nat): (r: Option<nat>)
    requires k <= |s|
    ensures r.Some? ==> k <= r.value && IEqualAt(s, pat, r.value)
    ensures r.Some? ==> forall i :: k <= i < r.value ==> !IEqualAt(s, pat, i)
    ensures r.None? ==> forall i :: k <= i ==> !IEqualAt(s, pat, i)
    decreases |s| - k
  {
    if k + |pat| > |s| then None
    else if IEqualAt(s, pat, k) then Some(k)
    else IFindFrom(s, pat, k + 1)
  }

  /** `boost::algorithm::ifind_first`, reduced to where the match starts:
      the first case-insensitive occurrence, and none for an empty pattern. */
  function IFindFirst(s: string, pat: string): (r: Option<nat>)
    ensures r.Some? <==> IContains(s, pat)
    ensures r.Some? ==> IEqualAt(s, pat, r.value)
    ensures r.Some? ==> forall i :: 0 <= i < r.value ==> !IEqualAt(s, pat, i)
  {
    if pat == [] then None else IFindFrom(s, pat, 0)
  }

  /** The `font-style` of a local font, if any: a name mentioning "oblique"
      in any letter case wins over the italic flag. */
  function FontStyle(name: string, isItalic: bool): (style: Option<string>)
    ensures style == Some("oblique") <==> IContains(name, "oblique")
    ensures style == Some("italic") <==> !IContains(name, "oblique") && isItalic
    ensures style == None <==> !IContains(name, "oblique") && !isItalic
  {
    if IFindFirst(name, "oblique").Some? then Some("oblique")
    else if isItalic then Some("italic")
    else None
  }

  /** The `font-family` value of a local font: the CSS name when there is one,
      else the original name followed by the generic family. */
  function FamilyValue(font: FontInfo, originalName: string, cssFont: string): string
  {
    if cssFont == "" then originalName + "," + GenericFamily(font) else cssFont
  }

  /** Concrete cases: the hint is found in any letter case and overrides the
      italic flag; a name too short to hold it leaves the flag in charge. */
  lemma FontStyleExamples()
    ensures FontStyle("Helvetica-Oblique", false) == Some("oblique")
    ensures FontStyle("COURIER-OBLIQUE", true) == Some("oblique")
    ensures FontStyle("Times", true) == Some("italic")
    ensures FontStyle("Times", false) == None
  {
    assert IEqualAt("Helvetica-Oblique", "oblique", 10);
    assert IEqualAt("COURIER-OBLIQUE", "oblique", 8);
  }
}
