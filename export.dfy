/** The style-rule serialiser of the HTML renderer (`src/HTMLRenderer/export.cc`).

    Each export appends one CSS rule for a reusable class to the style sheet:
    `f<hex>` font, `s<hex>` font size, `w<hex>` white space, `t<hex>` transform
    matrix, `c<hex>` colour, where `<hex>` is the class index in lowercase
    hexadecimal. The text each export appends is given by a rule function
    below; the lemmas state what those rules contain.

    Numbers of type `double` are written by two formatters the model does not
    look inside: `operator<<` of the style-sheet stream and `boost::format`'s
    `%N%`, which uses a stream of its own with default settings.
 */
module Export {
  import opened Numerals
  import opened Geometry
  import opened Fonts
  import opened Css
  import opened Concat

  /** A colour channel, as `colToByte` delivers it. */
  type Byte = x: int | 0 <= x < 256

  /** The selector of the class for index `id` in the category `letter`. */
  function ClassSelector(letter: char, id: int): string
    requires IsLongLong(id)
  {
    "." + [letter] + IdHex(id)
  }

  /** The family name of an embedded font, also the stem of its file name. */
  function FontName(id: int): string
    requires IsLongLong(id)
  {
    "f" + IdHex(id)
  }

  // ----- the vertical alignment shared by both font rules -----

  function OriginDecl(prefix: string, num: real -> string, r: real): Decl
  {
    Decl(prefix, "transform-origin", "0% " + num(r * 100.0) + "%")
  }

  /** One `transform-origin` per vendor prefix, in the prefix order. */
  function OriginDecls(num: real -> string, r: real): seq<Decl>
  {
    seq(|Prefixes|, i requires 0 <= i < |Prefixes| => OriginDecl(Prefixes[i], num, r))
  }

  function AlignDecls(num: real -> string, font: FontInfo): seq<Decl>
  {
    OriginDecls(num, Ratio(font.ascent, font.descent))
      + [Decl("", "line-height", num(font.ascent - font.descent))]
  }

  // ----- the rules -----

  /** `@font-face` binding the family `f<hex>` to the file `f<hex><suffix>`. */
  function FontFaceRule(id: int, suffix: string, format: string): Rule
    requires IsLongLong(id)
  {
    Rule("@font-face", [
      Decl("", "font-family", FontName(id)),
      Decl("", "src", "url(" + FontName(id) + suffix + ")format(\"" + format + "\")")])
  }

  /** The class rule of an embedded font. */
  function RemoteFontRule(num: real -> string, id: int, font: FontInfo): Rule
    requires IsLongLong(id)
  {
    Rule(ClassSelector('f', id), [Decl("", "font-family", FontName(id))] + AlignDecls(num, font))
  }

  /** What `export_remote_font` appends: both rules on one line. */
  function RemoteFontText(num: real -> string, id: int, suffix: string, format: string, font: FontInfo): string
    requires IsLongLong(id)
  {
    RuleText(FontFaceRule(id, suffix, format)) + RuleText(RemoteFontRule(num, id, font)) + "\n"
  }

  /** The rule for a font that could not be processed: its text stays in the
      page for selection and search but is not drawn. */
  function DefaultFontRule(id: int): Rule
    requires IsLongLong(id)
  {
    Rule(ClassSelector('f', id), [
      Decl("", "font-family", "sans-serif"),
      Decl("", "color", "transparent"),
      Decl("", "visibility", "hidden")])
  }

  function WeightDecls(font: FontInfo): seq<Decl>
  {
    if font.isBold then [Decl("", "font-weight", "bold")] else []
  }

  function StyleDecls(name: string, isItalic: bool): seq<Decl>
  {
    match FontStyle(name, isItalic)
    case None => []
    case Some(style) => [Decl("", "font-style", style)]
  }

  /** The class rule of a font installed on the reader's system. */
  function LocalFontRule(num: real -> string, id: int, font: FontInfo, originalName: string, cssFont: string): Rule
    requires IsLongLong(id)
  {
    Rule(ClassSelector('f', id),
      [Decl("", "font-family", FamilyValue(font, originalName, cssFont))]
        + WeightDecls(font)
        + StyleDecls(originalName, font.isItalic)
        + AlignDecls(num, font))
  }

  function FontSizeRule(num: real -> string, id: int, size: real): Rule
    requires IsLongLong(id)
  {
    Rule(ClassSelector('s', id), [Decl("", "font-size", num(size) + "px")])
  }

  function WhitespaceRule(num: real -> string, id: int, width: real): Rule
    requires IsLongLong(id)
  {
    Rule(ClassSelector('w', id), [Decl("", "width", num(width) + "px")])
  }

  /** The argument of `matrix(...)`; `px` puts units on the translation. */
  function MatrixValue(streamNum: real -> string, formatNum: real -> string, m: Matrix, px: bool): string
  {
    var unit := if px then "px" else "";
    "matrix(" + streamNum(m[0]) + "," + streamNum(m[1]) + "," + streamNum(m[2]) + "," + streamNum(m[3]) + ","
      + formatNum(m[4]) + unit + "," + formatNum(m[5]) + unit + ")"
  }

  function MatrixDecl(streamNum: real -> string, formatNum: real -> string, prefix: string, m: Matrix): Decl
  {
    Decl(prefix, "transform", MatrixValue(streamNum, formatNum, m, prefix == "-moz-"))
  }

  /** No declaration for the identity, else one per vendor prefix, all of the
      matrix converted to page coordinates. */
  function TransformDecls(streamNum: real -> string, formatNum: real -> string, tm: Matrix): seq<Decl>
  {
    if TmEqual(tm, IdMatrix) then []
    else seq(|Prefixes|, i requires 0 <= i < |Prefixes| => MatrixDecl(streamNum, formatNum, Prefixes[i], FlipMatrix(tm)))
  }

  function TransformRule(streamNum: real -> string, formatNum: real -> string, id: int, tm: Matrix): Rule
    requires IsLongLong(id)
  {
    Rule(ClassSelector('t', id), TransformDecls(streamNum, formatNum, tm))
  }

  function ColorValue(r: Byte, g: Byte, b: Byte): string
  {
    "rgb(" + Dec(r) + "," + Dec(g) + "," + Dec(b) + ")"
  }

  function ColorRule(id: int, r: Byte, g: Byte, b: Byte): Rule
    requires IsLongLong(id)
  {
    Rule(ClassSelector('c', id), [Decl("", "color", ColorValue(r, g, b))])
  }

  // ----- selectors -----

  /** Digit strings never hold the separators the rule text uses. */
  lemma DigitsHaveNoSeparator(s: string, base: nat)
    requires 2 <= base <= 16 && AllDigits(s, base)
    ensures '{' !in s && ',' !in s && ')' !in s
  {
    forall i | 0 <= i < |s| ensures s[i] != '{' && s[i] != ',' && s[i] != ')' {
      assert IsDigitOf(s[i], base);
    }
  }

  /** A class selector ends before the first brace of its rule. */
  lemma SelectorHasNoBrace(letter: char, id: int)
    requires IsLongLong(id) && letter != '{'
    ensures '{' !in ClassSelector(letter, id)
  {
    IdHexShape(id);
    DigitsHaveNoSeparator(IdHex(id), 16);
    assert ClassSelector(letter, id) == ['.', letter] + IdHex(id);
  }

  /** Two classes share a selector only if they are the same class of the same
      category: selectors never collide. */
  lemma SelectorInjective(l1: char, i1: int, l2: char, i2: int)
    requires IsLongLong(i1) && IsLongLong(i2)
    ensures ClassSelector(l1, i1) == ClassSelector(l2, i2) <==> l1 == l2 && i1 == i2
  {
    var s1, s2 := ClassSelector(l1, i1), ClassSelector(l2, i2);
    if s1 == s2 {
      assert s1[1] == l1 && s2[1] == l2;
      assert s1[2..] == IdHex(i1) && s2[2..] == IdHex(i2);
      IdHexInjective(i1, i2);
    }
  }

  lemma SelectorText(letter: char, id: int)
    requires IsLongLong(id)
    ensures ClassSelector(letter, id) == ['.', letter] + IdHex(id)
  {
  }

  // ----- font rules -----

  /** The embedded-font rules use one name throughout: the `@font-face` family,
      the start of the file name in its URL, the class name and the family the
      class applies are all `f<hex>`. */
  lemma RemoteFontSharesName(num: real -> string, id: int, suffix: string, format: string, font: FontInfo)
    requires IsLongLong(id)
    ensures var face, rule := FontFaceRule(id, suffix, format), RemoteFontRule(num, id, font);
      face.decls[0] == Decl("", "font-family", "f" + IdHex(id)) &&
      rule.decls[0] == face.decls[0] &&
      rule.selector == "." + face.decls[0].value &&
      face.decls[1].value == "url(" + face.decls[0].value + suffix + ")format(\"" + format + "\")"
  {
  }

  /** The alignment block: exactly five `transform-origin` declarations, one
      per vendor prefix in order, vertical origin at `r * 100` percent of the
      baseline ratio, then one unitless `line-height` of `a - d`. */
  lemma AlignDeclsShape(num: real -> string, font: FontInfo)
    ensures var ds, r := AlignDecls(num, font), Ratio(font.ascent, font.descent);
      |ds| == 6 &&
      (forall i :: 0 <= i < 5 ==>
         ds[i] == Decl(Prefixes[i], "transform-origin", "0% " + num(r * 100.0) + "%")) &&
      ds[5] == Decl("", "line-height", num(font.ascent - font.descent))
  {
  }

  /** Selecting the origins of the alignment block gives all five in prefix
      order. */
  lemma AlignSelectOrigins(num: real -> string, font: FontInfo)
    ensures Select(AlignDecls(num, font), "transform-origin") == OriginDecls(num, Ratio(font.ascent, font.descent))
  {
    BlockSelect(num, Ratio(font.ascent, font.descent), num(font.ascent - font.descent));
  }

  /** Selecting the line height of the alignment block gives the one at its
      end. */
  lemma AlignSelectLineHeight(num: real -> string, font: FontInfo)
    ensures Select(AlignDecls(num, font), "line-height") == [Decl("", "line-height", num(font.ascent - font.descent))]
  {
    BlockSelect(num, Ratio(font.ascent, font.descent), num(font.ascent - font.descent));
  }

  /** The two selections of an alignment block, for any ratio and height. */
  lemma BlockSelect(num: real -> string, r: real, height: string)
    ensures Select(OriginDecls(num, r) + [Decl("", "line-height", height)], "transform-origin") == OriginDecls(num, r)
    ensures Select(OriginDecls(num, r) + [Decl("", "line-height", height)], "line-height") == [Decl("", "line-height", height)]
  {
    var od := OriginDecls(num, r);
    var lh := [Decl("", "line-height", height)];
    OriginsSelect(od, num, r);
    LineHeightSelect(lh, height);
    SelectAppend(od, lh, "transform-origin");
    SelectAppend(od, lh, "line-height");
  }

  lemma OriginsSelect(od: seq<Decl>, num: real -> string, r: real)
    requires od == OriginDecls(num, r)
    ensures Select(od, "transform-origin") == od && Select(od, "line-height") == []
  {
    SelectEvery(od, "transform-origin");
    SelectNone(od, "line-height");
  }

  lemma LineHeightSelect(lh: seq<Decl>, v: string)
    requires lh == [Decl("", "line-height", v)]
    ensures Select(lh, "line-height") == lh && Select(lh, "transform-origin") == []
  {
    assert "line-height" != "transform-origin" by { assert "line-height"[0] != "transform-origin"[0]; }
    SelectEvery(lh, "line-height");
    SelectNone(lh, "transform-origin");
  }

  /** The alignment block sets nothing but origins and the line height. */
  lemma AlignSelectNone(num: real -> string, font: FontInfo, p: string)
    requires p != "transform-origin" && p != "line-height"
    ensures Select(AlignDecls(num, font), p) == []
  {
    var ds := AlignDecls(num, font);
    forall i | 0 <= i < |ds| ensures ds[i].property != p {
      if i < 5 {
        assert ds[i] == OriginDecls(num, Ratio(font.ascent, font.descent))[i];
      }
    }
    SelectNone(ds, p);
  }

  /** The embedded-font class rule sets the family, then the alignment block,
      and no weight or style. */
  lemma RemoteFontShape(num: real -> string, id: int, font: FontInfo)
    requires IsLongLong(id)
    ensures var ds := RemoteFontRule(num, id, font).decls;
      |ds| == 7 &&
      ds[0] == Decl("", "font-family", FontName(id)) &&
      ds[1..] == AlignDecls(num, font) &&
      Select(ds, "transform-origin") == OriginDecls(num, Ratio(font.ascent, font.descent)) &&
      Select(ds, "font-weight") == [] && Select(ds, "font-style") == []
  {
    var head := [Decl("", "font-family", FontName(id))];
    var align := AlignDecls(num, font);
    AlignSelectOrigins(num, font);
    AlignSelectNone(num, font, "font-weight");
    AlignSelectNone(num, font, "font-style");
    SelectAppend(head, align, "transform-origin");
    SelectAppend(head, align, "font-weight");
    SelectAppend(head, align, "font-style");
    assert (head + align)[1..] == align;
  }

  /** The declarations of a local-font rule are the family, the weight, the
      style and the alignment block, so every property other than the family
      is selected from the last three. */
  lemma LocalFontSelect(num: real -> string, id: int, font: FontInfo, originalName: string, cssFont: string, p: string)
    requires IsLongLong(id)
    requires p != "font-family"
    ensures Select(LocalFontRule(num, id, font, originalName, cssFont).decls, p)
      == Select(WeightDecls(font), p) + Select(StyleDecls(originalName, font.isItalic), p) + Select(AlignDecls(num, font), p)
  {
    var head := [Decl("", "font-family", FamilyValue(font, originalName, cssFont))];
    var weight := WeightDecls(font);
    var style := StyleDecls(originalName, font.isItalic);
    var align := AlignDecls(num, font);
    assert LocalFontRule(num, id, font, originalName, cssFont).decls == head + weight + style + align;
    SelectAppend(head + weight + style, align, p);
    SelectAppend(head + weight, style, p);
    SelectAppend(head, weight, p);
    SelectNone(head, p);
  }

  /** The local-font rule starts with the family: the CSS name when there is
      one, else the original name with the generic family as fallback. */
  lemma LocalFontFamily(num: real -> string, id: int, font: FontInfo, originalName: string, cssFont: string)
    requires IsLongLong(id)
    ensures var ds := LocalFontRule(num, id, font, originalName, cssFont).decls;
      |ds| >= 7 &&
      ds[0] == Decl("", "font-family",
        if cssFont == "" then originalName + "," + GenericFamily(font) else cssFont)
  {
  }

  /** `font-weight:bold` is declared once when the font is bold, else never. */
  lemma LocalFontWeight(num: real -> string, id: int, font: FontInfo, originalName: string, cssFont: string)
    requires IsLongLong(id)
    ensures Select(LocalFontRule(num, id, font, originalName, cssFont).decls, "font-weight")
      == if font.isBold then [Decl("", "font-weight", "bold")] else []
  {
    assert "font-weight" != "font-family" by { assert "font-family"[5] != "font-weight"[5]; }
    assert "font-weight" != "line-height" by { assert "font-weight"[0] != "line-height"[0]; }
    LocalFontSelect(num, id, font, originalName, cssFont, "font-weight");
    SelectEvery(WeightDecls(font), "font-weight");
    SelectNone(StyleDecls(originalName, font.isItalic), "font-weight");
    AlignSelectNone(num, font, "font-weight");
  }

  /** At most one `font-style` is declared: oblique whenever the original
      name contains "oblique" in any letter case, whatever the italic flag;
      else italic exactly when the italic flag is set; else none. */
  lemma LocalFontStyle(num: real -> string, id: int, font: FontInfo, originalName: string, cssFont: string)
    requires IsLongLong(id)
    ensures var styles := Select(LocalFontRule(num, id, font, originalName, cssFont).decls, "font-style");
      |styles| <= 1 &&
      (styles == [Decl("", "font-style", "oblique")] <==> IContains(originalName, "oblique")) &&
      (styles == [Decl("", "font-style", "italic")] <==> !IContains(originalName, "oblique") && font.isItalic) &&
      (styles == [] <==> !IContains(originalName, "oblique") && !font.isItalic)
  {
    LocalFontSelect(num, id, font, originalName, cssFont, "font-style");
    SelectNone(WeightDecls(font), "font-style");
    var style := StyleDecls(originalName, font.isItalic);
    SelectEvery(style, "font-style");
    AlignSelectNone(num, font, "font-style");
    assert Select(LocalFontRule(num, id, font, originalName, cssFont).decls, "font-style") == style;
    match FontStyle(originalName, font.isItalic)
    case None =>
    case Some(v) =>
      assert style == [Decl("", "font-style", v)];
  }

  /** The local-font rule ends with the alignment block, and its only
      `transform-origin` declarations are the block's five. */
  lemma LocalFontAlignment(num: real -> string, id: int, font: FontInfo, originalName: string, cssFont: string)
    requires IsLongLong(id)
    ensures var ds := LocalFontRule(num, id, font, originalName, cssFont).decls;
      |ds| >= 6 &&
      ds[|ds| - 6..] == AlignDecls(num, font) &&
      Select(ds, "transform-origin") == OriginDecls(num, Ratio(font.ascent, font.descent))
  {
    var align := AlignDecls(num, font);
    var front := [Decl("", "font-family", FamilyValue(font, originalName, cssFont))]
      + WeightDecls(font) + StyleDecls(originalName, font.isItalic);
    var ds := front + align;
    assert LocalFontRule(num, id, font, originalName, cssFont).decls == ds;
    assert |align| == 6;
    assert ds[|front|..] == align;
    LocalFontSelect(num, id, font, originalName, cssFont, "transform-origin");
    SelectNone(WeightDecls(font), "transform-origin");
    SelectNone(StyleDecls(originalName, font.isItalic), "transform-origin");
    AlignSelectOrigins(num, font);
  }

  /** The weight of a bold local font is written right after its family. */
  lemma LocalFontBoldSecond(num: real -> string, id: int, font: FontInfo, originalName: string, cssFont: string)
    requires IsLongLong(id) && font.isBold
    ensures var ds := LocalFontRule(num, id, font, originalName, cssFont).decls;
      |ds| >= 2 && ds[1] == Decl("", "font-weight", "bold")
  {
    var head := [Decl("", "font-family", FamilyValue(font, originalName, cssFont))];
    var tail := StyleDecls(originalName, font.isItalic) + AlignDecls(num, font);
    assert LocalFontRule(num, id, font, originalName, cssFont).decls == head + WeightDecls(font) + tail;
    assert (head + WeightDecls(font) + tail)[1] == WeightDecls(font)[0];
  }

  /** A bold serif font named "Times" with ascent 0.9 and descent -0.2 and no
      CSS name: the family falls back to "Times,serif", directly followed by
      the bold weight; there is no style, and the origins sit at 9/11 of the
      extent. */
  lemma LocalFontExample(num: real -> string)
    ensures var font := FontInfo(false, true, true, false, 0.9, -0.2);
      var ds := LocalFontRule(num, 1, font, "Times", "").decls;
      ds[0] == Decl("", "font-family", "Times,serif") &&
      ds[1] == Decl("", "font-weight", "bold") &&
      Select(ds, "font-weight") == [Decl("", "font-weight", "bold")] &&
      Select(ds, "font-style") == [] &&
      Select(ds, "transform-origin") == OriginDecls(num, 9.0 / 11.0)
  {
    var font := FontInfo(false, true, true, false, 0.9, -0.2);
    LocalFontFamily(num, 1, font, "Times", "");
    TimesSerif();
    LocalFontWeight(num, 1, font, "Times", "");
    LocalFontBoldSecond(num, 1, font, "Times", "");
    LocalFontStyle(num, 1, font, "Times", "");
    FontStyleExamples();
    LocalFontAlignment(num, 1, font, "Times", "");
    assert Ratio(0.9, -0.2) == 9.0 / 11.0;
  }

  // ----- transform rule -----

  /** The identity matrix gives a rule with an empty body. */
  lemma TransformIdentityEmpty(streamNum: real -> string, formatNum: real -> string, id: int, tm: Matrix)
    requires IsLongLong(id)
    ensures TmEqual(tm, IdMatrix) <==> RuleText(TransformRule(streamNum, formatNum, id, tm)) == ClassSelector('t', id) + "{}"
  {
    var text := RuleText(TransformRule(streamNum, formatNum, id, tm));
    if !TmEqual(tm, IdMatrix) {
      var ds := TransformDecls(streamNum, formatNum, tm);
      assert ds == ds[..4] + [ds[4]];
      assert |DeclsText(ds)| > 0;
      assert |text| > |ClassSelector('t', id) + "{}"|;
    }
  }

  /** Any other matrix gives exactly five `transform` declarations, one per
      vendor prefix in order, each of the matrix with b, c and f negated; the
      third, `-moz-`, and only it, puts `px` on the translation. */
  lemma TransformShape(streamNum: real -> string, formatNum: real -> string, id: int, tm: Matrix)
    requires IsLongLong(id)
    requires !TmEqual(tm, IdMatrix)
    ensures var ds := TransformRule(streamNum, formatNum, id, tm).decls;
      |ds| == 5 &&
      Select(ds, "transform") == ds &&
      forall i :: 0 <= i < 5 ==>
        ds[i].prefix == Prefixes[i] &&
        ds[i].value == MatrixValue(streamNum, formatNum, [tm[0], -tm[1], -tm[2], tm[3], tm[4], -tm[5]], i == 2)
  {
    var ds := TransformRule(streamNum, formatNum, id, tm).decls;
    PrefixesDistinct();
    SelectEvery(ds, "transform");
  }

  // ----- colour rule -----

  /** The colour rule determines its class and its three channels: two colour
      rules have the same text only when they are the same rule. */
  lemma ColorRuleInjective(id1: int, r1: Byte, g1: Byte, b1: Byte, id2: int, r2: Byte, g2: Byte, b2: Byte)
    requires IsLongLong(id1) && IsLongLong(id2)
    ensures RuleText(ColorRule(id1, r1, g1, b1)) == RuleText(ColorRule(id2, r2, g2, b2))
      <==> id1 == id2 && r1 == r2 && g1 == g2 && b1 == b2
  {
    var c1, c2 := ColorRule(id1, r1, g1, b1), ColorRule(id2, r2, g2, b2);
    if RuleText(c1) == RuleText(c2) {
      SelectorHasNoBrace('c', id1);
      SelectorHasNoBrace('c', id2);
      RuleTextSplit(c1, c2);
      SelectorInjective('c', id1, 'c', id2);
      var v1, v2 := ColorValue(r1, g1, b1), ColorValue(r2, g2, b2);
      assert DeclsText(c1.decls) == "color:" + v1 + ";";
      assert DeclsText(c2.decls) == "color:" + v2 + ";";
      assert v1 == DeclsText(c1.decls)[6..|DeclsText(c1.decls)| - 1];
      assert v2 == DeclsText(c2.decls)[6..|DeclsText(c2.decls)| - 1];
      ColorValueInjective(r1, g1, b1, r2, g2, b2);
    }
  }

  /** The channels (255, 0, 128) are written as `rgb(255,0,128)`. */
  lemma ColorValueExample()
    ensures ColorValue(255, 0, 128) == "rgb(255,0,128)"
  {
    assert Dec(25) == "25";
    assert Dec(255) == "255";
    assert Dec(12) == "12";
    assert Dec(128) == "128";
  }

  /** The three channel texts are read back from `rgb(r,g,b)` when none of
      them holds a comma. */
  lemma RgbSplit(r1: string, g1: string, b1: string, r2: string, g2: string, b2: string)
    requires ',' !in r1 && ',' !in r2 && ',' !in g1 && ',' !in g2
    requires "rgb(" + r1 + "," + g1 + "," + b1 + ")" == "rgb(" + r2 + "," + g2 + "," + b2 + ")"
    ensures r1 == r2 && g1 == g2 && b1 == b2
  {
    var t1, t2 := "rgb(" + r1 + "," + g1 + "," + b1 + ")", "rgb(" + r2 + "," + g2 + "," + b2 + ")";
    var u1, u2 := g1 + "," + b1 + ")", g2 + "," + b2 + ")";
    assert t1[4..] == r1 + [','] + u1;
    assert t2[4..] == r2 + [','] + u2;
    SplitAtSeparator(r1, u1, r2, u2, ',');
    assert u1 == g1 + [','] + (b1 + ")");
    assert u2 == g2 + [','] + (b2 + ")");
    SplitAtSeparator(g1, b1 + ")", g2, b2 + ")", ',');
    assert b1 == (b1 + ")")[..|b1|];
    assert b2 == (b2 + ")")[..|b2|];
  }

  lemma ColorValueInjective(r1: Byte, g1: Byte, b1: Byte, r2: Byte, g2: Byte, b2: Byte)
    requires ColorValue(r1, g1, b1) == ColorValue(r2, g2, b2)
    ensures r1 == r2 && g1 == g2 && b1 == b2
  {
    DigitsHaveNoSeparator(Dec(r1), 10);
    DigitsHaveNoSeparator(Dec(r2), 10);
    DigitsHaveNoSeparator(Dec(g1), 10);
    DigitsHaveNoSeparator(Dec(g2), 10);
    RgbSplit(Dec(r1), Dec(g1), Dec(b1), Dec(r2), Dec(g2), Dec(b2));
    NumeralInjective(r1, r2, 10);
    NumeralInjective(g1, g2, 10);
    NumeralInjective(b1, b2, 10);
  }

  // ----- the rules as text -----
  //
  // The lemmas below connect the literal pieces each export appends with the
  // rule functions. Literal strings are merged in the lemmas under "literal
  // facts" below, and concatenations are regrouped with the lemmas of module
  // Concat, so that no proof has to take a long literal apart.

  /** The texts of the fixed-shape rules, exactly as the renderer formats them. */
  lemma FontSizeText(num: real -> string, id: int, size: real)
    requires IsLongLong(id)
    ensures RuleText(FontSizeRule(num, id, size)) == ".s" + IdHex(id) + "{font-size:" + num(size) + "px;}"
  {
    DeclsTextSingle(FontSizeRule(num, id, size).decls[0]);
    SelectorText('s', id);
    RegroupUnit(['.', 's'] + IdHex(id), "{", "", "font-size", ":", num(size), "px", ";", "}");
    UnitLiterals();
  }

  /** Index 10 at size 12.5, with a formatter that writes 12.5 as "12.5". */
  lemma FontSizeExample(num: real -> string)
    requires num(12.5) == "12.5"
    ensures RuleText(FontSizeRule(num, 10, 12.5)) == ".sa{font-size:12.5px;}"
  {
    FontSizeText(num, 10, 12.5);
    IdHexExamples();
    FontSizeExampleLiterals();
  }

  lemma WhitespaceText(num: real -> string, id: int, width: real)
    requires IsLongLong(id)
    ensures RuleText(WhitespaceRule(num, id, width)) == ".w" + IdHex(id) + "{width:" + num(width) + "px;}"
  {
    DeclsTextSingle(WhitespaceRule(num, id, width).decls[0]);
    SelectorText('w', id);
    RegroupUnit(['.', 'w'] + IdHex(id), "{", "", "width", ":", num(width), "px", ";", "}");
    UnitLiterals();
  }

  lemma ColorText(id: int, r: Byte, g: Byte, b: Byte)
    requires IsLongLong(id)
    ensures RuleText(ColorRule(id, r, g, b))
      == ".c" + IdHex(id) + "{color:rgb(" + Dec(r) + "," + Dec(g) + "," + Dec(b) + ");}"
  {
    DeclsTextSingle(ColorRule(id, r, g, b).decls[0]);
    SelectorText('c', id);
    RegroupColor(['.', 'c'] + IdHex(id), "{", "", "color", ":", "rgb(", ",", ")", ";", "}", Dec(r), Dec(g), Dec(b));
    ColorLiterals();
  }

  lemma DefaultFontText(id: int)
    requires IsLongLong(id)
    ensures RuleText(DefaultFontRule(id))
      == ".f" + IdHex(id) + "{font-family:sans-serif;color:transparent;visibility:hidden;}"
  {
    var ds := DefaultFontRule(id).decls;
    DeclsTextThree(ds[0], ds[1], ds[2]);
    assert [ds[0], ds[1], ds[2]] == ds;
    DefaultDeclTexts();
    DefaultBlock();
    SelectorText('f', id);
    Regroup5(".f" + IdHex(id), "{", "font-family:sans-serif;", "color:transparent;", "visibility:hidden;", "}");
  }

  lemma DefaultDeclTexts()
    ensures DeclText(Decl("", "font-family", "sans-serif")) == "font-family:sans-serif;"
    ensures DeclText(Decl("", "color", "transparent")) == "color:transparent;"
    ensures DeclText(Decl("", "visibility", "hidden")) == "visibility:hidden;"
  {
  }

  lemma OriginDeclText(prefix: string, num: real -> string, r: real)
    ensures DeclText(OriginDecl(prefix, num, r)) == prefix + "transform-origin:0% " + num(r * 100.0) + "%;"
  {
  }

  lemma LineHeightText(n: string)
    ensures DeclText(Decl("", "line-height", n)) == "line-height:" + n + ";"
  {
  }

  lemma FamilyText(v: string)
    ensures DeclText(Decl("", "font-family", v)) == "font-family:" + v + ";"
  {
  }

  lemma FontNameText(id: int)
    requires IsLongLong(id)
    ensures DeclText(Decl("", "font-family", FontName(id))) == "font-family:f" + IdHex(id) + ";"
  {
    FamilyText(FontName(id));
    FontNameLiterals();
    AppendAssoc("font-family:", "f", IdHex(id));
  }

  /** The `@font-face` rule of `export_remote_font`, as its format string
      writes it. */
  lemma FontFaceText(id: int, suffix: string, format: string)
    requires IsLongLong(id)
    ensures RuleText(FontFaceRule(id, suffix, format))
      == "@font-face{font-family:f" + IdHex(id) + ";src:url(f" + IdHex(id) + suffix + ")format(\"" + format + "\");}"
  {
    var ds := FontFaceRule(id, suffix, format).decls;
    DeclsTextTwo(ds[0], ds[1]);
    assert [ds[0], ds[1]] == ds;
    RegroupFace("@font-face", "{", "", "font-family", ":", "f", ";", "src", "url(", ")format(\"", "\")", "}",
      IdHex(id), suffix, format);
    FontFaceLiterals();
  }

  /** One `transform` declaration of `export_transform_matrix`, written from
      the unflipped coefficients. */
  lemma MatrixDeclText(streamNum: real -> string, formatNum: real -> string, prefix: string, tm: Matrix)
    ensures DeclText(MatrixDecl(streamNum, formatNum, prefix, FlipMatrix(tm)))
      == (prefix + "transform:matrix("
         + streamNum(tm[0]) + "," + streamNum(-tm[1]) + "," + streamNum(-tm[2]) + "," + streamNum(tm[3]) + ",")
         + (if prefix == "-moz-" then formatNum(tm[4]) + "px," + formatNum(-tm[5]) + "px);"
            else formatNum(tm[4]) + "," + formatNum(-tm[5]) + ");")
  {
    var f := FlipMatrix(tm);
    assert f[0] == tm[0] && f[1] == -tm[1] && f[2] == -tm[2] && f[3] == tm[3] && f[4] == tm[4] && f[5] == -tm[5];
    var unit := if prefix == "-moz-" then "px" else "";
    Regroup14(prefix, "transform", ":", "matrix(",
      streamNum(f[0]), streamNum(f[1]), streamNum(f[2]), streamNum(f[3]), formatNum(f[4]), formatNum(f[5]),
      unit, ",", ")", ";");
    MatrixLiterals();
  }

  /** The loop step shared by both font exports: the `transform-origin`
      written for the `i`-th prefix is the next declaration of the block. */
  lemma OriginStep(num: real -> string, r: real, i: nat, start: string, before: string)
    requires i < |Prefixes|
    requires before == start + DeclsText(OriginDecls(num, r)[..i])
    ensures before + (Prefixes[i] + "transform-origin:0% " + num(r * 100.0) + "%;")
      == start + DeclsText(OriginDecls(num, r)[..i + 1])
  {
    var origins := OriginDecls(num, r);
    OriginDeclText(Prefixes[i], num, r);
    DeclsTextSnoc(origins[..i], origins[i], start, before, Prefixes[i] + "transform-origin:0% " + num(r * 100.0) + "%;");
    assert origins[..i + 1] == origins[..i] + [origins[i]];
  }

  /** The `line-height` written after the five origins completes the
      alignment block. */
  lemma LineHeightStep(num: real -> string, font: FontInfo, start: string, before: string)
    requires before == start + DeclsText(OriginDecls(num, Ratio(font.ascent, font.descent))[..|Prefixes|])
    ensures before + ("line-height:" + num(font.ascent - font.descent) + ";")
      == start + DeclsText(AlignDecls(num, font))
  {
    var origins := OriginDecls(num, Ratio(font.ascent, font.descent));
    var lh := Decl("", "line-height", num(font.ascent - font.descent));
    assert origins[..|Prefixes|] == origins;
    LineHeightText(num(font.ascent - font.descent));
    DeclsTextSnoc(origins, lh, start, before, "line-height:" + num(font.ascent - font.descent) + ";");
  }

  /** The alignment block written after the first declarations of a rule
      continues its declaration list. */
  lemma AlignAppended(num: real -> string, font: FontInfo, written: seq<Decl>, start: string, text: string)
    requires text == start + DeclsText(written) + DeclsText(AlignDecls(num, font))
    ensures text == start + DeclsText(written + AlignDecls(num, font))
  {
    DeclsTextAppend(written, AlignDecls(num, font));
    AppendAssoc(start, DeclsText(written), DeclsText(AlignDecls(num, font)));
  }

  /** The opening of `export_remote_font`: its first format string writes the
      `@font-face` rule, the class selector and brace, and the family. */
  lemma RemoteFontOpen(id: int, suffix: string, format: string, font: FontInfo, before: string, face: string, family: string)
    requires IsLongLong(id)
    requires face == "@font-face{font-family:f" + IdHex(id) + ";src:url(f" + IdHex(id) + suffix + ")format(\"" + format + "\");}"
    requires family == "font-family:f" + IdHex(id) + ";"
    ensures before + (face + ".f" + IdHex(id) + "{" + family)
      == before + RuleText(FontFaceRule(id, suffix, format)) + (ClassSelector('f', id) + "{") + DeclsText([Decl("", "font-family", FontName(id))])
  {
    FontFaceText(id, suffix, format);
    SelectorText('f', id);
    FontNameText(id);
    DeclsTextSingle(Decl("", "font-family", FontName(id)));
    RegroupHeader(before, face, ".f" + IdHex(id), "{", family);
  }

  /** The closing brace and line end of `export_remote_font` complete both
      rules. */
  lemma RemoteFontClose(num: real -> string, id: int, suffix: string, format: string, font: FontInfo, before: string, written: string)
    requires IsLongLong(id)
    requires written == before + RuleText(FontFaceRule(id, suffix, format)) + (ClassSelector('f', id) + "{")
      + DeclsText([Decl("", "font-family", FontName(id))] + AlignDecls(num, font))
    ensures written + "}" + "\n" == before + RemoteFontText(num, id, suffix, format, font)
  {
    var faceText := RuleText(FontFaceRule(id, suffix, format));
    var rule := RemoteFontRule(num, id, font);
    CloseRule(before + faceText, ClassSelector('f', id), DeclsText(rule.decls));
    AppendAssoc(before, faceText, RuleText(rule) + "\n");
    AppendAssoc(faceText, RuleText(rule), "\n");
  }

  /** The closing brace and line end of `export_local_font` complete its
      rule, once the family, weight, style and alignment are written. */
  lemma LocalFontClose(num: real -> string, id: int, font: FontInfo, originalName: string, cssFont: string,
                       before: string, front: seq<Decl>, written: string)
    requires IsLongLong(id)
    requires front == [Decl("", "font-family", FamilyValue(font, originalName, cssFont))]
      + WeightDecls(font) + StyleDecls(originalName, font.isItalic)
    requires written == before + (ClassSelector('f', id) + "{") + DeclsText(front + AlignDecls(num, font))
    ensures written + "}" + "\n" == before + RuleText(LocalFontRule(num, id, font, originalName, cssFont)) + "\n"
  {
    CloseRule(before, ClassSelector('f', id), DeclsText(front + AlignDecls(num, font)));
  }

  /** The steps of `export_local_font` before the alignment block: the
      family, then the weight if bold, then the style if any. */
  lemma FamilyStep(family: string, start: string, before: string)
    requires before == start
    ensures before + ("font-family:" + family + ";") == start + DeclsText([Decl("", "font-family", family)])
  {
    FamilyText(family);
    DeclsTextSingle(Decl("", "font-family", family));
  }

  lemma WeightStep(font: FontInfo, written: seq<Decl>, start: string, before: string)
    requires before == start + DeclsText(written)
    ensures font.isBold ==> before + "font-weight:bold;" == start + DeclsText(written + WeightDecls(font))
    ensures !font.isBold ==> before == start + DeclsText(written + WeightDecls(font))
  {
    if font.isBold {
      DeclsTextSnoc(written, Decl("", "font-weight", "bold"), start, before, "font-weight:bold;");
    } else {
      assert written + WeightDecls(font) == written;
    }
  }

  lemma StyleStep(name: string, isItalic: bool, written: seq<Decl>, start: string, before: string)
    requires before == start + DeclsText(written)
    ensures IFindFirst(name, "oblique").Some? ==>
      before + "font-style:oblique;" == start + DeclsText(written + StyleDecls(name, isItalic))
    ensures IFindFirst(name, "oblique").None? && isItalic ==>
      before + "font-style:italic;" == start + DeclsText(written + StyleDecls(name, isItalic))
    ensures IFindFirst(name, "oblique").None? && !isItalic ==>
      before == start + DeclsText(written + StyleDecls(name, isItalic))
  {
    if IFindFirst(name, "oblique").Some? {
      DeclsTextSnoc(written, Decl("", "font-style", "oblique"), start, before, "font-style:oblique;");
    } else if isItalic {
      DeclsTextSnoc(written, Decl("", "font-style", "italic"), start, before, "font-style:italic;");
    } else {
      assert written + StyleDecls(name, isItalic) == written;
    }
  }

  /** The loop step of `export_transform_matrix`: the text written for the
      `i`-th prefix is the next `transform` declaration. */
  lemma TransformStep(streamNum: real -> string, formatNum: real -> string, tm: Matrix, i: nat,
                      head: string, before: string, coefficients: string, translation: string)
    requires !TmEqual(tm, IdMatrix) && i < |Prefixes|
    requires before == head + DeclsText(TransformDecls(streamNum, formatNum, tm)[..i])
    requires DeclText(MatrixDecl(streamNum, formatNum, Prefixes[i], FlipMatrix(tm))) == coefficients + translation
    ensures before + coefficients + translation == head + DeclsText(TransformDecls(streamNum, formatNum, tm)[..i + 1])
  {
    var decls := TransformDecls(streamNum, formatNum, tm);
    assert decls[i] == MatrixDecl(streamNum, formatNum, Prefixes[i], FlipMatrix(tm));
    AppendAssoc(before, coefficients, translation);
    DeclsTextSnoc(decls[..i], decls[i], head, before, coefficients + translation);
    assert decls[..i + 1] == decls[..i] + [decls[i]];
  }

  // ----- literal facts -----
  //
  // Merges of adjacent string literals, each in a lemma of its own so that the
  // solver meets them one at a time. They model nothing by themselves.

  lemma TimesSerif()
    ensures "Times" + "," + "serif" == "Times,serif"
  {
  }

  lemma FontSizeExampleLiterals()
    ensures ".s" + "a" + "{font-size:" + "12.5" + "px;}" == ".sa{font-size:12.5px;}"
  {
  }

  lemma UnitLiterals()
    ensures "{" + "" + "font-size" + ":" == "{font-size:"
    ensures "{" + "" + "width" + ":" == "{width:"
    ensures "px" + ";" + "}" == "px;}"
  {
  }

  lemma ColorLiterals()
    ensures "{" + "" + "color" + ":" + "rgb(" == "{color:rgb("
    ensures ")" + ";" + "}" == ");}"
  {
  }

  lemma DefaultBlock()
    ensures "{" + "font-family:sans-serif;" + "color:transparent;" + "visibility:hidden;" + "}"
      == "{font-family:sans-serif;color:transparent;visibility:hidden;}"
  {
    DefaultBlockOpen();
    DefaultBlockRest();
  }

  lemma DefaultBlockOpen()
    ensures "{" + "font-family:sans-serif;" == "{font-family:sans-serif;"
  {
  }

  lemma DefaultBlockRest()
    ensures "{font-family:sans-serif;" + "color:transparent;" + "visibility:hidden;" + "}"
      == "{font-family:sans-serif;color:transparent;visibility:hidden;}"
  {
  }

  lemma FontNameLiterals()
    ensures "font-family:" + "f" == "font-family:f"
  {
  }

  lemma FontFaceLiterals()
    ensures "@font-face" + "{" + "" + "font-family" + ":" + "f" == "@font-face{font-family:f"
    ensures ";" + "" + "src" + ":" + "url(" + "f" == ";src:url(f"
    ensures "\")" + ";" + "}" == "\");}"
  {
  }

  lemma MatrixLiterals()
    ensures "transform" + ":" + "matrix(" == "transform:matrix("
    ensures ")" + ";" == ");"
    ensures "px" + "," == "px," && "px" + ");" == "px);"
    ensures "" + "," == "," && "" + ");" == ");"
  {
  }

  // ----- the renderer's style sheet -----

  /** The part of the HTML renderer that writes the style sheet: the stream
      `allcss_fout`, seen as the text written to it so far, and the two ways
      it writes a `double`. Every export only appends. */
  class HtmlRenderer {
    var allCss: string
    /** `allcss_fout << x` for a `double` x. */
    const streamNum: real -> string
    /** `boost::format("%1%") % x` for a `double` x. */
    const formatNum: real -> string

    constructor (streamNum: real -> string, formatNum: real -> string)
      ensures allCss == []
      ensures this.streamNum == streamNum && this.formatNum == formatNum
    {
      allCss := [];
      this.streamNum := streamNum;
      this.formatNum := formatNum;
    }

    /** The vertical alignment that both font exports write: one
        `transform-origin` per vendor prefix at the baseline ratio, then the
        line height. */
    method WriteAlignment(font: FontInfo)
      modifies this
      ensures allCss == old(allCss) + DeclsText(AlignDecls(streamNum, font))
    {
      var a := font.ascent;
      var d := font.descent;
      var r := if IsPositive(a - d) then a / (a - d) else 1.0;
      assert r == Ratio(a, d);
      ghost var start := allCss;
      for i := 0 to |Prefixes|
        invariant allCss == start + DeclsText(OriginDecls(streamNum, r)[..i])
      {
        var prefix := Prefixes[i];
        ghost var before := allCss;
        allCss := allCss + (prefix + "transform-origin:0% " + streamNum(r * 100.0) + "%;");
        OriginStep(streamNum, r, i, start, before);
      }
      ghost var before := allCss;
      allCss := allCss + ("line-height:" + streamNum(a - d) + ";");
      LineHeightStep(streamNum, font, start, before);
    }

    method ExportRemoteFont(fnId: int, suffix: string, format: string, font: FontInfo)
      requires IsLongLong(fnId)
      modifies this
      ensures allCss == old(allCss) + RemoteFontText(streamNum, fnId, suffix, format, font)
    {
      var h := IdHex(fnId);
      var face := "@font-face{font-family:f" + h + ";src:url(f" + h + suffix + ")format(\"" + format + "\");}";
      var family := "font-family:f" + h + ";";
      allCss := allCss + (face + ".f" + h + "{" + family);
      ghost var start := old(allCss) + RuleText(FontFaceRule(fnId, suffix, format)) + (ClassSelector('f', fnId) + "{");
      ghost var written := [Decl("", "font-family", FontName(fnId))];
      RemoteFontOpen(fnId, suffix, format, font, old(allCss), face, family);
      WriteAlignment(font);
      AlignAppended(streamNum, font, written, start, allCss);
      ghost var body := allCss;
      allCss := allCss + "}" + "\n";
      RemoteFontClose(streamNum, fnId, suffix, format, font, old(allCss), body);
    }

    method ExportRemoteDefaultFont(fnId: int)
      requires IsLongLong(fnId)
      modifies this
      ensures allCss == old(allCss) + RuleText(DefaultFontRule(fnId)) + "\n"
    {
      allCss := allCss + (".f" + IdHex(fnId) + "{font-family:sans-serif;color:transparent;visibility:hidden;}") + "\n";
      DefaultFontText(fnId);
    }

    method ExportLocalFont(fnId: int, font: FontInfo, originalFontName: string, cssFont: string)
      requires IsLongLong(fnId)
      modifies this
      ensures allCss == old(allCss) + RuleText(LocalFontRule(streamNum, fnId, font, originalFontName, cssFont)) + "\n"
    {
      allCss := allCss + (".f" + IdHex(fnId) + "{");
      SelectorText('f', fnId);
      ghost var start := old(allCss) + (ClassSelector('f', fnId) + "{");
      var family := if cssFont == "" then originalFontName + "," + GenericFamily(font) else cssFont;
      ghost var before := allCss;
      allCss := allCss + ("font-family:" + family + ";");
      ghost var written := [Decl("", "font-family", family)];
      FamilyStep(family, start, before);
      before := allCss;
      WeightStep(font, written, start, before);
      if font.isBold {
        allCss := allCss + "font-weight:bold;";
      }
      written := written + WeightDecls(font);
      before := allCss;
      StyleStep(originalFontName, font.isItalic, written, start, before);
      if IFindFirst(originalFontName, "oblique").Some? {
        allCss := allCss + "font-style:oblique;";
      } else if font.isItalic {
        allCss := allCss + "font-style:italic;";
      }
      written := written + StyleDecls(originalFontName, font.isItalic);
      WriteAlignment(font);
      AlignAppended(streamNum, font, written, start, allCss);
      ghost var body := allCss;
      allCss := allCss + "}" + "\n";
      LocalFontClose(streamNum, fnId, font, originalFontName, cssFont, old(allCss), written, body);
    }

    method ExportFontSize(fsId: int, fontSize: real)
      requires IsLongLong(fsId)
      modifies this
      ensures allCss == old(allCss) + RuleText(FontSizeRule(formatNum, fsId, fontSize)) + "\n"
    {
      allCss := allCss + (".s" + IdHex(fsId) + "{font-size:" + formatNum(fontSize) + "px;}") + "\n";
      FontSizeText(formatNum, fsId, fontSize);
    }

    method ExportWhitespace(wsId: int, wsWidth: real)
      requires IsLongLong(wsId)
      modifies this
      ensures allCss == old(allCss) + RuleText(WhitespaceRule(formatNum, wsId, wsWidth)) + "\n"
    {
      allCss := allCss + (".w" + IdHex(wsId) + "{width:" + formatNum(wsWidth) + "px;}") + "\n";
      WhitespaceText(formatNum, wsId, wsWidth);
    }

    method ExportTransformMatrix(tmId: int, tm: Matrix)
      requires IsLongLong(tmId)
      modifies this
      ensures allCss == old(allCss) + RuleText(TransformRule(streamNum, formatNum, tmId, tm)) + "\n"
    {
      allCss := allCss + (".t" + IdHex(tmId) + "{");
      ghost var decls := TransformDecls(streamNum, formatNum, tm);
      ghost var head := allCss;
      if TmEqual(tm, IdMatrix) {
        // the identity needs no declaration
      } else {
        for i := 0 to |Prefixes|
          invariant allCss == head + DeclsText(decls[..i])
        {
          var prefix := Prefixes[i];
          ghost var before := allCss;
          var coefficients := prefix + "transform:matrix("
            + streamNum(tm[0]) + "," + streamNum(-tm[1]) + "," + streamNum(-tm[2]) + "," + streamNum(tm[3]) + ",";
          allCss := allCss + coefficients;
          var translation;
          if prefix == "-moz-" {
            translation := formatNum(tm[4]) + "px," + formatNum(-tm[5]) + "px);";
          } else {
            translation := formatNum(tm[4]) + "," + formatNum(-tm[5]) + ");";
          }
          allCss := allCss + translation;
          MatrixDeclText(streamNum, formatNum, prefix, tm);
          TransformStep(streamNum, formatNum, tm, i, head, before, coefficients, translation);
        }
        assert decls[..|Prefixes|] == decls;
      }
      assert head + DeclsText(decls) + "}" + "\n"
        == old(allCss) + RuleText(TransformRule(streamNum, formatNum, tmId, tm)) + "\n" by {
        SelectorText('t', tmId);
        CloseRule(old(allCss), ClassSelector('t', tmId), DeclsText(decls));
      }
      allCss := allCss + "}" + "\n";
    }

    method ExportColor(colorId: int, r: Byte, g: Byte, b: Byte)
      requires IsLongLong(colorId)
      modifies this
      ensures allCss == old(allCss) + RuleText(ColorRule(colorId, r, g, b)) + "\n"
    {
      allCss := allCss + (".c" + IdHex(colorId) + "{color:rgb(" + Dec(r) + "," + Dec(g) + "," + Dec(b) + ");}") + "\n";
      ColorText(colorId, r, g, b);
    }
  }
}
