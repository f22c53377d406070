# pdf2htmlEX style-rule serialiser, modelled in Dafny

This project models `src/HTMLRenderer/export.cc` of pdf2htmlEX. That file is
the part of the HTML renderer that writes the reusable CSS classes of a
converted document into the style sheet `allcss_fout`. Each `export_*` member
takes a style index (a `long long`) and the attribute values. It appends one
line holding the rule for the class: `f<hex>` for a font, `s<hex>` for a font
size, `w<hex>` for white space, `t<hex>` for a transform matrix and `c<hex>`
for a colour.

Modules:

- `Numerals` (numerals.dfy): positional numerals in any base from 2 to 16. It
  proves that they are a bijection between naturals and canonical digit
  strings. It also defines the hex text of a `long long` style index.
- `Geometry` (geometry.dfy): the baseline ratio of a font, and the flip of a
  PDF text matrix into page coordinates.
- `Fonts` (fonts.dfy): the generic font family, case-insensitive search
  (`ifind_first`), and the `font-style` rule.
- `Css` (css.dfy): declarations and rules as values, and their text. It also
  holds the vendor-prefix list and the selection of declarations by property.
- `Concat` (concat.dfy): regrouping of string concatenations over abstract
  pieces, which the text proofs use; it models nothing by itself.
- `Export` (export.dfy):
  - one rule function per export, and lemmas about what each rule contains;
  - the text each export appends;
  - the class `HtmlRenderer`. Its field `allCss` is the style sheet written so
    far. Each export method is proved to append exactly the text of its rule
    and a line end, leaving earlier text unchanged.

Numbers of type `double` are written in two ways. One is `operator<<` of the
stream; the other is `boost::format`'s `%N%`, which formats on a stream of its
own. The model gives the renderer two formatter functions, `streamNum` and
`formatNum`, and uses the same one the source uses at each place:

- `streamNum` writes the origins `r*100`, the line height `a-d`, and the
  matrix coefficients `tm[0]` to `tm[3]`;
- `formatNum` writes the font size, the white-space width, and the
  translation `tm[4]`, `-tm[5]`.

Two points of export.cc the model keeps as written:

- The `line-height` value is written without a unit (export.cc:50, 93).
- Style indices are `long long`, and `%x` writes a negative one as its 64-bit
  two's-complement pattern. The model covers the whole `long long` range; it
  does not require a non-negative index.

## Model

| member | source | states |
|---|---|---|
| `Numerals.Hex` | src/HTMLRenderer/export.cc:39 | The lowercase hex numeral of a natural; see `Numeral`, `ValueOfNumeral`, `NumeralOfValue`. |
| `Numerals.Dec` | src/HTMLRenderer/export.cc:140-141 | The decimal numeral of a colour channel; see `NumeralInjective`, `ColorValueInjective`. |
| `Geometry.IsPositive` | src/HTMLRenderer/export.cc:43 | `_is_positive` as `x > 0.0`; see `Ratio`. |
| `Geometry.TmEqual` | src/HTMLRenderer/export.cc:114 | `_tm_equal` as equality of all six coefficients; see `TransformIdentityEmpty`, `FlipKeepsIdentity`. |
| `Geometry.IdMatrix` | src/HTMLRenderer/export.cc:114 | The identity `[1 0 0 1 0 0]` the transform export compares with; see `TransformIdentityEmpty`. |
| `Geometry.FlipMatrix` | src/HTMLRenderer/export.cc:123-132 | The matrix written into a web transform, with b, c and f negated; see `FlipMirrorsY`, `FlipInvolutive`, `FlipKeepsIdentity`. |
| `Fonts.FamilyValue` | src/HTMLRenderer/export.cc:74 | The `font-family` value of a local font; see `LocalFontFamily`. |
| `Css.Prefixes` | src/HTMLRenderer/export.cc:45 | The five vendor prefixes in writing order, the same at lines 45, 88 and 120; see `PrefixesDistinct`. |
| `Css.DeclText` | src/HTMLRenderer/export.cc:47 | The text `prefix property:value;` of one declaration, as every format string writes it; see `OriginDeclText`, `MatrixDeclText`. |
| `Css.DeclsText` | src/HTMLRenderer/export.cc:45-50 | The texts of a declaration list in order; see `DeclsTextAppend`. |
| `Css.RuleText` | src/HTMLRenderer/export.cc:101 | The text `selector{declarations}` of a rule; see `RuleTextSplit` and the `*Text` lemmas of Export. |
| `Export.ClassSelector` | src/HTMLRenderer/export.cc:27-34 | The selector `.<letter><hex>` of a class; see `SelectorInjective`, `SelectorHasNoBrace`. |
| `Export.FontName` | src/HTMLRenderer/export.cc:39 | The family name `f<hex>` of an embedded font; see `RemoteFontSharesName`. |
| `Export.OriginDecls` | src/HTMLRenderer/export.cc:45-48 | The five per-prefix `transform-origin` declarations; see `AlignSelectOrigins`, `OriginStep`. |
| `Export.AlignDecls` | src/HTMLRenderer/export.cc:45-50 | The alignment block, origins then line height; see `AlignDeclsShape`, `AlignSelectLineHeight`, `AlignSelectNone`. |
| `Export.FontFaceRule` | src/HTMLRenderer/export.cc:39 | The `@font-face` rule of an embedded font; see `FontFaceText`, `RemoteFontSharesName`. |
| `Export.RemoteFontRule` | src/HTMLRenderer/export.cc:39-52 | The class rule of an embedded font; see `RemoteFontShape`. |
| `Export.RemoteFontText` | src/HTMLRenderer/export.cc:39-52 | The two rules and line end `export_remote_font` writes; see `ExportRemoteFont`, `RemoteFontClose`. |
| `Export.DefaultFontRule` | src/HTMLRenderer/export.cc:68 | The fallback font rule; see `DefaultFontText`. |
| `Export.WeightDecls` | src/HTMLRenderer/export.cc:76-77 | The weight declaration of a bold font, none otherwise; see `LocalFontWeight`, `WeightStep`. |
| `Export.StyleDecls` | src/HTMLRenderer/export.cc:79-82 | The style declaration `FontStyle` chooses, if any; see `LocalFontStyle`, `StyleStep`. |
| `Export.LocalFontRule` | src/HTMLRenderer/export.cc:71-95 | The class rule of a local font; see `LocalFontSelect`, `LocalFontFamily`, `LocalFontWeight`, `LocalFontStyle`, `LocalFontAlignment`, `LocalFontExample`. |
| `Export.FontSizeRule` | src/HTMLRenderer/export.cc:101 | The font-size rule; see `FontSizeText`, `FontSizeExample`. |
| `Export.WhitespaceRule` | src/HTMLRenderer/export.cc:106 | The white-space rule; see `WhitespaceText`. |
| `Export.MatrixValue` | src/HTMLRenderer/export.cc:123-132 | The argument of `matrix(...)`, with `px` on the translation when asked; see `MatrixDeclText`, `TransformShape`. |
| `Export.MatrixDecl` | src/HTMLRenderer/export.cc:123-132 | One prefixed `transform` declaration, with `px` exactly for `-moz-`; see `MatrixDeclText`, `TransformShape`. |
| `Export.TransformDecls` | src/HTMLRenderer/export.cc:114-133 | No declaration for the identity, else one per prefix of the flipped matrix; see `TransformIdentityEmpty`, `TransformShape`, `TransformStep`. |
| `Export.TransformRule` | src/HTMLRenderer/export.cc:111-135 | The transform rule; see `TransformIdentityEmpty`, `TransformShape`. |
| `Export.ColorValue` | src/HTMLRenderer/export.cc:140-141 | The text `rgb(r,g,b)` with decimal channels; see `ColorValueInjective`, `ColorValueExample`. |
| `Export.ColorRule` | src/HTMLRenderer/export.cc:140-142 | The colour rule; see `ColorText`, `ColorRuleInjective`. |
| `Numerals.Numeral` | src/HTMLRenderer/export.cc:39 | The numeral of a number is a canonical digit string in its base, and it starts with '0' exactly for zero. |
| `Numerals.ValueOfNumeral` | src/HTMLRenderer/export.cc:39 | Reading a rendered numeral back gives the number. |
| `Numerals.NumeralOfValue` | src/HTMLRenderer/export.cc:39 | Every canonical digit string is the numeral of the number it denotes, so rendering is onto the canonical strings. |
| `Numerals.NumeralInjective` | src/HTMLRenderer/export.cc:140-141 | Distinct numbers get distinct numerals; used for the decimal colour channels. |
| `Numerals.NumeralLength` | src/HTMLRenderer/export.cc:39 | A number below base^k has at most k digits. |
| `Numerals.IdHex` | src/HTMLRenderer/export.cc:39 | The `%x` text of an index is the hex numeral of the index, or of index + 2^64 for a negative index. |
| `Numerals.IdHexShape` | src/HTMLRenderer/export.cc:27-34 | Every index is written with 1 to 16 lowercase hex digits, with no leading zero. |
| `Numerals.IdHexInjective` | src/HTMLRenderer/export.cc:27-34 | Two indices have the same hex text only if they are equal. |
| `Numerals.IdHexExamples` | src/HTMLRenderer/export.cc:68 | Index 10 is written "a", 255 is "ff", and -1 is "ffffffffffffffff". |
| `Geometry.Ratio` | src/HTMLRenderer/export.cc:41-43 | When the extent a-d is positive, the ratio times the extent equals the ascent; otherwise the ratio is exactly 1.0 and no division happens. |
| `Geometry.RatioIsFraction` | src/HTMLRenderer/export.cc:84-86 | With the descent at or below 0 and the ascent at or above 0, the ratio lies between 0 and 1. |
| `Geometry.RatioScaleInvariant` | src/HTMLRenderer/export.cc:41-43 | Scaling both metrics by a positive factor keeps the ratio. |
| `Geometry.FlipMirrorsY` | src/HTMLRenderer/export.cc:122-127 | The matrix with b, c and f negated maps the mirrored point (x, -y) to the mirrored image of (x, y). |
| `Geometry.FlipInvolutive` | src/HTMLRenderer/export.cc:123-132 | Negating b, c and f twice gives the matrix back. |
| `Geometry.FlipKeepsIdentity` | src/HTMLRenderer/export.cc:114 | The flipped matrix is the identity exactly when the matrix is. |
| `Geometry.FlipExample` | src/HTMLRenderer/export.cc:114-132 | (2,0,0,1,3,4) is not the identity, and it flips to (2,0,0,1,3,-4). |
| `Fonts.GenericFamily` | src/HTMLRenderer/export.cc:55-63 | "monospace" exactly when fixed width, whatever the serif flag; "serif" exactly when serif and not fixed width; "sans-serif" exactly when neither. |
| `Fonts.IFindFrom` | src/HTMLRenderer/export.cc:79 | The result is the first case-insensitive occurrence at or after k, or none exists. |
| `Fonts.IFindFirst` | src/HTMLRenderer/export.cc:79 | A match is found exactly when the name contains the non-empty pattern in some letter case, and it is the first occurrence. |
| `Fonts.FontStyle` | src/HTMLRenderer/export.cc:79-82 | Oblique exactly when the name contains "oblique" in any case; italic exactly when it does not and the italic flag is set; none otherwise. |
| `Fonts.FontStyleExamples` | src/HTMLRenderer/export.cc:79-82 | "Helvetica-Oblique" and "COURIER-OBLIQUE" are oblique, the second even with the italic flag set; "Times" follows the italic flag. |
| `Css.PrefixesDistinct` | src/HTMLRenderer/export.cc:120 | The five vendor prefixes are distinct, and "-moz-" is the third and only there. |
| `Css.DeclsTextAppend` | src/HTMLRenderer/export.cc:45-50 | Writing two declaration lists one after the other writes the text of their concatenation. |
| `Css.SelectAppend` | src/HTMLRenderer/export.cc:73-93 | Selecting declarations by property distributes over concatenation. |
| `Css.RuleTextSplit` | src/HTMLRenderer/export.cc:140 | From the text of a rule whose selector has no brace, the selector and the declaration text are read back. |
| `Export.SelectorHasNoBrace` | src/HTMLRenderer/export.cc:111 | A class selector `.<letter><hex>` holds no '{'. |
| `Export.SelectorInjective` | src/HTMLRenderer/export.cc:27-34 | Two selectors are equal exactly when they have the same letter and the same index. |
| `Export.RemoteFontSharesName` | src/HTMLRenderer/export.cc:39 | The `@font-face` family, the stem of the URL, the class and the family the class applies are all `f<hex>` of the same index. |
| `Export.AlignDeclsShape` | src/HTMLRenderer/export.cc:45-50 | The alignment block is five `transform-origin:0% <r*100>%` declarations, in prefix order, then one unitless `line-height` of a-d. |
| `Export.AlignSelectOrigins` | src/HTMLRenderer/export.cc:45-48 | The origins of the alignment block are exactly the five per-prefix origins. |
| `Export.AlignSelectLineHeight` | src/HTMLRenderer/export.cc:50 | The alignment block declares exactly one `line-height`. |
| `Export.AlignSelectNone` | src/HTMLRenderer/export.cc:45-50 | The alignment block declares no property other than the origin and the line height. |
| `Export.RemoteFontShape` | src/HTMLRenderer/export.cc:39-52 | The class rule of an embedded font has seven declarations: the family, then the alignment block; it sets no weight or style. |
| `Export.LocalFontSelect` | src/HTMLRenderer/export.cc:73-95 | Any property other than the family is selected from the weight, the style and the alignment block, in that order. |
| `Export.LocalFontFamily` | src/HTMLRenderer/export.cc:74 | The first declaration is the family: the CSS name if it is non-empty, else the original name, a comma, and the generic family. |
| `Export.LocalFontWeight` | src/HTMLRenderer/export.cc:76-77 | `font-weight:bold` is declared once when the font is bold, and never otherwise. |
| `Export.LocalFontStyle` | src/HTMLRenderer/export.cc:79-82 | At most one `font-style` is declared: oblique iff the name contains "oblique" in any case; italic iff it does not and the font is italic; none iff neither. |
| `Export.LocalFontAlignment` | src/HTMLRenderer/export.cc:84-95 | The rule ends with the alignment block, and its only origins are the block's five. |
| `Export.LocalFontBoldSecond` | src/HTMLRenderer/export.cc:74-77 | For a bold font the second declaration, right after the family, is `font-weight:bold`. |
| `Export.LocalFontExample` | src/HTMLRenderer/export.cc:71-95 | A bold serif "Times" with ascent 0.9 and descent -0.2 gets family "Times,serif" directly followed by `font-weight:bold`, which is its only weight, no style, and origins at ratio 9/11. |
| `Export.TransformIdentityEmpty` | src/HTMLRenderer/export.cc:111-135 | The transform rule text is `.t<hex>{}` exactly when the matrix is the identity. |
| `Export.TransformShape` | src/HTMLRenderer/export.cc:120-133 | Otherwise there are five `transform` declarations, one per prefix in order, each of (tm0, -tm1, -tm2, tm3, tm4, -tm5); only the third, `-moz-`, puts `px` on the translation. |
| `Export.ColorRuleInjective` | src/HTMLRenderer/export.cc:140-142 | Two colour rules have the same text exactly when they have the same index and the same three channels. |
| `Export.ColorValueInjective` | src/HTMLRenderer/export.cc:140-141 | `rgb(r,g,b)` determines its three channels. |
| `Export.ColorValueExample` | src/HTMLRenderer/export.cc:140-141 | The channels (255, 0, 128) are written `rgb(255,0,128)`. |
| `Export.FontSizeText` | src/HTMLRenderer/export.cc:101 | The font-size rule is `.s<hex>{font-size:<v>px;}`. |
| `Export.FontSizeExample` | src/HTMLRenderer/export.cc:101 | Index 10 at size 12.5 gives `.sa{font-size:12.5px;}` when 12.5 is formatted "12.5". |
| `Export.WhitespaceText` | src/HTMLRenderer/export.cc:106 | The white-space rule is `.w<hex>{width:<v>px;}`. |
| `Export.ColorText` | src/HTMLRenderer/export.cc:140-142 | The colour rule is `.c<hex>{color:rgb(<r>,<g>,<b>);}` with decimal channels. |
| `Export.DefaultFontText` | src/HTMLRenderer/export.cc:68 | The fallback font rule is `.f<hex>{font-family:sans-serif;color:transparent;visibility:hidden;}`. |
| `Export.FontFaceText` | src/HTMLRenderer/export.cc:39 | The `@font-face` rule is `@font-face{font-family:f<hex>;src:url(f<hex><suffix>)format("<format>");}`. |
| `Export.OriginDeclText` | src/HTMLRenderer/export.cc:47 | One origin declaration is `<prefix>transform-origin:0% <r*100>%;`. |
| `Export.MatrixDeclText` | src/HTMLRenderer/export.cc:123-132 | One transform declaration is `<prefix>transform:matrix(tm0,-tm1,-tm2,tm3,` followed by `tm4px,-tm5px);` for `-moz-` and `tm4,-tm5);` otherwise. |
| `Export.OriginStep` | src/HTMLRenderer/export.cc:45-48 | The origin written for the i-th prefix extends the text of the first i origins to the first i+1. |
| `Export.LineHeightStep` | src/HTMLRenderer/export.cc:50 | The line height written after the five origins completes the alignment block. |
| `Export.RemoteFontOpen` | src/HTMLRenderer/export.cc:39 | The first format string of `export_remote_font` is the `@font-face` rule, then the class selector, a brace, and the family declaration. |
| `Export.RemoteFontClose` | src/HTMLRenderer/export.cc:52 | The closing brace and line end complete both rules of the embedded font. |
| `Export.FamilyStep` | src/HTMLRenderer/export.cc:74 | The family text written is the first declaration of the local-font rule. |
| `Export.WeightStep` | src/HTMLRenderer/export.cc:76-77 | `font-weight:bold;` is written for a bold font and nothing otherwise, and either way the weight declarations are written. |
| `Export.StyleStep` | src/HTMLRenderer/export.cc:79-82 | Each of the three style branches writes the text of the style declaration that `FontStyle` chose. |
| `Export.LocalFontClose` | src/HTMLRenderer/export.cc:95 | The closing brace and line end complete the local-font rule. |
| `Export.TransformStep` | src/HTMLRenderer/export.cc:120-133 | The text written for the i-th prefix extends the text of the first i transform declarations to the first i+1. |
| `Export.HtmlRenderer.WriteAlignment` | src/HTMLRenderer/export.cc:41-50 | Appends the text of the alignment block for the font to the style sheet and changes nothing else. |
| `Export.HtmlRenderer.ExportRemoteFont` | src/HTMLRenderer/export.cc:37-53 | Appends the `@font-face` rule and the class rule of the embedded font, then a line end; earlier text is kept. |
| `Export.HtmlRenderer.ExportRemoteDefaultFont` | src/HTMLRenderer/export.cc:66-69 | Appends the text of the fallback font rule and a line end. |
| `Export.HtmlRenderer.ExportLocalFont` | src/HTMLRenderer/export.cc:71-96 | Appends the text of the local-font rule and a line end. |
| `Export.HtmlRenderer.ExportFontSize` | src/HTMLRenderer/export.cc:99-102 | Appends the text of the font-size rule and a line end. |
| `Export.HtmlRenderer.ExportWhitespace` | src/HTMLRenderer/export.cc:104-107 | Appends the text of the white-space rule and a line end. |
| `Export.HtmlRenderer.ExportTransformMatrix` | src/HTMLRenderer/export.cc:109-136 | Appends the text of the transform rule, with an empty body for the identity, and a line end. |
| `Export.HtmlRenderer.ExportColor` | src/HTMLRenderer/export.cc:138-143 | Appends the text of the colour rule and a line end. |

## Left out

- Poppler's `GfxFont` queries (`isFixedWidth`, `isSerif`, `isBold`, `isItalic`, `getAscent`, `getDescent`): the font is an immutable record `FontInfo` passed in by the caller.
- `colToByte`: the colour channels are taken as integers from 0 to 255 (`Byte`).
- `_is_positive`, `_tm_equal` and `id_matrix` are defined in `HTMLRenderer.h`, which is not part of this model. They are modelled as exact comparisons over `real` (`x > 0.0`, equality of all six coefficients) with the identity `[1 0 0 1 0 0]`. Any tolerance they may use is not modelled.
- Floating point: `double` values are `real`, so rounding in `a/(a-d)`, `r*100.0` and `a-d` is not modelled.
- Decimal text of a `double`: the two formatters `streamNum` and `formatNum` are uninterpreted functions with no assumed digits. The text of a negative zero (`-tm[1]` when `tm[1]` is 0) is therefore not distinguished from zero.
- The file stream: `allcss_fout` is the text written so far. Flushing by `endl` and write errors are not modelled; `endl` is a `"\n"`.
- The callers of these members: which index a style value receives, and when each export is called, are decided outside this file.
- `ifind_first` is reduced to where its first match starts, with letter case folded as ASCII (the C locale). Case folding of non-ASCII characters is not modelled.
- `Export.HtmlRenderer.WriteAlignment` is one method for the alignment block, which the source writes out twice, at export.cc:41-52 and 84-95. Both font exports call it.
