/** Regrouping of string concatenations, stated over abstract pieces.

    The rule texts are built from many literal pieces; these lemmas move the
    parentheses of a concatenation without looking inside the pieces, so that
    no proof about a rule has to take a long literal apart. They model nothing
    of the renderer by themselves.
 */
module Concat {

  lemma AppendAssoc(a: string, b: string, c: string)
    ensures a + b + c == a + (b + c)
  {
  }

  /** A rule written in three steps, selector and brace, body, closing brace
      and line end, is its text followed by the line end. */
  lemma CloseRule(before: string, selector: string, body: string)
    ensures before + (selector + "{") + body + "}" + "\n" == before + (selector + "{" + body + "}") + "\n"
  {
  }

  /** The five pieces of the fallback font rule. */
  lemma Regroup5(a: string, b: string, c: string, d: string, e: string, f: string)
    ensures a + b + (c + d + e) + f == a + (b + c + d + e + f)
  {
  }

  /** The pieces of one `transform` declaration. */
  lemma Regroup14(p: string, l1: string, l2: string, l3: string, a0: string, a1: string, a2: string, a3: string,
                  x4: string, x5: string, u: string, c: string, r: string, s: string)
    ensures p + l1 + l2 + (l3 + a0 + c + a1 + c + a2 + c + a3 + c + x4 + u + c + x5 + u + r) + s
      == (p + (l1 + l2 + l3) + a0 + c + a1 + c + a2 + c + a3 + c) + (x4 + (u + c) + x5 + (u + (r + s)))
  {
  }

  /** Regrouping a one-declaration rule whose value carries a unit. */
  lemma RegroupUnit(selector: string, ob: string, e: string, property: string, co: string, v: string,
                    unit: string, sc: string, cb: string)
    ensures selector + ob + (e + property + co + (v + unit) + sc) + cb
      == selector + (ob + e + property + co) + v + (unit + sc + cb)
  {
  }

  /** The pieces of the colour rule. */
  lemma RegroupColor(selector: string, ob: string, e: string, property: string, co: string, rgb: string,
                     comma: string, cp: string, sc: string, cb: string, r: string, g: string, b: string)
    ensures selector + ob + (e + property + co + (rgb + r + comma + g + comma + b + cp) + sc) + cb
      == selector + (ob + e + property + co + rgb) + r + comma + g + comma + b + (cp + sc + cb)
  {
  }

  /** The pieces of the `@font-face` rule. */
  lemma RegroupFace(l1: string, l2: string, e: string, p1: string, co: string, f: string, sc: string,
                    p2: string, u: string, c: string, q: string, rb: string,
                    h: string, suffix: string, format: string)
    ensures l1 + l2 + ((e + p1 + co + (f + h) + sc) + (e + p2 + co + (u + (f + h) + suffix + c + format + q) + sc)) + rb
      == (l1 + l2 + e + p1 + co + f) + h + (sc + e + p2 + co + u + f) + h + suffix + c + format + (q + sc + rb)
  {
  }

  /** The first text `export_remote_font` writes, split at the class selector. */
  lemma RegroupHeader(before: string, face: string, selector: string, brace: string, family: string)
    ensures before + (face + selector + brace + family) == before + face + (selector + brace) + family
  {
  }
}
