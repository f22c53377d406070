/** CSS text as the renderer writes it: a rule is a selector and a block of
    declarations, each declaration `prefix property:value;`, with no spaces.
 */
module Css {
  import opened Concat

  /** One declaration; `prefix` is a vendor prefix such as "-moz-", or "". */
  datatype Decl = Decl(prefix: string, property: string, value: string)

  datatype Rule = Rule(selector: string, decls: seq<Decl>)

  /** The vendor prefixes of the transform declarations, in writing order. */
  const Prefixes: seq<string> := ["", "-ms-", "-moz-", "-webkit-", "-o-"]

  /** The prefix list holds five distinct prefixes, "-moz-" third and only
      there, so exactly one declaration of each per-prefix group takes the
      Gecko spelling. */
  lemma PrefixesDistinct()
    ensures |Prefixes| == 5
    ensures forall i, j :: 0 <= i < j < |Prefixes| ==> Prefixes[i] != Prefixes[j]
    ensures forall i :: 0 <= i < |Prefixes| ==> (Prefixes[i] == "-moz-" <==> i == 2)
  {
    assert forall i :: 0 <= i < |Prefixes| ==> |Prefixes[i]| == [0, 4, 5, 8, 3][i];
  }

  function DeclText(d: Decl): string
  {
    d.prefix + d.property + ":" + d.value + ";"
  }

  /** The declarations written one after another, in order. */
  function DeclsText(ds: seq<Decl>): string
  {
    if ds == [] then "" else DeclsText(ds[..|ds| - 1]) + DeclText(ds[|ds| - 1])
  }

  function RuleText(r: Rule): string
  {
    r.selector + "{" + DeclsText(r.decls) + "}"
  }

  lemma DeclsTextSingle(d: Decl)
    ensures DeclsText([d]) == DeclText(d)
  {
    assert [d][..0] == [];
  }

  /** Writing one more declaration appends its text. */
  lemma DeclsTextLast(ds: seq<Decl>, d: Decl)
    ensures DeclsText(ds + [d]) == DeclsText(ds) + DeclText(d)
  {
    assert (ds + [d])[..|ds|] == ds;
  }

  /** Writing two lists of declarations is writing the first, then the second. */
  lemma {:induction false} DeclsTextAppend(a: seq<Decl>, b: seq<Decl>)
    ensures DeclsText(a + b) == DeclsText(a) + DeclsText(b)
    decreases |b|
  {
    if b == [] {
      assert a + b == a;
    } else {
      var b', x := b[..|b| - 1], b[|b| - 1];
      assert a + b == (a + b') + [x];
      assert b == b' + [x];
      DeclsTextAppend(a, b');
      DeclsTextLast(a + b', x);
      DeclsTextLast(b', x);
      AppendAssoc(DeclsText(a), DeclsText(b'), DeclText(x));
    }
  }

  lemma DeclsTextTwo(a: Decl, b: Decl)
    ensures DeclsText([a, b]) == DeclText(a) + DeclText(b)
  {
    assert [a, b][..1] == [a];
    DeclsTextSingle(a);
  }

  lemma DeclsTextThree(a: Decl, b: Decl, c: Decl)
    ensures DeclsText([a, b, c]) == DeclText(a) + DeclText(b) + DeclText(c)
  {
    assert [a, b, c][..2] == [a, b];
    assert [a, b][..1] == [a];
    DeclsTextSingle(a);
  }

  /** Writing the text of one more declaration extends the text of a list. */
  lemma DeclsTextSnoc(ds: seq<Decl>, d: Decl, head: string, before: string, text: string)
    requires before == head + DeclsText(ds)
    requires DeclText(d) == text
    ensures before + text == head + DeclsText(ds + [d])
  {
    DeclsTextLast(ds, d);
    AppendAssoc(head, DeclsText(ds), text);
  }

  /** The declarations of `ds` that set `property`, in their order. */
  function Select(ds: seq<Decl>, property: string): (r: seq<Decl>)
    ensures |r| <= |ds|
    ensures forall i :: 0 <= i < |r| ==> r[i].property == property && r[i] in ds
  {
    if ds == [] then []
    else
      var rest := Select(ds[..|ds| - 1], property);
      if ds[|ds| - 1].property == property then rest + [ds[|ds| - 1]] else rest
  }

  /** Selecting from two lists is selecting from each. */
  lemma {:induction false} SelectAppend(a: seq<Decl>, b: seq<Decl>, property: string)
    ensures Select(a + b, property) == Select(a, property) + Select(b, property)
    decreases |b|
  {
    if b == [] {
      assert a + b == a;
    } else {
      var b' := b[..|b| - 1];
      assert (a + b)[..|a + b| - 1] == a + b';
      assert (a + b)[|a + b| - 1] == b[|b| - 1];
      SelectAppend(a, b', property);
    }
  }

  /** A list whose every declaration sets `property` is all selected. */
  lemma {:induction false} SelectEvery(ds: seq<Decl>, property: string)
    requires forall i :: 0 <= i < |ds| ==> ds[i].property == property
    ensures Select(ds, property) == ds
    decreases |ds|
  {
    if ds != [] {
      SelectEvery(ds[..|ds| - 1], property);
      assert ds[..|ds| - 1] + [ds[|ds| - 1]] == ds;
    }
  }

  /** A list in which no declaration sets `property` selects nothing. */
  lemma {:induction false} SelectNone(ds: seq<Decl>, property: string)
    requires forall i :: 0 <= i < |ds| ==> ds[i].property != property
    ensures Select(ds, property) == []
    decreases |ds|
  {
    if ds != [] {
      SelectNone(ds[..|ds| - 1], property);
    }
  }

  lemma CharAt(x: string, c: char, y: string, i: nat)
    requires i <= |x|
    ensures (x + [c] + y)[i] == c <==> i == |x| || x[i] == c
  {
  }

  /** Cutting two texts at the first occurrence of a separator `c`: equal
      texts have equal parts. */
  lemma SplitAtSeparator(x: string, y: string, x': string, y': string, c: char)
    requires c !in x && c !in x'
    requires x + [c] + y == x' + [c] + y'
    ensures x == x' && y == y'
  {
    var t, t' := x + [c] + y, x' + [c] + y';
    var m := if |x| < |x'| then |x| else |x'|;
    CharAt(x, c, y, m);
    CharAt(x', c, y', m);
    assert x == t[..|x|] && x' == t'[..|x'|];
    assert y == t[|x| + 1..] && y' == t'[|x'| + 1..];
  }

  /** A selector without a brace is read back from the text of its rule, and
      so is the declaration block. */
  lemma RuleTextSplit(r1: Rule, r2: Rule)
    requires '{' !in r1.selector && '{' !in r2.selector
    requires RuleText(r1) == RuleText(r2)
    ensures r1.selector == r2.selector
    ensures DeclsText(r1.decls) == DeclsText(r2.decls)
  {
    var b1, b2 := DeclsText(r1.decls) + "}", DeclsText(r2.decls) + "}";
    assert RuleText(r1) == r1.selector + ['{'] + b1;
    assert RuleText(r2) == r2.selector + ['{'] + b2;
    SplitAtSeparator(r1.selector, b1, r2.selector, b2, '{');
    assert DeclsText(r1.decls) == b1[..|b1| - 1];
    assert DeclsText(r2.decls) == b2[..|b2| - 1];
  }
}
