/** Geometry shared by the font and transform rules: the baseline ratio derived
    from a font's vertical metrics, and the conversion of a PDF text matrix into
    the coordinate system of a web page (y grows downwards there).

    Coordinates and metrics are `double`s in the renderer; they are modelled as
    `real`, so rounding is not modelled.
 */
module Geometry {

  /** `_is_positive`, modelled as an exact comparison with zero. */
  predicate IsPositive(x: real)
  {
    x > 0.0
  }

  /** The baseline ratio `r` of a font with ascent `a` and descent `d`: the
      share of the vertical extent `a - d` that lies above the baseline, or 1.0
      when that extent is not positive (no division happens then). */
  function Ratio(a: real, d: real): (r: real)
    ensures IsPositive(a - d) ==> r * (a - d) == a
    ensures !IsPositive(a - d) ==> r == 1.0
  {
    if IsPositive(a - d) then a / (a - d) else 1.0
  }

  /** For an ordinary font, with the baseline between the descent and the
      ascent, the ratio is a fraction from 0 to 1. */
  lemma RatioIsFraction(a: real, d: real)
    requires d <= 0.0 <= a
    ensures 0.0 <= Ratio(a, d) <= 1.0
  {
    var e := a - d;
    if IsPositive(e) {
      var r := Ratio(a, d);
      assert r * e == a;
      if r < 0.0 {
        PositiveProduct(-r, e);
      }
      if r > 1.0 {
        PositiveProduct(r - 1.0, e);
      }
    }
  }

  lemma PositiveProduct(x: real, y: real)
    requires x > 0.0 && y > 0.0
    ensures x * y > 0.0
  {
  }

  /** The ratio only depends on the metrics through their shares: scaling both
      metrics by a positive factor (a different font size) keeps it. */
  lemma RatioScaleInvariant(a: real, d: real, k: real)
    requires k > 0.0
    ensures Ratio(k * a, k * d) == Ratio(a, d)
  {
    assert k * a - k * d == k * (a - d);
    if IsPositive(a - d) {
      assert IsPositive(k * (a - d));
      var r := Ratio(k * a, k * d);
      assert r * (k * (a - d)) == k * a;
      assert k * (r * (a - d)) == k * a;
      assert r * (a - d) == a;
      assert r == a / (a - d);
    } else {
      assert !IsPositive(k * (a - d));
    }
  }

  /** A PDF text matrix `[a b c d e f]`: the point (x, y) maps to
      (a*x + c*y + e, b*x + d*y + f). */
  type Matrix = m: seq<real> | |m| == 6 witness [1.0, 0.0, 0.0, 1.0, 0.0, 0.0]

  const IdMatrix: Matrix := [1.0, 0.0, 0.0, 1.0, 0.0, 0.0]

  /** `_tm_equal`, modelled as exact equality of the six coefficients. */
  predicate TmEqual(m1: Matrix, m2: Matrix)
  {
    forall i :: 0 <= i < 6 ==> m1[i] == m2[i]
  }

  /** The image of the point (x, y) under `m`. */
  function Apply(m: Matrix, x: real, y: real): (real, real)
  {
    (m[0] * x + m[2] * y + m[4], m[1] * x + m[3] * y + m[5])
  }

  /** The matrix written into a web transform: b, c and f are negated. */
  function FlipMatrix(m: Matrix): Matrix
  {
    [m[0], -m[1], -m[2], m[3], m[4], -m[5]]
  }

  /** What the flip means: mirroring the y axis before and after the PDF map
      is the same as applying the flipped matrix, so the flipped matrix places
      every point where the PDF matrix does, seen in page coordinates with the
      y axis pointing down. */
  lemma FlipMirrorsY(m: Matrix, x: real, y: real)
    ensures Apply(FlipMatrix(m), x, -y) == (Apply(m, x, y).0, -Apply(m, x, y).1)
  {
    var f := FlipMatrix(m);
    var p := Apply(m, x, y);
    var q := Apply(f, x, -y);
    assert q.0 == m[0] * x + (-m[2]) * (-y) + m[4];
    assert (-m[2]) * (-y) == m[2] * y;
    assert q.0 == p.0;
    assert q.1 == (-m[1]) * x + m[3] * (-y) + (-m[5]);
    assert q.1 == -p.1;
  }

  /** Flipping twice gives the matrix back. */
  lemma FlipInvolutive(m: Matrix)
    ensures FlipMatrix(FlipMatrix(m)) == m
  {
  }

  /** The identity is its own flip, so testing for it before or after the flip
      is the same test. */
  lemma FlipKeepsIdentity(m: Matrix)
    ensures TmEqual(FlipMatrix(m), IdMatrix) <==> TmEqual(m, IdMatrix)
  {
    var f := FlipMatrix(m);
    if TmEqual(m, IdMatrix) {
      forall i | 0 <= i < 6 ensures f[i] == IdMatrix[i] {
        assert m[i] == IdMatrix[i];
      }
    }
    if TmEqual(f, IdMatrix) {
      forall i | 0 <= i < 6 ensures m[i] == IdMatrix[i] {
        assert f[i] == IdMatrix[i];
      }
    }
  }

  /** The matrix (2, 0, 0, 1, 3, 4) becomes (2, 0, 0, 1, 3, -4). */
  lemma FlipExample()
    ensures FlipMatrix([2.0, 0.0, 0.0, 1.0, 3.0, 4.0]) == [2.0, 0.0, 0.0, 1.0, 3.0, -4.0]
    ensures !TmEqual([2.0, 0.0, 0.0, 1.0, 3.0, 4.0], IdMatrix)
  {
    assert [2.0, 0.0, 0.0, 1.0, 3.0, 4.0][0] != IdMatrix[0];
  }
}
