/** Cosine similarity and L2 normalisation of lib/tools/embedding.js, over exact reals. */
module Cosine {
  import opened Options
  import opened Reals

  type Vec = seq<real>

  /** `sqrt` is any function with the two laws of the square root. */
  ghost predicate IsSqrt(sqrt: real -> real) {
    forall x :: x >= 0.0 ==> sqrt(x) >= 0.0 && Times(sqrt(x), sqrt(x)) == x
  }

  function Dot(a: Vec, b: Vec): real
    requires |a| == |b|
  {
    if a == [] then 0.0
    else Dot(a[..|a| - 1], b[..|b| - 1]) + Times(a[|a| - 1], b[|b| - 1])
  }

  /** The product of the two norms. */
  function Norms(a: Vec, b: Vec, sqrt: real -> real): real {
    Times(sqrt(Dot(a, a)), sqrt(Dot(b, b)))
  }

  datatype Mismatch = Mismatch(left: nat, right: nat)

  /** A zero vector scores 0; otherwise the score is the dot product over the norms. It always lies in [-1, 1]. */
  method CosineSimilarity(a: Vec, b: Vec, sqrt: real -> real) returns (r: Result<real, Mismatch>)
    requires IsSqrt(sqrt)
    ensures r.Err? <==> |a| != |b|
    ensures r.Ok? ==>
      && -1.0 <= r.value <= 1.0
      && (Norms(a, b, sqrt) == 0.0 <==> Dot(a, a) == 0.0 || Dot(b, b) == 0.0)
      && (Norms(a, b, sqrt) == 0.0 ==> r.value == 0.0)
      && Times(r.value, Norms(a, b, sqrt)) == Dot(a, b)
      && (r.value >= 0.0 <==> Dot(a, b) >= 0.0)
  {
    if |a| != |b| {
      return Err(Mismatch(|a|, |b|));
    }
    var dotProduct, normA, normB := 0.0, 0.0, 0.0;
    for i := 0 to |a|
      invariant dotProduct == Dot(a[..i], b[..i]) && normA == Dot(a[..i], a[..i]) && normB == Dot(b[..i], b[..i])
    {
      assert a[..i + 1][..i] == a[..i] && b[..i + 1][..i] == b[..i];
      dotProduct := dotProduct + Times(a[i], b[i]);
      normA := normA + Times(a[i], a[i]);
      normB := normB + Times(b[i], b[i]);
    }
    assert a[..|a|] == a && b[..|b|] == b;
    NormsVanish(a, b, sqrt);
    var denominator := Times(sqrt(normA), sqrt(normB));
    if denominator == 0.0 {
      ZeroNormsZeroDot(a, b);
      TimesZero(0.0, Norms(a, b, sqrt));
      return Ok(0.0);
    }
    var score := dotProduct / denominator;
    ScoreInRange(a, b, sqrt, score);
    TimesSign(score, Norms(a, b, sqrt));
    TimesZero(score, Norms(a, b, sqrt));
    r := Ok(score);
  }

  // ---------------------------------------------------------------- Cauchy-Schwarz

  /** p²A + 2pqD + q²B */
  function Form(p: real, q: real, aa: real, ab: real, bb: real): real {
    p * p * aa + 2.0 * p * q * ab + q * q * bb
  }

  lemma FormStep(aa: real, ab: real, bb: real, p: real, q: real, x: real, y: real)
    ensures Form(p, q, aa + Times(x, x), ab + Times(x, y), bb + Times(y, y))
            == Form(p, q, aa, ab, bb) + Times(p * x + q * y, p * x + q * y)
  {
  }

  /** The squared norm of p a + q b, written in the three dot products, is not negative. */
  lemma {:induction false} FormNonNegative(a: Vec, b: Vec, p: real, q: real)
    requires |a| == |b|
    ensures Form(p, q, Dot(a, a), Dot(a, b), Dot(b, b)) >= 0.0
  {
    if a != [] {
      var x, y := a[|a| - 1], b[|b| - 1];
      var a', b' := a[..|a| - 1], b[..|b| - 1];
      FormNonNegative(a', b', p, q);
      FormStep(Dot(a', a'), Dot(a', b'), Dot(b', b'), p, q, x, y);
      SquareSign(p * x + q * y);
    }
  }

  lemma {:induction false} NormNonNegative(a: Vec)
    ensures Dot(a, a) >= 0.0
  {
    if a != [] {
      NormNonNegative(a[..|a| - 1]);
      SquareSign(a[|a| - 1]);
    }
  }

  lemma {:induction false} ZeroNormZeroDot(a: Vec, b: Vec)
    requires |a| == |b| && Dot(a, a) == 0.0
    ensures Dot(a, b) == 0.0 && Dot(b, a) == 0.0
  {
    if a != [] {
      NormNonNegative(a[..|a| - 1]);
      SquareSign(a[|a| - 1]);
      TimesZero(a[|a| - 1], b[|b| - 1]);
      ZeroNormZeroDot(a[..|a| - 1], b[..|b| - 1]);
    }
  }

  lemma {:induction false} DotSymmetric(a: Vec, b: Vec)
    requires |a| == |b|
    ensures Dot(a, b) == Dot(b, a)
  {
    if a != [] {
      DotSymmetric(a[..|a| - 1], b[..|b| - 1]);
      assert Times(a[|a| - 1], b[|b| - 1]) == Times(b[|b| - 1], a[|a| - 1]);
    }
  }

  lemma ZeroNormsZeroDot(a: Vec, b: Vec)
    requires |a| == |b| && (Dot(a, a) == 0.0 || Dot(b, b) == 0.0)
    ensures Dot(a, b) == 0.0
  {
    if Dot(a, a) == 0.0 { ZeroNormZeroDot(a, b); } else { ZeroNormZeroDot(b, a); }
  }

  lemma Discriminant(aa: real, ab: real, bb: real)
    ensures Form(-ab, aa, aa, ab, bb) == Times(Times(aa, bb) - Times(ab, ab), aa)
  {
  }

  lemma CauchySchwarz(a: Vec, b: Vec)
    requires |a| == |b|
    ensures Times(Dot(a, b), Dot(a, b)) <= Times(Dot(a, a), Dot(b, b))
  {
    var aa, ab, bb := Dot(a, a), Dot(a, b), Dot(b, b);
    NormNonNegative(a);
    if aa == 0.0 {
      ZeroNormZeroDot(a, b);
      TimesZero(ab, ab);
      TimesZero(aa, bb);
    } else {
      FormNonNegative(a, b, -ab, aa);
      Discriminant(aa, ab, bb);
      TimesSign(Times(aa, bb) - Times(ab, ab), aa);
    }
  }

  lemma Root(x: real, sqrt: real -> real)
    requires IsSqrt(sqrt) && x >= 0.0
    ensures sqrt(x) >= 0.0 && Times(sqrt(x), sqrt(x)) == x && (sqrt(x) == 0.0 <==> x == 0.0)
  {
    SquareSign(sqrt(x));
  }

  /** The norms are never negative, and their product vanishes only with a zero vector. */
  lemma NormsVanish(a: Vec, b: Vec, sqrt: real -> real)
    requires IsSqrt(sqrt)
    ensures Norms(a, b, sqrt) >= 0.0
    ensures Norms(a, b, sqrt) == 0.0 <==> Dot(a, a) == 0.0 || Dot(b, b) == 0.0
  {
    NormNonNegative(a);
    NormNonNegative(b);
    Root(Dot(a, a), sqrt);
    Root(Dot(b, b), sqrt);
    ProductSign(sqrt(Dot(a, a)), sqrt(Dot(b, b)));
  }

  lemma SquareOfProduct(s: real, t: real)
    ensures Times(Times(s, t), Times(s, t)) == Times(Times(s, s), Times(t, t))
  {
  }

  lemma DifferenceOfSquares(d: real, m: real)
    ensures Times(m - d, m + d) == Times(m, m) - Times(d, d)
  {
  }

  lemma SmallerSquare(d: real, m: real)
    requires m > 0.0 && Times(d, d) <= Times(m, m)
    ensures -m <= d <= m
  {
    DifferenceOfSquares(d, m);
    assert Times(m + d, m - d) == Times(m - d, m + d);
    if d > m { TimesSign(m - d, m + d); }
    if d < -m { TimesSign(m + d, m - d); }
  }

  lemma Quotient(d: real, m: real)
    requires m > 0.0
    ensures Times(d / m, m) == d
    ensures -m <= d <= m ==> -1.0 <= d / m <= 1.0
  {
    var v := d / m;
    assert Times(v, m) == d;
    TimesSign(1.0 - v, m);
    TimesSign(v + 1.0, m);
    assert Times(1.0 - v, m) == m - d && Times(v + 1.0, m) == d + m;
  }

  lemma ScoreInRange(a: Vec, b: Vec, sqrt: real -> real, score: real)
    requires IsSqrt(sqrt) && |a| == |b| && Norms(a, b, sqrt) != 0.0 && score == Dot(a, b) / Norms(a, b, sqrt)
    ensures -1.0 <= score <= 1.0 && Times(score, Norms(a, b, sqrt)) == Dot(a, b)
  {
    NormNonNegative(a);
    NormNonNegative(b);
    Root(Dot(a, a), sqrt);
    Root(Dot(b, b), sqrt);
    NormsVanish(a, b, sqrt);
    CauchySchwarz(a, b);
    SquareOfProduct(sqrt(Dot(a, a)), sqrt(Dot(b, b)));
    SmallerSquare(Dot(a, b), Norms(a, b, sqrt));
    Quotient(Dot(a, b), Norms(a, b, sqrt));
  }

  // ---------------------------------------------------------------- normalisation

  function Scale(v: Vec, k: real): (r: Vec)
    requires k != 0.0
    ensures |r| == |v|
  {
    seq(|v|, i requires 0 <= i < |v| => v[i] / k)
  }

  function NormalizeL2(v: Vec, sqrt: real -> real): (r: Vec)
    ensures |r| == |v|
  {
    var norm := sqrt(Dot(v, v));
    if norm == 0.0 then v else Scale(v, norm)
  }

  /** Every component shrinks by the norm, keeping its sign; a zero vector is left alone. */
  lemma NormalizedComponents(v: Vec, sqrt: real -> real, i: nat)
    requires IsSqrt(sqrt) && i < |v|
    ensures Dot(v, v) == 0.0 ==> NormalizeL2(v, sqrt) == v
    ensures Dot(v, v) != 0.0 ==> Times(NormalizeL2(v, sqrt)[i], sqrt(Dot(v, v))) == v[i]
  {
    NormNonNegative(v);
    Root(Dot(v, v), sqrt);
    if Dot(v, v) != 0.0 {
      var u := NormalizeL2(v, sqrt)[i];
      assert u == v[i] / sqrt(Dot(v, v));
    }
  }

  lemma {:induction false} DotScaled(a: Vec, b: Vec, k: real, m: real)
    requires |a| == |b| && k != 0.0 && m != 0.0
    ensures Times(Dot(Scale(a, k), Scale(b, m)), Times(k, m)) == Dot(a, b)
  {
    if a == [] {
      TimesZero(0.0, Times(k, m));
    } else {
      var a', b' := a[..|a| - 1], b[..|b| - 1];
      DotScaled(a', b', k, m);
      assert Scale(a, k)[..|a| - 1] == Scale(a', k) && Scale(b, m)[..|b| - 1] == Scale(b', m);
      TermScaled(Dot(Scale(a', k), Scale(b', m)), a[|a| - 1], b[|b| - 1], k, m);
    }
  }

  lemma TermScaled(d: real, x: real, y: real, k: real, m: real)
    requires k != 0.0 && m != 0.0
    ensures Times(d + Times(x / k, y / m), Times(k, m)) == Times(d, Times(k, m)) + Times(x, y)
  {
    var u, v := x / k, y / m;
    assert Times(u, k) == x && Times(v, m) == y;
    assert Times(d + Times(u, v), Times(k, m)) == Times(d, Times(k, m)) + Times(Times(u, k), Times(v, m));
  }

  /** A non-zero vector is normalised to unit norm. */
  lemma NormalizedHasUnitNorm(v: Vec, sqrt: real -> real)
    requires IsSqrt(sqrt) && Dot(v, v) != 0.0
    ensures Dot(NormalizeL2(v, sqrt), NormalizeL2(v, sqrt)) == 1.0
  {
    NormNonNegative(v);
    Root(Dot(v, v), sqrt);
    var norm := sqrt(Dot(v, v));
    DotScaled(v, v, norm, norm);
    assert Times(1.0, Dot(v, v)) == Dot(v, v);
    Cancel(Dot(Scale(v, norm), Scale(v, norm)), 1.0, Dot(v, v));
  }

  /** For non-zero vectors the score is the plain dot product of the normalised vectors. */
  lemma ScoreIsNormalizedDot(a: Vec, b: Vec, sqrt: real -> real, score: real)
    requires IsSqrt(sqrt) && |a| == |b| && Dot(a, a) != 0.0 && Dot(b, b) != 0.0
    requires Times(score, Norms(a, b, sqrt)) == Dot(a, b)
    ensures score == Dot(NormalizeL2(a, sqrt), NormalizeL2(b, sqrt))
  {
    NormNonNegative(a);
    NormNonNegative(b);
    Root(Dot(a, a), sqrt);
    Root(Dot(b, b), sqrt);
    NormsVanish(a, b, sqrt);
    DotScaled(a, b, sqrt(Dot(a, a)), sqrt(Dot(b, b)));
    Cancel(score, Dot(NormalizeL2(a, sqrt), NormalizeL2(b, sqrt)), Norms(a, b, sqrt));
  }

  // ---------------------------------------------------------------- what the ends of the range mean

  /** Opposite vectors score -1: the documented range from 0 up is not kept. */
  lemma OppositesScoreMinusOne(sqrt: real -> real, score: real)
    requires IsSqrt(sqrt) && Times(score, Norms([1.0], [-1.0], sqrt)) == Dot([1.0], [-1.0])
    ensures score == -1.0
  {
    var a, b: Vec := [1.0], [-1.0];
    assert a[..0] == [] && b[..0] == [];
    assert Dot(a, b) == -1.0 && Dot(a, a) == 1.0 && Dot(b, b) == 1.0;
    Root(1.0, sqrt);
    assert Times(score, 1.0) == score;
  }

  /** `Form(1, -1, ..)` is the squared distance of the two vectors: it vanishes only when they are equal. */
  lemma {:induction false} ZeroDistance(a: Vec, b: Vec)
    requires |a| == |b| && Form(1.0, -1.0, Dot(a, a), Dot(a, b), Dot(b, b)) == 0.0
    ensures a == b
  {
    if a != [] {
      var x, y := a[|a| - 1], b[|b| - 1];
      var a', b' := a[..|a| - 1], b[..|b| - 1];
      FormNonNegative(a', b', 1.0, -1.0);
      FormStep(Dot(a', a'), Dot(a', b'), Dot(b', b'), 1.0, -1.0, x, y);
      SquareSign(1.0 * x + -1.0 * y);
      ZeroDistance(a', b');
      assert a == a' + [x] && b == b' + [y];
    }
  }

  /** A score of 1 does not mean equal vectors, but equal directions: exactly then the normalised vectors coincide. */
  lemma ScoreOneIffSameDirection(a: Vec, b: Vec, sqrt: real -> real, score: real)
    requires IsSqrt(sqrt) && |a| == |b| && Dot(a, a) != 0.0 && Dot(b, b) != 0.0
    requires Times(score, Norms(a, b, sqrt)) == Dot(a, b)
    ensures score == 1.0 <==> NormalizeL2(a, sqrt) == NormalizeL2(b, sqrt)
  {
    var u, v := NormalizeL2(a, sqrt), NormalizeL2(b, sqrt);
    ScoreIsNormalizedDot(a, b, sqrt, score);
    NormalizedHasUnitNorm(a, sqrt);
    NormalizedHasUnitNorm(b, sqrt);
    if score == 1.0 {
      assert Form(1.0, -1.0, Dot(u, u), Dot(u, v), Dot(v, v)) == 0.0;
      ZeroDistance(u, v);
    }
  }
}
