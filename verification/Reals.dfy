/** Products of reals under a name, so that the solver reasons about them as wholes, and the sign laws they obey. */
module Reals {
  function Times(x: real, y: real): real {
    x * y
  }

  lemma TimesSign(f: real, w: real)
    requires w > 0.0
    ensures f > 0.0 ==> Times(f, w) > 0.0
    ensures f < 0.0 ==> Times(f, w) < 0.0
  {
  }

  lemma TimesZero(x: real, y: real)
    ensures x == 0.0 ==> Times(x, y) == 0.0 && Times(y, x) == 0.0
  {
  }

  lemma TimesNegated(x: real)
    ensures Times(x, -x) == -Times(x, x)
  {
  }

  lemma SquareSign(x: real)
    ensures Times(x, x) >= 0.0 && (Times(x, x) == 0.0 <==> x == 0.0)
  {
    TimesZero(x, x);
    if x > 0.0 {
      TimesSign(x, x);
    } else if x < 0.0 {
      TimesSign(x, -x);
      TimesNegated(x);
    }
  }

  lemma ProductSign(s: real, t: real)
    requires s >= 0.0 && t >= 0.0
    ensures Times(s, t) >= 0.0 && (Times(s, t) == 0.0 <==> s == 0.0 || t == 0.0)
  {
    TimesZero(s, t);
    TimesZero(t, s);
    if t > 0.0 { TimesSign(s, t); }
  }

  lemma TimesMonotone(x: real, y: real, w: real)
    requires x <= y && w >= 0.0
    ensures Times(x, w) <= Times(y, w)
  {
    assert Times(y - x, w) == Times(y, w) - Times(x, w);
    if w > 0.0 {
      TimesSign(y - x, w);
    } else {
      TimesZero(w, x);
      TimesZero(w, y);
    }
  }

  lemma Cancel(d: real, e: real, w: real)
    requires w > 0.0 && Times(d, w) == Times(e, w)
    ensures d == e
  {
    TimesSign(d - e, w);
    assert Times(d - e, w) == Times(d, w) - Times(e, w);
  }
}
