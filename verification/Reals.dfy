/** Products of reals under a name. Lemmas that combine many products say `hide Times`, so that
    inside them a product is a name with the laws below and nothing more. */
module Reals {

  function Times(x: real, y: real): real {
    x * y
  }

  lemma TimesSum(x: real, u: real, v: real)
    ensures Times(x, u + v) == Times(x, u) + Times(x, v)
    ensures Times(u + v, x) == Times(u, x) + Times(v, x)
  {
  }

  lemma TimesDifference(x: real, u: real, v: real)
    ensures Times(x, u - v) == Times(x, u) - Times(x, v)
    ensures Times(u - v, x) == Times(u, x) - Times(v, x)
  {
  }

  lemma TimesCommutes(x: real, y: real)
    ensures Times(x, y) == Times(y, x)
  {
  }

  lemma TimesAssociates(x: real, u: real, v: real)
    ensures Times(x, Times(u, v)) == Times(Times(x, u), v)
    ensures Times(x, Times(u, v)) == Times(u, Times(x, v))
  {
  }

  lemma TimesUnits(x: real)
    ensures Times(0.0, x) == 0.0 && Times(x, 0.0) == 0.0
    ensures Times(1.0, x) == x && Times(x, 1.0) == x
    ensures Times(-1.0, x) == -x && Times(x, -1.0) == -x
  {
  }

  lemma TimesZero(x: real, y: real)
    ensures Times(x, y) == 0.0 <==> x == 0.0 || y == 0.0
  {
  }

  lemma TimesSign(x: real, y: real)
    ensures x > 0.0 && y > 0.0 ==> Times(x, y) > 0.0
    ensures x >= 0.0 && y >= 0.0 ==> Times(x, y) >= 0.0
    ensures x >= 0.0 && y <= 0.0 ==> Times(x, y) <= 0.0
    ensures x > 0.0 && y < 0.0 ==> Times(x, y) < 0.0
    ensures x < 0.0 && y > 0.0 ==> Times(x, y) < 0.0
    ensures x < 0.0 && y < 0.0 ==> Times(x, y) > 0.0
  {
  }

  /** x to the n. */
  function Power(x: real, n: nat): real {
    if n == 0 then 1.0 else Times(x, Power(x, n - 1))
  }
}
