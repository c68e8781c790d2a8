/** Vectors in space, by their coordinates. */
module Vectors {
  import opened Reals

  datatype V = V(x: real, y: real, z: real)

  const ORIGIN := V(0.0, 0.0, 0.0)

  function Dot(a: V, b: V): real {
    a.x * b.x + a.y * b.y + a.z * b.z
  }

  function Add(a: V, b: V): V {
    V(a.x + b.x, a.y + b.y, a.z + b.z)
  }

  function Sub(a: V, b: V): V {
    V(a.x - b.x, a.y - b.y, a.z - b.z)
  }

  function Scale(a: V, k: real): V {
    V(a.x * k, a.y * k, a.z * k)
  }

  function Cross(a: V, b: V): V {
    V(a.y * b.z - a.z * b.y, a.z * b.x - a.x * b.z, a.x * b.y - a.y * b.x)
  }

  lemma DotAdd(a: V, b: V, c: V)
    ensures Dot(Add(a, b), c) == Dot(a, c) + Dot(b, c) && Dot(c, Add(a, b)) == Dot(c, a) + Dot(c, b)
  {
  }

  lemma DotSub(a: V, b: V, c: V)
    ensures Dot(Sub(a, b), c) == Dot(a, c) - Dot(b, c) && Dot(c, Sub(a, b)) == Dot(c, a) - Dot(c, b)
  {
  }

  lemma DotScale(a: V, k: real, c: V)
    ensures Dot(Scale(a, k), c) == k * Dot(a, c) && Dot(c, Scale(a, k)) == k * Dot(c, a)
  {
    assert a.x * k * c.x == k * (a.x * c.x);
    assert a.y * k * c.y == k * (a.y * c.y);
    assert a.z * k * c.z == k * (a.z * c.z);
  }

  lemma DotCommutes(a: V, b: V)
    ensures Dot(a, b) == Dot(b, a)
  {
  }

  lemma SquareSign(x: real)
    ensures x * x >= 0.0 && (x * x == 0.0 <==> x == 0.0)
  {
    TimesSign(x, x);
  }

  lemma DotSelf(a: V)
    ensures Dot(a, a) >= 0.0 && (Dot(a, a) == 0.0 <==> a == ORIGIN)
  {
    SquareSign(a.x);
    SquareSign(a.y);
    SquareSign(a.z);
  }

  lemma SubOrigin(a: V, b: V)
    ensures Sub(a, b) == ORIGIN <==> a == b
  {
  }

  lemma DotOrigin(a: V)
    ensures Dot(ORIGIN, a) == 0.0 == Dot(a, ORIGIN)
  {
  }

  lemma QuotientTimes(x: real, y: real)
    requires y != 0.0
    ensures Times(x / y, y) == x
  {
  }

  /** A cross product is normal to both factors. */
  lemma CrossNormal(a: V, b: V)
    ensures Dot(Cross(a, b), a) == 0.0 && Dot(Cross(a, b), b) == 0.0
  {
    CrossNormalArithmetic(a.x, a.y, a.z, b.x, b.y, b.z);
  }

  lemma CrossNormalArithmetic(a: real, b: real, c: real, x: real, y: real, z: real)
    ensures (b * z - c * y) * a + (c * x - a * z) * b + (a * y - b * x) * c == 0.0
    ensures (b * z - c * y) * x + (c * x - a * z) * y + (a * y - b * x) * z == 0.0
  {
  }

  /** Lagrange's identity. */
  lemma CrossLength(a: V, b: V)
    ensures Dot(Cross(a, b), Cross(a, b)) == Dot(a, a) * Dot(b, b) - Dot(a, b) * Dot(a, b)
  {
    LagrangeArithmetic(a.x, a.y, a.z, b.x, b.y, b.z, Dot(a, a), Dot(b, b), Dot(a, b));
  }

  lemma LagrangeArithmetic(a: real, b: real, c: real, x: real, y: real, z: real, m: real, n: real, k: real)
    requires m == a * a + b * b + c * c && n == x * x + y * y + z * z && k == a * x + b * y + c * z
    ensures (b * z - c * y) * (b * z - c * y) + (c * x - a * z) * (c * x - a * z) + (a * y - b * x) * (a * y - b * x)
         == m * n - k * k
  {
  }

  /** The triple product of a, b - k a and b vanishes. */
  lemma CrossShifted(a: V, b: V, k: real)
    ensures Cross(a, Sub(b, Scale(a, k))) == Cross(a, b)
  {
    CrossShiftedArithmetic(a.y, a.z, b.y, b.z, k);
    CrossShiftedArithmetic(a.z, a.x, b.z, b.x, k);
    CrossShiftedArithmetic(a.x, a.y, b.x, b.y, k);
  }

  lemma CrossShiftedArithmetic(a: real, b: real, x: real, y: real, k: real)
    ensures a * (y - b * k) - b * (x - a * k) == a * y - b * x
  {
  }

  /** The double cross product. */
  lemma DoubleCross(u: V, a: V, b: V)
    requires Dot(u, a) == 0.0 && Dot(u, b) == 0.0
    ensures Cross(u, Cross(a, b)) == ORIGIN
  {
    DoubleCrossArithmetic(u.x, u.y, u.z, a.x, a.y, a.z, b.x, b.y, b.z);
    DoubleCrossArithmetic(u.y, u.z, u.x, a.y, a.z, a.x, b.y, b.z, b.x);
    DoubleCrossArithmetic(u.z, u.x, u.y, a.z, a.x, a.y, b.z, b.x, b.y);
  }

  lemma DoubleCrossArithmetic(u: real, v: real, w: real, a: real, b: real, c: real, x: real, y: real, z: real)
    requires u * x + v * y + w * z == 0.0 && u * a + v * b + w * c == 0.0
    ensures v * (a * y - b * x) - w * (c * x - a * z) == 0.0
  {
    DoubleCrossFactors(u, v, w, a, b, c, x, y, z, u * x + v * y + w * z, u * a + v * b + w * c);
    TimesZero(a, u * x + v * y + w * z);
    TimesZero(x, u * a + v * b + w * c);
  }

  lemma DoubleCrossFactors(u: real, v: real, w: real, a: real, b: real, c: real, x: real, y: real, z: real, m: real,
                           k: real)
    requires m == u * x + v * y + w * z && k == u * a + v * b + w * c
    ensures v * (a * y - b * x) - w * (c * x - a * z) == Times(a, m) - Times(x, k)
  {
  }

  lemma ZeroFactor(x: real, y: real)
    requires x * y == 0.0 && y > 0.0
    ensures x == 0.0
  {
    TimesZero(x, y);
  }

  /** Only the zero vector is across both vectors and their cross product. */
  lemma AcrossAll(r: V, a: V, b: V)
    requires Dot(r, a) == 0.0 && Dot(r, b) == 0.0 && Dot(r, Cross(a, b)) == 0.0 && Dot(Cross(a, b), Cross(a, b)) > 0.0
    ensures r == ORIGIN
  {
    hide *;
    var c := Cross(a, b);
    DoubleCross(r, a, b);
    CrossLength(r, c);
    DotSelf(Cross(r, c));
    DotSelf(r);
    SquareSign(Dot(r, c));
    ZeroFactor(Dot(r, r), Dot(c, c));
  }
}
