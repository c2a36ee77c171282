/** Vector primitives of the ranking engine: dot product, L2 norm,
    normalisation and cosine similarity over embeddings of one dimension.
    Numbers are reals; `Math.sqrt` is a parameter `sqrt` whose only known
    properties are those of `IsSqrt`. */
module Vectors {

  type Vec = seq<real>

  /** The two facts the model assumes of the square root it is given. */
  ghost predicate IsSqrt(sqrt: real -> real) {
    forall x: real :: 0.0 <= x ==> 0.0 <= sqrt(x) && Mul(sqrt(x), sqrt(x)) == x
  }

  /** The product of two reals, named so that the squares inside `Dot(v, v)`
      stay terms of their own for the solver. */
  function Mul(x: real, y: real): real {
    x * y
  }

  /** Sum of the products a[k] * b[k], accumulated from k = 0 upward. */
  function Dot(a: Vec, b: Vec): real
    requires |a| == |b|
    decreases |a|
  {
    if |a| == 0 then 0.0
    else Dot(a[..|a| - 1], b[..|a| - 1]) + Mul(a[|a| - 1], b[|a| - 1])
  }

  /** The accumulating loop of `dot`. */
  method DotProduct(a: Vec, b: Vec) returns (s: real)
    requires |a| == |b|
    ensures s == Dot(a, b)
  {
    s := 0.0;
    for i := 0 to |a|
      invariant s == Dot(a[..i], b[..i])
    {
      assert a[..i + 1][..i] == a[..i] && b[..i + 1][..i] == b[..i];
      s := s + a[i] * b[i];
    }
    assert a[..|a|] == a && b[..|b|] == b;
  }

  /** The L2 norm `l2`: with a true square root, the non-negative number
      whose square is the squared length. */
  function L2(sqrt: real -> real, a: Vec): real
  {
    sqrt(Dot(a, a))
  }

  function Zeros(n: nat): (r: Vec)
    ensures |r| == n && IsZero(r)
    ensures forall k :: 0 <= k < n ==> r[k] == 0.0
  {
    seq(n, _ => 0.0)
  }

  ghost predicate IsZero(v: Vec) {
    forall k :: 0 <= k < |v| ==> v[k] == 0.0
  }

  /** Every element multiplied by c (`v.map((x) => x * inv)`). */
  function Scale(v: Vec, c: real): (r: Vec)
    ensures |r| == |v|
    ensures forall k :: 0 <= k < |v| ==> r[k] == v[k] * c
  {
    seq(|v|, k requires 0 <= k < |v| => v[k] * c)
  }

  /** c1 * a[k] + c2 * b[k] for every index of a; the form of both the EMA
      step and the push-away step of the taste update. */
  function Combine(c1: real, a: Vec, c2: real, b: Vec): (r: Vec)
    requires |a| == |b|
    ensures |r| == |a|
    ensures forall k :: 0 <= k < |a| ==> r[k] == c1 * a[k] + c2 * b[k]
  {
    seq(|a|, k requires 0 <= k < |a| => c1 * a[k] + c2 * b[k])
  }

  /** `normalize`: the zero vector of the same length when the norm is zero,
      otherwise the vector scaled by the inverse of its norm. */
  function Normalize(sqrt: real -> real, v: Vec): (r: Vec)
    ensures |r| == |v|
    ensures IsZero(v) ==> IsZero(r)
    ensures L2(sqrt, v) == 0.0 ==> r == Zeros(|v|)
  {
    var n := L2(sqrt, v);
    if n == 0.0 then Zeros(|v|)
    else
      var inv := 1.0 / n;
      Scale(v, inv)
  }

  /** `cosineNorm`: the dot product, meaningful as a cosine only when both
      arguments are normalised, and then within [-1, 1]. */
  function CosineNorm(a: Vec, b: Vec): real
    requires |a| == |b|
  {
    Dot(a, b)
  }

  /** A vector as the taste model stores it: unit length, or all zero. */
  ghost predicate IsNormalized(v: Vec) {
    Dot(v, v) == 1.0 || IsZero(v)
  }

  lemma {:induction false} ProductPositive(x: real, y: real)
    requires x > 0.0 && y > 0.0
    ensures Mul(x, y) > 0.0
  {
  }

  lemma {:induction false} SquareNonNegative(x: real)
    ensures Mul(x, x) >= 0.0
  {
    if x < 0.0 {
      assert x * x == (-x) * (-x);
    }
  }

  lemma {:induction false} SquarePositive(x: real)
    requires x != 0.0
    ensures Mul(x, x) > 0.0
  {
    if x > 0.0 {
      ProductPositive(x, x);
    } else {
      ProductPositive(-x, -x);
      assert Mul(x, x) == Mul(-x, -x);
    }
  }

  lemma {:induction false} DotSelfNonNegative(a: Vec)
    ensures Dot(a, a) >= 0.0
  {
    if |a| > 0 {
      DotSelfNonNegative(a[..|a| - 1]);
      SquareNonNegative(a[|a| - 1]);
    }
  }

  /** A vector with a non-zero entry has a positive squared norm. */
  lemma {:induction false} DotSelfPositive(a: Vec)
    requires !IsZero(a)
    ensures Dot(a, a) > 0.0
  {
    var n := |a| - 1;
    var p := a[..n];
    if a[n] != 0.0 {
      DotSelfNonNegative(p);
      SquarePositive(a[n]);
    } else {
      assert !IsZero(p) by {
        var k :| 0 <= k < |a| && a[k] != 0.0;
        assert k < n && p[k] == a[k];
      }
      DotSelfPositive(p);
      SquareNonNegative(a[n]);
    }
  }

  /** The squared norm of the all-zero vector is zero. */
  lemma {:induction false} DotZero(a: Vec, b: Vec)
    requires |a| == |b| && IsZero(a)
    ensures Dot(a, b) == 0.0
  {
    if |a| > 0 {
      var n := |a| - 1;
      assert IsZero(a[..n]) by {
        forall k | 0 <= k < n ensures a[..n][k] == 0.0 { assert a[..n][k] == a[k]; }
      }
      DotZero(a[..n], b[..n]);
    }
  }

  /** The squared norm vanishes exactly on the all-zero vector. */
  lemma {:induction false} DotSelfZero(a: Vec)
    ensures Dot(a, a) == 0.0 <==> IsZero(a)
  {
    if IsZero(a) {
      DotZero(a, a);
    } else {
      DotSelfPositive(a);
    }
  }

  lemma {:induction false} DotSymmetric(a: Vec, b: Vec)
    requires |a| == |b|
    ensures Dot(a, b) == Dot(b, a)
  {
    if |a| > 0 {
      DotSymmetric(a[..|a| - 1], b[..|a| - 1]);
    }
  }

  lemma {:induction false} ScalePrefix(v: Vec, c: real, n: nat)
    requires n <= |v|
    ensures Scale(v, c)[..n] == Scale(v[..n], c)
  {
    forall k | 0 <= k < n ensures Scale(v, c)[..n][k] == Scale(v[..n], c)[k] {
      assert v[..n][k] == v[k];
    }
  }

  lemma {:induction false} ScaleStep(x: real, rest: real, c: real, p: real, q: real)
    requires x == c * rest
    ensures x + (p * c) * q == c * (rest + p * q)
  {
  }

  /** Scaling the first argument scales the dot product. */
  lemma {:induction false} DotScale(a: Vec, c: real, b: Vec)
    requires |a| == |b|
    ensures Dot(Scale(a, c), b) == c * Dot(a, b)
  {
    if |a| > 0 {
      var n := |a| - 1;
      ScalePrefix(a, c, n);
      DotScale(a[..n], c, b[..n]);
      var x, rest := Dot(Scale(a[..n], c), b[..n]), Dot(a[..n], b[..n]);
      assert x == c * rest;
      ScaleStep(x, rest, c, a[n], b[n]);
    }
  }

  /** The entry-wise sum of two vectors. */
  function Add(a: Vec, b: Vec): (r: Vec)
    requires |a| == |b|
    ensures |r| == |a|
    ensures forall k :: 0 <= k < |a| ==> r[k] == a[k] + b[k]
  {
    seq(|a|, k requires 0 <= k < |a| => a[k] + b[k])
  }

  lemma {:induction false} AddPrefix(a: Vec, b: Vec, n: nat)
    requires |a| == |b| && n <= |a|
    ensures Add(a, b)[..n] == Add(a[..n], b[..n])
  {
    forall k | 0 <= k < n ensures Add(a, b)[..n][k] == Add(a[..n], b[..n])[k] {
      assert a[..n][k] == a[k] && b[..n][k] == b[k];
    }
  }

  lemma {:induction false} MulAdd(x: real, y: real, w: real)
    ensures Mul(x + y, w) == Mul(x, w) + Mul(y, w)
  {
  }

  /** The dot product distributes over a sum in its first argument. */
  lemma {:induction false} DotAdd(a: Vec, b: Vec, w: Vec)
    requires |a| == |b| == |w|
    ensures Dot(Add(a, b), w) == Dot(a, w) + Dot(b, w)
  {
    if |a| > 0 {
      var n := |a| - 1;
      var s := Add(a, b);
      AddPrefix(a, b, n);
      DotAdd(a[..n], b[..n], w[..n]);
      assert s[n] == a[n] + b[n];
      MulAdd(a[n], b[n], w[n]);
    }
  }

  /** The dot product is linear in its first argument. */
  lemma {:induction false} DotCombine(c1: real, a: Vec, c2: real, b: Vec, w: Vec)
    requires |a| == |b| == |w|
    ensures Dot(Combine(c1, a, c2, b), w) == c1 * Dot(a, w) + c2 * Dot(b, w)
  {
    var sa, sb := Scale(a, c1), Scale(b, c2);
    assert Combine(c1, a, c2, b) == Add(sa, sb) by {
      forall k | 0 <= k < |a| ensures Combine(c1, a, c2, b)[k] == Add(sa, sb)[k] {
        assert sa[k] == a[k] * c1 && sb[k] == b[k] * c2;
      }
    }
    DotAdd(sa, sb, w);
    DotScale(a, c1, w);
    DotScale(b, c2, w);
  }

  /** Linearity, for a vector known to equal the combination. */
  lemma {:induction false} DotLinear(r: Vec, c1: real, a: Vec, c2: real, b: Vec, w: Vec)
    requires |a| == |b| == |w| && r == Combine(c1, a, c2, b)
    ensures Dot(r, w) == c1 * Dot(a, w) + c2 * Dot(b, w)
  {
    DotCombine(c1, a, c2, b, w);
  }

  /** The cosine of two unit vectors lies in [-1, 1] (Cauchy-Schwarz). */
  lemma {:induction false} CosineBounded(a: Vec, b: Vec)
    requires |a| == |b|
    ensures Dot(a, a) == 1.0 && Dot(b, b) == 1.0 ==> -1.0 <= CosineNorm(a, b) <= 1.0
  {
    if Dot(a, a) == 1.0 && Dot(b, b) == 1.0 {
      DotBoundedUnit(a, b);
    }
  }

  lemma {:induction false} DotBoundedUnit(a: Vec, b: Vec)
    requires |a| == |b|
    requires Dot(a, a) == 1.0 && Dot(b, b) == 1.0
    ensures -1.0 <= Dot(a, b) <= 1.0
  {
    DotSymmetric(a, b);
    var d := Combine(1.0, a, -1.0, b);
    DotCombine(1.0, a, -1.0, b, d);
    DotSymmetric(a, d);
    DotSymmetric(b, d);
    DotCombine(1.0, a, -1.0, b, a);
    DotCombine(1.0, a, -1.0, b, b);
    DotSelfNonNegative(d);
    assert Dot(d, d) == 2.0 - 2.0 * Dot(a, b);
    var s := Combine(1.0, a, 1.0, b);
    DotCombine(1.0, a, 1.0, b, s);
    DotSymmetric(a, s);
    DotSymmetric(b, s);
    DotCombine(1.0, a, 1.0, b, a);
    DotCombine(1.0, a, 1.0, b, b);
    DotSelfNonNegative(s);
    assert Dot(s, s) == 2.0 + 2.0 * Dot(a, b);
  }

  lemma {:induction false} ScaleLess(a: real, b: real, c: real)
    requires a > 0.0 && b < c
    ensures a * b < a * c
  {
  }

  lemma {:induction false} UnitScale(n: real, inv: real, d: real)
    requires n > 0.0 && inv == 1.0 / n && Mul(n, n) == d
    ensures inv * (inv * d) == 1.0
  {
    assert inv * n == 1.0;
    calc {
      inv * (inv * d);
      inv * (inv * (n * n));
      (inv * n) * (inv * n);
    }
  }

  lemma {:induction false} UnitRoot(r: real)
    requires r >= 0.0 && Mul(r, r) == 1.0
    ensures r == 1.0
  {
    if r < 1.0 {
      if r != 0.0 {
        ScaleLess(r, r, 1.0);
      }
    } else if r > 1.0 {
      ScaleLess(r, 1.0, r);
    }
  }

  /** Under the square-root facts, the norm is the non-negative root of the
      squared length, and it is zero exactly for the zero vector. */
  lemma {:induction false} L2Root(sqrt: real -> real, a: Vec)
    requires IsSqrt(sqrt)
    ensures L2(sqrt, a) >= 0.0 && Mul(L2(sqrt, a), L2(sqrt, a)) == Dot(a, a)
    ensures L2(sqrt, a) == 0.0 <==> IsZero(a)
  {
    DotSelfNonNegative(a);
    DotSelfZero(a);
    var r := L2(sqrt, a);
    assert 0.0 <= r && Mul(r, r) == Dot(a, a);
    if IsZero(a) {
      ZeroRoot(r);
    } else {
      NormPositive(sqrt, a);
    }
  }

  /** Zero is the only non-negative root of zero. */
  lemma {:induction false} ZeroRoot(r: real)
    requires r >= 0.0 && Mul(r, r) == 0.0
    ensures r == 0.0
  {
    if r > 0.0 {
      ProductPositive(r, r);
    }
  }

  /** Under the square-root facts, a non-zero vector has a positive norm
      whose square is its squared length. */
  lemma {:induction false} NormPositive(sqrt: real -> real, v: Vec)
    requires IsSqrt(sqrt)
    requires !IsZero(v)
    ensures L2(sqrt, v) > 0.0 && Mul(L2(sqrt, v), L2(sqrt, v)) == Dot(v, v)
  {
    DotSelfPositive(v);
    var d := Dot(v, v);
    assert 0.0 <= sqrt(d) && Mul(sqrt(d), sqrt(d)) == d;
  }

  /** `normalize` yields a unit vector for a non-zero input and the zero
      vector for the zero vector. */
  lemma {:induction false} NormalizeUnitOrZero(sqrt: real -> real, v: Vec)
    requires IsSqrt(sqrt)
    ensures IsZero(Normalize(sqrt, v)) <==> IsZero(v)
    ensures !IsZero(v) ==> Dot(Normalize(sqrt, v), Normalize(sqrt, v)) == 1.0
    ensures IsNormalized(Normalize(sqrt, v))
  {
    if !IsZero(v) {
      NormalizeUnit(sqrt, v);
      DotSelfZero(Normalize(sqrt, v));
    }
  }

  lemma {:induction false} ScaleTwice(uu: real, vu: real, uv: real, inv: real, d: real)
    requires uu == inv * vu && vu == uv && uv == inv * d
    ensures uu == inv * (inv * d)
  {
  }

  /** Scaling a vector by c scales its squared length by c². */
  lemma {:induction false} DotScaleBoth(v: Vec, c: real)
    ensures Dot(Scale(v, c), Scale(v, c)) == c * (c * Dot(v, v))
  {
    var s := Scale(v, c);
    DotScale(v, c, s);
    DotSymmetric(v, s);
    DotScale(v, c, v);
    ScaleTwice(Dot(s, s), Dot(v, s), Dot(s, v), c, Dot(v, v));
  }

  /** A non-zero vector normalises to a unit vector. */
  lemma {:induction false} NormalizeUnit(sqrt: real -> real, v: Vec)
    requires IsSqrt(sqrt) && !IsZero(v)
    ensures Dot(Normalize(sqrt, v), Normalize(sqrt, v)) == 1.0
  {
    NormPositive(sqrt, v);
    var n := L2(sqrt, v);
    var inv := 1.0 / n;
    assert Normalize(sqrt, v) == Scale(v, inv);
    DotScaleBoth(v, inv);
    UnitScale(n, inv, Dot(v, v));
  }

  /** A non-zero vector is only rescaled, by a positive factor, so its
      direction is kept. */
  lemma {:induction false} NormalizeKeepsDirection(sqrt: real -> real, v: Vec)
    requires IsSqrt(sqrt) && !IsZero(v)
    ensures exists c: real :: c > 0.0 && Normalize(sqrt, v) == Scale(v, c)
  {
    NormPositive(sqrt, v);
    assert Normalize(sqrt, v) == Scale(v, 1.0 / L2(sqrt, v));
  }

  /** Renormalising an already normalised vector changes nothing. */
  lemma {:induction false} NormalizeIdempotent(sqrt: real -> real, u: Vec)
    requires IsSqrt(sqrt)
    requires IsNormalized(u)
    ensures Normalize(sqrt, u) == u
  {
    if IsZero(u) {
      assert Zeros(|u|) == u;
      assert Normalize(sqrt, u) == u;
    } else {
      var r := sqrt(1.0);
      assert r >= 0.0 && Mul(r, r) == 1.0;
      UnitRoot(r);
      assert Scale(u, 1.0 / 1.0) == u;
    }
  }

  /** The normalised vector of v is the normalised vector of itself. */
  lemma {:induction false} NormalizeTwice(sqrt: real -> real, v: Vec)
    requires IsSqrt(sqrt)
    ensures Normalize(sqrt, Normalize(sqrt, v)) == Normalize(sqrt, v)
  {
    NormalizeUnitOrZero(sqrt, v);
    NormalizeIdempotent(sqrt, Normalize(sqrt, v));
  }
}
