/** Shared arithmetic vocabulary for the model: an Option type, the square-root
    oracle that stands for `sqrt`/`np.linalg.norm`/`** 0.5`, Python's `max`/`min`
    and the truncating `int(float)` conversion. */
module Numerics {

  datatype Option<+T> = None | Some(value: T)

  /** The computations take the square root as a parameter; the properties
      hold for every function that really is a square root on the
      non-negative reals. */
  type SqrtFn = real -> real

  ghost predicate IsSqrt(sqrt: SqrtFn) {
    forall x: real :: 0.0 <= x ==> 0.0 <= sqrt(x) && sqrt(x) * sqrt(x) == x
  }

  lemma SqrtFacts(sqrt: SqrtFn, x: real)
    requires IsSqrt(sqrt) && 0.0 <= x
    ensures 0.0 <= sqrt(x) && sqrt(x) * sqrt(x) == x
  {
  }

  lemma MulMono(a: real, b: real, c: real)
    requires a <= b && 0.0 <= c
    ensures c * a <= c * b
  {
  }

  lemma MulStrict(a: real, b: real, c: real)
    requires a < b && 0.0 < c
    ensures c * a < c * b
  {
  }

  lemma MulStrictRight(a: real, b: real, c: real)
    requires a < b && 0.0 < c
    ensures a * c < b * c
  {
  }

  lemma LeLt(a: real, b: real, c: real)
    requires a <= b && b < c
    ensures a < c
  {
  }

  lemma LeLe(a: real, b: real, c: real)
    requires a <= b && b <= c
    ensures a <= c
  {
  }

  /** Squaring is strictly monotone on the non-negative reals. */
  lemma SquareLess(s: real, r: real)
    requires 0.0 <= s < r
    ensures s * s < r * r
  {
    LeLt(s * s, s * r, r * r);
  }

  lemma SquareMono(s: real, r: real)
    requires 0.0 <= s <= r
    ensures s * s <= r * r
  {
    if s < r { SquareLess(s, r); }
  }

  /** The root of a square of a non-negative number is that number. */
  lemma SqrtOfSquare(sqrt: SqrtFn, r: real)
    requires IsSqrt(sqrt) && 0.0 <= r
    ensures sqrt(r * r) == r
  {
    var s := sqrt(r * r);
    SqrtFacts(sqrt, r * r);
    if s < r {
      SquareLess(s, r);
    } else if r < s {
      SquareLess(r, s);
    }
  }

  lemma SqrtZero(sqrt: SqrtFn)
    requires IsSqrt(sqrt)
    ensures sqrt(0.0) == 0.0
  {
    SqrtOfSquare(sqrt, 0.0);
  }

  lemma SqrtPositive(sqrt: SqrtFn, x: real)
    requires IsSqrt(sqrt) && 0.0 < x
    ensures 0.0 < sqrt(x)
  {
    SqrtFacts(sqrt, x);
  }

  // ------------------------------------------------------------ products
  // `Mul(a, b)` is `a * b` as a term of its own. The proofs about vectors
  // reason with it one identity at a time: a product of two `Mul` terms is
  // never flattened into a longer monomial, so equal factors give equal
  // products by plain congruence.

  function Mul(a: real, b: real): real {
    a * b
  }

  lemma MulComm(a: real, b: real)
    ensures Mul(a, b) == Mul(b, a)
  {
  }

  lemma MulAssoc(a: real, b: real, c: real)
    ensures Mul(a, Mul(b, c)) == Mul(Mul(a, b), c)
  {
  }

  lemma MulDistrib(a: real, b: real, e: real)
    ensures Mul(a + b, e) == Mul(a, e) + Mul(b, e)
  {
  }

  lemma MulOne(a: real)
    ensures Mul(a, 1.0) == a
  {
  }

  lemma MulNeg(a: real, u: real, w: real)
    requires w == -u
    ensures Mul(a, w) == -Mul(a, u)
  {
  }

  lemma SquareOfProduct(a: real, b: real)
    ensures Mul(Mul(a, b), Mul(a, b)) == Mul(Mul(a, a), Mul(b, b))
  {
  }

  lemma MulNonNeg(a: real, b: real)
    requires 0.0 <= a && 0.0 <= b
    ensures 0.0 <= Mul(a, b)
  {
  }

  lemma MulPos(a: real, b: real)
    requires 0.0 < a && 0.0 < b
    ensures 0.0 < Mul(a, b)
  {
  }

  lemma MulSquareMono(s: real, b: real)
    requires 0.0 <= s <= b
    ensures Mul(s, s) <= Mul(b, b)
  {
    SquareMono(s, b);
  }

  lemma MulDivBack(a: real, d: real)
    requires d != 0.0
    ensures Mul(a / d, d) == a
  {
  }

  lemma MulDivSelf(u: real, e: real)
    requires e != 0.0
    ensures Mul(u, e) / e == u
  {
  }

  lemma MulSelfNonZero(d: real)
    requires d != 0.0
    ensures Mul(d, d) != 0.0
  {
    MulDivSelf(d, d);
  }

  /** A factor that leaves a non-zero number unchanged is 1. */
  lemma CancelFactor(u: real, e: real)
    requires e != 0.0 && Mul(u, e) == e
    ensures u == 1.0
  {
    MulDivSelf(u, e);
    assert Mul(u, e) / e == e / e;
  }

  /** `k / b <= k / a` for `0 < a <= b` and `k >= 0`. */
  lemma DivAntitone(k: real, a: real, b: real)
    requires 0.0 <= k && 0.0 < a <= b
    ensures 0.0 <= k / b <= k / a
  {
    assert k / b * b == k;
    assert k / a * a == k;
    if k / a < k / b {
      MulStrictRight(k / a, k / b, a);
      MulMono(a, b, k / b);
      assert false;
    }
  }

  lemma SqrtMul(sqrt: SqrtFn, x: real)
    requires IsSqrt(sqrt) && 0.0 <= x
    ensures Mul(sqrt(x), sqrt(x)) == x
  {
  }

  lemma SqrtOfMulSquare(sqrt: SqrtFn, r: real)
    requires IsSqrt(sqrt) && 0.0 <= r
    ensures sqrt(Mul(r, r)) == r
  {
    SqrtOfSquare(sqrt, r);
  }

  /** Python's `max(a, b)` and `min(a, b)` on numbers. */
  function Max(a: real, b: real): (r: real)
    ensures r >= a && r >= b && (r == a || r == b)
  {
    if a >= b then a else b
  }

  function Min(a: real, b: real): (r: real)
    ensures r <= a && r <= b && (r == a || r == b)
  {
    if a <= b then a else b
  }

  function MaxInt(a: int, b: int): (r: int)
    ensures r >= a && r >= b && (r == a || r == b)
  {
    if a >= b then a else b
  }

  function MinInt(a: int, b: int): (r: int)
    ensures r <= a && r <= b && (r == a || r == b)
  {
    if a <= b then a else b
  }

  /** `max(lo, min(hi, v))`, the clamp the source writes inline. The result
      lies in `[lo, hi]` whenever that interval is non-empty, and is `v`
      itself when `v` already does. */
  function Clamp(lo: real, hi: real, v: real): (r: real)
    ensures lo <= hi ==> lo <= r <= hi
    ensures lo <= v <= hi ==> r == v
    ensures hi < lo ==> r == lo
  {
    Max(lo, Min(hi, v))
  }

  /** Python's `int(x)` on a float: truncation toward zero. */
  function Trunc(x: real): (n: int)
    ensures 0.0 <= x ==> 0 <= n && n as real <= x < n as real + 1.0
    ensures x < 0.0 ==> n <= 0 && n as real - 1.0 < x <= n as real
  {
    if 0.0 <= x then x.Floor else -((-x).Floor)
  }
}
