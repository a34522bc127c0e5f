/**
 The engine math the tween relies on: 3D vectors, quaternions (stored, never
 interpolated here), clamped linear interpolation and the square root.

 Single-precision floats are modelled as exact reals. The square root is not
 defined here: operations that need it take it as a parameter constrained by
 `IsSqrt`, which is all the tween's algebra uses of it.
 */
module UnityMath {

  datatype Vector3 = Vector3(x: real, y: real, z: real)

  /** An orientation; the tween only copies it, so its components are opaque. */
  datatype Quaternion = Quaternion(x: real, y: real, z: real, w: real)

  const Zero: Vector3 := Vector3(0.0, 0.0, 0.0)
  const Identity: Quaternion := Quaternion(0.0, 0.0, 0.0, 1.0)

  /** Mathf.Sqrt, supplied by the caller. */
  type SquareRoot = real -> real

  /** `sqrt` behaves as a square root on every non-negative argument. */
  ghost predicate IsSqrt(sqrt: SquareRoot)
  {
    forall x :: 0.0 <= x ==> 0.0 <= sqrt(x) && sqrt(x) * sqrt(x) == x
  }

  /** Mathf.Clamp01 */
  function Clamp01(t: real): (c: real)
    ensures 0.0 <= c <= 1.0
    ensures 0.0 <= t <= 1.0 ==> c == t
    ensures t <= 0.0 ==> c == 0.0
    ensures t >= 1.0 ==> c == 1.0
  {
    if t < 0.0 then 0.0 else if t > 1.0 then 1.0 else t
  }

  /** Mathf.Lerp: interpolates from `a` to `b` with `t` clamped to [0, 1]. */
  function Lerp(a: real, b: real, t: real): real
  {
    a + (b - a) * Clamp01(t)
  }

  /** Vector3.Lerp: clamps `t` once and interpolates every component like Mathf.Lerp. */
  function LerpVector(a: Vector3, b: Vector3, t: real): Vector3
  {
    Vector3(Lerp(a.x, b.x, t), Lerp(a.y, b.y, t), Lerp(a.z, b.z, t))
  }

  /** Vector2.sqrMagnitude of the vector (dx, dz). */
  function SqrMagnitude(dx: real, dz: real): real
  {
    dx * dx + dz * dz
  }

  /** The squared length of the horizontal (x, z) displacement from `a` to `b`. */
  function HorizontalSqrDistance(a: Vector3, b: Vector3): real
  {
    SqrMagnitude(b.x - a.x, b.z - a.z)
  }

  /**
   Mathf.Lerp reaches `a` for every t <= 0 and `b` for every t >= 1, equals the
   affine blend `a + t * (b - a)` on [0, 1], and never leaves the segment
   between `a` and `b`.
   */
  lemma LerpFacts(a: real, b: real, t: real)
    ensures t <= 0.0 ==> Lerp(a, b, t) == a
    ensures t >= 1.0 ==> Lerp(a, b, t) == b
    ensures 0.0 <= t <= 1.0 ==> Lerp(a, b, t) == a + t * (b - a)
    ensures a <= b ==> a <= Lerp(a, b, t) <= b
    ensures b <= a ==> b <= Lerp(a, b, t) <= a
  {
    var c := Clamp01(t);
    if c == 0.0 {
      assert (b - a) * c == 0.0;
    } else if c == 1.0 {
      assert (b - a) * c == b - a;
    } else if a <= b {
      ProductNonNegative(b - a, c);
      ProductNonNegative(b - a, 1.0 - c);
      assert (b - a) * c + (b - a) * (1.0 - c) == b - a;
    } else {
      ProductNonNegative(a - b, c);
      ProductNonNegative(a - b, 1.0 - c);
      assert (a - b) * c + (a - b) * (1.0 - c) == a - b;
      assert (a - b) * c == -((b - a) * c);
    }
  }

  /** Mathf.Lerp never moves backwards: as `t` grows it only moves towards `b`. */
  lemma LerpMonotone(a: real, b: real, t1: real, t2: real)
    requires t1 <= t2
    ensures a <= b ==> Lerp(a, b, t1) <= Lerp(a, b, t2)
    ensures b <= a ==> Lerp(a, b, t2) <= Lerp(a, b, t1)
  {
    var c1, c2 := Clamp01(t1), Clamp01(t2);
    assert (b - a) * c2 - (b - a) * c1 == (b - a) * (c2 - c1);
    if a <= b {
      ProductNonNegative(b - a, c2 - c1);
    } else {
      ProductNonNegative(a - b, c2 - c1);
      assert (a - b) * (c2 - c1) == -((b - a) * (c2 - c1));
    }
  }

  /** Any square root function agrees with a known non-negative root. */
  lemma SqrtOfSquare(sqrt: SquareRoot, x: real, root: real)
    requires IsSqrt(sqrt)
    requires 0.0 <= root && root * root == x
    ensures sqrt(x) == root
  {
    var s := sqrt(x);
    assert 0.0 <= s && s * s == x;
    assert (s - root) * (s + root) == s * s - root * root;
    if s != root {
      assert 0.0 < s + root;
      ProductNonZero(s - root, s + root);
    }
  }

  /** The root of a positive number is positive. */
  lemma SqrtPositive(sqrt: SquareRoot, x: real)
    requires IsSqrt(sqrt)
    requires 0.0 < x
    ensures 0.0 < sqrt(x)
  {
    var s := sqrt(x);
    assert 0.0 <= s && s * s == x;
  }

  // Small facts of real arithmetic that the solver does not find unaided.

  lemma ProductNonNegative(x: real, y: real)
    requires 0.0 <= x && 0.0 <= y
    ensures 0.0 <= x * y
  {
  }

  lemma ProductPositive(x: real, y: real)
    requires 0.0 < x && 0.0 < y
    ensures 0.0 < x * y
  {
  }

  lemma ProductNonZero(x: real, y: real)
    requires x != 0.0 && y != 0.0
    ensures x * y != 0.0
  {
  }
}
