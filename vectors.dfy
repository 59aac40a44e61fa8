/** Componentwise three-dimensional vector algebra of the physics engine
    (Physics/rocket_physics.c). Doubles are modelled as `real`; the square root
    used by the magnitude is a parameter, since `real` has no built-in one. */
module Vectors {

  datatype Vector3 = Vector3(x: real, y: real, z: real)

  const Zero := Vector3(0.0, 0.0, 0.0)

  /** vector_add: taking b away again, component by component, leaves a. */
  function Add(a: Vector3, b: Vector3): (r: Vector3)
    ensures r.x - b.x == a.x && r.y - b.y == a.y && r.z - b.z == a.z
  {
    Vector3(a.x + b.x, a.y + b.y, a.z + b.z)
  }

  /** vector_sub: adding b back, component by component, gives a. */
  function Sub(a: Vector3, b: Vector3): (r: Vector3)
    ensures r.x + b.x == a.x && r.y + b.y == a.y && r.z + b.z == a.z
  {
    Vector3(a.x - b.x, a.y - b.y, a.z - b.z)
  }

  /** vector_scale: 1 is the identity, 0 and the zero vector annihilate. */
  function Scale(v: Vector3, k: real): (r: Vector3)
    ensures k == 1.0 ==> r == v
    ensures k == 0.0 || v == Zero ==> r == Zero
  {
    Vector3(v.x * k, v.y * k, v.z * k)
  }

  /** vector_dot: zero against the zero vector, never negative against itself. */
  function Dot(a: Vector3, b: Vector3): (r: real)
    ensures a == Zero || b == Zero ==> r == 0.0
    ensures a == b ==> r >= 0.0
  {
    var xx, yy, zz := a.x * b.x, a.y * b.y, a.z * b.z;
    assert a == b ==> xx >= 0.0 && yy >= 0.0 && zz >= 0.0;
    xx + yy + zz
  }

  /** vector_cross: zero for equal arguments or a zero argument. */
  function Cross(a: Vector3, b: Vector3): (r: Vector3)
    ensures a == b || a == Zero || b == Zero ==> r == Zero
  {
    Vector3(a.y * b.z - a.z * b.y,
            a.z * b.x - a.x * b.z,
            a.x * b.y - a.y * b.x)
  }

  /** vector_magnitude: the square root of the dot product with itself. */
  function Magnitude(v: Vector3, sqrt: real -> real): (r: real)
    ensures v == Zero ==> r == sqrt(0.0)
  {
    sqrt(Dot(v, v))
  }

  /** vector_normalize: the zero vector when the magnitude is below 1e-10. */
  function Normalize(v: Vector3, sqrt: real -> real): (r: Vector3)
    ensures Magnitude(v, sqrt) < 1e-10 ==> r == Zero
    ensures Magnitude(v, sqrt) >= 1e-10 ==>
              exists k: real :: k > 0.0 && r == Scale(v, k)
  {
    var mag := Magnitude(v, sqrt);
    if mag < 1e-10 then Zero
    else
      var r := Scale(v, 1.0 / mag);
      assert 1.0 / mag > 0.0 && r == Scale(v, 1.0 / mag);
      r
  }

  /** Subtraction is addition of the vector scaled by -1. */
  lemma SubIsAddNegated(a: Vector3, b: Vector3)
    ensures Sub(a, b) == Add(a, Scale(b, -1.0))
  {
  }

  /** Add and Sub undo each other, component by component. */
  lemma AddSubInverse(a: Vector3, b: Vector3)
    ensures Sub(Add(a, b), b) == a
    ensures Add(Sub(a, b), b) == a
  {
  }

  lemma AddCommutes(a: Vector3, b: Vector3)
    ensures Add(a, b) == Add(b, a)
  {
  }

  /** Scaling distributes over addition. */
  lemma ScaleDistributes(a: Vector3, b: Vector3, k: real)
    ensures Scale(Add(a, b), k) == Add(Scale(a, k), Scale(b, k))
  {
    assert (a.x + b.x) * k == a.x * k + b.x * k;
    assert (a.y + b.y) * k == a.y * k + b.y * k;
    assert (a.z + b.z) * k == a.z * k + b.z * k;
  }

  /** The cross product is anti-commutative. */
  lemma CrossAntiCommutative(a: Vector3, b: Vector3)
    ensures Cross(a, b) == Scale(Cross(b, a), -1.0)
  {
  }

  /** a × b is orthogonal to both of its arguments. */
  lemma CrossOrthogonal(a: Vector3, b: Vector3)
    ensures Dot(a, Cross(a, b)) == 0.0
    ensures Dot(b, Cross(a, b)) == 0.0
  {
    var c := Cross(a, b);
    calc {
      Dot(a, c);
      a.x * (a.y * b.z - a.z * b.y) + a.y * (a.z * b.x - a.x * b.z) + a.z * (a.x * b.y - a.y * b.x);
      { assert a.x * (a.y * b.z - a.z * b.y) == a.x * a.y * b.z - a.x * a.z * b.y;
        assert a.y * (a.z * b.x - a.x * b.z) == a.y * a.z * b.x - a.y * a.x * b.z;
        assert a.z * (a.x * b.y - a.y * b.x) == a.z * a.x * b.y - a.z * a.y * b.x; }
      (a.x * a.y * b.z - a.x * a.z * b.y) + (a.y * a.z * b.x - a.y * a.x * b.z) + (a.z * a.x * b.y - a.z * a.y * b.x);
      0.0;
    }
    calc {
      Dot(b, c);
      b.x * (a.y * b.z - a.z * b.y) + b.y * (a.z * b.x - a.x * b.z) + b.z * (a.x * b.y - a.y * b.x);
      { assert b.x * (a.y * b.z - a.z * b.y) == b.x * a.y * b.z - b.x * a.z * b.y;
        assert b.y * (a.z * b.x - a.x * b.z) == b.y * a.z * b.x - b.y * a.x * b.z;
        assert b.z * (a.x * b.y - a.y * b.x) == b.z * a.x * b.y - b.z * a.y * b.x; }
      (b.x * a.y * b.z - b.x * a.z * b.y) + (b.y * a.z * b.x - b.y * a.x * b.z) + (b.z * a.x * b.y - b.z * a.y * b.x);
      0.0;
    }
  }

  /** The squared Euclidean distance between two points; comparing it with a
      squared bound decides a distance bound without a square root. */
  function DistanceSquared(p: Vector3, q: Vector3): (r: real)
    ensures r >= 0.0
    ensures p == q ==> r == 0.0
  {
    var d := Sub(p, q);
    Dot(d, d)
  }

  /** The squared distance does not depend on the order of the points. */
  lemma DistanceSquaredSymmetric(p: Vector3, q: Vector3)
    ensures DistanceSquared(p, q) == DistanceSquared(q, p)
  {
    var d, e := Sub(p, q), Sub(q, p);
    assert e == Scale(d, -1.0);
    assert d.x * d.x == e.x * e.x && d.y * d.y == e.y * e.y && d.z * d.z == e.z * e.z;
  }
}
