/** Three-dimensional vectors over the reals, as the value type `Vector3`
    the cube, its pieces and the renderer compute with. The source stores
    `float` components; the model uses exact reals. */
module Vector3 {

  datatype Vec3 = Vec3(x: real, y: real, z: real)

  const Zero: Vec3 := Vec3(0.0, 0.0, 0.0)

  /** Tolerance of the component-wise comparison `operator==` (1e-6). */
  const Epsilon: real := 0.000001

  function Dot(a: Vec3, b: Vec3): real {
    a.x * b.x + a.y * b.y + a.z * b.z
  }

  function Cross(a: Vec3, b: Vec3): Vec3 {
    Vec3(a.y * b.z - a.z * b.y, a.z * b.x - a.x * b.z, a.x * b.y - a.y * b.x)
  }

  function Add(a: Vec3, b: Vec3): Vec3 {
    Vec3(a.x + b.x, a.y + b.y, a.z + b.z)
  }

  function Sub(a: Vec3, b: Vec3): Vec3 {
    Vec3(a.x - b.x, a.y - b.y, a.z - b.z)
  }

  function Scale(a: Vec3, s: real): Vec3 {
    Vec3(a.x * s, a.y * s, a.z * s)
  }

  function Neg(a: Vec3): Vec3 {
    Vec3(-a.x, -a.y, -a.z)
  }

  /** `normalized()`: the caller supplies the length `len` (the square root
      the source takes); a zero length yields the zero vector, and otherwise
      scaling the result back by `len` gives `v`. */
  function Normalized(v: Vec3, len: real): (r: Vec3)
    requires len >= 0.0 && len * len == Dot(v, v)
    ensures v == Zero ==> r == Zero
    ensures len > 0.0 ==> Scale(r, len) == v
  {
    if len > 0.0 then Vec3(v.x / len, v.y / len, v.z / len) else Zero
  }

  function Abs(a: real): real {
    if a < 0.0 then -a else a
  }

  /** `operator==`: every component within `Epsilon`. */
  predicate ApproxEqual(a: Vec3, b: Vec3) {
    Abs(a.x - b.x) < Epsilon && Abs(a.y - b.y) < Epsilon && Abs(a.z - b.z) < Epsilon
  }

  lemma DotCommutative(a: Vec3, b: Vec3)
    ensures Dot(a, b) == Dot(b, a)
  {
  }

  lemma DotSelfNonNegative(v: Vec3)
    ensures Dot(v, v) >= 0.0
  {
    SquareNonNegative(v.x);
    SquareNonNegative(v.y);
    SquareNonNegative(v.z);
  }

  lemma SquareNonNegative(a: real)
    ensures a * a >= 0.0
  {
    if a < 0.0 {
      assert a * a == (-a) * (-a);
    }
  }

  lemma CrossOrthogonal(a: Vec3, b: Vec3)
    ensures Dot(a, Cross(a, b)) == 0.0
    ensures Dot(b, Cross(a, b)) == 0.0
  {
  }

  lemma CrossAnticommutative(a: Vec3, b: Vec3)
    ensures Cross(a, b) == Neg(Cross(b, a))
  {
  }

  lemma CrossRightHanded()
    ensures Cross(Vec3(1.0, 0.0, 0.0), Vec3(0.0, 1.0, 0.0)) == Vec3(0.0, 0.0, 1.0)
  {
  }

  lemma NormalizedZero()
    ensures Normalized(Zero, 0.0) == Zero
  {
  }

  lemma SubIsAddNeg(a: Vec3, b: Vec3)
    ensures Sub(a, b) == Add(a, Neg(b))
  {
  }

  lemma ScaleByOne(a: Vec3)
    ensures Scale(a, 1.0) == a
  {
  }

  lemma ApproxEqualReflexive(a: Vec3)
    ensures ApproxEqual(a, a)
  {
  }

  lemma ApproxEqualSymmetric(a: Vec3, b: Vec3)
    ensures ApproxEqual(a, b) == ApproxEqual(b, a)
  {
  }

  /** Three points 0.6e-6 apart: neighbours compare equal, the ends do not. */
  lemma ApproxEqualNotTransitive()
    ensures var a, b, c := Zero, Vec3(0.0000006, 0.0, 0.0), Vec3(0.0000012, 0.0, 0.0);
            ApproxEqual(a, b) && ApproxEqual(b, c) && !ApproxEqual(a, c)
  {
  }
}
