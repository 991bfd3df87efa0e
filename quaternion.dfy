/** Quaternions over the reals (`Quaternion`): the Hamilton product, the
    conjugate and the rotation of a vector by `q * (0, v) * conj(q)`. The
    trigonometry of `fromAxisAngle` and the square root of `normalize` are
    not part of this module's arithmetic: both take the value they would
    compute as a parameter. */
module Quaternion {
  import opened Vector3

  datatype Quat = Quat(w: real, x: real, y: real, z: real)

  const Identity: Quat := Quat(1.0, 0.0, 0.0, 0.0)

  /** `multiply`: `Multiply(p, q)` applies `q` first and `p` second. */
  function Multiply(p: Quat, q: Quat): Quat {
    Quat(p.w * q.w - p.x * q.x - p.y * q.y - p.z * q.z,
         p.w * q.x + p.x * q.w + p.y * q.z - p.z * q.y,
         p.w * q.y - p.x * q.z + p.y * q.w + p.z * q.x,
         p.w * q.z + p.x * q.y - p.y * q.x + p.z * q.w)
  }

  function Conjugate(q: Quat): Quat {
    Quat(q.w, -q.x, -q.y, -q.z)
  }

  function Negate(q: Quat): Quat {
    Quat(-q.w, -q.x, -q.y, -q.z)
  }

  /** The pure quaternion (0, v). */
  function Pure(v: Vec3): Quat {
    Quat(0.0, v.x, v.y, v.z)
  }

  /** The full product q * (0, v) * conj(q), whose vector part `rotateVector` keeps. */
  function Sandwich(q: Quat, v: Vec3): Quat {
    Multiply(Multiply(q, Pure(v)), Conjugate(q))
  }

  /** `rotateVector`: the vector part of q * (0, v) * conj(q). */
  function RotateVector(q: Quat, v: Vec3): Vec3 {
    var r := Sandwich(q, v);
    Vec3(r.x, r.y, r.z)
  }

  function NormSq(q: Quat): real {
    q.w * q.w + q.x * q.x + q.y * q.y + q.z * q.z
  }

  /** `normalize`: the caller supplies the length `len` (the square root of
      `NormSq(q)`); a zero length yields the identity. */
  function Normalize(q: Quat, len: real): (r: Quat)
    requires len >= 0.0 && len * len == NormSq(q)
    ensures len == 0.0 ==> r == Identity
    ensures len == 1.0 ==> r == q
  {
    if len == 0.0 then Identity else Quat(q.w / len, q.x / len, q.y / len, q.z / len)
  }

  /** `fromAxisAngle` for a unit axis, given the cosine and sine of half the angle. */
  function FromAxisAngle(axis: Vec3, cosHalf: real, sinHalf: real): Quat {
    Quat(cosHalf, axis.x * sinHalf, axis.y * sinHalf, axis.z * sinHalf)
  }

  /** The sixteen-term expansion of a product of three quaternions, with
      every monomial written p.?*q.?*r.? in that order. */
  function TripleProduct(p: Quat, q: Quat, r: Quat): Quat {
    Quat(p.w*q.w*r.w - p.w*q.x*r.x - p.w*q.y*r.y - p.w*q.z*r.z
         - p.x*q.w*r.x - p.x*q.x*r.w - p.x*q.y*r.z + p.x*q.z*r.y
         - p.y*q.w*r.y + p.y*q.x*r.z - p.y*q.y*r.w - p.y*q.z*r.x
         - p.z*q.w*r.z - p.z*q.x*r.y + p.z*q.y*r.x - p.z*q.z*r.w,
         p.w*q.w*r.x + p.w*q.x*r.w + p.w*q.y*r.z - p.w*q.z*r.y
         + p.x*q.w*r.w - p.x*q.x*r.x - p.x*q.y*r.y - p.x*q.z*r.z
         + p.y*q.w*r.z + p.y*q.x*r.y - p.y*q.y*r.x + p.y*q.z*r.w
         - p.z*q.w*r.y + p.z*q.x*r.z - p.z*q.y*r.w - p.z*q.z*r.x,
         p.w*q.w*r.y - p.w*q.x*r.z + p.w*q.y*r.w + p.w*q.z*r.x
         - p.x*q.w*r.z - p.x*q.x*r.y + p.x*q.y*r.x - p.x*q.z*r.w
         + p.y*q.w*r.w - p.y*q.x*r.x - p.y*q.y*r.y - p.y*q.z*r.z
         + p.z*q.w*r.x + p.z*q.x*r.w + p.z*q.y*r.z - p.z*q.z*r.y,
         p.w*q.w*r.z + p.w*q.x*r.y - p.w*q.y*r.x + p.w*q.z*r.w
         + p.x*q.w*r.y - p.x*q.x*r.z + p.x*q.y*r.w + p.x*q.z*r.x
         - p.y*q.w*r.x - p.y*q.x*r.w - p.y*q.y*r.z + p.y*q.z*r.y
         + p.z*q.w*r.w - p.z*q.x*r.x - p.z*q.y*r.y - p.z*q.z*r.z)
  }

  /** Multiplying the product p*q by r, or p by the product q*r, expands
      to the sixteen-term sums, one component at a time. */
  lemma LeftProductExpandsW(p: Quat, q: Quat, r: Quat)
    ensures Multiply(Multiply(p, q), r).w == TripleProduct(p, q, r).w
  {
  }

  lemma LeftProductExpandsX(p: Quat, q: Quat, r: Quat)
    ensures Multiply(Multiply(p, q), r).x == TripleProduct(p, q, r).x
  {
  }

  lemma LeftProductExpandsY(p: Quat, q: Quat, r: Quat)
    ensures Multiply(Multiply(p, q), r).y == TripleProduct(p, q, r).y
  {
  }

  lemma LeftProductExpandsZ(p: Quat, q: Quat, r: Quat)
    ensures Multiply(Multiply(p, q), r).z == TripleProduct(p, q, r).z
  {
  }

  lemma RightProductExpandsW(p: Quat, q: Quat, r: Quat)
    ensures Multiply(p, Multiply(q, r)).w == TripleProduct(p, q, r).w
  {
  }

  lemma RightProductExpandsX(p: Quat, q: Quat, r: Quat)
    ensures Multiply(p, Multiply(q, r)).x == TripleProduct(p, q, r).x
  {
  }

  lemma RightProductExpandsY(p: Quat, q: Quat, r: Quat)
    ensures Multiply(p, Multiply(q, r)).y == TripleProduct(p, q, r).y
  {
  }

  lemma RightProductExpandsZ(p: Quat, q: Quat, r: Quat)
    ensures Multiply(p, Multiply(q, r)).z == TripleProduct(p, q, r).z
  {
  }

  lemma MultiplyAssociative(p: Quat, q: Quat, r: Quat)
    ensures Multiply(Multiply(p, q), r) == Multiply(p, Multiply(q, r))
  {
    LeftProductExpandsW(p, q, r);
    LeftProductExpandsX(p, q, r);
    LeftProductExpandsY(p, q, r);
    LeftProductExpandsZ(p, q, r);
    RightProductExpandsW(p, q, r);
    RightProductExpandsX(p, q, r);
    RightProductExpandsY(p, q, r);
    RightProductExpandsZ(p, q, r);
  }

  lemma IdentityNeutral(q: Quat)
    ensures Multiply(Identity, q) == q
    ensures Multiply(q, Identity) == q
  {
  }

  /** i * j = k. */
  lemma IJIsK()
    ensures Multiply(Quat(0.0, 1.0, 0.0, 0.0), Quat(0.0, 0.0, 1.0, 0.0)) == Quat(0.0, 0.0, 0.0, 1.0)
  {
  }

  /** j * i = -k, so the product does not commute. */
  lemma JIIsMinusK()
    ensures Multiply(Quat(0.0, 0.0, 1.0, 0.0), Quat(0.0, 1.0, 0.0, 0.0)) == Quat(0.0, 0.0, 0.0, -1.0)
  {
  }

  lemma ConjugateInvolution(q: Quat)
    ensures Conjugate(Conjugate(q)) == q
  {
  }

  lemma ConjugateOfProduct(p: Quat, q: Quat)
    ensures Conjugate(Multiply(p, q)) == Multiply(Conjugate(q), Conjugate(p))
  {
    ConjugateOfProductW(p, q);
    ConjugateOfProductX(p, q);
    ConjugateOfProductY(p, q);
    ConjugateOfProductZ(p, q);
  }

  lemma ConjugateOfProductW(p: Quat, q: Quat)
    ensures Conjugate(Multiply(p, q)).w == Multiply(Conjugate(q), Conjugate(p)).w
  {
  }

  lemma ConjugateOfProductX(p: Quat, q: Quat)
    ensures Conjugate(Multiply(p, q)).x == Multiply(Conjugate(q), Conjugate(p)).x
  {
  }

  lemma ConjugateOfProductY(p: Quat, q: Quat)
    ensures Conjugate(Multiply(p, q)).y == Multiply(Conjugate(q), Conjugate(p)).y
  {
  }

  lemma ConjugateOfProductZ(p: Quat, q: Quat)
    ensures Conjugate(Multiply(p, q)).z == Multiply(Conjugate(q), Conjugate(p)).z
  {
  }

  lemma NormSqMultiplicative(p: Quat, q: Quat)
    ensures NormSq(Multiply(p, q)) == NormSq(p) * NormSq(q)
  {
    ProductSquareW(p, q);
    ProductSquareX(p, q);
    ProductSquareY(p, q);
    ProductSquareZ(p, q);
    NormSqProductExpands(p, q);
  }

  /** The four-squares identity, one squared component at a time. */
  lemma ProductSquareW(p: Quat, q: Quat)
    ensures Multiply(p, q).w * Multiply(p, q).w ==
            p.w*p.w*q.w*q.w - 2.0*p.w*p.x*q.w*q.x - 2.0*p.w*p.y*q.w*q.y - 2.0*p.w*p.z*q.w*q.z + p.x*p.x*q.x*q.x + 2.0*p.x*p.y*q.x*q.y + 2.0*p.x*p.z*q.x*q.z + p.y*p.y*q.y*q.y + 2.0*p.y*p.z*q.y*q.z + p.z*p.z*q.z*q.z
  {
  }

  lemma ProductSquareX(p: Quat, q: Quat)
    ensures Multiply(p, q).x * Multiply(p, q).x ==
            p.w*p.w*q.x*q.x + 2.0*p.w*p.x*q.w*q.x + 2.0*p.w*p.y*q.x*q.z - 2.0*p.w*p.z*q.x*q.y + p.x*p.x*q.w*q.w + 2.0*p.x*p.y*q.w*q.z - 2.0*p.x*p.z*q.w*q.y + p.y*p.y*q.z*q.z - 2.0*p.y*p.z*q.y*q.z + p.z*p.z*q.y*q.y
  {
  }

  lemma ProductSquareY(p: Quat, q: Quat)
    ensures Multiply(p, q).y * Multiply(p, q).y ==
            p.w*p.w*q.y*q.y - 2.0*p.w*p.x*q.y*q.z + 2.0*p.w*p.y*q.w*q.y + 2.0*p.w*p.z*q.x*q.y + p.x*p.x*q.z*q.z - 2.0*p.x*p.y*q.w*q.z - 2.0*p.x*p.z*q.x*q.z + p.y*p.y*q.w*q.w + 2.0*p.y*p.z*q.w*q.x + p.z*p.z*q.x*q.x
  {
  }

  lemma ProductSquareZ(p: Quat, q: Quat)
    ensures Multiply(p, q).z * Multiply(p, q).z ==
            p.w*p.w*q.z*q.z + 2.0*p.w*p.x*q.y*q.z - 2.0*p.w*p.y*q.x*q.z + 2.0*p.w*p.z*q.w*q.z + p.x*p.x*q.y*q.y - 2.0*p.x*p.y*q.x*q.y + 2.0*p.x*p.z*q.w*q.y + p.y*p.y*q.x*q.x - 2.0*p.y*p.z*q.w*q.x + p.z*p.z*q.w*q.w
  {
  }

  lemma NormSqProductExpands(p: Quat, q: Quat)
    ensures NormSq(p) * NormSq(q) ==
            p.w*p.w*q.w*q.w + p.w*p.w*q.x*q.x + p.w*p.w*q.y*q.y + p.w*p.w*q.z*q.z + p.x*p.x*q.w*q.w + p.x*p.x*q.x*q.x + p.x*p.x*q.y*q.y + p.x*p.x*q.z*q.z + p.y*p.y*q.w*q.w + p.y*p.y*q.x*q.x + p.y*p.y*q.y*q.y + p.y*p.y*q.z*q.z + p.z*p.z*q.w*q.w + p.z*p.z*q.x*q.x + p.z*p.z*q.y*q.y + p.z*p.z*q.z*q.z
  {
  }

  /** The scalar part of q * (0, v) * conj(q) is zero, so keeping only the
      vector part loses nothing. */
  lemma SandwichIsPure(q: Quat, v: Vec3)
    ensures Sandwich(q, v).w == 0.0
    ensures Sandwich(q, v) == Pure(RotateVector(q, v))
  {
  }

  lemma RotateByIdentity(v: Vec3)
    ensures RotateVector(Identity, v) == v
  {
    ConjugateIdentity();
    IdentityNeutral(Pure(v));
  }

  lemma ConjugateIdentity()
    ensures Conjugate(Identity) == Identity
  {
  }

  /** q and -q describe the same rotation. */
  lemma RotateByNegated(q: Quat, v: Vec3)
    ensures RotateVector(Negate(q), v) == RotateVector(q, v)
  {
  }

  /** Rotating by q1 and then by q2 is rotating by the product q2 * q1. */
  lemma RotateCompose(q2: Quat, q1: Quat, v: Vec3)
    ensures RotateVector(q2, RotateVector(q1, v)) == RotateVector(Multiply(q2, q1), v)
  {
    var V := Pure(v);
    var c1, c2 := Conjugate(q1), Conjugate(q2);
    ConjugateOfProduct(q2, q1);
    MultiplyAssociative(q2, q1, V);
    MultiplyAssociative(q2, Multiply(q1, V), Multiply(c1, c2));
    MultiplyAssociative(Multiply(q1, V), c1, c2);
    MultiplyAssociative(q2, Sandwich(q1, v), c2);
    SandwichIsPure(q1, v);
  }

  lemma ConjugateNormSq(q: Quat)
    ensures NormSq(Conjugate(q)) == NormSq(q)
  {
  }

  /** Rotation scales the squared length by the square of the squared norm;
      a unit quaternion preserves it. */
  lemma RotatePreservesLength(q: Quat, v: Vec3)
    ensures Dot(RotateVector(q, v), RotateVector(q, v)) == NormSq(q) * Dot(v, v) * NormSq(q)
    ensures NormSq(q) == 1.0 ==> Dot(RotateVector(q, v), RotateVector(q, v)) == Dot(v, v)
  {
    NormSqMultiplicative(q, Pure(v));
    NormSqMultiplicative(Multiply(q, Pure(v)), Conjugate(q));
    ConjugateNormSq(q);
    SandwichIsPure(q, v);
  }

  lemma NormalizeZero()
    ensures Normalize(Quat(0.0, 0.0, 0.0, 0.0), 0.0) == Identity
  {
  }

  /** conj(q) * q is the real quaternion |q|². */
  lemma ConjugateTimesSelf(q: Quat)
    ensures Multiply(Conjugate(q), q) == Quat(NormSq(q), 0.0, 0.0, 0.0)
  {
  }

  /** For a unit quaternion, rotating by the conjugate undoes the rotation. */
  lemma ConjugateUndoesRotation(q: Quat, v: Vec3)
    requires NormSq(q) == 1.0
    ensures RotateVector(Conjugate(q), RotateVector(q, v)) == v
  {
    RotateCompose(Conjugate(q), q, v);
    ConjugateTimesSelf(q);
    RotateByIdentity(v);
  }

  /** The product of unit quaternions is a unit quaternion, so `normalize`
      leaves it unchanged. */
  lemma UnitProduct(p: Quat, q: Quat)
    requires NormSq(p) == 1.0 && NormSq(q) == 1.0
    ensures NormSq(Multiply(p, q)) == 1.0
    ensures Normalize(Multiply(p, q), 1.0) == Multiply(p, q)
  {
    NormSqMultiplicative(p, q);
  }
}
