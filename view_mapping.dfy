/** Which cube face each of the six view directions currently shows. The cube
    keeps a map from view-direction names to face names; `updateViewMapping`
    recomputes it from the view rotation by taking each view direction into
    cube space and choosing the face normal it is most aligned with. */
module ViewMapping {
  import opened Vector3
  import Q = Quaternion
  import CC = ColorConverter
  import opened QuarterTurn
  import opened CubePiece

  /** The mapping the cube starts with and returns to on reset: every view
      direction shows the face of the same name. */
  const IdentityMapping: map<string, string> :=
    map["F" := "F", "B" := "B", "L" := "L", "R" := "R", "U" := "U", "D" := "D"]

  /** The six face names, which are also the view-direction names. */
  const FaceNames: set<string> := {"F", "B", "L", "R", "U", "D"}

  lemma FaceNamesParse(n: string)
    ensures n in FaceNames <==> ParseFace(n).Some?
  {
  }

  lemma FaceNameIn(f: Face)
    ensures FaceName(f) in FaceNames
  {
  }

  /** One entry per view direction, each naming a face. */
  predicate MappingValid(m: map<string, string>) {
    m.Keys == FaceNames && m.Values <= FaceNames
  }

  lemma IdentityMappingValid()
    ensures MappingValid(IdentityMapping)
    ensures forall v: Face :: FaceName(v) in IdentityMapping && IdentityMapping[FaceName(v)] == FaceName(v)
  {
    forall x | x in IdentityMapping.Values
      ensures x in FaceNames
    {
      var n :| n in IdentityMapping && IdentityMapping[n] == x;
    }
  }

  /** A face normal (the `viewDirections` and `FACE_NORMALS` tables hold the
      same six vectors) as a real vector. */
  function NormalR(f: Face): Vec3 {
    ToVec3(Normal(f))
  }

  /** The dot product with a face normal is one signed coordinate. */
  function FaceDot(d: Vec3, g: Face): real {
    match g
    case F => -d.z
    case B => d.z
    case L => -d.x
    case R => d.x
    case U => d.y
    case D => -d.y
  }

  lemma FaceDotIsDot(d: Vec3, g: Face)
    ensures FaceDot(d, g) == Dot(d, NormalR(g))
  {
  }

  /** The direction in cube space that view direction `v` looks along: the
      view vector rotated by the conjugate of the view rotation. */
  function ViewInCube(rotation: Q.Quat, v: Face): Vec3 {
    Q.RotateVector(Q.Conjugate(rotation), NormalR(v))
  }

  /** `g` is where the inner loop of `updateViewMapping` settles for direction
      `d`: it scores highest, and every face before it in key order scores
      strictly lower (the loop only replaces its choice on a strict `>`). */
  ghost predicate FirstBest(d: Vec3, g: Face) {
    && (forall h :: FaceDot(d, h) <= FaceDot(d, g))
    && (forall h :: ChainIndexInKeys(h) < ChainIndexInKeys(g) ==> FaceDot(d, h) < FaceDot(d, g))
  }

  /** At most one face is the first best. */
  lemma FirstBestUnique(d: Vec3, g1: Face, g2: Face)
    requires FirstBest(d, g1) && FirstBest(d, g2)
    ensures g1 == g2
  {
    assert KeyOrder[ChainIndexInKeys(g1)] == g1 && KeyOrder[ChainIndexInKeys(g2)] == g2;
  }

  /** Every direction has a first best face. */
  lemma FirstBestExists(d: Vec3)
    ensures exists g :: FirstBest(d, g)
  {
    var g := FirstBestAmong(d, 6);
    forall h
      ensures FaceDot(d, h) <= FaceDot(d, g)
      ensures ChainIndexInKeys(h) < ChainIndexInKeys(g) ==> FaceDot(d, h) < FaceDot(d, g)
    {
      assert KeyOrder[ChainIndexInKeys(h)] == h;
    }
    assert FirstBest(d, g);
  }

  /** The first best face among the first `n` faces in key order. */
  function FirstBestAmong(d: Vec3, n: nat): (g: Face)
    requires 1 <= n <= 6
    ensures ChainIndexInKeys(g) < n
    ensures forall j :: 0 <= j < n ==> FaceDot(d, KeyOrder[j]) <= FaceDot(d, g)
    ensures forall j :: 0 <= j < ChainIndexInKeys(g) ==> FaceDot(d, KeyOrder[j]) < FaceDot(d, g)
  {
    if n == 1 then KeyOrder[0]
    else
      var g := FirstBestAmong(d, n - 1);
      KeyIndexOf(n - 1);
      if FaceDot(d, KeyOrder[n - 1]) > FaceDot(d, g) then KeyOrder[n - 1] else g
  }

  /** The inner loop of `updateViewMapping`: the faces in key order, keeping
      the first one whose dot product exceeds the best so far, from -1. */
  method BestFace(d: Vec3) returns (best: Option<Face>, bestDot: real)
    ensures best.Some? && FirstBest(d, best.value) && bestDot == FaceDot(d, best.value)
  {
    best := None;
    bestDot := -1.0;
    for i := 0 to |KeyOrder|
      invariant best.None? ==> bestDot == -1.0 && forall j :: 0 <= j < i ==> FaceDot(d, KeyOrder[j]) <= -1.0
      invariant best.Some? ==> ChainIndexInKeys(best.value) < i && bestDot == FaceDot(d, best.value)
      invariant best.Some? ==> forall j :: 0 <= j < i ==> FaceDot(d, KeyOrder[j]) <= bestDot
      invariant best.Some? ==> forall j :: 0 <= j < ChainIndexInKeys(best.value) ==> FaceDot(d, KeyOrder[j]) < bestDot
    {
      var face := KeyOrder[i];
      var dot := Dot(d, NormalR(face));
      FaceDotIsDot(d, face);
      KeyIndexOf(i);
      if dot > bestDot {
        bestDot := dot;
        best := Some(face);
      }
    }
    assert FaceDot(d, KeyOrder[0]) == d.z && FaceDot(d, KeyOrder[2]) == -d.z;
    forall h
      ensures FaceDot(d, h) <= bestDot
      ensures ChainIndexInKeys(h) < ChainIndexInKeys(best.value) ==> FaceDot(d, h) < bestDot
    {
      assert KeyOrder[ChainIndexInKeys(h)] == h;
    }
  }

  /** How an update treats one entry: `Some(x)` sets it to `x`, `None` keeps
      it as it was (present with the same value, or absent). */
  predicate UpdatedEntry(m1: map<string, string>, m2: map<string, string>, n: string, update: Option<string>) {
    match update
    case Some(x) => n in m2 && m2[n] == x
    case None => (n in m2 <==> n in m1) && (n in m1 ==> m2[n] == m1[n])
  }

  /** The update `updateViewMapping` makes to view direction `v`: its first
      best face, when that face scores above 0.5. */
  ghost function EntryUpdate(rotation: Q.Quat, v: Face, g: Face): Option<string> {
    if FaceDot(ViewInCube(rotation, v), g) > 0.5 then Some(FaceName(g)) else None
  }

  /** `m2` is `m1` after `updateViewMapping` under `rotation`: other names
      keep their entries, and each view direction is updated by its first
      best face. */
  ghost predicate MappingUpdated(m1: map<string, string>, m2: map<string, string>, rotation: Q.Quat) {
    && (forall n :: n !in FaceNames ==> UpdatedEntry(m1, m2, n, None))
    && (forall v, g :: FirstBest(ViewInCube(rotation, v), g) ==> UpdatedEntry(m1, m2, FaceName(v), EntryUpdate(rotation, v, g)))
  }

  /** The update keeps the mapping valid. */
  lemma MappingUpdatedValid(m1: map<string, string>, m2: map<string, string>, rotation: Q.Quat)
    requires MappingValid(m1) && MappingUpdated(m1, m2, rotation)
    ensures MappingValid(m2)
  {
    forall n | n in FaceNames
      ensures n in m2 && m2[n] in FaceNames
    {
      FaceNamesParse(n);
      var v := ParseFace(n).value;
      FirstBestExists(ViewInCube(rotation, v));
      var g :| FirstBest(ViewInCube(rotation, v), g);
      assert UpdatedEntry(m1, m2, FaceName(v), EntryUpdate(rotation, v, g));
      FaceNameIn(g);
    }
    assert m2.Keys <= FaceNames;
  }

  /** Under the identity rotation every view direction shows its own face,
      so an update yields the identity mapping. */
  lemma MappingUpdatedAtIdentity(m1: map<string, string>, m2: map<string, string>)
    requires MappingValid(m1) && MappingUpdated(m1, m2, Q.Identity)
    ensures m2 == IdentityMapping
  {
    MappingUpdatedValid(m1, m2, Q.Identity);
    IdentityEntry(m1, m2, F);
    IdentityEntry(m1, m2, B);
    IdentityEntry(m1, m2, L);
    IdentityEntry(m1, m2, R);
    IdentityEntry(m1, m2, U);
    IdentityEntry(m1, m2, D);
    assert m2.Keys == IdentityMapping.Keys;
  }

  lemma IdentityEntry(m1: map<string, string>, m2: map<string, string>, v: Face)
    requires MappingUpdated(m1, m2, Q.Identity)
    ensures FaceName(v) in m2 && m2[FaceName(v)] == FaceName(v)
  {
    ViewAtIdentity(v);
    var d := ViewInCube(Q.Identity, v);
    assert FirstBest(d, v);
    assert EntryUpdate(Q.Identity, v, v) == Some(FaceName(v));
    assert UpdatedEntry(m1, m2, FaceName(v), Some(FaceName(v)));
  }

  /** At the identity rotation view direction `v` looks along its own
      normal, which scores 1 on face `v` and at most 0 elsewhere. */
  lemma ViewAtIdentity(v: Face)
    ensures ViewInCube(Q.Identity, v) == NormalR(v)
    ensures FirstBest(NormalR(v), v) && FaceDot(NormalR(v), v) == 1.0
  {
    Q.ConjugateIdentity();
    Q.RotateByIdentity(NormalR(v));
    OwnNormalFirstBest(v);
  }

  lemma OwnNormalFirstBest(v: Face)
    ensures FirstBest(NormalR(v), v) && FaceDot(NormalR(v), v) == 1.0
  {
    forall h
      ensures FaceDot(NormalR(v), h) == (if h == v then 1.0 else FaceDot(NormalR(v), h))
      ensures h != v ==> FaceDot(NormalR(v), h) <= 0.0
    {
      NormalScores(v, h);
    }
  }

  /** A face normal scores 1 on its own face and at most 0 on the others. */
  lemma NormalScores(v: Face, h: Face)
    ensures h == v ==> FaceDot(NormalR(v), h) == 1.0
    ensures h != v ==> FaceDot(NormalR(v), h) <= 0.0
  {
    match v
    case F =>
    case B =>
    case L =>
    case R =>
    case U =>
    case D =>
  }

  lemma HalfSquare(a: real)
    requires -0.5 <= a <= 0.5
    ensures a * a <= 0.25
  {
    assert (0.5 - a) * (0.5 + a) == 0.25 - a * a;
    CC.ProductNonNegative(0.5 - a, 0.5 + a);
  }

  /** For a unit view rotation the best face always scores above 0.5 (a unit
      vector has a coordinate of size at least 1/sqrt(3)), so every view
      direction is overwritten and no stale entry survives. */
  lemma UnitRotationOverwrites(rotation: Q.Quat, v: Face, g: Face)
    requires Q.NormSq(rotation) == 1.0
    requires FirstBest(ViewInCube(rotation, v), g)
    ensures FaceDot(ViewInCube(rotation, v), g) > 0.5
  {
    var d := ViewInCube(rotation, v);
    ViewIsUnit(rotation, v);
    var m := FaceDot(d, g);
    assert FaceDot(d, R) <= m && FaceDot(d, L) <= m;
    assert FaceDot(d, U) <= m && FaceDot(d, D) <= m;
    assert FaceDot(d, B) <= m && FaceDot(d, F) <= m;
    UnitCoordinateBound(d, m);
  }

  /** A unit rotation keeps a view direction a unit vector. */
  lemma ViewIsUnit(rotation: Q.Quat, v: Face)
    requires Q.NormSq(rotation) == 1.0
    ensures Dot(ViewInCube(rotation, v), ViewInCube(rotation, v)) == 1.0
  {
    Q.ConjugateNormSq(rotation);
    Q.RotatePreservesLength(Q.Conjugate(rotation), NormalR(v));
    NormalIsUnit(v);
  }

  lemma NormalIsUnit(v: Face)
    ensures Dot(NormalR(v), NormalR(v)) == 1.0
  {
    match v
    case F =>
    case B =>
    case L =>
    case R =>
    case U =>
    case D =>
  }

  /** A bound `m` on the size of every coordinate of a unit vector exceeds 0.5. */
  lemma UnitCoordinateBound(d: Vec3, m: real)
    requires Dot(d, d) == 1.0
    requires -m <= d.x <= m && -m <= d.y <= m && -m <= d.z <= m
    ensures m > 0.5
  {
    if m <= 0.5 {
      HalfSquare(d.x);
      HalfSquare(d.y);
      HalfSquare(d.z);
    }
  }

  /** After an update under a unit rotation the mapping is a function of the
      rotation alone: each view direction names its first best face. */
  lemma MappingUpdatedUnit(m1: map<string, string>, m2: map<string, string>, rotation: Q.Quat, v: Face, g: Face)
    requires Q.NormSq(rotation) == 1.0 && MappingUpdated(m1, m2, rotation)
    requires FirstBest(ViewInCube(rotation, v), g)
    ensures FaceName(v) in m2 && m2[FaceName(v)] == FaceName(g)
  {
    UnitRotationOverwrites(rotation, v, g);
    assert UpdatedEntry(m1, m2, FaceName(v), EntryUpdate(rotation, v, g));
  }
}
