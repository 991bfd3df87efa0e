/** Face names, integer positions and the exact quarter-turn maps.

    The source turns a piece with `Quaternion::fromAxisAngle(axis, ±π/2)`
    over floats and compares positions within 0.1. Here a position is an
    integer vector and an orientation is a signed permutation of the three
    coordinates; the lemmas at the end of the module show that the
    quaternion of a quarter turn acts on vectors exactly as these maps do. */
module QuarterTurn {
  import opened Vector3
  import Q = Quaternion

  datatype Option<T> = None | Some(value: T)

  /** The six face names "F", "B", "L", "R", "U", "D". */
  datatype Face = F | B | L | R | U | D

  function FaceName(f: Face): string {
    match f
    case F => "F"
    case B => "B"
    case L => "L"
    case R => "R"
    case U => "U"
    case D => "D"
  }

  /** Looks a string up among the six names: the `find` that every
      face-keyed table of the source performs. */
  function ParseFace(s: string): (r: Option<Face>)
    ensures r.Some? ==> FaceName(r.value) == s
    ensures r.None? ==> forall f: Face :: FaceName(f) != s
  {
    if s == "F" then Some(F)
    else if s == "B" then Some(B)
    else if s == "L" then Some(L)
    else if s == "R" then Some(R)
    else if s == "U" then Some(U)
    else if s == "D" then Some(D)
    else None
  }

  lemma ParseFaceName(f: Face)
    ensures ParseFace(FaceName(f)) == Some(f)
  {
  }

  const AllFaces: set<Face> := {F, B, L, R, U, D}

  /** The iteration order of a `std::map` keyed by face name. */
  const KeyOrder: seq<Face> := [B, D, F, L, R, U]

  /** `KeyOrder` lists every face once, in increasing order of its name. */
  lemma KeyOrderIsMapOrder()
    ensures |KeyOrder| == 6
    ensures forall f: Face :: f in KeyOrder
    ensures forall i, j :: 0 <= i < j < |KeyOrder| ==> FaceName(KeyOrder[i])[0] < FaceName(KeyOrder[j])[0]
  {
    forall f: Face
      ensures f in KeyOrder
    {
      match f
      case B => assert KeyOrder[0] == f;
      case D => assert KeyOrder[1] == f;
      case F => assert KeyOrder[2] == f;
      case L => assert KeyOrder[3] == f;
      case R => assert KeyOrder[4] == f;
      case U => assert KeyOrder[5] == f;
    }
  }

  datatype Coord = X | Y | Z

  datatype IVec = IVec(x: int, y: int, z: int)

  function Get(v: IVec, c: Coord): int {
    match c
    case X => v.x
    case Y => v.y
    case Z => v.z
  }

  /** A coordinate axis with a sign: (1, 0, 0) is Axis(X, true). */
  datatype Axis = Axis(coord: Coord, positive: bool)

  function AxisVector(a: Axis): IVec {
    var s := if a.positive then 1 else -1;
    match a.coord
    case X => IVec(s, 0, 0)
    case Y => IVec(0, s, 0)
    case Z => IVec(0, 0, s)
  }

  /** `ROTATION_AXES`: the axis a turn of each face rotates about. */
  function RotationAxis(f: Face): Axis {
    match f
    case F => Axis(Z, false)
    case B => Axis(Z, true)
    case L => Axis(X, false)
    case R => Axis(X, true)
    case U => Axis(Y, true)
    case D => Axis(Y, false)
  }

  /** `FACE_NORMALS` (the piece's table, repeated in `updateViewMapping`). */
  function Normal(f: Face): IVec {
    match f
    case F => IVec(0, 0, -1)
    case B => IVec(0, 0, 1)
    case L => IVec(-1, 0, 0)
    case R => IVec(1, 0, 0)
    case U => IVec(0, 1, 0)
    case D => IVec(0, -1, 0)
  }

  /** The rotation axis of a face is its normal. */
  lemma RotationAxisIsNormal(f: Face)
    ensures AxisVector(RotationAxis(f)) == Normal(f)
  {
  }

  /** The face whose normal is `v`, if any. */
  function NormalFace(v: IVec): (r: Option<Face>)
    ensures r.Some? ==> Normal(r.value) == v
    ensures r.None? ==> forall f: Face :: Normal(f) != v
  {
    if v == IVec(0, 0, -1) then Some(F)
    else if v == IVec(0, 0, 1) then Some(B)
    else if v == IVec(-1, 0, 0) then Some(L)
    else if v == IVec(1, 0, 0) then Some(R)
    else if v == IVec(0, 1, 0) then Some(U)
    else if v == IVec(0, -1, 0) then Some(D)
    else None
  }

  lemma NormalInjective(f: Face, g: Face)
    ensures Normal(f) == Normal(g) <==> f == g
  {
  }

  /** The layer test of `getPiecesOnFace`: "F" is the layer z = -1, "B" is
      z = 1, "L" is x = -1, "R" is x = 1, "U" is y = 1 and "D" is y = -1. */
  predicate OnFace(p: IVec, f: Face) {
    match f
    case F => p.z == -1
    case B => p.z == 1
    case L => p.x == -1
    case R => p.x == 1
    case U => p.y == 1
    case D => p.y == -1
  }

  /** A face's layer is the set of points whose coordinate along the face
      normal is 1. */
  lemma OnFaceAlongNormal(p: IVec, f: Face)
    ensures OnFace(p, f) <==> Get(p, RotationAxis(f).coord) == (if RotationAxis(f).positive then 1 else -1)
  {
  }

  /** One row of a signed permutation: the new coordinate is the old
      coordinate `from`, negated or not. */
  datatype Entry = Entry(from: Coord, negated: bool)

  /** A signed permutation of the coordinates: the orientation of a piece. */
  datatype Orientation = Orientation(ex: Entry, ey: Entry, ez: Entry)

  function Pick(e: Entry, v: IVec): int {
    if e.negated then -Get(v, e.from) else Get(v, e.from)
  }

  function Apply(o: Orientation, v: IVec): IVec {
    IVec(Pick(o.ex, v), Pick(o.ey, v), Pick(o.ez, v))
  }

  function RowOf(o: Orientation, c: Coord): Entry {
    match c
    case X => o.ex
    case Y => o.ey
    case Z => o.ez
  }

  predicate IsPermutation(o: Orientation) {
    o.ex.from != o.ey.from && o.ey.from != o.ez.from && o.ex.from != o.ez.from
  }

  predicate EvenPermutation(o: Orientation) {
    (o.ex.from, o.ey.from, o.ez.from) in {(X, Y, Z), (Y, Z, X), (Z, X, Y)}
  }

  /** An odd number of negated rows. */
  predicate OddNegations(o: Orientation) {
    (o.ex.negated != o.ey.negated) != o.ez.negated
  }

  /** A proper rotation: a signed permutation with determinant +1, one of
      the 24 orientations of a cube. */
  predicate IsRotation(o: Orientation) {
    IsPermutation(o) && (EvenPermutation(o) <==> !OddNegations(o))
  }

  const Id: Orientation := Orientation(Entry(X, false), Entry(Y, false), Entry(Z, false))

  function ComposeEntry(e: Entry, b: Orientation): Entry {
    var r := RowOf(b, e.from);
    Entry(r.from, e.negated != r.negated)
  }

  /** `Compose(a, b)` acts as `b` followed by `a`. */
  function Compose(a: Orientation, b: Orientation): (r: Orientation)
    ensures forall v :: Apply(r, v) == Apply(a, Apply(b, v))
  {
    Orientation(ComposeEntry(a.ex, b), ComposeEntry(a.ey, b), ComposeEntry(a.ez, b))
  }

  function InverseRow(o: Orientation, c: Coord): Entry {
    if o.ex.from == c then Entry(X, o.ex.negated)
    else if o.ey.from == c then Entry(Y, o.ey.negated)
    else Entry(Z, o.ez.negated)
  }

  /** The inverse of a signed permutation (its transpose). */
  function Inverse(o: Orientation): Orientation {
    Orientation(InverseRow(o, X), InverseRow(o, Y), InverseRow(o, Z))
  }

  lemma InverseUndoes(o: Orientation, v: IVec)
    requires IsPermutation(o)
    ensures Apply(Inverse(o), Apply(o, v)) == v
    ensures Apply(o, Apply(Inverse(o), v)) == v
  {
  }

  lemma InverseIsRotation(o: Orientation)
    requires IsRotation(o)
    ensures IsRotation(Inverse(o))
  {
  }

  /** The integer map of `fromAxisAngle(axis, clockwise ? π/2 : -π/2)`:
      about +X (x, y, z) goes to (x, -z, y), about +Y to (z, y, -x), about
      +Z to (-y, x, z); a negative axis or a negative angle gives the
      inverse map. */
  function Turn(a: Axis, clockwise: bool): Orientation {
    var forward := a.positive == clockwise;
    match a.coord
    case X =>
      if forward then Orientation(Entry(X, false), Entry(Z, true), Entry(Y, false))
      else Orientation(Entry(X, false), Entry(Z, false), Entry(Y, true))
    case Y =>
      if forward then Orientation(Entry(Z, false), Entry(Y, false), Entry(X, true))
      else Orientation(Entry(Z, true), Entry(Y, false), Entry(X, false))
    case Z =>
      if forward then Orientation(Entry(Y, true), Entry(X, false), Entry(Z, false))
      else Orientation(Entry(Y, false), Entry(X, true), Entry(Z, false))
  }

  lemma TurnIsRotation(a: Axis, clockwise: bool)
    ensures IsRotation(Turn(a, clockwise))
  {
  }

  /** The opposite turn is the inverse. */
  lemma TurnOppositeIsInverse(a: Axis, clockwise: bool)
    ensures Turn(a, !clockwise) == Inverse(Turn(a, clockwise))
  {
  }

  /** A turn followed by the opposite turn restores every vector. */
  lemma TurnThenOpposite(a: Axis, clockwise: bool, v: IVec)
    ensures Apply(Turn(a, !clockwise), Apply(Turn(a, clockwise), v)) == v
  {
  }

  /** Four equal quarter turns restore every vector. */
  lemma FourTurnsRestore(a: Axis, clockwise: bool, v: IVec)
    ensures var t := Turn(a, clockwise); Apply(t, Apply(t, Apply(t, Apply(t, v)))) == v
  {
  }

  /** No single quarter turn is the identity map. */
  lemma TurnMoves(a: Axis, clockwise: bool)
    ensures exists v :: Apply(Turn(a, clockwise), v) != v
  {
    var w := match a.coord case X => IVec(0, 1, 0) case Y => IVec(1, 0, 0) case Z => IVec(1, 0, 0);
    assert Apply(Turn(a, clockwise), w) != w;
  }

  /** Turning about a face's axis keeps its layer in place, and keeps
      points off the layer off it. */
  lemma TurnKeepsLayer(f: Face, clockwise: bool, p: IVec)
    ensures OnFace(Apply(Turn(RotationAxis(f), clockwise), p), f) <==> OnFace(p, f)
  {
  }

  /** Composing a rotation with a quarter turn on the left gives a rotation. */
  lemma TurnComposeIsRotation(a: Axis, clockwise: bool, o: Orientation)
    requires IsRotation(o)
    ensures IsRotation(Compose(Turn(a, clockwise), o))
  {
    if a.positive == clockwise {
      ForwardTurnComposeIsRotation(a.coord, o);
    } else {
      BackwardTurnComposeIsRotation(a.coord, o);
    }
  }

  lemma ForwardTurnComposeIsRotation(c: Coord, o: Orientation)
    requires IsRotation(o)
    ensures IsRotation(Compose(Turn(Axis(c, true), true), o))
  {
  }

  lemma BackwardTurnComposeIsRotation(c: Coord, o: Orientation)
    requires IsRotation(o)
    ensures IsRotation(Compose(Turn(Axis(c, true), false), o))
  {
  }

  /** Four equal quarter turns composed onto an orientation give it back. */
  lemma FourTurnsRestoreOrientation(a: Axis, clockwise: bool, o: Orientation)
    ensures var t := Turn(a, clockwise); Compose(t, Compose(t, Compose(t, Compose(t, o)))) == o
  {
  }

  /** A quarter turn followed by the opposite one gives the orientation back. */
  lemma TurnThenOppositeOrientation(a: Axis, clockwise: bool, o: Orientation)
    ensures Compose(Turn(a, !clockwise), Compose(Turn(a, clockwise), o)) == o
  {
  }

  function IDot(u: IVec, v: IVec): int {
    u.x * v.x + u.y * v.y + u.z * v.z
  }

  /** A signed permutation keeps dot products. */
  lemma ApplyKeepsIDot(o: Orientation, u: IVec, v: IVec)
    requires IsPermutation(o)
    ensures IDot(Apply(o, u), Apply(o, v)) == IDot(u, v)
  {
  }

  /** A signed permutation sends each face normal to a face normal. */
  lemma ApplyPermutesNormals(o: Orientation, g: Face)
    requires IsPermutation(o)
    ensures NormalFace(Apply(o, Normal(g))).Some?
  {
  }

  // ---- Agreement with the quaternion arithmetic ----

  function ToVec3(v: IVec): Vec3 {
    Vec3(v.x as real, v.y as real, v.z as real)
  }

  function GetR(v: Vec3, c: Coord): real {
    match c
    case X => v.x
    case Y => v.y
    case Z => v.z
  }

  function PickR(e: Entry, v: Vec3): real {
    if e.negated then -GetR(v, e.from) else GetR(v, e.from)
  }

  /** A signed permutation acting on real vectors. */
  function ApplyR(o: Orientation, v: Vec3): Vec3 {
    Vec3(PickR(o.ex, v), PickR(o.ey, v), PickR(o.ez, v))
  }

  lemma ApplyRAgrees(o: Orientation, v: IVec)
    ensures ApplyR(o, ToVec3(v)) == ToVec3(Apply(o, v))
  {
  }

  lemma ApplyRCompose(a: Orientation, b: Orientation, v: Vec3)
    ensures ApplyR(Compose(a, b), v) == ApplyR(a, ApplyR(b, v))
  {
  }

  /** A signed permutation keeps dot products of real vectors. */
  lemma ApplyRKeepsDot(o: Orientation, u: Vec3, v: Vec3)
    requires IsPermutation(o)
    ensures Dot(ApplyR(o, u), ApplyR(o, v)) == Dot(u, v)
  {
  }

  lemma InverseUndoesR(o: Orientation, v: Vec3)
    requires IsPermutation(o)
    ensures ApplyR(o, ApplyR(Inverse(o), v)) == v
  {
  }

  /** `fromAxisAngle(axis, clockwise ? π/2 : -π/2)` for a unit axis, where
      `c` stands for cos(π/4) = sin(π/4): the quaternion (c, ±c·axis). */
  function QuarterQuat(a: Axis, clockwise: bool, c: real): Q.Quat {
    Q.FromAxisAngle(ToVec3(AxisVector(a)), c, if clockwise then c else -c)
  }

  lemma QuarterQuatUnit(a: Axis, clockwise: bool, c: real)
    requires c * c == 0.5
    ensures Q.NormSq(QuarterQuat(a, clockwise, c)) == 1.0
  {
  }

  lemma QuarterAboutX(positive: bool, clockwise: bool, c: real, v: Vec3)
    requires c * c == 0.5
    ensures Q.RotateVector(QuarterQuat(Axis(X, positive), clockwise, c), v) == ApplyR(Turn(Axis(X, positive), clockwise), v)
  {
  }

  lemma QuarterAboutY(positive: bool, clockwise: bool, c: real, v: Vec3)
    requires c * c == 0.5
    ensures Q.RotateVector(QuarterQuat(Axis(Y, positive), clockwise, c), v) == ApplyR(Turn(Axis(Y, positive), clockwise), v)
  {
  }

  lemma QuarterAboutZ(positive: bool, clockwise: bool, c: real, v: Vec3)
    requires c * c == 0.5
    ensures Q.RotateVector(QuarterQuat(Axis(Z, positive), clockwise, c), v) == ApplyR(Turn(Axis(Z, positive), clockwise), v)
  {
  }

  /** `rotate(axis, ±π/2)` moves a vector exactly as `Turn` does. */
  lemma QuarterQuatIsTurn(a: Axis, clockwise: bool, c: real, v: Vec3)
    requires c * c == 0.5
    ensures Q.RotateVector(QuarterQuat(a, clockwise, c), v) == ApplyR(Turn(a, clockwise), v)
  {
    match a.coord
    case X => QuarterAboutX(a.positive, clockwise, c, v);
    case Y => QuarterAboutY(a.positive, clockwise, c, v);
    case Z => QuarterAboutZ(a.positive, clockwise, c, v);
  }

  /** The quarter-turn quaternion written out: (c, ±c, 0, 0) about X and
      likewise about Y and Z, with + exactly when the axis sign and the
      turn direction agree. */
  function QuarterQuatExplicit(a: Axis, clockwise: bool, c: real): Q.Quat {
    var t := if a.positive == clockwise then c else -c;
    match a.coord
    case X => Q.Quat(c, t, 0.0, 0.0)
    case Y => Q.Quat(c, 0.0, t, 0.0)
    case Z => Q.Quat(c, 0.0, 0.0, t)
  }

  lemma QuarterQuatIsExplicit(a: Axis, clockwise: bool, c: real)
    ensures QuarterQuat(a, clockwise, c) == QuarterQuatExplicit(a, clockwise, c)
  {
  }

  /** The half turn about the axis, in the direction of the quarter turn. */
  function HalfTurnQuat(a: Axis, clockwise: bool): Q.Quat {
    var m := if a.positive == clockwise then 1.0 else -1.0;
    match a.coord
    case X => Q.Quat(0.0, m, 0.0, 0.0)
    case Y => Q.Quat(0.0, 0.0, m, 0.0)
    case Z => Q.Quat(0.0, 0.0, 0.0, m)
  }

  lemma SquareAboutX(c: real)
    requires c * c == 0.5
    ensures Q.Multiply(Q.Quat(c, c, 0.0, 0.0), Q.Quat(c, c, 0.0, 0.0)) == Q.Quat(0.0, 1.0, 0.0, 0.0)
    ensures Q.Multiply(Q.Quat(c, -c, 0.0, 0.0), Q.Quat(c, -c, 0.0, 0.0)) == Q.Quat(0.0, -1.0, 0.0, 0.0)
  {
  }

  lemma SquareAboutY(c: real)
    requires c * c == 0.5
    ensures Q.Multiply(Q.Quat(c, 0.0, c, 0.0), Q.Quat(c, 0.0, c, 0.0)) == Q.Quat(0.0, 0.0, 1.0, 0.0)
    ensures Q.Multiply(Q.Quat(c, 0.0, -c, 0.0), Q.Quat(c, 0.0, -c, 0.0)) == Q.Quat(0.0, 0.0, -1.0, 0.0)
  {
  }

  lemma SquareAboutZ(c: real)
    requires c * c == 0.5
    ensures Q.Multiply(Q.Quat(c, 0.0, 0.0, c), Q.Quat(c, 0.0, 0.0, c)) == Q.Quat(0.0, 0.0, 0.0, 1.0)
    ensures Q.Multiply(Q.Quat(c, 0.0, 0.0, -c), Q.Quat(c, 0.0, 0.0, -c)) == Q.Quat(0.0, 0.0, 0.0, -1.0)
  {
  }

  /** The square of a quarter-turn quaternion is the pure quaternion of the
      half turn about the same axis. */
  lemma QuarterSquaredIsHalfTurn(a: Axis, clockwise: bool, c: real)
    requires c * c == 0.5
    ensures Q.Multiply(QuarterQuat(a, clockwise, c), QuarterQuat(a, clockwise, c)) == HalfTurnQuat(a, clockwise)
  {
    QuarterQuatIsExplicit(a, clockwise, c);
    match a.coord
    case X => SquareAboutX(c);
    case Y => SquareAboutY(c);
    case Z => SquareAboutZ(c);
  }

  /** Two half turns about the same axis give (-1, 0, 0, 0). */
  lemma HalfTurnSquared(a: Axis, clockwise: bool)
    ensures Q.Multiply(HalfTurnQuat(a, clockwise), HalfTurnQuat(a, clockwise)) == Q.Negate(Q.Identity)
  {
  }

  /** Four equal quarter turns leave the stored quaternion at (-1, 0, 0, 0),
      not at the identity, although they act as the identity. */
  lemma FourQuarterQuatsNegate(a: Axis, clockwise: bool, c: real)
    requires c * c == 0.5
    ensures var q := QuarterQuat(a, clockwise, c);
            Q.Multiply(q, Q.Multiply(q, Q.Multiply(q, q))) == Q.Negate(Q.Identity)
  {
    var q := QuarterQuat(a, clockwise, c);
    QuarterSquaredIsHalfTurn(a, clockwise, c);
    Q.MultiplyAssociative(q, q, Q.Multiply(q, q));
    HalfTurnSquared(a, clockwise);
  }

  // ---- A piece's orientation after a sequence of turns ----

  /** The orientation reached from the identity by applying `turns` in
      order, each composed on the left. */
  function TurnsOrientation(turns: seq<(Axis, bool)>): Orientation {
    if |turns| == 0 then Id
    else
      var last := turns[|turns| - 1];
      Compose(Turn(last.0, last.1), TurnsOrientation(turns[..|turns| - 1]))
  }

  lemma TurnsOrientationIsRotation(turns: seq<(Axis, bool)>)
    ensures IsRotation(TurnsOrientation(turns))
  {
    if |turns| > 0 {
      var last := turns[|turns| - 1];
      TurnsOrientationIsRotation(turns[..|turns| - 1]);
      TurnComposeIsRotation(last.0, last.1, TurnsOrientation(turns[..|turns| - 1]));
    }
  }

  /** The quaternion `rotate` stores after the same turns, each one
      multiplied on the left. */
  function TurnsQuat(turns: seq<(Axis, bool)>, c: real): Q.Quat {
    if |turns| == 0 then Q.Identity
    else
      var last := turns[|turns| - 1];
      Q.Multiply(QuarterQuat(last.0, last.1, c), TurnsQuat(turns[..|turns| - 1], c))
  }

  lemma {:induction false} TurnsQuatUnit(turns: seq<(Axis, bool)>, c: real)
    requires c * c == 0.5
    ensures Q.NormSq(TurnsQuat(turns, c)) == 1.0
  {
    if |turns| > 0 {
      var last := turns[|turns| - 1];
      TurnsQuatUnit(turns[..|turns| - 1], c);
      QuarterQuatUnit(last.0, last.1, c);
      Q.UnitProduct(QuarterQuat(last.0, last.1, c), TurnsQuat(turns[..|turns| - 1], c));
    }
  }

  /** `localRotation = rotation.multiply(localRotation).normalize()`: since
      both factors are unit quaternions, `normalize` (given the length 1)
      returns the product unchanged. */
  lemma RotateStepNormalized(turns: seq<(Axis, bool)>, a: Axis, clockwise: bool, c: real)
    requires c * c == 0.5
    ensures Q.NormSq(Q.Multiply(QuarterQuat(a, clockwise, c), TurnsQuat(turns, c))) == 1.0
    ensures Q.Normalize(Q.Multiply(QuarterQuat(a, clockwise, c), TurnsQuat(turns, c)), 1.0) == TurnsQuat(turns + [(a, clockwise)], c)
  {
    TurnsQuatUnit(turns, c);
    QuarterQuatUnit(a, clockwise, c);
    Q.UnitProduct(QuarterQuat(a, clockwise, c), TurnsQuat(turns, c));
    assert (turns + [(a, clockwise)])[..|turns|] == turns;
  }

  /** The stored quaternion rotates every vector exactly as the integer
      orientation does. */
  lemma {:induction false} TurnsQuatActsAsOrientation(turns: seq<(Axis, bool)>, c: real, v: Vec3)
    requires c * c == 0.5
    ensures Q.RotateVector(TurnsQuat(turns, c), v) == ApplyR(TurnsOrientation(turns), v)
  {
    if |turns| == 0 {
      NoTurnsActsAsIdentity(c, v);
    } else {
      var last := turns[|turns| - 1];
      var init := turns[..|turns| - 1];
      TurnsQuatActsAsOrientation(init, c, v);
      QuarterStepActs(last.0, last.1, c, TurnsQuat(init, c), TurnsOrientation(init), v);
    }
  }

  lemma NoTurnsActsAsIdentity(c: real, v: Vec3)
    ensures Q.RotateVector(TurnsQuat([], c), v) == v
    ensures ApplyR(TurnsOrientation([]), v) == v
  {
    Q.RotateByIdentity(v);
  }

  /** One step of the induction above: a quarter turn composed on the left. */
  lemma QuarterStepActs(a: Axis, clockwise: bool, c: real, prev: Q.Quat, o: Orientation, v: Vec3)
    requires c * c == 0.5
    requires Q.RotateVector(prev, v) == ApplyR(o, v)
    ensures Q.RotateVector(Q.Multiply(QuarterQuat(a, clockwise, c), prev), v) == ApplyR(Compose(Turn(a, clockwise), o), v)
  {
    var t := QuarterQuat(a, clockwise, c);
    Q.RotateCompose(t, prev, v);
    QuarterQuatIsTurn(a, clockwise, c, ApplyR(o, v));
    ApplyRCompose(Turn(a, clockwise), o, v);
  }

  /** Its conjugate, which `getFaceColorWithRotation` applies to the target
      normal, acts as the inverse orientation. */
  lemma TurnsQuatConjugateActsAsInverse(turns: seq<(Axis, bool)>, c: real, v: Vec3)
    requires c * c == 0.5
    ensures Q.RotateVector(Q.Conjugate(TurnsQuat(turns, c)), v) == ApplyR(Inverse(TurnsOrientation(turns)), v)
  {
    var o := TurnsOrientation(turns);
    var q := TurnsQuat(turns, c);
    var w := ApplyR(Inverse(o), v);
    TurnsOrientationIsRotation(turns);
    InverseUndoesR(o, v);
    TurnsQuatActsAsOrientation(turns, c, w);
    TurnsQuatUnit(turns, c);
    Q.ConjugateUndoesRotation(q, w);
  }
}
