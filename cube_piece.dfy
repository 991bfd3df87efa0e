/** One piece of the cube (`RubiksCubePiece`): its fixed initial position,
    kind and stickers, and its current position and orientation, which the
    turns change. Positions are exact lattice points and the orientation is
    a signed permutation (see `QuarterTurn`). */
module CubePiece {
  import opened Vector3
  import opened QuarterTurn
  import opened Enums
  import opened Layout

  // ---- Stickers ----

  /** The side of the piece `initColors` puts the sticker named `f` on:
      "L" at x = -1, "R" at x = 1, "D" at y = -1, "U" at y = 1, "B" at
      z = -1 and "F" at z = 1. */
  function StickerSide(f: Face): Axis {
    match f
    case L => Axis(X, false)
    case R => Axis(X, true)
    case D => Axis(Y, false)
    case U => Axis(Y, true)
    case B => Axis(Z, false)
    case F => Axis(Z, true)
  }

  /** That side as a direction. */
  function StickerDirection(f: Face): IVec {
    AxisVector(StickerSide(f))
  }

  /** The colour `initColors` gives the sticker named `f`. */
  function StickerColor(f: Face): Color {
    match f
    case L => Blue
    case R => Green
    case D => Yellow
    case U => White
    case B => Orange
    case F => Red
  }

  /** The sticker directions agree with `FACE_NORMALS` for L, R, U and D and
      are opposite to it for F and B. */
  lemma StickerDirectionAgainstNormal(f: Face)
    ensures f in {L, R, U, D} ==> StickerDirection(f) == Normal(f)
    ensures f in {F, B} ==> StickerDirection(f) == IVec(-Normal(f).x, -Normal(f).y, -Normal(f).z)
  {
  }

  lemma StickerColorInjective(f: Face, g: Face)
    ensures StickerColor(f) == StickerColor(g) <==> f == g
  {
  }

  /** The position lies on the side where the sticker named `f` goes. */
  predicate Shows(p: IVec, f: Face) {
    Get(p, StickerSide(f).coord) == (if StickerSide(f).positive then 1 else -1)
  }

  /** A dot product with an axis vector is a signed coordinate. */
  lemma IDotAxis(a: Axis, v: IVec)
    ensures IDot(AxisVector(a), v) == if a.positive then Get(v, a.coord) else -Get(v, a.coord)
  {
    match a.coord
    case X => {}
    case Y => {}
    case Z => {}
  }

  /** The order in which `initColors` tests the six sides. */
  const ChainOrder: seq<Face> := [L, R, D, U, B, F]

  /** The first side in `order` that the position shows. */
  function FirstShown(p: IVec, order: seq<Face>): (r: Option<Face>)
    ensures r.Some? ==> r.value in order && Shows(p, r.value)
    ensures r.None? ==> forall f :: f in order ==> !Shows(p, f)
  {
    if order == [] then None
    else if Shows(p, order[0]) then Some(order[0])
    else FirstShown(p, order[1..])
  }

  /** `FirstShown` over `ChainOrder`, spelled out. */
  lemma FirstShownChain(p: IVec)
    ensures FirstShown(p, ChainOrder) ==
      if p.x == -1 then Some(L) else if p.x == 1 then Some(R)
      else if p.y == -1 then Some(D) else if p.y == 1 then Some(U)
      else if p.z == -1 then Some(B) else if p.z == 1 then Some(F) else None
  {
    var o1, o2, o3, o4, o5 := [R, D, U, B, F], [D, U, B, F], [U, B, F], [B, F], [F];
    assert ChainOrder[1..] == o1 && o1[1..] == o2 && o2[1..] == o3 && o3[1..] == o4 && o4[1..] == o5;
    assert o5[1..] == [];
    assert FirstShown(p, o5) == if Shows(p, F) then Some(F) else None;
    assert FirstShown(p, o4) == if Shows(p, B) then Some(B) else FirstShown(p, o5);
    assert FirstShown(p, o3) == if Shows(p, U) then Some(U) else FirstShown(p, o4);
    assert FirstShown(p, o2) == if Shows(p, D) then Some(D) else FirstShown(p, o3);
    assert FirstShown(p, o1) == if Shows(p, R) then Some(R) else FirstShown(p, o2);
  }

  /** Which stickers `initColors` creates: every side the position shows for
      an edge or a corner, and only the first such side in `ChainOrder` for
      a centre. */
  predicate HasSticker(p: IVec, t: PieceType, f: Face) {
    if t == Center then FirstShown(p, ChainOrder) == Some(f) else Shows(p, f)
  }

  /** The sticker map `initColors` builds. */
  function InitialColors(p: IVec, t: PieceType): (m: map<Face, Color>)
    ensures forall f :: f in m <==> HasSticker(p, t, f)
    ensures forall f :: f in m ==> m[f] == StickerColor(f)
  {
    map f | f in AllFaces && HasSticker(p, t, f) :: StickerColor(f)
  }

  function AxisStickers(v: int, neg: Face, pos: Face): set<Face> {
    if v == -1 then {neg} else if v == 1 then {pos} else {}
  }

  /** The sides a position shows, one per axis whose coordinate is -1 or 1. */
  lemma ShownSides(p: IVec, f: Face)
    ensures Shows(p, f) <==> f in AxisStickers(p.x, L, R) + AxisStickers(p.y, D, U) + AxisStickers(p.z, B, F)
  {
    match f
    case F => {}
    case B => {}
    case L => {}
    case R => {}
    case U => {}
    case D => {}
  }

  /** At a lattice position of its kind, a piece has a sticker on exactly
      the sides it shows (x = -1 gives "L", and so on)... */
  lemma InitialColorsAreOuterSides(p: IVec, t: PieceType, f: Face)
    requires InGrid(p) && KindOf(p) == t
    ensures f in InitialColors(p, t) <==> Shows(p, f)
  {
    if t == Center {
      FirstShownChain(p);
      assert NonzeroCount(p) == 1;
      ShownSides(p, f);
    }
  }

  /** ... so a centre has one sticker, an edge two and a corner three. */
  lemma InitialColorsCount(p: IVec, t: PieceType)
    requires InGrid(p) && KindOf(p) == t
    ensures |InitialColors(p, t)| == NonzeroCount(p)
    ensures |InitialColors(p, t)| == (match t case Corner => 3 case Edge => 2 case Center => 1)
  {
    var m := InitialColors(p, t);
    var xs, ys, zs := AxisStickers(p.x, L, R), AxisStickers(p.y, D, U), AxisStickers(p.z, B, F);
    forall f
      ensures f in m.Keys <==> f in xs + ys + zs
    {
      InitialColorsAreOuterSides(p, t, f);
      ShownSides(p, f);
    }
    assert m.Keys == xs + ys + zs;
    DisjointUnionCard(xs, ys, zs);
  }

  // ---- The corner table of getFaceCorners ----

  function V(x: real, y: real, z: real): Vec3 {
    Vec3(x, y, z)
  }

  /** `FACE_CORNERS`: the four corners of each side of a unit piece, in the
      order the table lists them. */
  function CornerTable(f: Face): (cs: seq<Vec3>)
    ensures |cs| == 4
  {
    match f
    case F => [V(-0.5, -0.5, 0.5), V(0.5, -0.5, 0.5), V(0.5, 0.5, 0.5), V(-0.5, 0.5, 0.5)]
    case B => [V(-0.5, -0.5, -0.5), V(-0.5, 0.5, -0.5), V(0.5, 0.5, -0.5), V(0.5, -0.5, -0.5)]
    case L => [V(-0.5, -0.5, -0.5), V(-0.5, -0.5, 0.5), V(-0.5, 0.5, 0.5), V(-0.5, 0.5, -0.5)]
    case R => [V(0.5, -0.5, 0.5), V(0.5, -0.5, -0.5), V(0.5, 0.5, -0.5), V(0.5, 0.5, 0.5)]
    case U => [V(-0.5, 0.5, 0.5), V(0.5, 0.5, 0.5), V(0.5, 0.5, -0.5), V(-0.5, 0.5, -0.5)]
    case D => [V(-0.5, -0.5, -0.5), V(0.5, -0.5, -0.5), V(0.5, -0.5, 0.5), V(-0.5, -0.5, 0.5)]
  }

  /** Each side of the table lies on the plane half a unit out in its
      sticker direction... */
  lemma CornerTableOnPlane(f: Face, i: nat)
    requires i < 4
    ensures Dot(CornerTable(f)[i], ToVec3(StickerDirection(f))) == 0.5
  {
  }

  /** The first three corners of a side are wound so that
      (c1 - c0) x (c2 - c0) is its sticker direction: outward, along
      `FACE_NORMALS` for L, R, U and D and against it for F and B. */
  predicate WoundOutward(f: Face) {
    var cs := CornerTable(f);
    Cross(Sub(cs[1], cs[0]), Sub(cs[2], cs[0])) == ToVec3(StickerDirection(f))
  }

  lemma CornerTableWinding(f: Face)
    ensures WoundOutward(f)
  {
    match f
    case F => WindingF();
    case B => WindingB();
    case L => WindingL();
    case R => WindingR();
    case U => WindingU();
    case D => WindingD();
  }

  lemma WindingF()
    ensures WoundOutward(F)
  {
  }

  lemma WindingB()
    ensures WoundOutward(B)
  {
  }

  lemma WindingL()
    ensures WoundOutward(L)
  {
  }

  lemma WindingR()
    ensures WoundOutward(R)
  {
  }

  lemma WindingU()
    ensures WoundOutward(U)
  {
  }

  lemma WindingD()
    ensures WoundOutward(D)
  {
  }

  /** The rotated corners of a side lie on the plane half a unit out along
      the rotated sticker direction. */
  lemma RotatedCornersOnPlane(o: Orientation, f: Face, i: nat)
    requires IsPermutation(o) && i < 4
    ensures Dot(ApplyR(o, CornerTable(f)[i]), ApplyR(o, ToVec3(StickerDirection(f)))) == 0.5
  {
    ApplyRKeepsDot(o, CornerTable(f)[i], ToVec3(StickerDirection(f)));
    CornerTableOnPlane(f, i);
  }

  lemma ApplyRIdentity(v: Vec3)
    ensures ApplyR(Id, v) == v
  {
  }

  // ---- Which sticker a face shows ----

  /** The face whose normal a signed permutation sends the normal of `g` to. */
  function Facing(o: Orientation, g: Face): (f: Face)
    requires IsPermutation(o)
    ensures Normal(f) == Apply(o, Normal(g))
  {
    ApplyPermutesNormals(o, g);
    NormalFace(Apply(o, Normal(g))).value
  }

  /** The colour the face `f` shows under the orientation `o`: the sticker
      of the initial side whose `FACE_NORMALS` entry is the normal of `f`
      turned back by `o`, or NONE when that side has no sticker. */
  function ColorOn(colors: map<Face, Color>, o: Orientation, f: Face): Color {
    var g := NormalFace(Apply(Inverse(o), Normal(f)));
    if g.Some? && g.value in colors then colors[g.value] else NoColor
  }

  /** The colour `getFaceColorWithRotation(name, o)` returns: NONE for a name
      that is not a face, otherwise `ColorOn`. */
  function ColorFacing(colors: map<Face, Color>, o: Orientation, name: string): Color {
    match ParseFace(name)
    case None => NoColor
    case Some(f) => ColorOn(colors, o, f)
  }

  /** Under the identity the lookup is the sticker map itself. */
  lemma ColorFacingIdentity(colors: map<Face, Color>, f: Face)
    ensures ColorFacing(colors, Id, FaceName(f)) == if f in colors then colors[f] else NoColor
  {
    ParseFaceName(f);
    ColorOnIdentity(colors, f);
  }

  lemma ColorFacingUnknown(colors: map<Face, Color>, o: Orientation, name: string)
    requires ParseFace(name).None?
    ensures ColorFacing(colors, o, name) == NoColor
  {
  }

  /** Under a rotation, the face named `f` shows the sticker of `g` exactly
      when `o` turns the normal of `g` onto the normal of `f`. */
  lemma NormalTurnedBack(o: Orientation, f: Face, g: Face)
    requires IsPermutation(o)
    ensures NormalFace(Apply(Inverse(o), Normal(f))) == Some(g) <==> f == Facing(o, g)
  {
    var n := Apply(Inverse(o), Normal(f));
    InverseUndoes(o, Normal(g));
    InverseUndoes(o, Normal(f));
    if NormalFace(n) == Some(g) {
      assert Normal(g) == n;
      NormalInjective(f, Facing(o, g));
    }
    if f == Facing(o, g) {
      assert n == Normal(g);
      NormalInjective(g, NormalFace(n).value);
    }
  }

  /** Each initial sticker is reported for exactly one face name. */
  lemma EachStickerShownOnce(colors: map<Face, Color>, o: Orientation, g: Face)
    requires IsPermutation(o) && g in colors
    requires forall h :: h in colors ==> colors[h] != NoColor
    requires forall h1, h2 :: h1 in colors && h2 in colors && colors[h1] == colors[h2] ==> h1 == h2
    ensures ColorFacing(colors, o, FaceName(Facing(o, g))) == colors[g]
    ensures forall f :: ColorFacing(colors, o, FaceName(f)) == colors[g] ==> f == Facing(o, g)
  {
    ParseFaceName(Facing(o, g));
    NormalTurnedBack(o, Facing(o, g), g);
    forall f | ColorFacing(colors, o, FaceName(f)) == colors[g]
      ensures f == Facing(o, g)
    {
      ParseFaceName(f);
      ColorOnIsFacing(colors, o, f, g);
    }
  }

  lemma ColorOnIsFacing(colors: map<Face, Color>, o: Orientation, f: Face, g: Face)
    requires IsPermutation(o) && g in colors
    requires forall h :: h in colors ==> colors[h] != NoColor
    requires forall h1, h2 :: h1 in colors && h2 in colors && colors[h1] == colors[h2] ==> h1 == h2
    ensures ColorOn(colors, o, f) == colors[g] ==> f == Facing(o, g)
  {
    var h := NormalFace(Apply(Inverse(o), Normal(f)));
    if ColorOn(colors, o, f) == colors[g] {
      ColorOnSome(colors, o, f, colors[g]);
      assert h.value == g;
      NormalTurnedBack(o, f, g);
    }
  }

  lemma ColorOnSome(colors: map<Face, Color>, o: Orientation, f: Face, c: Color)
    requires c != NoColor && ColorOn(colors, o, f) == c
    ensures var h := NormalFace(Apply(Inverse(o), Normal(f)));
            h.Some? && h.value in colors && colors[h.value] == c
  {
  }

  /** The faces that report a colour are as many as the stickers. */
  lemma ShownFacesCount(colors: map<Face, Color>, o: Orientation)
    requires IsPermutation(o)
    requires forall h :: h in colors ==> colors[h] != NoColor
    ensures |set f | f in AllFaces && ColorOn(colors, o, f) != NoColor| == |colors|
  {
    var shown := set f | f in AllFaces && ColorOn(colors, o, f) != NoColor;
    var image := set g | g in colors.Keys :: Facing(o, g);
    forall f | f in shown
      ensures f in image
    {
      var g := NormalFace(Apply(Inverse(o), Normal(f))).value;
      NormalTurnedBack(o, f, g);
    }
    forall g | g in colors.Keys
      ensures Facing(o, g) in shown
    {
      NormalTurnedBack(o, Facing(o, g), g);
    }
    assert shown == image;
    FacingImageCard(colors.Keys, o);
  }

  lemma {:induction false} FacingImageCard(K: set<Face>, o: Orientation)
    requires IsPermutation(o)
    ensures |set g | g in K :: Facing(o, g)| == |K|
    decreases |K|
  {
    if K != {} {
      var a :| a in K;
      var rest := K - {a};
      FacingImageCard(rest, o);
      assert (set g | g in K :: Facing(o, g)) == (set g | g in rest :: Facing(o, g)) + {Facing(o, a)};
      forall g | g in rest
        ensures Facing(o, g) != Facing(o, a)
      {
        InverseUndoes(o, Normal(g));
        InverseUndoes(o, Normal(a));
        NormalInjective(g, a);
      }
    }
  }

  /** The stickers of a piece have distinct colours, none of them NONE. */
  lemma InitialColorsDistinct(p: IVec, t: PieceType)
    ensures forall h :: h in InitialColors(p, t) ==> InitialColors(p, t)[h] != NoColor
    ensures forall h1, h2 ::
              (h1 in InitialColors(p, t) && h2 in InitialColors(p, t) &&
               InitialColors(p, t)[h1] == InitialColors(p, t)[h2]) ==> h1 == h2
  {
    forall h1, h2 | h1 in InitialColors(p, t) && h2 in InitialColors(p, t) &&
                    InitialColors(p, t)[h1] == InitialColors(p, t)[h2]
      ensures h1 == h2
    {
      StickerColorInjective(h1, h2);
    }
  }

  // ---- Which side each sticker is drawn on ----

  /** What the drawing loop does for the face name `n` of a piece: it asks
      for the colour with `getCurrentFaceColor(n)`, which reads the sticker
      the world face `n` shows, and draws it on the corners from
      `getFaceCorners(n)`, which is the piece's own side `n` turned by its
      orientation. The result is the direction of the side drawn on and
      the colour. */
  function DrawnAsWritten(colors: map<Face, Color>, o: Orientation, n: Face): Option<(IVec, Color)> {
    var c := ColorOn(colors, o, n);
    if c == NoColor then None else Some((Apply(o, StickerDirection(n)), c))
  }

  /** The same loop with the colour looked up on the piece's own side `n`,
      which is what the corners are taken from. */
  function Drawn(colors: map<Face, Color>, o: Orientation, n: Face): Option<(IVec, Color)> {
    if n in colors then Some((Apply(o, StickerDirection(n)), colors[n])) else None
  }

  /** Before any turn both agree. */
  lemma DrawnAgreeAtIdentity(colors: map<Face, Color>, n: Face)
    requires forall h :: h in colors ==> colors[h] != NoColor
    ensures DrawnAsWritten(colors, Id, n) == Drawn(colors, Id, n)
  {
    ColorOnIdentity(colors, n);
  }

  lemma ColorOnIdentity(colors: map<Face, Color>, n: Face)
    ensures ColorOn(colors, Id, n) == if n in colors then colors[n] else NoColor
  {
    assert Apply(Inverse(Id), Normal(n)) == Normal(n);
    NormalInjective(NormalFace(Normal(n)).value, n);
  }

  /** After one R turn the edge that starts at (1, 0, -1) gets its orange
      sticker drawn on its side facing -z, where it touches the piece at
      (1, 1, -1), while its outward side +y gets nothing. */
  lemma DrawnAsWrittenMisplaces()
    ensures var p, o := IVec(1, 0, -1), Turn(Axis(X, true), true);
            var colors := InitialColors(p, Edge);
            && Apply(o, p) == IVec(1, 1, 0)
            && DrawnAsWritten(colors, o, D) == Some((IVec(0, 0, -1), Orange))
            && IDot(Apply(o, p), IVec(0, 0, -1)) == 0
            && Apply(o, StickerDirection(B)) == IVec(0, 1, 0)
            && DrawnAsWritten(colors, o, B) == None
            && Drawn(colors, o, B) == Some((IVec(0, 1, 0), Orange))
  {
    EdgeStickers();
    RTurnMisplaces(InitialColors(IVec(1, 0, -1), Edge));
  }

  lemma RTurnMisplaces(colors: map<Face, Color>)
    requires colors == map[R := Green, B := Orange]
    ensures var o := Turn(Axis(X, true), true);
            && DrawnAsWritten(colors, o, D) == Some((IVec(0, 0, -1), Orange))
            && DrawnAsWritten(colors, o, B) == None
            && Drawn(colors, o, B) == Some((IVec(0, 1, 0), Orange))
  {
    RTurnMoves();
  }

  /** Where one R turn takes the position, sides and normals involved. */
  lemma RTurnMoves()
    ensures var o := Turn(Axis(X, true), true);
            && Apply(o, IVec(1, 0, -1)) == IVec(1, 1, 0)
            && Apply(o, StickerDirection(D)) == IVec(0, 0, -1)
            && Apply(o, StickerDirection(B)) == IVec(0, 1, 0)
            && NormalFace(Apply(Inverse(o), Normal(D))) == Some(B)
            && NormalFace(Apply(Inverse(o), Normal(B))) == Some(U)
  {
    var o := Turn(Axis(X, true), true);
    assert o == Orientation(Entry(X, false), Entry(Z, true), Entry(Y, false));
    assert Inverse(o) == Orientation(Entry(X, false), Entry(Z, false), Entry(Y, true));
  }

  /** The stickers of the edge that starts at (1, 0, -1). */
  lemma EdgeStickers()
    ensures InitialColors(IVec(1, 0, -1), Edge) == map[R := Green, B := Orange]
  {
    SideColorsAgree(IVec(1, 0, -1), Edge);
  }

  /** With the lookup on the piece's own side, every sticker is drawn on an
      outer side of the cube: the piece's coordinate along the drawn
      direction is 1, whatever rotation the piece has taken. */
  lemma DrawnFacesOutward(p: IVec, t: PieceType, o: Orientation, n: Face)
    requires InGrid(p) && KindOf(p) == t && IsPermutation(o)
    requires Drawn(InitialColors(p, t), o, n).Some?
    ensures IDot(Apply(o, p), Drawn(InitialColors(p, t), o, n).value.0) == 1
    ensures Drawn(InitialColors(p, t), o, n).value.1 == StickerColor(n)
  {
    InitialColorsAreOuterSides(p, t, n);
    IDotAxis(StickerSide(n), p);
    assert IDot(p, StickerDirection(n)) == IDot(StickerDirection(n), p);
    ApplyKeepsIDot(o, p, StickerDirection(n));
  }

  // ---- The piece ----

  class Piece {
    const initialPosition: IVec
    const pieceType: PieceType
    const initialColors: map<Face, Color>
    var currentPosition: IVec
    var localRotation: Orientation

    /** The orientation is one of the 24 rotations, and the current position
        is where it takes the initial one. */
    ghost predicate Valid()
      reads this
    {
      IsRotation(localRotation) && currentPosition == Apply(localRotation, initialPosition)
    }

    /** The constructor with `initColors`. */
    constructor (position: IVec, t: PieceType)
      ensures initialPosition == position && pieceType == t
      ensures currentPosition == position && localRotation == Id
      ensures initialColors == InitialColors(position, t)
      ensures Valid()
    {
      initialPosition := position;
      currentPosition := position;
      pieceType := t;
      localRotation := Id;
      var colors := InitColors(position, t);
      initialColors := colors;
      new;
      assert IsRotation(Id);
    }

    /** `initColors`: a centre takes the first side its position shows, in
        the order L, R, D, U, B, F; an edge or a corner takes one side per
        axis. */
    static method InitColors(position: IVec, t: PieceType) returns (colors: map<Face, Color>)
      ensures colors == InitialColors(position, t)
    {
      var x, y, z := position.x, position.y, position.z;
      colors := map[];
      if t == Center {
        if x == -1 {
          colors := colors[L := Blue];
        } else if x == 1 {
          colors := colors[R := Green];
        } else if y == -1 {
          colors := colors[D := Yellow];
        } else if y == 1 {
          colors := colors[U := White];
        } else if z == -1 {
          colors := colors[B := Orange];
        } else if z == 1 {
          colors := colors[F := Red];
        }
        CenterColorsAgree(position, colors);
      } else {
        if x == -1 {
          colors := colors[L := Blue];
        } else if x == 1 {
          colors := colors[R := Green];
        }
        assert colors == AxisColors(x, L, R);
        if y == -1 {
          colors := colors[D := Yellow];
        } else if y == 1 {
          colors := colors[U := White];
        }
        assert colors == AxisColors(x, L, R) + AxisColors(y, D, U);
        if z == -1 {
          colors := colors[B := Orange];
        } else if z == 1 {
          colors := colors[F := Red];
        }
        assert colors == AxisColors(x, L, R) + AxisColors(y, D, U) + AxisColors(z, B, F);
        SideColorsAgree(position, t);
      }
    }

    /** `rotate(axis, ±π/2)`: the turn is applied to the position and
        composed to the left of the orientation; the quaternion product's
        `normalize` is the identity on unit quaternions (see
        `QuarterTurn.RotateStepNormalized`). */
    method Rotate(a: Axis, clockwise: bool)
      modifies this
      ensures currentPosition == Apply(Turn(a, clockwise), old(currentPosition))
      ensures localRotation == Compose(Turn(a, clockwise), old(localRotation))
      ensures old(Valid()) ==> Valid()
    {
      if IsRotation(localRotation) {
        TurnComposeIsRotation(a, clockwise, localRotation);
      }
      currentPosition := Apply(Turn(a, clockwise), currentPosition);
      localRotation := Compose(Turn(a, clockwise), localRotation);
    }

    method Reset()
      modifies this
      ensures currentPosition == initialPosition && localRotation == Id
      ensures Valid()
    {
      currentPosition := initialPosition;
      localRotation := Id;
      assert IsRotation(Id);
    }

    /** `getFaceCorners`: no corners for an unknown name, and otherwise the
        four table corners of that side turned by the piece's orientation. */
    method GetFaceCorners(faceName: string) returns (corners: seq<Vec3>)
      ensures ParseFace(faceName).None? ==> corners == []
      ensures ParseFace(faceName).Some? ==>
                |corners| == 4 &&
                forall i :: 0 <= i < 4 ==> corners[i] == ApplyR(localRotation, CornerTable(ParseFace(faceName).value)[i])
    {
      var f := ParseFace(faceName);
      if f.None? {
        return [];
      }
      var table := CornerTable(f.value);
      corners := [];
      for i := 0 to |table|
        invariant |corners| == i
        invariant forall j :: 0 <= j < i ==> corners[j] == ApplyR(localRotation, table[j])
      {
        corners := corners + [ApplyR(localRotation, table[i])];
      }
    }

    method CurrentFaceColor(faceName: string) returns (color: Color)
      requires Valid()
      ensures color == ColorFacing(initialColors, localRotation, faceName)
    {
      color := FaceColorWithRotation(faceName, localRotation);
    }

    /** `getFaceColorWithRotation`: turn the target normal back by the
        rotation, then scan the stickers in map order for the best dot
        product, keeping the first best; report it only above 0.9. */
    method FaceColorWithRotation(faceName: string, rotation: Orientation) returns (color: Color)
      requires IsPermutation(rotation)
      ensures color == ColorFacing(initialColors, rotation, faceName)
    {
      var target := ParseFace(faceName);
      if target.None? {
        return NoColor;
      }
      color := FaceColorOn(target.value, rotation);
    }

    /** The scan of `getFaceColorWithRotation` for a known face name. */
    method FaceColorOn(target: Face, rotation: Orientation) returns (color: Color)
      requires IsPermutation(rotation)
      ensures color == ColorOn(initialColors, rotation, target)
    {
      var initialNormal := Apply(Inverse(rotation), Normal(target));
      InverseIsPermutation(rotation);
      ghost var goal := Facing(Inverse(rotation), target);
      var bestMatch: Option<Face> := None;
      var bestDot: int := -1;
      for i := 0 to |KeyOrder|
        invariant -1 <= bestDot <= 1
        invariant bestMatch.None? <==> bestDot == -1
        invariant bestMatch.Some? ==> bestMatch.value in initialColors
        invariant bestDot == 1 <==> goal in initialColors && ChainIndexInKeys(goal) < i
        invariant bestDot == 1 ==> bestMatch == Some(goal)
      {
        var initFace := KeyOrder[i];
        KeyIndexOf(i);
        if initFace in initialColors {
          var dot := IDot(initialNormal, Normal(initFace));
          NormalDot(goal, initFace);
          assert dot == IDot(Normal(goal), Normal(initFace));
          if dot > bestDot {
            bestDot := dot;
            bestMatch := Some(initFace);
          }
        }
      }
      ColorOnGoal(initialColors, rotation, target);
      if bestMatch.Some? && bestDot as real > 0.9 {
        color := initialColors[bestMatch.value];
      } else {
        color := NoColor;
      }
    }
  }

  /** `ColorOn` reads the sticker of the side `Facing(Inverse(o), f)`. */
  lemma ColorOnGoal(colors: map<Face, Color>, o: Orientation, f: Face)
    requires IsPermutation(o)
    ensures IsPermutation(Inverse(o))
    ensures ColorOn(colors, o, f) == var g := Facing(Inverse(o), f); if g in colors then colors[g] else NoColor
  {
    InverseIsPermutation(o);
    var g := Facing(Inverse(o), f);
    var h := NormalFace(Apply(Inverse(o), Normal(f)));
    NormalInjective(h.value, g);
  }

  /** The position of a face in `KeyOrder`. */
  function ChainIndexInKeys(f: Face): (i: nat)
    ensures i < 6 && KeyOrder[i] == f
  {
    match f
    case B => 0
    case D => 1
    case F => 2
    case L => 3
    case R => 4
    case U => 5
  }

  lemma KeyIndexOf(i: int)
    requires 0 <= i < |KeyOrder|
    ensures ChainIndexInKeys(KeyOrder[i]) == i
  {
  }

  /** Dot products of face normals: 1 for the same face, otherwise 0 or -1. */
  lemma NormalDot(f: Face, g: Face)
    ensures IDot(Normal(f), Normal(g)) == 1 <==> f == g
    ensures -1 <= IDot(Normal(f), Normal(g)) <= 1
  {
    RotationAxisIsNormal(f);
    IDotAxis(RotationAxis(f), Normal(g));
  }

  lemma InverseIsPermutation(o: Orientation)
    requires IsPermutation(o)
    ensures IsPermutation(Inverse(o))
  {
  }

  /** The stickers one axis contributes to an edge or a corner. */
  function AxisColors(v: int, neg: Face, pos: Face): map<Face, Color> {
    if v == -1 then map[neg := StickerColor(neg)]
    else if v == 1 then map[pos := StickerColor(pos)]
    else map[]
  }

  lemma AxisColorsAgree(v: int, neg: Face, pos: Face)
    ensures AxisColors(v, neg, pos).Keys == AxisStickers(v, neg, pos)
    ensures forall f :: f in AxisColors(v, neg, pos) ==> AxisColors(v, neg, pos)[f] == StickerColor(f)
  {
  }

  lemma SideColorsAgree(p: IVec, t: PieceType)
    requires t != Center
    ensures InitialColors(p, t) == AxisColors(p.x, L, R) + AxisColors(p.y, D, U) + AxisColors(p.z, B, F)
  {
    var cx, cy, cz := AxisColors(p.x, L, R), AxisColors(p.y, D, U), AxisColors(p.z, B, F);
    var m, u := InitialColors(p, t), cx + cy + cz;
    AxisColorsAgree(p.x, L, R);
    AxisColorsAgree(p.y, D, U);
    AxisColorsAgree(p.z, B, F);
    forall f
      ensures f in m <==> f in u
      ensures f in u ==> u[f] == StickerColor(f)
    {
      ShownSides(p, f);
    }
    assert m.Keys == u.Keys;
  }

  lemma CenterColorsAgree(p: IVec, colors: map<Face, Color>)
    requires colors ==
      if p.x == -1 then map[L := Blue] else if p.x == 1 then map[R := Green]
      else if p.y == -1 then map[D := Yellow] else if p.y == 1 then map[U := White]
      else if p.z == -1 then map[B := Orange] else if p.z == 1 then map[F := Red] else map[]
    ensures colors == InitialColors(p, Center)
  {
    var m := InitialColors(p, Center);
    FirstShownChain(p);
    forall f
      ensures f in m <==> f in colors
      ensures f in colors ==> colors[f] == StickerColor(f)
    {
      match f
      case F => {}
      case B => {}
      case L => {}
      case R => {}
      case U => {}
      case D => {}
    }
    assert m.Keys == colors.Keys;
  }
}
