/** The cube controller: the 26 piece objects, the view rotation, zoom and
    position, the quarter-turn animation, and the mapping from view
    directions to the cube faces seen there. Piece positions and
    orientations are read as a `CubeState` value, so every operation that
    turns pieces is specified by the pure turns proved about in that module. */
module RubiksCube {
  import opened Vector3
  import Q = Quaternion
  import CC = ColorConverter
  import opened QuarterTurn
  import opened Enums
  import opened Layout
  import opened CubePiece
  import opened CubeState
  import opened ViewMapping

  /** `ANIMATION_DURATION`, in seconds. */
  const AnimationDuration: real := 0.3

  /** The recorded turn `(axis, face, clockwise)`; `NoAnimation` is the
      sentinel `(Vector3(), "", false)` whose empty face name marks no turn. */
  datatype Animation = NoAnimation | Recorded(axis: Axis, face: Face, clockwise: bool)

  /** The strictly increasing index lists the piece loops produce. */
  predicate Increasing(xs: seq<nat>) {
    forall j, k :: 0 <= j < k < |xs| ==> xs[j] < xs[k]
  }

  /** `xs` lists the indices in `I` once each, in increasing order. */
  ghost predicate Lists(xs: seq<nat>, I: set<nat>) {
    Increasing(xs) && forall i: nat :: i in xs <==> i in I
  }

  /** A list in increasing order has as many entries as the set it lists. */
  lemma {:induction false} ListsCard(xs: seq<nat>, I: set<nat>)
    requires Lists(xs, I)
    ensures |xs| == |I|
    decreases |xs|
  {
    if xs == [] {
      assert I == {};
    } else {
      var n := |xs| - 1;
      var ys := xs[..n];
      forall i: nat
        ensures i in ys <==> i in I - {xs[n]}
      {
        if i in ys {
          var j :| 0 <= j < n && ys[j] == i;
          assert xs[j] == i;
        }
        if i in I - {xs[n]} {
          var j :| 0 <= j < |xs| && xs[j] == i;
          assert j < n && ys[j] == i;
        }
      }
      ListsCard(ys, I - {xs[n]});
    }
  }

  /** `zoom`: the scale moved by half the factor and clamped to [15, 50]. */
  function ZoomedScale(scale: real, factor: real): (r: real)
    ensures 15.0 <= r <= 50.0
    ensures 15.0 <= scale + factor * 0.5 <= 50.0 ==> r == scale + factor * 0.5
    ensures scale + factor * 0.5 < 15.0 ==> r == 15.0
    ensures scale + factor * 0.5 > 50.0 ==> r == 50.0
  {
    CC.Max(15.0, CC.Min(50.0, scale + factor * 0.5))
  }

  /** Zooming is monotone in the factor. */
  lemma ZoomMonotone(scale: real, f1: real, f2: real)
    requires f1 <= f2
    ensures ZoomedScale(scale, f1) <= ZoomedScale(scale, f2)
  {
  }

  /** `updateAnimation`'s progress: elapsed time over the duration, capped
      at 1. */
  function Progress(elapsed: real): (p: real)
    requires elapsed >= 0.0
    ensures 0.0 <= p <= 1.0
    ensures p == 1.0 <==> elapsed >= AnimationDuration
    ensures elapsed < AnimationDuration ==> p * AnimationDuration == elapsed
  {
    CC.Min(1.0, elapsed / AnimationDuration)
  }

  /** The view rotations a mouse drag applies: a quarter-angle pair about
      the y axis for a horizontal move and about the x axis for a vertical
      one, given by the cosine and sine of half the angle. */
  function AxisQuat(axis: Vec3, cosHalf: real, sinHalf: real): (q: Q.Quat)
    requires axis == Vec3(0.0, 1.0, 0.0) || axis == Vec3(1.0, 0.0, 0.0)
    requires cosHalf * cosHalf + sinHalf * sinHalf == 1.0
    ensures Q.NormSq(q) == 1.0
  {
    Q.FromAxisAngle(axis, cosHalf, sinHalf)
  }

  /** The view rotation after `rotateByMouseDelta`. */
  function DraggedRotation(rotation: Q.Quat, dx: real, dy: real, cosY: real, sinY: real, cosX: real, sinX: real): (r: Q.Quat)
    requires Q.NormSq(rotation) == 1.0
    requires cosY * cosY + sinY * sinY == 1.0 && cosX * cosX + sinX * sinX == 1.0
    ensures Q.NormSq(r) == 1.0
    ensures dx == 0.0 && dy == 0.0 ==> r == rotation
  {
    var ry := AxisQuat(Vec3(0.0, 1.0, 0.0), cosY, sinY);
    var r1 := if dx != 0.0 then Q.Multiply(ry, rotation) else rotation;
    Q.UnitProduct(ry, rotation);
    var rx := AxisQuat(Vec3(1.0, 0.0, 0.0), cosX, sinX);
    Q.UnitProduct(rx, r1);
    if dy != 0.0 then Q.Multiply(rx, r1) else r1
  }

  /** The face turns `scramble` performs for its chosen view directions:
      each name is looked up in the view mapping, and names without an
      entry are skipped. */
  function MappedMoves(m: map<string, string>, moves: seq<(string, bool)>): (r: seq<(Face, bool)>)
    ensures |r| <= |moves|
    decreases |moves|
  {
    if moves == [] then []
    else MappedMoves(m, moves[..|moves| - 1]) + MappedMove(m, moves[|moves| - 1])
  }

  function MappedMove(m: map<string, string>, move: (string, bool)): seq<(Face, bool)> {
    if move.0 in m && ParseFace(m[move.0]).Some? then [(ParseFace(m[move.0]).value, move.1)] else []
  }

  lemma MappedMovesSnoc(m: map<string, string>, moves: seq<(string, bool)>, k: int)
    requires 0 <= k < |moves|
    ensures MappedMoves(m, moves[..k + 1]) == MappedMoves(m, moves[..k]) + MappedMove(m, moves[k])
  {
    assert moves[..k + 1][..k] == moves[..k];
  }

  /** With the identity mapping each view direction turns its own face. */
  lemma MappedMovesIdentity(moves: seq<(Face, bool)>)
    ensures MappedMoves(IdentityMapping, seq(|moves|, k requires 0 <= k < |moves| => (FaceName(moves[k].0), moves[k].1))) == moves
    decreases |moves|
  {
    var named := seq(|moves|, k requires 0 <= k < |moves| => (FaceName(moves[k].0), moves[k].1));
    if moves != [] {
      var init := moves[..|moves| - 1];
      MappedMovesIdentity(init);
      assert named[..|named| - 1] == seq(|init|, k requires 0 <= k < |init| => (FaceName(init[k].0), init[k].1));
      IdentityMappingValid();
      ParseFaceName(moves[|moves| - 1].0);
      assert moves == init + [moves[|moves| - 1]];
    }
  }

  class Cube {
    const pieces: seq<Piece>
    var rotation: Q.Quat
    var scale: real
    var position: Vec3
    var animating: bool
    var animationProgress: real
    var currentAnimation: Animation
    var animationPieces: seq<nat>
    var viewMapping: map<string, string>

    /** Where every piece is and how it is turned, in creation order. */
    ghost function State(): (s: seq<PieceState>)
      reads pieces
      ensures |s| == |pieces|
      ensures forall i :: 0 <= i < |pieces| ==> s[i] == PieceState(pieces[i].currentPosition, pieces[i].localRotation)
    {
      seq(|pieces|, i requires 0 <= i < |pieces| reads pieces => PieceState(pieces[i].currentPosition, pieces[i].localRotation))
    }

    /** Twenty-six distinct pieces created from the grid; these facts
        concern constant fields only, so no state change can affect them. */
    ghost predicate Built() {
      && |pieces| == 26
      && (forall i, j :: 0 <= i < j < 26 ==> pieces[i] != pieces[j])
      && (forall i :: 0 <= i < 26 ==>
            && pieces[i].initialPosition == Grid[i]
            && pieces[i].pieceType == TypeAt(i))
    }

    /** The pieces as built, in a state reachable by turns. */
    ghost predicate PiecesValid()
      reads pieces
    {
      Built() && Consistent(State())
    }

    /** The recorded turn lists exactly the pieces of its face, about that
        face's axis; no turn is recorded while idle. */
    ghost predicate AnimationValid()
      reads this, pieces
    {
      && 0.0 <= animationProgress <= 1.0
      && (!animating ==> currentAnimation == NoAnimation)
      && (currentAnimation == NoAnimation ==> animationPieces == [])
      && (currentAnimation.Recorded? ==>
            && animating
            && currentAnimation.axis == RotationAxis(currentAnimation.face)
            && Lists(animationPieces, FacePieces(State(), currentAnimation.face)))
    }

    /** A valid view mapping, a unit view rotation and a scale within the
        zoom limits. */
    ghost predicate ViewValid()
      reads this
    {
      && MappingValid(viewMapping)
      && Q.NormSq(rotation) == 1.0
      && 15.0 <= scale <= 50.0
    }

    ghost predicate Valid()
      reads this, pieces
    {
      PiecesValid() && AnimationValid() && ViewValid()
    }

    /** Every piece object keeps its own invariant. */
    lemma EachPieceValid(i: int)
      requires PiecesValid() && 0 <= i < 26
      ensures pieces[i].Valid()
    {
    }

    /** The constructor: identity view, scale 25, position (0, 0, 10), the
        identity view mapping, no animation, and the pieces of
        `createPieces`. */
    constructor ()
      ensures Valid()
      ensures State() == Solved()
      ensures rotation == Q.Identity && scale == 25.0 && position == Vec3(0.0, 0.0, 10.0)
      ensures !animating && animationProgress == 0.0 && currentAnimation == NoAnimation && animationPieces == []
      ensures viewMapping == IdentityMapping
    {
      rotation := Q.Identity;
      scale := 25.0;
      position := Vec3(0.0, 0.0, 10.0);
      animating, animationProgress, currentAnimation, animationPieces := false, 0.0, NoAnimation, [];
      viewMapping := IdentityMapping;
      var ps := CreatePieces();
      pieces := ps;
      new;
      SolvedIsConsistent();
      IdentityMappingValid();
      assert State() == Solved();
    }

    /** `createPieces`: a new piece for every grid position, in creation
        order. */
    static method CreatePieces() returns (ps: seq<Piece>)
      ensures |ps| == 26
      ensures forall i, j :: 0 <= i < j < 26 ==> ps[i] != ps[j]
      ensures forall i :: 0 <= i < 26 ==> fresh(ps[i])
      ensures forall i :: 0 <= i < 26 ==>
                && ps[i].initialPosition == Grid[i] && ps[i].pieceType == TypeAt(i)
                && ps[i].initialColors == InitialColors(Grid[i], TypeAt(i))
                && ps[i].currentPosition == Grid[i] && ps[i].localRotation == Id
    {
      ps := [];
      for i := 0 to 26
        invariant |ps| == i
        invariant forall j, k :: 0 <= j < k < i ==> ps[j] != ps[k]
        invariant forall j :: 0 <= j < i ==> fresh(ps[j])
        invariant forall j :: 0 <= j < i ==>
                    && ps[j].initialPosition == Grid[j] && ps[j].pieceType == TypeAt(j)
                    && ps[j].initialColors == InitialColors(Grid[j], TypeAt(j))
                    && ps[j].currentPosition == Grid[j] && ps[j].localRotation == Id
      {
        var p := new Piece(Grid[i], TypeAt(i));
        ps := ps + [p];
      }
    }

    /** `getPiecesOnFace`: the pieces, in creation order, whose position lies
        in the layer of the named face; none for an unknown name. Every face
        holds nine. */
    method GetPiecesOnFace(faceName: string) returns (result: seq<nat>)
      ensures ParseFace(faceName).None? ==> result == []
      ensures ParseFace(faceName).Some? ==> Lists(result, FacePieces(State(), ParseFace(faceName).value))
      ensures ParseFace(faceName).Some? && PiecesValid() ==> |result| == 9
    {
      result := [];
      var f := ParseFace(faceName);
      if f.None? {
        return;
      }
      for i := 0 to |pieces|
        invariant Increasing(result)
        invariant forall j :: 0 <= j < |result| ==> result[j] < i
        invariant forall j: nat :: j < i ==> (j in result <==> OnFace(pieces[j].currentPosition, f.value))
      {
        if OnFace(pieces[i].currentPosition, f.value) {
          result := result + [i];
        }
      }
      if PiecesValid() {
        NinePerFace(State(), f.value);
        ListsCard(result, FacePieces(State(), f.value));
      }
    }

    /** The loop `piece->rotate(axis, angle)` over the listed pieces of face
        `f`, shared by `completeAnimation` and `scramble`: a quarter turn of
        that face. */
    method RotatePieces(indices: seq<nat>, f: Face, clockwise: bool)
      requires |pieces| == 26 && (forall i, j :: 0 <= i < j < 26 ==> pieces[i] != pieces[j])
      requires Lists(indices, FacePieces(State(), f))
      modifies pieces
      ensures State() == TurnFace(old(State()), f, clockwise)
    {
      ghost var s0 := State();
      assert Lists(indices, FacePieces(s0, f));
      assert forall k :: 0 <= k < |indices| ==> indices[k] in FacePieces(s0, f);
      for k := 0 to |indices|
        invariant forall i :: 0 <= i < 26 ==>
                    State()[i] == if i in indices[..k] then TurnPiece(s0[i], RotationAxis(f), clockwise) else s0[i]
      {
        var idx := indices[k];
        assert indices[..k + 1] == indices[..k] + [idx];
        pieces[idx].Rotate(RotationAxis(f), clockwise);
      }
      assert indices[..|indices|] == indices;
    }

    /** `completeAnimation`: the recorded turn, if any, is applied to its
        pieces and the cube becomes idle; the view is untouched. */
    method CompleteAnimation()
      requires Valid()
      modifies this, pieces
      ensures Valid()
      ensures old(currentAnimation).Recorded? ==>
                State() == TurnFace(old(State()), old(currentAnimation).face, old(currentAnimation).clockwise)
      ensures old(currentAnimation).NoAnimation? ==> State() == old(State())
      ensures !animating && animationProgress == 0.0 && currentAnimation == NoAnimation && animationPieces == []
      ensures rotation == old(rotation) && scale == old(scale) && position == old(position)
      ensures viewMapping == old(viewMapping)
    {
      ApplyRecordedTurn();
      animating, animationProgress, currentAnimation, animationPieces := false, 0.0, NoAnimation, [];
    }

    /** The first half of `completeAnimation`: when a turn is recorded and its
        piece list is not empty, those pieces turn. */
    method ApplyRecordedTurn()
      requires Valid()
      modifies pieces
      ensures PiecesValid()
      ensures old(currentAnimation).Recorded? ==>
                State() == TurnFace(old(State()), currentAnimation.face, currentAnimation.clockwise)
      ensures old(currentAnimation).NoAnimation? ==> State() == old(State())
    {
      ghost var s := State();
      if currentAnimation.Recorded? {
        NinePerFace(s, currentAnimation.face);
        ListsCard(animationPieces, FacePieces(s, currentAnimation.face));
      }
      if currentAnimation.Recorded? && |animationPieces| > 0 {
        TurnFaceConsistent(s, currentAnimation.face, currentAnimation.clockwise);
        RotatePieces(animationPieces, currentAnimation.face, currentAnimation.clockwise);
      }
    }

    /** `rotateViewDirection`: a name without a mapping entry does nothing;
        otherwise the turn in progress is completed and a quarter turn of the
        face seen in that direction is recorded, with the pieces now on it. */
    method RotateViewDirection(viewDirection: string, clockwise: bool)
      requires Valid()
      modifies this, pieces
      ensures Valid()
      ensures viewDirection !in old(viewMapping) ==> unchanged(this) && State() == old(State())
      ensures viewDirection in old(viewMapping) ==>
                && (old(currentAnimation).Recorded? ==>
                      State() == TurnFace(old(State()), old(currentAnimation).face, old(currentAnimation).clockwise))
                && (old(currentAnimation).NoAnimation? ==> State() == old(State()))
                && animating && animationProgress == 0.0
                && currentAnimation.Recorded? && currentAnimation.clockwise == clockwise
                && FaceName(currentAnimation.face) == old(viewMapping)[viewDirection]
                && Lists(animationPieces, FacePieces(State(), currentAnimation.face))
      ensures rotation == old(rotation) && scale == old(scale) && position == old(position)
      ensures viewMapping == old(viewMapping)
    {
      if viewDirection !in viewMapping {
        return;
      }
      var actualFace := viewMapping[viewDirection];
      // The `ROTATION_AXES` lookup: every mapped name is a face name.
      assert actualFace in viewMapping.Values;
      FaceNamesParse(actualFace);
      CompleteAnimation();
      StartTurn(actualFace, clockwise);
    }

    /** The second half of `rotateViewDirection`, on an idle cube: the turn
        of the named face is recorded with the pieces now on it. */
    method StartTurn(actualFace: string, clockwise: bool)
      requires PiecesValid() && ViewValid() && ParseFace(actualFace).Some?
      modifies this
      ensures Valid()
      ensures animating && animationProgress == 0.0
      ensures currentAnimation == Recorded(RotationAxis(ParseFace(actualFace).value), ParseFace(actualFace).value, clockwise)
      ensures Lists(animationPieces, FacePieces(State(), currentAnimation.face))
      ensures rotation == old(rotation) && scale == old(scale) && position == old(position)
      ensures viewMapping == old(viewMapping)
    {
      var face := ParseFace(actualFace).value;
      var piecesOnFace := GetPiecesOnFace(actualFace);
      animating, animationProgress := true, 0.0;
      currentAnimation, animationPieces := Recorded(RotationAxis(face), face, clockwise), piecesOnFace;
    }

    /** `updateAnimation` with the time elapsed since the turn started: the
        progress grows with time and the turn completes once the duration has
        passed. */
    method UpdateAnimation(elapsed: real)
      requires Valid() && elapsed >= 0.0
      modifies this, pieces
      ensures Valid()
      ensures !old(animating) ==> unchanged(this) && State() == old(State())
      ensures old(animating) && elapsed < AnimationDuration ==>
                && animating && animationProgress == Progress(elapsed)
                && currentAnimation == old(currentAnimation) && animationPieces == old(animationPieces)
                && State() == old(State())
      ensures old(animating) && elapsed >= AnimationDuration ==>
                && !animating && animationProgress == 0.0 && currentAnimation == NoAnimation
                && (old(currentAnimation).Recorded? ==>
                      State() == TurnFace(old(State()), old(currentAnimation).face, old(currentAnimation).clockwise))
                && (old(currentAnimation).NoAnimation? ==> State() == old(State()))
      ensures rotation == old(rotation) && scale == old(scale) && position == old(position)
      ensures viewMapping == old(viewMapping)
    {
      if !animating {
        return;
      }
      animationProgress := Progress(elapsed);
      if animationProgress >= 1.0 {
        CompleteAnimation();
      }
    }

    /** `reset`: every piece back to its initial place, the initial view,
        no animation and the identity view mapping. */
    method Reset()
      requires Built()
      modifies this, pieces
      ensures Valid()
      ensures State() == Solved()
      ensures rotation == Q.Identity && scale == 25.0 && position == Vec3(0.0, 0.0, 10.0)
      ensures !animating && animationProgress == 0.0 && currentAnimation == NoAnimation && animationPieces == []
      ensures viewMapping == IdentityMapping
    {
      rotation, scale, position := Q.Identity, 25.0, Vec3(0.0, 0.0, 10.0);
      animating, animationProgress, currentAnimation, animationPieces := false, 0.0, NoAnimation, [];
      viewMapping := IdentityMapping;
      IdentityMappingValid();
      // Resetting the pieces touches no field of the cube, so doing it last
      // is the same as doing it first.
      ResetPieces();
    }

    /** The loop of `reset` over the pieces. */
    method ResetPieces()
      requires Built()
      modifies pieces
      ensures PiecesValid() && State() == Solved()
    {
      for k := 0 to 26
        invariant forall i :: 0 <= i < k ==> pieces[i].currentPosition == Grid[i] && pieces[i].localRotation == Id
      {
        pieces[k].Reset();
      }
      assert State() == Solved();
      SolvedIsConsistent();
    }

    /** `scramble` with its random choices given as `moves` (a view direction
        and a turn sense each): each is turned at once through the view
        mapping, without animation, and the cube ends idle. A turn that is
        recorded but has not yet moved (progress zero) is discarded, not
        applied; a turn already partly drawn is excluded, since the program
        would then select the layers from interpolated positions. */
    method Scramble(moves: seq<(string, bool)>)
      requires PiecesValid() && ViewValid()
      requires !animating || animationProgress == 0.0
      modifies this, pieces
      ensures Valid()
      ensures State() == TurnFaces(old(State()), MappedMoves(old(viewMapping), moves))
      ensures !animating && animationProgress == 0.0 && currentAnimation == NoAnimation && animationPieces == []
      ensures rotation == old(rotation) && scale == old(scale) && position == old(position)
      ensures viewMapping == old(viewMapping)
    {
      ScrambleMoves(moves);
      animating, animationProgress, currentAnimation, animationPieces := false, 0.0, NoAnimation, [];
    }

    /** The loop of `scramble`. */
    method ScrambleMoves(moves: seq<(string, bool)>)
      requires PiecesValid() && MappingValid(viewMapping)
      modifies pieces
      ensures PiecesValid()
      ensures State() == TurnFaces(old(State()), MappedMoves(viewMapping, moves))
    {
      ghost var s0 := State();
      for k := 0 to |moves|
        invariant PiecesValid()
        invariant State() == TurnFaces(s0, MappedMoves(viewMapping, moves[..k]))
      {
        MappedMovesSnoc(viewMapping, moves, k);
        var (name, clockwise) := moves[k];
        if name !in viewMapping {
          assert MappedMoves(viewMapping, moves[..k + 1]) == MappedMoves(viewMapping, moves[..k]);
          continue;
        }
        var actualFace := viewMapping[name];
        // The `ROTATION_AXES` lookup: every mapped name is a face name.
        assert actualFace in viewMapping.Values;
        FaceNamesParse(actualFace);
        assert MappedMove(viewMapping, moves[k]) == [(ParseFace(actualFace).value, clockwise)];
        ghost var before := State();
        TurnNamedFace(actualFace, clockwise);
        ScrambleStep(s0, MappedMoves(viewMapping, moves[..k]), before, ParseFace(actualFace).value, clockwise);
      }
      assert moves[..|moves|] == moves;
    }

    /** One step of the scramble loop, on values. */
    static lemma ScrambleStep(s0: seq<PieceState>, done: seq<(Face, bool)>, before: seq<PieceState>, f: Face, clockwise: bool)
      requires before == TurnFaces(s0, done)
      ensures TurnFace(before, f, clockwise) == TurnFaces(s0, done + [(f, clockwise)])
    {
      TurnFacesAppend(s0, done, [(f, clockwise)]);
    }

    /** One move of `scramble` once the face is known: the pieces now on it
        turn about its `ROTATION_AXES` axis. */
    method TurnNamedFace(actualFace: string, clockwise: bool)
      requires PiecesValid() && ParseFace(actualFace).Some?
      modifies pieces
      ensures PiecesValid()
      ensures State() == TurnFace(old(State()), ParseFace(actualFace).value, clockwise)
    {
      var piecesToRotate := GetPiecesOnFace(actualFace);
      var face := ParseFace(actualFace).value;
      TurnFaceConsistent(State(), face, clockwise);
      RotatePieces(piecesToRotate, face, clockwise);
    }

    /** `updateViewMapping`: each view direction is taken into cube space by
        the inverse view rotation and mapped to its best face when that face
        scores above 0.5. */
    method UpdateViewMapping()
      modifies this
      ensures MappingUpdated(old(viewMapping), viewMapping, rotation)
      ensures MappingValid(old(viewMapping)) ==> MappingValid(viewMapping)
      ensures rotation == old(rotation) && scale == old(scale) && position == old(position)
      ensures animating == old(animating) && animationProgress == old(animationProgress)
      ensures currentAnimation == old(currentAnimation) && animationPieces == old(animationPieces)
    {
      ghost var m0 := viewMapping;
      for k := 0 to |KeyOrder|
        invariant forall n :: n !in FaceNames ==> UpdatedEntry(m0, viewMapping, n, None)
        invariant forall j, g :: 0 <= j < 6 && FirstBest(ViewInCube(rotation, KeyOrder[j]), g) ==>
                    UpdatedEntry(m0, viewMapping, FaceName(KeyOrder[j]), if j < k then EntryUpdate(rotation, KeyOrder[j], g) else None)
        invariant rotation == old(rotation) && scale == old(scale) && position == old(position)
        invariant animating == old(animating) && animationProgress == old(animationProgress)
        invariant currentAnimation == old(currentAnimation) && animationPieces == old(animationPieces)
      {
        var viewDir := KeyOrder[k];
        var dirInCubeSpace := Q.RotateVector(Q.Conjugate(rotation), NormalR(viewDir));
        var bestFace, bestDot := BestFace(dirInCubeSpace);
        ghost var m1 := viewMapping;
        if bestFace.Some? && bestDot > 0.5 {
          viewMapping := viewMapping[FaceName(viewDir) := FaceName(bestFace.value)];
        }
        UpdateStep(m0, m1, viewMapping, k, bestFace.value, bestDot);
      }
      forall v, g | FirstBest(ViewInCube(rotation, v), g)
        ensures UpdatedEntry(m0, viewMapping, FaceName(v), EntryUpdate(rotation, v, g))
      {
        assert KeyOrder[ChainIndexInKeys(v)] == v;
      }
      if MappingValid(m0) {
        MappingUpdatedValid(m0, viewMapping, rotation);
      }
    }

    /** One step of the outer loop of `updateViewMapping`. */
    lemma UpdateStep(m0: map<string, string>, m1: map<string, string>, m2: map<string, string>, k: nat, best: Face, bestDot: real)
      requires k < 6
      requires FirstBest(ViewInCube(rotation, KeyOrder[k]), best) && bestDot == FaceDot(ViewInCube(rotation, KeyOrder[k]), best)
      requires m2 == if bestDot > 0.5 then m1[FaceName(KeyOrder[k]) := FaceName(best)] else m1
      requires forall n :: n !in FaceNames ==> UpdatedEntry(m0, m1, n, None)
      requires forall j, g :: 0 <= j < 6 && FirstBest(ViewInCube(rotation, KeyOrder[j]), g) ==>
                 UpdatedEntry(m0, m1, FaceName(KeyOrder[j]), if j < k then EntryUpdate(rotation, KeyOrder[j], g) else None)
      ensures forall n :: n !in FaceNames ==> UpdatedEntry(m0, m2, n, None)
      ensures forall j, g :: 0 <= j < 6 && FirstBest(ViewInCube(rotation, KeyOrder[j]), g) ==>
                UpdatedEntry(m0, m2, FaceName(KeyOrder[j]), if j < k + 1 then EntryUpdate(rotation, KeyOrder[j], g) else None)
    {
      FaceNameIn(KeyOrder[k]);
      forall j, g | 0 <= j < 6 && FirstBest(ViewInCube(rotation, KeyOrder[j]), g)
        ensures UpdatedEntry(m0, m2, FaceName(KeyOrder[j]), if j < k + 1 then EntryUpdate(rotation, KeyOrder[j], g) else None)
      {
        if j == k {
          FirstBestUnique(ViewInCube(rotation, KeyOrder[k]), g, best);
        } else {
          KeyIndexOf(j);
          KeyIndexOf(k);
          ParseFaceName(KeyOrder[j]);
          ParseFaceName(KeyOrder[k]);
        }
      }
    }

    /** `rotateByMouseDelta`, with the cosine and sine of the half angles
        `-dx * 0.01 / 2` and `-dy * 0.01 / 2` as parameters: each nonzero
        delta turns the view about the y or the x axis and recomputes the
        mapping, which then depends on the new rotation alone. */
    method RotateByMouseDelta(dx: real, dy: real, cosY: real, sinY: real, cosX: real, sinX: real)
      requires Valid()
      requires cosY * cosY + sinY * sinY == 1.0 && cosX * cosX + sinX * sinX == 1.0
      modifies this
      ensures Valid()
      ensures rotation == DraggedRotation(old(rotation), dx, dy, cosY, sinY, cosX, sinX)
      ensures dx == 0.0 && dy == 0.0 ==> viewMapping == old(viewMapping)
      ensures dx != 0.0 || dy != 0.0 ==>
                forall v, g :: FirstBest(ViewInCube(rotation, v), g) ==> FaceName(v) in viewMapping && viewMapping[FaceName(v)] == FaceName(g)
      ensures scale == old(scale) && position == old(position)
      ensures animating == old(animating) && animationProgress == old(animationProgress)
      ensures currentAnimation == old(currentAnimation) && animationPieces == old(animationPieces)
    {
      if dx != 0.0 {
        var rotY := AxisQuat(Vec3(0.0, 1.0, 0.0), cosY, sinY);
        Q.UnitProduct(rotY, rotation);
        rotation := Q.Normalize(Q.Multiply(rotY, rotation), 1.0);
        UpdateViewMapping();
        MappingDetermined(old(viewMapping));
      }
      if dy != 0.0 {
        var rotX := AxisQuat(Vec3(1.0, 0.0, 0.0), cosX, sinX);
        Q.UnitProduct(rotX, rotation);
        ghost var m := viewMapping;
        rotation := Q.Normalize(Q.Multiply(rotX, rotation), 1.0);
        UpdateViewMapping();
        MappingDetermined(m);
      }
    }

    /** After an update under a unit rotation every view direction names its
        first best face. */
    lemma MappingDetermined(m0: map<string, string>)
      requires Q.NormSq(rotation) == 1.0 && MappingUpdated(m0, viewMapping, rotation)
      ensures forall v, g :: FirstBest(ViewInCube(rotation, v), g) ==> FaceName(v) in viewMapping && viewMapping[FaceName(v)] == FaceName(g)
    {
      forall v, g | FirstBest(ViewInCube(rotation, v), g)
        ensures FaceName(v) in viewMapping && viewMapping[FaceName(v)] == FaceName(g)
      {
        MappingUpdatedUnit(m0, viewMapping, rotation, v, g);
      }
    }

    /** `zoom`. */
    method Zoom(factor: real)
      requires Valid()
      modifies this
      ensures Valid()
      ensures scale == ZoomedScale(old(scale), factor)
      ensures rotation == old(rotation) && position == old(position) && viewMapping == old(viewMapping)
      ensures animating == old(animating) && animationProgress == old(animationProgress)
      ensures currentAnimation == old(currentAnimation) && animationPieces == old(animationPieces)
    {
      scale := ZoomedScale(scale, factor);
    }
  }
}
