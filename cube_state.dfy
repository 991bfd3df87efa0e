/** The arrangement of the 26 pieces as a value: where each piece is and how
    it is turned, indexed in creation order. The `RubiksCube` class keeps
    this state in its piece objects; the face turn it performs is
    `TurnFace` here, and the facts about turns are proved on these values. */
module CubeState {
  import opened QuarterTurn
  import opened Enums
  import opened Layout

  datatype PieceState = PieceState(position: IVec, orientation: Orientation)

  function Positions(s: seq<PieceState>): (ps: seq<IVec>)
    ensures |ps| == |s|
    ensures forall i :: 0 <= i < |s| ==> ps[i] == s[i].position
  {
    seq(|s|, i requires 0 <= i < |s| => s[i].position)
  }

  /** Every piece at its initial position with the identity orientation. */
  function Solved(): (s: seq<PieceState>)
    ensures |s| == 26
    ensures forall i :: 0 <= i < 26 ==> s[i] == PieceState(Grid[i], Id)
  {
    GridIsCreationOrder();
    seq(26, i requires 0 <= i < 26 => PieceState(Grid[i], Id))
  }

  /** The state can be reached by turns: each orientation is a rotation
      that takes the piece's initial position to its current one, and no
      two pieces share a position. */
  ghost predicate Consistent(s: seq<PieceState>) {
    && |s| == 26
    && (forall i :: 0 <= i < 26 ==> IsRotation(s[i].orientation))
    && (forall i :: 0 <= i < 26 ==> s[i].position == Apply(s[i].orientation, Grid[i]))
    && Distinct(Positions(s))
  }

  /** The indices of the pieces currently on face `f`. */
  function FacePieces(s: seq<PieceState>, f: Face): (I: set<nat>)
    ensures forall i: nat :: i in I <==> i < |s| && OnFace(s[i].position, f)
  {
    set i: nat | i < |s| && OnFace(s[i].position, f)
  }

  /** The indices of the pieces of kind `k` currently on face `f`. */
  function FacePiecesOfKind(s: seq<PieceState>, f: Face, k: PieceType): (I: set<nat>)
    ensures forall i: nat :: i in I <==> i < |s| && OnFace(s[i].position, f) && TypeAt(i) == k
  {
    set i: nat | i < |s| && OnFace(s[i].position, f) && TypeAt(i) == k
  }

  function TurnPiece(p: PieceState, a: Axis, clockwise: bool): PieceState {
    PieceState(Apply(Turn(a, clockwise), p.position), Compose(Turn(a, clockwise), p.orientation))
  }

  /** A quarter turn of face `f`: the pieces on it turn about its axis and
      all others stay. */
  function TurnFace(s: seq<PieceState>, f: Face, clockwise: bool): (r: seq<PieceState>)
    ensures |r| == |s|
    ensures forall i :: 0 <= i < |s| ==>
              r[i] == if OnFace(s[i].position, f) then TurnPiece(s[i], RotationAxis(f), clockwise) else s[i]
  {
    seq(|s|, i requires 0 <= i < |s| =>
      if OnFace(s[i].position, f) then TurnPiece(s[i], RotationAxis(f), clockwise) else s[i])
  }

  /** A sequence of face turns applied in order. */
  function TurnFaces(s: seq<PieceState>, moves: seq<(Face, bool)>): seq<PieceState>
    decreases |moves|
  {
    if moves == [] then s
    else TurnFaces(TurnFace(s, moves[0].0, moves[0].1), moves[1..])
  }

  // ---- Facts about the state ----

  lemma SolvedIsConsistent()
    ensures Consistent(Solved())
  {
    GridIsCreationOrder();
    assert Positions(Solved()) == Grid;
    assert IsRotation(Id);
  }

  /** In a consistent state every piece stays on the lattice and keeps its
      kind. */
  lemma ConsistentOnGrid(s: seq<PieceState>, i: int)
    requires Consistent(s) && 0 <= i < 26
    ensures InGrid(s[i].position) && KindOf(s[i].position) == TypeAt(i)
  {
    IndexOfGrid(i);
    ApplyKeepsGrid(s[i].orientation, Grid[i]);
  }

  /** Turning a face keeps the state consistent and moves the pieces of
      that face among its own positions. */
  lemma TurnFaceConsistent(s: seq<PieceState>, f: Face, clockwise: bool)
    requires Consistent(s)
    ensures Consistent(TurnFace(s, f, clockwise))
    ensures FacePieces(TurnFace(s, f, clockwise), f) == FacePieces(s, f)
  {
    var r := TurnFace(s, f, clockwise);
    var t := Turn(RotationAxis(f), clockwise);
    forall i | 0 <= i < 26
      ensures IsRotation(r[i].orientation)
      ensures r[i].position == Apply(r[i].orientation, Grid[i])
      ensures OnFace(r[i].position, f) <==> OnFace(s[i].position, f)
    {
      TurnKeepsLayer(f, clockwise, s[i].position);
      TurnComposeIsRotation(RotationAxis(f), clockwise, s[i].orientation);
    }
    forall i, j | 0 <= i < j < 26
      ensures r[i].position != r[j].position
    {
      assert s[i].position != s[j].position;
      TurnThenOpposite(RotationAxis(f), clockwise, s[i].position);
      TurnThenOpposite(RotationAxis(f), clockwise, s[j].position);
    }
  }

  /** Every face holds nine pieces, four corners, four edges and a centre,
      in any consistent state. */
  lemma NinePerFace(s: seq<PieceState>, f: Face)
    requires Consistent(s)
    ensures |FacePieces(s, f)| == 9
    ensures |FacePiecesOfKind(s, f, Corner)| == 4
    ensures |FacePiecesOfKind(s, f, Edge)| == 4
    ensures |FacePiecesOfKind(s, f, Center)| == 1
  {
    var ps := Positions(s);
    forall i | 0 <= i < 26
      ensures InGrid(ps[i]) && KindOf(ps[i]) == TypeAt(i)
    {
      ConsistentOnGrid(s, i);
    }
    PiecesPerFace(ps, FacePieces(s, f), f);
    PiecesPerFaceOfKind(ps, FacePiecesOfKind(s, f, Corner), f, Corner);
    PiecesPerFaceOfKind(ps, FacePiecesOfKind(s, f, Edge), f, Edge);
    PiecesPerFaceOfKind(ps, FacePiecesOfKind(s, f, Center), f, Center);
  }

  /** A turn followed by the opposite turn of the same face restores the
      state. */
  lemma TurnFaceUndone(s: seq<PieceState>, f: Face, clockwise: bool)
    ensures TurnFace(TurnFace(s, f, clockwise), f, !clockwise) == s
  {
    var r := TurnFace(s, f, clockwise);
    forall i | 0 <= i < |s|
      ensures TurnFace(r, f, !clockwise)[i] == s[i]
    {
      TurnKeepsLayer(f, clockwise, s[i].position);
      TurnThenOpposite(RotationAxis(f), clockwise, s[i].position);
      TurnThenOppositeOrientation(RotationAxis(f), clockwise, s[i].orientation);
    }
  }

  /** Four equal turns of a face restore the state. */
  lemma FourTurnsRestoreState(s: seq<PieceState>, f: Face, clockwise: bool)
    ensures var t1 := TurnFace(s, f, clockwise);
            var t2 := TurnFace(t1, f, clockwise);
            var t3 := TurnFace(t2, f, clockwise);
            TurnFace(t3, f, clockwise) == s
  {
    var t1 := TurnFace(s, f, clockwise);
    var t2 := TurnFace(t1, f, clockwise);
    var t3 := TurnFace(t2, f, clockwise);
    var a := RotationAxis(f);
    forall i | 0 <= i < |s|
      ensures TurnFace(t3, f, clockwise)[i] == s[i]
    {
      var p := s[i].position;
      TurnKeepsLayer(f, clockwise, p);
      TurnKeepsLayer(f, clockwise, Apply(Turn(a, clockwise), p));
      TurnKeepsLayer(f, clockwise, Apply(Turn(a, clockwise), Apply(Turn(a, clockwise), p)));
      FourTurnsRestore(a, clockwise, p);
      FourTurnsRestoreOrientation(a, clockwise, s[i].orientation);
    }
  }

  /** Any sequence of turns keeps the state consistent. */
  lemma {:induction false} TurnFacesConsistent(s: seq<PieceState>, moves: seq<(Face, bool)>)
    requires Consistent(s)
    ensures Consistent(TurnFaces(s, moves))
    decreases |moves|
  {
    if moves != [] {
      TurnFaceConsistent(s, moves[0].0, moves[0].1);
      TurnFacesConsistent(TurnFace(s, moves[0].0, moves[0].1), moves[1..]);
    }
  }

  /** Turns compose: the moves of `a` and then those of `b`. */
  lemma {:induction false} TurnFacesAppend(s: seq<PieceState>, a: seq<(Face, bool)>, b: seq<(Face, bool)>)
    ensures TurnFaces(s, a + b) == TurnFaces(TurnFaces(s, a), b)
    decreases |a|
  {
    if a != [] {
      assert (a + b)[0] == a[0];
      assert (a + b)[1..] == a[1..] + b;
      TurnFacesAppend(TurnFace(s, a[0].0, a[0].1), a[1..], b);
    } else {
      assert a + b == b;
    }
  }

  /** A sequence of turns followed by the opposite turns in reverse order
      restores the state. */
  function Undo(moves: seq<(Face, bool)>): (r: seq<(Face, bool)>)
    ensures |r| == |moves|
    decreases |moves|
  {
    if moves == [] then [] else Undo(moves[1..]) + [(moves[0].0, !moves[0].1)]
  }

  lemma {:induction false} UndoRestores(s: seq<PieceState>, moves: seq<(Face, bool)>)
    ensures TurnFaces(TurnFaces(s, moves), Undo(moves)) == s
    decreases |moves|
  {
    if moves != [] {
      var m := moves[0];
      var s1 := TurnFace(s, m.0, m.1);
      calc {
        TurnFaces(TurnFaces(s, moves), Undo(moves));
        TurnFaces(TurnFaces(s1, moves[1..]), Undo(moves[1..]) + [(m.0, !m.1)]);
        { TurnFacesAppend(TurnFaces(s1, moves[1..]), Undo(moves[1..]), [(m.0, !m.1)]); }
        TurnFaces(TurnFaces(TurnFaces(s1, moves[1..]), Undo(moves[1..])), [(m.0, !m.1)]);
        { UndoRestores(s1, moves[1..]); }
        TurnFaces(s1, [(m.0, !m.1)]);
        { TurnFaceUndone(s, m.0, m.1); }
        s;
      }
    }
  }
}
