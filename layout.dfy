/** The 26 piece positions of the cube and the counting facts about them.

    `createPieces` builds the pieces in four groups of nested loops over
    the literal lists {-1, 1}: corners over (x, y, z), edges over (0, y, z),
    (x, 0, z) and (x, y, 0), then the six centres. `Grid` lists the positions
    in that order. */
module Layout {
  import opened QuarterTurn
  import opened Enums

  const Origin: IVec := IVec(0, 0, 0)

  /** The positions in the order `createPieces` pushes the pieces. */
  const Grid: seq<IVec> := [
    IVec(-1, -1, -1), IVec(-1, -1, 1), IVec(-1, 1, -1), IVec(-1, 1, 1),
    IVec(1, -1, -1), IVec(1, -1, 1), IVec(1, 1, -1), IVec(1, 1, 1),
    IVec(0, -1, -1), IVec(0, -1, 1), IVec(0, 1, -1), IVec(0, 1, 1),
    IVec(-1, 0, -1), IVec(-1, 0, 1), IVec(1, 0, -1), IVec(1, 0, 1),
    IVec(-1, -1, 0), IVec(-1, 1, 0), IVec(1, -1, 0), IVec(1, 1, 0),
    IVec(-1, 0, 0), IVec(1, 0, 0), IVec(0, -1, 0), IVec(0, 1, 0),
    IVec(0, 0, -1), IVec(0, 0, 1)]

  /** The kind `createPieces` gives the piece it creates at step `i`. */
  function TypeAt(i: nat): PieceType {
    if i < 8 then Corner else if i < 20 then Edge else Center
  }

  /** A position of the 3x3x3 lattice other than its hidden centre. */
  predicate InGrid(p: IVec) {
    -1 <= p.x <= 1 && -1 <= p.y <= 1 && -1 <= p.z <= 1 && p != Origin
  }

  const GridSet: set<IVec> :=
    set x: int, y: int, z: int | -1 <= x <= 1 && -1 <= y <= 1 && -1 <= z <= 1 && IVec(x, y, z) != Origin :: IVec(x, y, z)

  lemma InGridIsGridSet(p: IVec)
    ensures InGrid(p) <==> p in GridSet
  {
    if InGrid(p) {
      assert p == IVec(p.x, p.y, p.z);
    }
  }

  function NonzeroCount(p: IVec): nat {
    (if p.x != 0 then 1 else 0) + (if p.y != 0 then 1 else 0) + (if p.z != 0 then 1 else 0)
  }

  /** A corner has three nonzero coordinates, an edge two, a centre one. */
  function KindOf(p: IVec): PieceType {
    var n := NonzeroCount(p);
    if n == 3 then Corner else if n == 2 then Edge else Center
  }

  predicate Distinct<T(==)>(s: seq<T>) {
    forall i, j :: 0 <= i < j < |s| ==> s[i] != s[j]
  }

  /** 1 for a positive coordinate, 0 otherwise. */
  function Bit(v: int): nat {
    if v > 0 then 1 else 0
  }

  /** The creation step of the piece created at `p`: the inverse of `Grid`. */
  function IndexOf(p: IVec): (i: nat)
    requires InGrid(p)
    ensures i < 26
  {
    match KindOf(p)
    case Corner => 4 * Bit(p.x) + 2 * Bit(p.y) + Bit(p.z)
    case Edge =>
      if p.x == 0 then 8 + 2 * Bit(p.y) + Bit(p.z)
      else if p.y == 0 then 12 + 2 * Bit(p.x) + Bit(p.z)
      else 16 + 2 * Bit(p.x) + Bit(p.y)
    case Center =>
      if p.x != 0 then 20 + Bit(p.x)
      else if p.y != 0 then 22 + Bit(p.y)
      else 24 + Bit(p.z)
  }

  /** Every lattice position is created exactly once: at step `IndexOf(p)`. */
  lemma GridAtIndexOf(p: IVec)
    requires InGrid(p)
    ensures Grid[IndexOf(p)] == p
  {
  }

  lemma IndexOfGrid(i: nat)
    requires i < 26
    ensures InGrid(Grid[i]) && KindOf(Grid[i]) == TypeAt(i) && IndexOf(Grid[i]) == i
  {
  }

  /** `createPieces` creates 26 pieces (not 27) at distinct lattice
      positions, none at the origin, each of the kind of its position. */
  lemma GridIsCreationOrder()
    ensures |Grid| == 26
    ensures Distinct(Grid)
    ensures forall i :: 0 <= i < 26 ==> InGrid(Grid[i]) && KindOf(Grid[i]) == TypeAt(i)
    ensures Origin !in Grid
  {
    forall i | 0 <= i < 26
      ensures InGrid(Grid[i]) && KindOf(Grid[i]) == TypeAt(i) && IndexOf(Grid[i]) == i
    {
      IndexOfGrid(i);
    }
  }

  lemma GridCoversGridSet()
    ensures (set p | p in Grid) == GridSet
  {
    GridIsCreationOrder();
    forall p | p in GridSet
      ensures p in Grid
    {
      InGridIsGridSet(p);
      GridAtIndexOf(p);
    }
  }

  /** The pieces of a face's layer, and those of one kind among them. */
  function Layer(f: Face): set<IVec> {
    set p | p in GridSet && OnFace(p, f)
  }

  function LayerOfKind(f: Face, k: PieceType): set<IVec> {
    set p | p in GridSet && OnFace(p, f) && KindOf(p) == k
  }

  /** Every face layer holds nine positions: four corners, four edges and
      one centre. */
  lemma LayerCounts(f: Face)
    ensures |LayerOfKind(f, Corner)| == 4
    ensures |LayerOfKind(f, Edge)| == 4
    ensures |LayerOfKind(f, Center)| == 1
    ensures |Layer(f)| == 9
  {
    KindCounts(f);
    LayerIsUnion(f);
    DisjointUnionCard(LayerOfKind(f, Corner), LayerOfKind(f, Edge), LayerOfKind(f, Center));
  }

  lemma KindCounts(f: Face)
    ensures |LayerOfKind(f, Corner)| == 4
    ensures |LayerOfKind(f, Edge)| == 4
    ensures |LayerOfKind(f, Center)| == 1
  {
    match f
    case F => LayerCornersF(); LayerEdgesF(); LayerCenterF();
    case B => LayerCornersB(); LayerEdgesB(); LayerCenterB();
    case L => LayerCornersL(); LayerEdgesL(); LayerCenterL();
    case R => LayerCornersR(); LayerEdgesR(); LayerCenterR();
    case U => LayerCornersU(); LayerEdgesU(); LayerCenterU();
    case D => LayerCornersD(); LayerEdgesD(); LayerCenterD();
  }

  lemma LayerIsUnion(f: Face)
    ensures Layer(f) == LayerOfKind(f, Corner) + LayerOfKind(f, Edge) + LayerOfKind(f, Center)
    ensures LayerOfKind(f, Corner) * LayerOfKind(f, Edge) == {}
    ensures LayerOfKind(f, Corner) * LayerOfKind(f, Center) == {}
    ensures LayerOfKind(f, Edge) * LayerOfKind(f, Center) == {}
  {
  }

  lemma DisjointUnionCard<T>(a: set<T>, b: set<T>, c: set<T>)
    requires a * b == {} && a * c == {} && b * c == {}
    ensures |a + b + c| == |a| + |b| + |c|
  {
    assert (a + b) * c == {};
  }

  lemma LayerCornersF()
    ensures |LayerOfKind(F, Corner)| == 4
  {
    assert LayerOfKind(F, Corner) == {IVec(-1, -1, -1), IVec(-1, 1, -1), IVec(1, -1, -1), IVec(1, 1, -1)};
  }

  lemma LayerEdgesF()
    ensures |LayerOfKind(F, Edge)| == 4
  {
    assert LayerOfKind(F, Edge) == {IVec(0, -1, -1), IVec(0, 1, -1), IVec(-1, 0, -1), IVec(1, 0, -1)};
  }

  lemma LayerCenterF()
    ensures |LayerOfKind(F, Center)| == 1
  {
    assert LayerOfKind(F, Center) == {IVec(0, 0, -1)};
  }

  lemma LayerCornersB()
    ensures |LayerOfKind(B, Corner)| == 4
  {
    assert LayerOfKind(B, Corner) == {IVec(-1, -1, 1), IVec(-1, 1, 1), IVec(1, -1, 1), IVec(1, 1, 1)};
  }

  lemma LayerEdgesB()
    ensures |LayerOfKind(B, Edge)| == 4
  {
    assert LayerOfKind(B, Edge) == {IVec(0, -1, 1), IVec(0, 1, 1), IVec(-1, 0, 1), IVec(1, 0, 1)};
  }

  lemma LayerCenterB()
    ensures |LayerOfKind(B, Center)| == 1
  {
    assert LayerOfKind(B, Center) == {IVec(0, 0, 1)};
  }

  lemma LayerCornersL()
    ensures |LayerOfKind(L, Corner)| == 4
  {
    assert LayerOfKind(L, Corner) == {IVec(-1, -1, -1), IVec(-1, -1, 1), IVec(-1, 1, -1), IVec(-1, 1, 1)};
  }

  lemma LayerEdgesL()
    ensures |LayerOfKind(L, Edge)| == 4
  {
    assert LayerOfKind(L, Edge) == {IVec(-1, 0, -1), IVec(-1, 0, 1), IVec(-1, -1, 0), IVec(-1, 1, 0)};
  }

  lemma LayerCenterL()
    ensures |LayerOfKind(L, Center)| == 1
  {
    assert LayerOfKind(L, Center) == {IVec(-1, 0, 0)};
  }

  lemma LayerCornersR()
    ensures |LayerOfKind(R, Corner)| == 4
  {
    assert LayerOfKind(R, Corner) == {IVec(1, -1, -1), IVec(1, -1, 1), IVec(1, 1, -1), IVec(1, 1, 1)};
  }

  lemma LayerEdgesR()
    ensures |LayerOfKind(R, Edge)| == 4
  {
    assert LayerOfKind(R, Edge) == {IVec(1, 0, -1), IVec(1, 0, 1), IVec(1, -1, 0), IVec(1, 1, 0)};
  }

  lemma LayerCenterR()
    ensures |LayerOfKind(R, Center)| == 1
  {
    assert LayerOfKind(R, Center) == {IVec(1, 0, 0)};
  }

  lemma LayerCornersU()
    ensures |LayerOfKind(U, Corner)| == 4
  {
    assert LayerOfKind(U, Corner) == {IVec(-1, 1, -1), IVec(-1, 1, 1), IVec(1, 1, -1), IVec(1, 1, 1)};
  }

  lemma LayerEdgesU()
    ensures |LayerOfKind(U, Edge)| == 4
  {
    assert LayerOfKind(U, Edge) == {IVec(0, 1, -1), IVec(0, 1, 1), IVec(-1, 1, 0), IVec(1, 1, 0)};
  }

  lemma LayerCenterU()
    ensures |LayerOfKind(U, Center)| == 1
  {
    assert LayerOfKind(U, Center) == {IVec(0, 1, 0)};
  }

  lemma LayerCornersD()
    ensures |LayerOfKind(D, Corner)| == 4
  {
    assert LayerOfKind(D, Corner) == {IVec(-1, -1, -1), IVec(-1, -1, 1), IVec(1, -1, -1), IVec(1, -1, 1)};
  }

  lemma LayerEdgesD()
    ensures |LayerOfKind(D, Edge)| == 4
  {
    assert LayerOfKind(D, Edge) == {IVec(0, -1, -1), IVec(0, -1, 1), IVec(-1, -1, 0), IVec(1, -1, 0)};
  }

  lemma LayerCenterD()
    ensures |LayerOfKind(D, Center)| == 1
  {
    assert LayerOfKind(D, Center) == {IVec(0, -1, 0)};
  }

  /** A signed permutation keeps the lattice and the kind of each position. */
  lemma ApplyKeepsGrid(o: Orientation, p: IVec)
    requires IsPermutation(o) && InGrid(p)
    ensures InGrid(Apply(o, p))
    ensures KindOf(Apply(o, p)) == KindOf(p)
  {
  }

  /** A duplicate-free sequence has as many distinct elements as entries. */
  lemma {:induction false} DistinctCard<T>(s: seq<T>)
    requires Distinct(s)
    ensures |set x | x in s| == |s|
  {
    if |s| > 0 {
      var n := |s| - 1;
      var t := s[..n];
      assert Distinct(t);
      DistinctCard(t);
      assert (set x | x in s) == (set x | x in t) + {s[n]};
      assert s[n] !in t;
    }
  }

  /** Distinct entries of a duplicate-free sequence: picking the entries
      at a set of indices gives a set of the same size. */
  lemma {:induction false} PickedCard(ps: seq<IVec>, I: set<nat>)
    requires Distinct(ps)
    requires forall i :: i in I ==> i < |ps|
    ensures |set i | i in I :: ps[i]| == |I|
    decreases |I|
  {
    if I != {} {
      var a :| a in I;
      var rest := I - {a};
      PickedCard(ps, rest);
      assert (set i | i in I :: ps[i]) == (set i | i in rest :: ps[i]) + {ps[a]};
      assert ps[a] !in (set i | i in rest :: ps[i]);
    }
  }

  lemma SubsetEqualCard<T>(a: set<T>, b: set<T>)
    requires a <= b && |a| == |b|
    ensures a == b
  {
    assert b == a + (b - a);
    assert |b - a| == 0;
  }

  lemma GridSetSize()
    ensures |GridSet| == 26
  {
    GridIsCreationOrder();
    GridCoversGridSet();
    DistinctCard(Grid);
  }

  /** 26 distinct lattice positions fill the whole lattice. */
  lemma DistinctPositionsFillGrid(ps: seq<IVec>)
    requires |ps| == 26 && Distinct(ps)
    requires forall i :: 0 <= i < |ps| ==> InGrid(ps[i])
    ensures (set p | p in ps) == GridSet
  {
    var e := set p | p in ps;
    forall p | p in e
      ensures p in GridSet
    {
      InGridIsGridSet(p);
    }
    DistinctCard(ps);
    GridSetSize();
    SubsetEqualCard(e, GridSet);
  }

  /** Whatever permutation of the lattice the pieces are in, the indices
      `I` of the pieces on a face's layer number nine ... */
  lemma PiecesPerFace(ps: seq<IVec>, I: set<nat>, f: Face)
    requires |ps| == 26 && Distinct(ps)
    requires forall i :: 0 <= i < |ps| ==> InGrid(ps[i])
    requires forall i: nat :: i in I <==> i < 26 && OnFace(ps[i], f)
    ensures |I| == 9
  {
    DistinctPositionsFillGrid(ps);
    LayerCounts(f);
    SelectedPositions(ps, I, (p: IVec) => OnFace(p, f), Layer(f));
  }

  /** ... and of them, those of kind `k` number four (corners), four (edges)
      or one (centre). */
  lemma PiecesPerFaceOfKind(ps: seq<IVec>, I: set<nat>, f: Face, k: PieceType)
    requires |ps| == 26 && Distinct(ps)
    requires forall i :: 0 <= i < |ps| ==> InGrid(ps[i])
    requires forall i: nat :: i in I <==> i < 26 && OnFace(ps[i], f) && KindOf(ps[i]) == k
    ensures |I| == |LayerOfKind(f, k)|
    ensures |I| == (if k == Center then 1 else 4)
  {
    DistinctPositionsFillGrid(ps);
    LayerCounts(f);
    SelectedPositions(ps, I, (p: IVec) => OnFace(p, f) && KindOf(p) == k, LayerOfKind(f, k));
  }

  /** If `I` selects the pieces whose position satisfies `P`, and the
      positions fill the lattice, there are as many of them as lattice
      positions satisfying `P`. */
  lemma SelectedPositions(ps: seq<IVec>, I: set<nat>, P: IVec -> bool, S: set<IVec>)
    requires |ps| == 26 && Distinct(ps)
    requires (set p | p in ps) == GridSet
    requires forall i: nat :: i in I <==> i < 26 && P(ps[i])
    requires forall p :: p in S <==> p in GridSet && P(p)
    ensures |I| == |S|
  {
    PickedCard(ps, I);
    forall p | p in S
      ensures p in (set i | i in I :: ps[i])
    {
      assert p in ps;
      var j :| 0 <= j < 26 && ps[j] == p;
      assert j in I;
    }
    forall i | i in I
      ensures ps[i] in S
    {
      assert ps[i] in ps;
    }
    assert (set i | i in I :: ps[i]) == S;
  }
}
