/** The rendering rules of `RubiksCube` that are plain logic: the light
    model, the projection with its off-screen sentinel, the scan-line fill of
    a screen polygon into the character window, the colour-pair cache and
    the painter's order of the collected faces. The window is a grid of
    cells, one per character position, row by row. */
module Renderer {
  import opened Vector3
  import Q = Quaternion
  import CC = ColorConverter

  // ---- Shading: `calculateBrightness` ----

  /** Ambient light 0.7 plus 0.7 of the positive part of the cosine to the
      light, a highlight of 0.2 above cosine 0.8, and the result clamped to
      [0.25, 1.2]. Faces turned away from the light get the ambient 0.7. */
  function CalculateBrightness(normal: Vec3, lightDir: Vec3): (b: real)
    ensures 0.25 <= b <= 1.2
    ensures Dot(normal, lightDir) <= 0.0 ==> b == 0.7
  {
    var dot := Dot(normal, lightDir);
    var diffuse := CC.Max(0.0, dot) * 0.7;
    var brightness := 0.7 + diffuse;
    var highlighted := if dot > 0.8 then CC.Min(1.2, brightness + 0.2) else brightness;
    CC.Max(0.25, CC.Min(1.2, highlighted))
  }

  /** A face lit more directly is never drawn darker. */
  lemma BrightnessMonotone(n1: Vec3, n2: Vec3, lightDir: Vec3)
    requires Dot(n1, lightDir) <= Dot(n2, lightDir)
    ensures CalculateBrightness(n1, lightDir) <= CalculateBrightness(n2, lightDir)
  {
    var d1, d2 := Dot(n1, lightDir), Dot(n2, lightDir);
    assert CC.Max(0.0, d1) <= CC.Max(0.0, d2);
    assert CC.Max(0.0, d1) * 0.7 <= CC.Max(0.0, d2) * 0.7;
  }

  /** Below saturation the brightness is exactly ambient plus diffuse: the
      highlight step can only act once the diffuse term has already reached
      the upper clamp, so it never changes the result. */
  lemma BrightnessIsAmbientPlusDiffuse(normal: Vec3, lightDir: Vec3)
    ensures var dot := Dot(normal, lightDir);
            && (0.0 <= dot <= 0.5 / 0.7 ==> CalculateBrightness(normal, lightDir) == 0.7 + 0.7 * dot)
            && (dot >= 0.5 / 0.7 ==> CalculateBrightness(normal, lightDir) == 1.2)
  {
    var dot := Dot(normal, lightDir);
    if dot >= 0.5 / 0.7 {
      assert dot * 0.7 >= 0.5;
    }
  }

  // ---- Projection: `projectPoint` ----

  /** `static_cast<int>` of a float: truncation toward zero. */
  function Trunc(v: real): (r: int)
    ensures v >= 0.0 ==> r as real <= v < r as real + 1.0
    ensures v < 0.0 ==> r as real - 1.0 < v <= r as real
  {
    if v >= 0.0 then v.Floor else -((-v).Floor)
  }

  lemma TruncMonotone(a: real, b: real)
    requires a <= b
    ensures Trunc(a) <= Trunc(b)
  {
    if a >= 0.0 {
      assert a.Floor <= b.Floor;
    } else if b < 0.0 {
      assert (-b).Floor <= (-a).Floor;
    }
  }

  /** The camera of the constructor: at the origin, focal length 8, and
      character cells twice as high as wide. */
  const CameraPosition: Vec3 := Vec3(0.0, 0.0, 0.0)
  const FocalLength: real := 8.0
  const AspectRatio: real := 2.0

  /** A cube-space point in camera coordinates: turned by the view rotation,
      moved by the cube position, relative to the camera. */
  function Relative(rotation: Q.Quat, position: Vec3, point: Vec3): Vec3 {
    Sub(Add(Q.RotateVector(rotation, point), position), CameraPosition)
  }

  /** `projectPoint`: a point at or behind the camera plane gives the
      sentinel (-1000, -1000, -z); any other point is divided by its depth,
      scaled and centred on the window. The third component is the squared
      distance to the camera. */
  function ProjectPoint(rotation: Q.Quat, position: Vec3, scale: real, point: Vec3, width: int, height: int): (r: (int, int, real))
    ensures var rel := Relative(rotation, position, point);
            rel.z <= 0.0 ==> r == (-1000, -1000, -rel.z)
    ensures var rel := Relative(rotation, position, point);
            rel.z > 0.0 ==> r.2 == Dot(rel, rel)
  {
    ProjectRelative(Relative(rotation, position, point), scale, width, height)
  }

  /** The projection of a point given in camera coordinates. */
  function ProjectRelative(rel: Vec3, scale: real, width: int, height: int): (int, int, real) {
    if rel.z <= 0.0 then
      (-1000, -1000, -rel.z)
    else
      (ScreenColumn(rel.x, rel.z, scale, width), ScreenRow(rel.y, rel.z, scale, height), Dot(rel, rel))
  }

  function ScreenColumn(x: real, z: real, scale: real, width: int): int
    requires z > 0.0
  {
    var screenX := (x * FocalLength) / z;
    Trunc(screenX * scale + width as real / 2.0)
  }

  function ScreenRow(y: real, z: real, scale: real, height: int): int
    requires z > 0.0
  {
    var screenY := (-y * FocalLength) / z;
    Trunc(screenY * scale / AspectRatio + height as real / 2.0)
  }

  /** A point straight ahead of the camera lands in the middle of the
      window, whatever its depth and the scale. */
  lemma ProjectAhead(rel: Vec3, scale: real, width: int, height: int)
    requires rel.x == 0.0 && rel.y == 0.0 && rel.z > 0.0
    ensures ProjectRelative(rel, scale, width, height).0 == Trunc(width as real / 2.0)
    ensures ProjectRelative(rel, scale, width, height).1 == Trunc(height as real / 2.0)
  {
    assert (rel.x * FocalLength) / rel.z == 0.0;
    assert (-rel.y * FocalLength) / rel.z == 0.0;
  }

  /** At equal depth in front of the camera a point further right (larger
      camera x) never lands further left on the window. */
  lemma ProjectOrdersColumns(r1: Vec3, r2: Vec3, scale: real, width: int, height: int)
    requires scale >= 0.0
    requires r1.z == r2.z && r1.z > 0.0 && r1.x <= r2.x
    ensures ProjectRelative(r1, scale, width, height).0 <= ProjectRelative(r2, scale, width, height).0
  {
    ColumnMonotone(r1.x, r2.x, r1.z, scale, width);
  }

  lemma ColumnMonotone(x1: real, x2: real, z: real, scale: real, width: int)
    requires scale >= 0.0 && z > 0.0 && x1 <= x2
    ensures ScreenColumn(x1, z, scale, width) <= ScreenColumn(x2, z, scale, width)
  {
    var s1, s2 := (x1 * FocalLength) / z, (x2 * FocalLength) / z;
    CC.MultiplyMonotone(FocalLength, x1, x2);
    DivideMonotone(x1 * FocalLength, x2 * FocalLength, z);
    CC.MultiplyMonotone(scale, s1, s2);
    TruncMonotone(s1 * scale + width as real / 2.0, s2 * scale + width as real / 2.0);
  }

  lemma DivideMonotone(a: real, b: real, z: real)
    requires a <= b && z > 0.0
    ensures a / z <= b / z
  {
    assert b / z - a / z == (b - a) / z;
  }

  // ---- Scan-line fill: `drawPolygon` ----

  /** A character cell of the window: its colour pair (0 for the default)
      and its character. */
  datatype Cell = Cell(pair: int, ch: char)

  function MinInt(a: int, b: int): int {
    if a <= b then a else b
  }

  function MaxInt(a: int, b: int): int {
    if a >= b then a else b
  }

  /** The smallest of `init` and the rows of `ps`, found in order. */
  function LowestRow(ps: seq<(int, int)>, init: int): (r: int)
    ensures r <= init && forall i :: 0 <= i < |ps| ==> r <= ps[i].1
    ensures r == init || exists i :: 0 <= i < |ps| && r == ps[i].1
    decreases |ps|
  {
    if ps == [] then init
    else
      var m := LowestRow(ps[..|ps| - 1], init);
      if ps[|ps| - 1].1 < m then ps[|ps| - 1].1 else m
  }

  /** The largest of `init` and the rows of `ps`, found in order. */
  function HighestRow(ps: seq<(int, int)>, init: int): (r: int)
    ensures r >= init && forall i :: 0 <= i < |ps| ==> r >= ps[i].1
    ensures r == init || exists i :: 0 <= i < |ps| && r == ps[i].1
    decreases |ps|
  {
    if ps == [] then init
    else
      var m := HighestRow(ps[..|ps| - 1], init);
      if ps[|ps| - 1].1 > m then ps[|ps| - 1].1 else m
  }

  /** The half-open crossing rule: an edge crosses row `y` when one end lies
      on or above it and the other strictly below. Horizontal edges never
      cross. */
  predicate Crosses(y1: int, y2: int, y: int) {
    (y1 <= y && y2 > y) || (y2 <= y && y1 > y)
  }

  /** Edge `i` of the polygon crosses row `y`. */
  predicate EdgeCrosses(points: seq<(int, int)>, y: int, i: int) {
    0 <= i < |points| && Crosses(points[i].1, points[Next(|points|, i)].1, y)
  }

  /** `(i + 1) % n` for an index `i < n`: the next point, wrapping to the
      first after the last. */
  function Next(n: int, i: int): (j: int)
    requires 0 <= i < n
    ensures 0 <= j < n
    ensures j == (i + 1) % n
  {
    if i + 1 == n then 0 else i + 1
  }

  /** Where the edge from (x1, y1) to (x2, y2) meets row `y`, truncated;
      only defined for an edge that is not horizontal. */
  function IntersectX(x1: int, y1: int, x2: int, y2: int, y: int): int
    requires y1 != y2
  {
    var t := (y - y1) as real / (y2 - y1) as real;
    Trunc(x1 as real + t * (x2 - x1) as real)
  }

  /** A crossing lies between the x coordinates of its edge's ends. */
  lemma IntersectBetween(x1: int, y1: int, x2: int, y2: int, y: int)
    requires Crosses(y1, y2, y)
    ensures MinInt(x1, x2) <= IntersectX(x1, y1, x2, y2, y) <= MaxInt(x1, x2)
  {
    var a, b := y - y1, y2 - y1;
    assert (0 <= a < b) || (b <= a < 0);
    var t := a as real / b as real;
    FractionInUnit(a, b);
    Between(x1, x2, t);
    TruncBetween(MinInt(x1, x2), MaxInt(x1, x2), x1 as real + t * (x2 - x1) as real);
  }

  /** The parameter of a crossing: (y - y1) / (y2 - y1) lies in [0, 1]. */
  lemma FractionInUnit(a: int, b: int)
    requires (0 <= a < b) || (b <= a < 0)
    ensures 0.0 <= a as real / b as real <= 1.0
  {
    if b < 0 {
      assert a as real / b as real == (-a) as real / (-b) as real;
    }
  }

  lemma Between(x1: int, x2: int, t: real)
    requires 0.0 <= t <= 1.0
    ensures MinInt(x1, x2) as real <= x1 as real + t * (x2 - x1) as real <= MaxInt(x1, x2) as real
  {
    var d := (x2 - x1) as real;
    if d >= 0.0 {
      assert 0.0 <= t * d <= d by { CC.MultiplyMonotone(d, t, 1.0); CC.MultiplyMonotone(d, 0.0, t); }
    } else {
      assert d <= t * d <= 0.0 by { CC.MultiplyMonotone(t, d, 0.0); CC.MultiplyMonotone(-d, t, 1.0); }
    }
  }

  lemma TruncBetween(a: int, b: int, v: real)
    requires a as real <= v <= b as real
    ensures a <= Trunc(v) <= b
  {
  }

  /** The crossing of edge `i` (from point `i` to the next, wrapping) with
      row `y`, if it crosses. */
  function EdgeCrossing(points: seq<(int, int)>, y: int, i: int): seq<int>
    requires 0 <= i < |points|
  {
    var j := Next(|points|, i);
    var (x1, y1) := points[i];
    var (x2, y2) := points[j];
    if Crosses(y1, y2, y) then [IntersectX(x1, y1, x2, y2, y)] else []
  }

  /** The crossings of the first `n` edges with row `y`, in edge order. */
  function Intersections(points: seq<(int, int)>, y: int, n: int): seq<int>
    requires 0 <= n <= |points|
  {
    if n == 0 then [] else Intersections(points, y, n - 1) + EdgeCrossing(points, y, n - 1)
  }

  predicate SortedUp(xs: seq<int>) {
    forall i, j :: 0 <= i < j < |xs| ==> xs[i] <= xs[j]
  }

  function InsertSorted(x: int, xs: seq<int>): (r: seq<int>)
    requires SortedUp(xs)
    ensures SortedUp(r) && multiset(r) == multiset(xs) + multiset{x}
    decreases |xs|
  {
    if xs == [] || x <= xs[0] then [x] + xs
    else
      var rest := InsertSorted(x, xs[1..]);
      InsertStep(x, xs, rest);
      [xs[0]] + rest
  }

  /** The recursive case of `InsertSorted`: the head stays in front of the
      insertion into the tail. */
  lemma InsertStep(x: int, xs: seq<int>, rest: seq<int>)
    requires SortedUp(xs) && xs != [] && xs[0] < x
    requires SortedUp(rest) && multiset(rest) == multiset(xs[1..]) + multiset{x}
    ensures SortedUp([xs[0]] + rest) && multiset([xs[0]] + rest) == multiset(xs) + multiset{x}
  {
    assert xs == [xs[0]] + xs[1..];
    var s := xs[1..] + [x];
    assert multiset(s) == multiset(xs[1..]) + multiset{x};
    forall k | 0 <= k < |s|
      ensures xs[0] <= s[k]
    {
      if k < |xs| - 1 {
        assert s[k] == xs[k + 1];
      }
    }
    BoundBelow(xs[0], s, rest);
  }

  /** A lower bound of every element carries over to a permutation. */
  lemma BoundBelow(a: int, s: seq<int>, t: seq<int>)
    requires multiset(t) == multiset(s) && forall k :: 0 <= k < |s| ==> a <= s[k]
    ensures forall k :: 0 <= k < |t| ==> a <= t[k]
  {
    forall k | 0 <= k < |t|
      ensures a <= t[k]
    {
      assert t[k] in multiset(s);
    }
  }

  /** `std::sort` on the crossings: ascending, the same values. */
  function SortInts(xs: seq<int>): (r: seq<int>)
    ensures SortedUp(r) && multiset(r) == multiset(xs)
    decreases |xs|
  {
    if xs == [] then []
    else
      assert xs == [xs[0]] + xs[1..];
      InsertSorted(xs[0], SortInts(xs[1..]))
  }

  /** Column `x` lies in one of the first `k` spans (crossing 2i to crossing
      2i + 1), each clipped to the window. */
  predicate InSpans(xs: seq<int>, k: nat, maxX: int, x: int)
    requires 2 * k <= |xs|
  {
    k > 0 && (InSpans(xs, k - 1, maxX, x) || MaxInt(0, xs[2 * k - 2]) <= x <= MinInt(maxX - 1, xs[2 * k - 1]))
  }

  /** The sorted crossings of row `y`. */
  function RowCrossings(points: seq<(int, int)>, y: int): seq<int> {
    SortInts(Intersections(points, y, |points|))
  }

  /** The cells `drawPolygon` writes in a window of `maxY` rows and `maxX`
      columns: nothing for fewer than three points; otherwise, on each row
      of the clipped row range, the columns between consecutive pairs of
      sorted crossings. */
  predicate Painted(points: seq<(int, int)>, maxX: int, maxY: int, y: int, x: int) {
    && |points| >= 3
    && MaxInt(0, LowestRow(points, maxY)) <= y <= MinInt(maxY - 1, HighestRow(points, 0))
    && var xs := RowCrossings(points, y);
       InSpans(xs, |xs| / 2, maxX, x)
  }

  lemma {:induction false} InSpansClipped(xs: seq<int>, k: nat, maxX: int, x: int)
    requires 2 * k <= |xs| && InSpans(xs, k, maxX, x)
    ensures 0 <= x < maxX
    decreases k
  {
    if !(MaxInt(0, xs[2 * k - 2]) <= x <= MinInt(maxX - 1, xs[2 * k - 1])) {
      InSpansClipped(xs, k - 1, maxX, x);
    }
  }

  /** Every painted cell lies inside the window. */
  lemma PaintedInWindow(points: seq<(int, int)>, maxX: int, maxY: int, y: int, x: int)
    requires Painted(points, maxX, maxY, y, x)
    ensures 0 <= y < maxY && 0 <= x < maxX
  {
    var xs := RowCrossings(points, y);
    InSpansClipped(xs, |xs| / 2, maxX, x);
  }

  lemma {:induction false} IntersectionsFromCrossing(points: seq<(int, int)>, y: int, n: int)
    requires 0 <= n <= |points| && |Intersections(points, y, n)| > 0
    ensures exists i :: 0 <= i < n && EdgeCrosses(points, y, i)
    decreases n
  {
    if EdgeCrossing(points, y, n - 1) == [] {
      assert Intersections(points, y, n) == Intersections(points, y, n - 1);
      IntersectionsFromCrossing(points, y, n - 1);
    } else {
      assert EdgeCrosses(points, y, n - 1);
    }
  }

  /** Painted rows lie between the lowest and the highest vertex row,
      bottom row excluded: some vertex is on or above the row and some is
      strictly below it. */
  lemma PaintedBetweenVertices(points: seq<(int, int)>, maxX: int, maxY: int, y: int, x: int)
    requires Painted(points, maxX, maxY, y, x)
    ensures exists i :: 0 <= i < |points| && points[i].1 <= y
    ensures exists j :: 0 <= j < |points| && points[j].1 > y
  {
    var raw := Intersections(points, y, |points|);
    var xs := RowCrossings(points, y);
    assert |xs| == |multiset(xs)| == |multiset(raw)| == |raw|;
    IntersectionsFromCrossing(points, y, |points|);
    var i :| 0 <= i < |points| && EdgeCrosses(points, y, i);
    var j := Next(|points|, i);
    if points[i].1 <= y {
      assert points[j].1 > y;
    } else {
      assert points[j].1 <= y;
    }
  }

  /** The cell a face of colour pair `colorPair` writes: with a positive
      pair the character is drawn in that pair, otherwise plainly. */
  function Ink(colorPair: int, colorChar: char): Cell {
    Cell(if colorPair > 0 then colorPair else 0, colorChar)
  }

  /** `drawPolygon`: scan-line fill of the polygon `points` into `win`,
      whose dimensions are those of the terminal window. */
  method DrawPolygon(win: array2<Cell>, points: seq<(int, int)>, colorPair: int, colorChar: char)
    modifies win
    ensures forall r, c :: 0 <= r < win.Length0 && 0 <= c < win.Length1 ==>
              win[r, c] == if Painted(points, win.Length1, win.Length0, r, c) then Ink(colorPair, colorChar) else old(win[r, c])
  {
    if |points| < 3 {
      return;
    }
    var maxY, maxX := win.Length0, win.Length1;
    var ink := Ink(colorPair, colorChar);
    var minY, maxYVal := RowRange(points, maxY);
    minY := MaxInt(0, minY);
    maxYVal := MinInt(maxY - 1, maxYVal);
    var y := minY;
    while y <= maxYVal
      invariant minY <= y <= MaxInt(minY, maxYVal + 1)
      invariant forall r, c :: 0 <= r < maxY && 0 <= c < maxX ==>
                  win[r, c] == if r < y && Painted(points, maxX, maxY, r, c) then ink else old(win[r, c])
      decreases maxYVal - y
    {
      var intersections := ScanLine(points, y);
      intersections := SortInts(intersections);
      FillRow(win, y, intersections, ink);
      y := y + 1;
    }
  }

  /** The first loop of `drawPolygon`: the least and the greatest vertex row,
      starting from the window height and from 0. */
  method RowRange(points: seq<(int, int)>, maxY: int) returns (minY: int, maxYVal: int)
    ensures minY == LowestRow(points, maxY) && maxYVal == HighestRow(points, 0)
  {
    minY, maxYVal := maxY, 0;
    for i := 0 to |points|
      invariant minY == LowestRow(points[..i], maxY) && maxYVal == HighestRow(points[..i], 0)
    {
      assert points[..i + 1][..i] == points[..i];
      if points[i].1 < minY {
        minY := points[i].1;
      }
      if points[i].1 > maxYVal {
        maxYVal := points[i].1;
      }
    }
    assert points[..|points|] == points;
  }

  /** The edge loop of one scan line: the crossings of every edge with row
      `y`, in edge order. */
  method ScanLine(points: seq<(int, int)>, y: int) returns (intersections: seq<int>)
    requires |points| > 0
    ensures intersections == Intersections(points, y, |points|)
  {
    intersections := [];
    for i := 0 to |points|
      invariant intersections == Intersections(points, y, i)
    {
      var j := (i + 1) % |points|;
      var (x1, y1) := points[i];
      var (x2, y2) := points[j];
      if (y1 <= y && y2 > y) || (y2 <= y && y1 > y) {
        intersections := intersections + [IntersectX(x1, y1, x2, y2, y)];
      }
    }
  }

  /** The span loop of one scan line: the columns between crossings 2i and
      2i + 1 of row `y`, clipped to the window. */
  method FillRow(win: array2<Cell>, y: int, xs: seq<int>, ink: Cell)
    modifies win
    ensures forall r, c :: 0 <= r < win.Length0 && 0 <= c < win.Length1 ==>
              win[r, c] == if r == y && InSpans(xs, |xs| / 2, win.Length1, c) then ink else old(win[r, c])
  {
    var maxY, maxX := win.Length0, win.Length1;
    var i := 0;
    ghost var p: nat := 0;
    while i < |xs|
      invariant i == 2 * p && i <= |xs|
      invariant forall r, c :: 0 <= r < maxY && 0 <= c < maxX ==>
                  win[r, c] == if r == y && InSpans(xs, p, maxX, c) then ink else old(win[r, c])
    {
      if i + 1 >= |xs| {
        break;
      }
      var startX := MaxInt(0, xs[i]);
      var endX := MinInt(maxX - 1, xs[i + 1]);
      FillSpan(win, y, startX, endX, ink);
      i, p := i + 2, p + 1;
    }
    assert |xs| / 2 == p;
  }

  /** The column loop of one span: cells `startX` to `endX` of row `y`, as
      far as they lie in the window. */
  method FillSpan(win: array2<Cell>, y: int, startX: int, endX: int, ink: Cell)
    modifies win
    ensures forall r, c :: 0 <= r < win.Length0 && 0 <= c < win.Length1 ==>
              win[r, c] == if r == y && startX <= c <= endX then ink else old(win[r, c])
  {
    var maxY, maxX := win.Length0, win.Length1;
    var x := startX;
    while x <= endX
      invariant startX <= x <= MaxInt(startX, endX + 1)
      invariant forall r, c :: 0 <= r < maxY && 0 <= c < maxX ==>
                  win[r, c] == if r == y && startX <= c < x then ink else old(win[r, c])
      decreases endX - x
    {
      if y >= 0 && y < maxY && x >= 0 && x < maxX {
        win[y, x] := ink;
      }
      x := x + 1;
    }
  }

  // ---- The colour-pair cache of `draw` ----

  /** The map from terminal colour index to colour pair that the main loop
      keeps across frames, starting empty, with the `init_pair` calls made so
      far: pair numbers are handed out as 1, 2, 3, ... in order, each
      registered once. */
  class ColorCache {
    var pairs: map<int, int>
    var registered: seq<(int, int)>

    ghost predicate Valid()
      reads this
    {
      && |registered| == |pairs|
      && (forall k :: 0 <= k < |registered| ==>
            registered[k].0 == k + 1 && registered[k].1 in pairs && pairs[registered[k].1] == k + 1)
      && (forall c :: c in pairs ==> 1 <= pairs[c] <= |pairs| && registered[pairs[c] - 1].1 == c)
    }

    constructor ()
      ensures Valid() && pairs == map[] && registered == []
    {
      pairs := map[];
      registered := [];
    }

    /** The lookup of one terminal colour: a cached colour reuses its pair;
        a new one gets the next pair number, which is registered with
        `init_pair` and cached. */
    method PairFor(terminalColorIndex: int) returns (colorPair: int)
      requires Valid()
      modifies this
      ensures Valid()
      ensures terminalColorIndex in old(pairs) ==>
                colorPair == old(pairs)[terminalColorIndex] && pairs == old(pairs) && registered == old(registered)
      ensures terminalColorIndex !in old(pairs) ==>
                && colorPair == |old(pairs)| + 1
                && pairs == old(pairs)[terminalColorIndex := colorPair]
                && registered == old(registered) + [(colorPair, terminalColorIndex)]
      ensures terminalColorIndex in pairs && pairs[terminalColorIndex] == colorPair && 1 <= colorPair <= |pairs|
    {
      if terminalColorIndex in pairs {
        colorPair := pairs[terminalColorIndex];
      } else {
        colorPair := |pairs| + 1;
        registered := registered + [(colorPair, terminalColorIndex)];
        pairs := pairs[terminalColorIndex := colorPair];
      }
    }

    /** Different colours never share a pair. */
    lemma PairsDistinct(c: int, d: int)
      requires Valid() && c in pairs && d in pairs && c != d
      ensures pairs[c] != pairs[d]
    {
      assert registered[pairs[c] - 1].1 == c;
    }
  }

  // ---- Painter's order: the sort and the drawing loop of `draw` ----

  /** A face ready to draw: its screen polygon, colour pair, depth and
      character. */
  datatype FaceData = FaceData(points: seq<(int, int)>, colorPair: int, depth: real, colorChar: char)

  /** Farthest first. */
  predicate DepthOrdered(faces: seq<FaceData>) {
    forall i, j :: 0 <= i < j < |faces| ==> faces[i].depth >= faces[j].depth
  }

  /** The `std::sort` of `facesToDraw` by descending depth, in place. */
  method SortByDepth(faces: array<FaceData>)
    modifies faces
    ensures DepthOrdered(faces[..])
    ensures multiset(faces[..]) == multiset(old(faces[..]))
  {
    for i := 0 to faces.Length
      invariant DepthOrdered(faces[..i])
      invariant multiset(faces[..]) == multiset(old(faces[..]))
    {
      SinkFace(faces, i);
    }
    assert faces[..faces.Length] == faces[..];
  }

  /** One insertion step: face `i` moves left past every nearer face. */
  method SinkFace(faces: array<FaceData>, i: int)
    requires 0 <= i < faces.Length && DepthOrdered(faces[..i])
    modifies faces
    ensures DepthOrdered(faces[..i + 1])
    ensures multiset(faces[..]) == multiset(old(faces[..]))
  {
    var j := i;
    while j > 0 && faces[j - 1].depth < faces[j].depth
      invariant 0 <= j <= i
      invariant forall k, l :: 0 <= k < l <= i && k != j && l != j ==> faces[k].depth >= faces[l].depth
      invariant forall l :: j < l <= i ==> faces[l].depth <= faces[j].depth
      invariant multiset(faces[..]) == multiset(old(faces[..]))
    {
      Swap(faces, j - 1, j);
      j := j - 1;
    }
  }

  method Swap(faces: array<FaceData>, i: int, j: int)
    requires 0 <= i < j < faces.Length
    modifies faces
    ensures faces[..] == old(faces[..])[i := old(faces[j])][j := old(faces[i])]
    ensures multiset(faces[..]) == multiset(old(faces[..]))
  {
    faces[i], faces[j] := faces[j], faces[i];
  }

  /** The face drawn last over cell (y, x) among the first `n`, or -1. */
  function TopFace(faces: seq<FaceData>, n: int, maxX: int, maxY: int, y: int, x: int): (k: int)
    requires 0 <= n <= |faces|
    ensures -1 <= k < n
    ensures k >= 0 ==> Painted(faces[k].points, maxX, maxY, y, x)
    ensures forall j :: k < j < n ==> !Painted(faces[j].points, maxX, maxY, y, x)
  {
    if n == 0 then -1
    else if Painted(faces[n - 1].points, maxX, maxY, y, x) then n - 1
    else TopFace(faces, n - 1, maxX, maxY, y, x)
  }

  /** With the faces farthest first, the face that shows in a cell is a
      nearest one among those covering it. */
  lemma NearestFaceShows(faces: seq<FaceData>, maxX: int, maxY: int, y: int, x: int, j: int)
    requires DepthOrdered(faces) && 0 <= j < |faces| && Painted(faces[j].points, maxX, maxY, y, x)
    ensures 0 <= TopFace(faces, |faces|, maxX, maxY, y, x)
    ensures faces[TopFace(faces, |faces|, maxX, maxY, y, x)].depth <= faces[j].depth
  {
    var k := TopFace(faces, |faces|, maxX, maxY, y, x);
    assert j <= k;
    if j < k {
      assert faces[j].depth >= faces[k].depth;
    }
  }

  /** The drawing loop of `draw`: every face in turn, later faces over
      earlier ones. */
  method PaintFaces(win: array2<Cell>, faces: seq<FaceData>)
    modifies win
    ensures forall r, c :: 0 <= r < win.Length0 && 0 <= c < win.Length1 ==>
              var k := TopFace(faces, |faces|, win.Length1, win.Length0, r, c);
              win[r, c] == if k >= 0 then Ink(faces[k].colorPair, faces[k].colorChar) else old(win[r, c])
  {
    for n := 0 to |faces|
      invariant forall r, c :: 0 <= r < win.Length0 && 0 <= c < win.Length1 ==>
                  var k := TopFace(faces, n, win.Length1, win.Length0, r, c);
                  win[r, c] == if k >= 0 then Ink(faces[k].colorPair, faces[k].colorChar) else old(win[r, c])
    {
      DrawPolygon(win, faces[n].points, faces[n].colorPair, faces[n].colorChar);
    }
  }

  /** The end of `draw`: the collected faces sorted farthest first, then
      painted in that order. */
  method DrawFaces(win: array2<Cell>, facesToDraw: array<FaceData>)
    modifies win, facesToDraw
    ensures DepthOrdered(facesToDraw[..]) && multiset(facesToDraw[..]) == multiset(old(facesToDraw[..]))
    ensures forall r, c :: 0 <= r < win.Length0 && 0 <= c < win.Length1 ==>
              var k := TopFace(facesToDraw[..], facesToDraw.Length, win.Length1, win.Length0, r, c);
              win[r, c] == if k >= 0 then Ink(facesToDraw[k].colorPair, facesToDraw[k].colorChar) else old(win[r, c])
  {
    SortByDepth(facesToDraw);
    PaintFaces(win, facesToDraw[..]);
  }
}
