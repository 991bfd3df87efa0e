# A verified model of a terminal Rubik's cube engine

This project models the core of a small C++ program. The program draws a 3×3×3 Rubik's cube in a terminal with ncurses
and lets the user turn its faces and drag the view. The model covers five parts:

- the cube controller `RubiksCube`: its 26 piece objects, the view rotation, zoom and position, the quarter-turn
  animation, the scramble, the reset, and the mapping from view directions to the faces seen there;
- the pieces `RubiksCubePiece`: the sticker map, rotation, reset, corner table and colour lookup;
- the value types `Vector3` and `Quaternion`;
- the colour conversion `RGB::applyBrightness` / `RGB::to256Color`;
- the parts of drawing that are plain logic: brightness, the projection sentinel, the scan-line polygon fill into the
  character window, the colour-pair cache and the painter's order.

The program keeps piece positions as float vectors with a 0.1 tolerance, and piece orientations as float quaternions.
The model replaces both with exact integers:

- a position is an `IVec` in {−1, 0, 1}³;
- an orientation is a signed permutation matrix, and the turns keep it among the 24 rotations;
- a quarter turn about +X, +Y or +Z is the exact map (x,y,z)↦(x,−z,y), (z,y,−x) or (−y,x,z). A negative axis or a
  negative angle gives the inverse.

`QuarterTurn` ties these matrices back to the program's quaternions by proof. The quaternion (c, ±c·axis) with
c² = ½ is what `fromAxisAngle` builds for ±π/2. Its `rotateVector` is exactly the matrix, and so is the product of a
whole chain of such quaternions. The view rotation and the view mapping stay over `real`, because a mouse drag is not a
quarter turn.

Modules, in dependency order:

- `Enums`
- `Vector3`
- `Quaternion`
- `ColorConverter`
- `QuarterTurn` (faces, axes, integer rotations and the bridge to quaternions)
- `Layout` (the 26 creation positions and the counting facts about them)
- `CubePiece` (class `Piece`)
- `CubeState` (the arrangement of the pieces as a value, and face turns on it)
- `ViewMapping`
- `RubiksCube` (class `Cube`)
- `Renderer` (class `ColorCache`)

The `Cube` methods are proved against `CubeState`. Each method that turns pieces ensures that its new `State()` equals
`TurnFace` or `TurnFaces` of the old one. The facts about turns are then lemmas on those values:

- nine pieces per face;
- consistency is preserved;
- four turns restore the state;
- a turn is undone by its opposite.

The header's comment that `createPieces` creates 27 pieces (`src/RubiksCube.hpp:58`) does not match the code.
`createPieces` creates 26 distinct pieces, none at the origin (`Layout.GridIsCreationOrder`).

## Model

| member | source | states |
|---|---|---|
| Enums.ColorIndex | src/Enums.hpp:9-17 | the integer of a colour is −1 exactly for NONE and 0..5 otherwise |
| Enums.ColorIndexInjective | src/Enums.hpp:9-17 | different colours have different integers |
| Vector3.Dot | src/Vector3.cpp:7-9 | the dot product, the sum of the three componentwise products |
| Vector3.Cross | src/Vector3.cpp:11-14 | the right-handed cross product; its facts are `CrossOrthogonal`, `CrossAnticommutative` and `CrossRightHanded` |
| Vector3.Add | src/Vector3.cpp:26-28 | componentwise sum |
| Vector3.Sub | src/Vector3.cpp:30-32 | componentwise difference, which is adding the negation (`SubIsAddNeg`) |
| Vector3.Scale | src/Vector3.cpp:34-36 | each component times the scalar; scaling by one is the identity (`ScaleByOne`) |
| Vector3.Neg | src/Vector3.cpp:38 | each component negated |
| Vector3.ApproxEqual | src/Vector3.cpp:40-43 | every component differs by less than 1e-6; reflexive and symmetric but not transitive (the three lemmas below) |
| Vector3.Normalized | src/Vector3.cpp:18-24 | the zero vector normalizes to zero; otherwise the result scaled by the length gives back the vector |
| Vector3.DotCommutative | src/Vector3.cpp:7-9 | dot(a, b) = dot(b, a) |
| Vector3.DotSelfNonNegative | src/Vector3.cpp:7-9 | dot(v, v) ≥ 0 |
| Vector3.CrossOrthogonal | src/Vector3.cpp:11-14 | a × b is orthogonal to both a and b |
| Vector3.CrossAnticommutative | src/Vector3.cpp:11-14 | a × b = −(b × a) |
| Vector3.CrossRightHanded | src/Vector3.cpp:11-14 | x̂ × ŷ = ẑ |
| Vector3.NormalizedZero | src/Vector3.cpp:18-24 | the zero guard: normalized of the zero vector is the zero vector |
| Vector3.SubIsAddNeg | src/Vector3.cpp:26-38 | a − b = a + (−b) |
| Vector3.ScaleByOne | src/Vector3.cpp:34-36 | a * 1 = a |
| Vector3.ApproxEqualReflexive | src/Vector3.cpp:40-43 | `operator==` with tolerance 1e-6 holds between a vector and itself |
| Vector3.ApproxEqualSymmetric | src/Vector3.cpp:40-43 | `operator==` is symmetric |
| Vector3.ApproxEqualNotTransitive | src/Vector3.cpp:40-43 | three vectors 0.6e-6 apart: a == b and b == c but not a == c |
| Quaternion.FromAxisAngle | src/Quaternion.cpp:8-15 | (cos of the half angle, the axis times the sine of the half angle), with cosine and sine given; the ±π/2 instances are `QuarterTurn.QuarterQuat` |
| Quaternion.Conjugate | src/Quaternion.cpp:25 | the vector part negated; an involution that reverses products (`ConjugateInvolution`, `ConjugateOfProduct`) |
| Quaternion.Multiply | src/Quaternion.cpp:27-34 | the Hamilton product; associative, with identity (1,0,0,0), i·j = k and j·i = −k (the lemmas below) |
| Quaternion.Sandwich | src/Quaternion.cpp:36-39 | q·(0, v)·conj(q); its scalar part is zero (`SandwichIsPure`) |
| Quaternion.RotateVector | src/Quaternion.cpp:36-41 | the vector part of the sandwich; it composes, keeps lengths for a unit q and is undone by the conjugate (the lemmas below) |
| Quaternion.Normalize | src/Quaternion.cpp:17-23 | length 0 gives the identity (1,0,0,0); a unit quaternion is returned unchanged |
| Quaternion.NormalizeZero | src/Quaternion.cpp:17-23 | normalize of (0,0,0,0) is (1,0,0,0) |
| Quaternion.MultiplyAssociative | src/Quaternion.cpp:27-34 | (p·q)·r = p·(q·r) |
| Quaternion.IdentityNeutral | src/Quaternion.cpp:27-34 | (1,0,0,0) is a two-sided identity of multiply |
| Quaternion.IJIsK | src/Quaternion.cpp:27-34 | i·j = k |
| Quaternion.JIIsMinusK | src/Quaternion.cpp:27-34 | j·i = −k, so multiply is not commutative |
| Quaternion.ConjugateInvolution | src/Quaternion.cpp:25 | conjugate(conjugate(q)) = q |
| Quaternion.ConjugateOfProduct | src/Quaternion.cpp:25-34 | conjugate(p·q) = conjugate(q)·conjugate(p) |
| Quaternion.NormSqMultiplicative | src/Quaternion.cpp:27-34 | \|p·q\|² = \|p\|²·\|q\|² |
| Quaternion.UnitProduct | src/Quaternion.cpp:17-34 | a product of unit quaternions is a unit quaternion, and normalize leaves it unchanged |
| Quaternion.SandwichIsPure | src/Quaternion.cpp:36-41 | the scalar part of q·(0,v)·conj(q) is 0, so dropping it in `rotateVector` loses nothing |
| Quaternion.RotateByIdentity | src/Quaternion.cpp:36-41 | rotating by (1,0,0,0) returns v |
| Quaternion.ConjugateIdentity | src/Quaternion.cpp:25 | the identity is its own conjugate |
| Quaternion.RotateByNegated | src/Quaternion.cpp:36-41 | rotating by −q is rotating by q |
| Quaternion.RotateCompose | src/Quaternion.cpp:27-41 | rotating by q1 then by q2 is rotating by q2·q1 |
| Quaternion.ConjugateNormSq | src/Quaternion.cpp:25 | conjugation keeps the squared norm |
| Quaternion.RotatePreservesLength | src/Quaternion.cpp:27-41 | \|rotateVector(q, v)\|² = \|q\|⁴·\|v\|², so a unit quaternion keeps lengths |
| Quaternion.ConjugateTimesSelf | src/Quaternion.cpp:25-34 | conj(q)·q = (\|q\|², 0, 0, 0) |
| Quaternion.ConjugateUndoesRotation | src/Quaternion.cpp:25-41 | for a unit q, rotating by conj(q) undoes rotating by q |
| ColorConverter.ClampFactor | src/ColorConverter.cpp:5 | the brightness factor is clamped into [0.1, 1.5] and kept when already inside |
| ColorConverter.ScaleChannel | src/ColorConverter.cpp:7-9 | a channel becomes floor(min(255, c·f)), a byte |
| ColorConverter.ApplyBrightness | src/ColorConverter.cpp:4-12 | each channel is the scaled channel under the clamped factor |
| ColorConverter.ApplyBrightnessOne | src/ColorConverter.cpp:4-12 | factor 1 returns the same colour |
| ColorConverter.ScaleChannelMonotone | src/ColorConverter.cpp:7-9 | a channel never decreases as the factor grows |
| ColorConverter.ApplyBrightnessMonotone | src/ColorConverter.cpp:4-12 | each channel is non-decreasing in the brightness |
| ColorConverter.ApplyBrightnessClamped | src/ColorConverter.cpp:4-12 | brightness above 1.5 acts as 1.5, below 0.1 as 0.1 |
| ColorConverter.ClampChannel | src/ColorConverter.cpp:15-17 | the channel clamp lands in 0..255 and keeps values already there |
| ColorConverter.ClampChannelNoOp | src/ColorConverter.cpp:15-17 | for 8-bit inputs the clamp is a no-op |
| ColorConverter.GreyIndex | src/ColorConverter.cpp:21-28 | 232 below 8, 255 above 247, otherwise 232 + floor((v−8)·23/247); always 232..255 |
| ColorConverter.CubeLevel | src/ColorConverter.cpp:32-34 | the colour-cube digit is floor(v/51), in 0..5 |
| ColorConverter.To256Color | src/ColorConverter.cpp:14-36 | the result is in 16..255: the grey ramp index for r = g = b, else 16 + 36r′ + 6g′ + b′ |
| ColorConverter.GreyOnRamp | src/ColorConverter.cpp:20-29 | a grey lands on the ramp 232..255 |
| ColorConverter.ColourInCube | src/ColorConverter.cpp:31-35 | a non-grey lands in the colour cube 16..231, and its digits can be read back |
| ColorConverter.CubeDigits | src/ColorConverter.cpp:35 | the base-6 digits of 36a + 6b + c are a, b and c |
| ColorConverter.GreyAndColourDisjoint | src/ColorConverter.cpp:14-36 | a grey and a non-grey never get the same index |
| QuarterTurn.ParseFace | src/RubiksCube.cpp:209-239 | a string parses to the face with that name, and to none when no face has it |
| QuarterTurn.ParseFaceName | src/RubiksCube.cpp:209-239 | parsing a face's name gives that face back |
| QuarterTurn.KeyOrderIsMapOrder | src/RubiksCube.cpp:113-118 | `KeyOrder` lists each face once, in the order a `std::map` walks the names (B, D, F, L, R, U) |
| QuarterTurn.RotationAxis | src/RubiksCube.cpp:32-35 | the axis each face turns about, as in `ROTATION_AXES`; it is the face normal (`RotationAxisIsNormal`) |
| QuarterTurn.Normal | src/RubiksCubePiece.cpp:6-9 | the outward unit normal of each face, as in `FACE_NORMALS`; different faces have different normals (`NormalInjective`) |
| QuarterTurn.OnFace | src/RubiksCube.cpp:213-236 | the layer test of each face name (z = −1 for F, z = 1 for B, x = −1 for L, x = 1 for R, y = 1 for U, y = −1 for D), with the 0.1 tolerance exact on lattice points |
| QuarterTurn.Apply | src/Quaternion.cpp:36-41 | a signed permutation applied to an integer vector; for a quarter turn it is `rotateVector` exactly (`QuarterQuatIsTurn`) |
| QuarterTurn.Inverse | src/Quaternion.cpp:25 | the transpose of a signed permutation, which undoes it on both sides (`InverseUndoes`), as the conjugate undoes a unit quaternion |
| QuarterTurn.Turn | src/RubiksCubePiece.cpp:56-60 | the exact integer map of `fromAxisAngle(axis, ±π/2)`; it is a rotation, keeps its layer, has four-fold order and the opposite sense as inverse (the lemmas below) |
| QuarterTurn.RotationAxisIsNormal | src/RubiksCube.cpp:32-35 | each face's `ROTATION_AXES` entry is its `FACE_NORMALS` entry |
| QuarterTurn.NormalFace | src/RubiksCubePiece.cpp:6-9 | the face whose normal is v, if any |
| QuarterTurn.NormalInjective | src/RubiksCubePiece.cpp:6-9 | different faces have different normals |
| QuarterTurn.OnFaceAlongNormal | src/RubiksCube.cpp:213-236 | a position is on a face exactly when its coordinate along that face's axis is the axis's sign |
| QuarterTurn.Compose | src/RubiksCubePiece.cpp:59 | composing orientations applies the right one first |
| QuarterTurn.InverseUndoes | src/Quaternion.cpp:25-41 | the inverse of a signed permutation undoes it on either side |
| QuarterTurn.InverseIsRotation | src/Quaternion.cpp:25 | the inverse of a rotation is a rotation |
| QuarterTurn.TurnIsRotation | src/Quaternion.cpp:8-15 | each quarter-turn matrix is one of the 24 rotations |
| QuarterTurn.TurnOppositeIsInverse | src/Quaternion.cpp:8-15 | the opposite angle gives the inverse matrix |
| QuarterTurn.TurnThenOpposite | src/RubiksCubePiece.cpp:56-60 | a turn followed by the opposite turn restores a position |
| QuarterTurn.FourTurnsRestore | src/RubiksCubePiece.cpp:56-60 | four equal turns restore a position |
| QuarterTurn.TurnMoves | src/Quaternion.cpp:8-15 | no quarter turn is the identity |
| QuarterTurn.TurnKeepsLayer | src/RubiksCube.cpp:32-35 | turning about a face's axis keeps a position on that face or off it |
| QuarterTurn.TurnComposeIsRotation | src/RubiksCubePiece.cpp:59 | composing a turn on the left keeps an orientation a rotation |
| QuarterTurn.FourTurnsRestoreOrientation | src/RubiksCubePiece.cpp:56-60 | four equal turns restore the rotation action of the orientation |
| QuarterTurn.TurnThenOppositeOrientation | src/RubiksCubePiece.cpp:56-60 | a turn then its opposite restores the rotation action |
| QuarterTurn.ApplyKeepsIDot | src/Quaternion.cpp:36-41 | a signed permutation keeps integer dot products |
| QuarterTurn.ApplyPermutesNormals | src/RubiksCubePiece.cpp:6-9 | a signed permutation sends each face normal to a face normal |
| QuarterTurn.ApplyRAgrees | src/Quaternion.cpp:36-41 | the matrix on reals agrees with the matrix on lattice points |
| QuarterTurn.ApplyRCompose | src/Quaternion.cpp:27-41 | on reals, the composed matrix acts as one matrix after the other |
| QuarterTurn.ApplyRKeepsDot | src/Quaternion.cpp:36-41 | a signed permutation keeps real dot products |
| QuarterTurn.InverseUndoesR | src/Quaternion.cpp:25-41 | on reals, the matrix undoes its inverse |
| QuarterTurn.QuarterQuatUnit | src/Quaternion.cpp:8-15 | the ±π/2 quaternion (c, ±c·axis) with c² = ½ is a unit quaternion |
| QuarterTurn.QuarterQuatIsTurn | src/Quaternion.cpp:8-15 | `rotateVector` by that quaternion is exactly the quarter-turn matrix |
| QuarterTurn.QuarterQuatIsExplicit | src/Quaternion.cpp:8-15 | the quaternion's components are those `fromAxisAngle` writes for a unit axis |
| QuarterTurn.QuarterSquaredIsHalfTurn | src/Quaternion.cpp:27-34 | the square of a quarter-turn quaternion is the half-turn quaternion |
| QuarterTurn.HalfTurnSquared | src/Quaternion.cpp:27-34 | the square of a half-turn quaternion is (−1, 0, 0, 0) |
| QuarterTurn.FourQuarterQuatsNegate | src/RubiksCubePiece.cpp:59 | four equal quarter turns leave the stored quaternion at (−1,0,0,0), not at the identity |
| QuarterTurn.TurnsOrientationIsRotation | src/RubiksCubePiece.cpp:56-60 | any chain of turns gives a rotation |
| QuarterTurn.TurnsQuatUnit | src/RubiksCubePiece.cpp:59 | the quaternion a chain of turns stores stays a unit quaternion |
| QuarterTurn.RotateStepNormalized | src/RubiksCubePiece.cpp:59 | `normalize` in `rotate` is a no-op on that chain, so each step multiplies on the left |
| QuarterTurn.TurnsQuatActsAsOrientation | src/RubiksCubePiece.cpp:56-60 | the stored quaternion acts on every vector exactly as the integer orientation |
| QuarterTurn.NoTurnsActsAsIdentity | src/RubiksCubePiece.cpp:13 | a piece that has not been turned acts as the identity |
| QuarterTurn.QuarterStepActs | src/RubiksCubePiece.cpp:59 | one more turn on the left keeps quaternion and matrix in agreement |
| QuarterTurn.TurnsQuatConjugateActsAsInverse | src/RubiksCubePiece.cpp:141-142 | the conjugate of the stored quaternion acts as the inverse orientation |
| Layout.TypeAt | src/RubiksCube.cpp:57-103 | the kind of the piece created at each step: eight corners, then twelve edges, then six centres (`KindCounts`) |
| Layout.IndexOf | src/RubiksCube.cpp:57-103 | every grid position has a creation index below 26 |
| Layout.GridAtIndexOf | src/RubiksCube.cpp:57-103 | the piece created at a position's index is at that position |
| Layout.IndexOfGrid | src/RubiksCube.cpp:57-103 | each created position is on the grid, of its piece's kind, with its own index |
| Layout.GridIsCreationOrder | src/RubiksCube.cpp:57-103 | `createPieces` makes 26 distinct positions of the expected kinds (8 corners, 12 edges, 6 centres), none at the origin |
| Layout.GridCoversGridSet | src/RubiksCube.cpp:57-103 | the created positions are exactly the lattice points other than the origin |
| Layout.LayerCounts | src/RubiksCube.cpp:213-236 | every face layer has 9 positions: 4 corners, 4 edges and 1 centre |
| Layout.KindCounts | src/RubiksCube.cpp:213-236 | a layer holds 4 corners, 4 edges and 1 centre |
| Layout.GridSetSize | src/RubiksCube.cpp:57-103 | the lattice without its origin has 26 points |
| Layout.ApplyKeepsGrid | src/RubiksCubePiece.cpp:56-60 | a signed permutation keeps a position on the lattice and keeps its kind |
| Layout.DistinctPositionsFillGrid | src/RubiksCube.cpp:57-103 | 26 distinct lattice positions fill the whole lattice |
| Layout.PiecesPerFace | src/RubiksCube.cpp:241-246 | 26 distinct lattice positions put 9 pieces on each face |
| Layout.PiecesPerFaceOfKind | src/RubiksCube.cpp:241-246 | ... 4 corners, 4 edges and 1 centre |
| CubePiece.StickerDirectionAgainstNormal | src/RubiksCubePiece.cpp:6-9 | the side `initColors` puts a sticker on agrees with `FACE_NORMALS` for L, R, U and D, and is opposite for F and B |
| CubePiece.StickerColorInjective | src/RubiksCubePiece.cpp:17-54 | different sticker names get different colours |
| CubePiece.FirstShown | src/RubiksCubePiece.cpp:23-35 | the first side in the test order that a centre shows, or none |
| CubePiece.FirstShownChain | src/RubiksCubePiece.cpp:23-35 | the first shown side is the if/else chain over x, y and z |
| CubePiece.InitialColors | src/RubiksCubePiece.cpp:17-54 | the sticker map holds exactly the sides the piece shows (only the first for a centre), each with its colour |
| CubePiece.InitialColorsAreOuterSides | src/RubiksCubePiece.cpp:17-54 | at a lattice position of its kind, a piece has a sticker exactly on its outer sides |
| CubePiece.InitialColorsCount | src/RubiksCubePiece.cpp:17-54 | centres get 1 sticker, edges 2, corners 3 |
| CubePiece.InitialColorsDistinct | src/RubiksCubePiece.cpp:17-54 | a piece's sticker colours are distinct and never NONE |
| CubePiece.CornerTable | src/RubiksCubePiece.cpp:66-95 | each side of the table has four corners |
| CubePiece.CornerTableOnPlane | src/RubiksCubePiece.cpp:66-95 | each side's corners lie on the plane half a unit out toward its sticker side |
| CubePiece.CornerTableWinding | src/RubiksCubePiece.cpp:66-95 | (c1−c0)×(c2−c0) points outward on every side; that matches `FACE_NORMALS` for L, R, U and D and is its opposite for F and B |
| CubePiece.RotatedCornersOnPlane | src/RubiksCubePiece.cpp:97-110 | the rotated corners stay on the rotated plane |
| CubePiece.Facing | src/RubiksCubePiece.cpp:131-166 | the face whose normal the orientation sends `g`'s normal to |
| CubePiece.ColorOn | src/RubiksCubePiece.cpp:138-165 | the sticker of the initial side whose `FACE_NORMALS` entry is the face's normal turned back by the orientation (equivalently, the side the orientation turns onto the face); NONE when that side has no sticker |
| CubePiece.ColorFacing | src/RubiksCubePiece.cpp:131-166 | NONE for a name that is not a face (the failed lookup), otherwise `ColorOn` |
| CubePiece.ColorFacingIdentity | src/RubiksCubePiece.cpp:131-166 | under the identity, the lookup is `initialColors[name]`, or NONE |
| CubePiece.ColorFacingUnknown | src/RubiksCubePiece.cpp:133-136 | an unknown name gives NONE |
| CubePiece.NormalTurnedBack | src/RubiksCubePiece.cpp:138-158 | the target normal turned back lands on `g`'s normal exactly when the target face is where `g` now faces |
| CubePiece.EachStickerShownOnce | src/RubiksCubePiece.cpp:131-166 | under any rotation each initial sticker is reported for exactly one face name |
| CubePiece.ColorOnIsFacing | src/RubiksCubePiece.cpp:131-166 | a face reports a sticker's colour only where that sticker faces |
| CubePiece.ColorOnSome | src/RubiksCubePiece.cpp:148-163 | a colour is reported only from the initial side whose normal is the turned-back target normal |
| CubePiece.ShownFacesCount | src/RubiksCubePiece.cpp:131-166 | under any rotation the number of faces reporting a colour equals the number of stickers |
| CubePiece.DrawnAsWritten | src/RubiksCube.cpp:423-436 | what the draw loop does for one face name: colour from the world-frame lookup, outline on that name's own side |
| CubePiece.DrawnAsWrittenMisplaces | src/RubiksCube.cpp:423-436 | after one R turn, the edge from (1,0,−1) draws orange on its inner side and nothing on +y |
| CubePiece.Drawn | src/RubiksCube.cpp:428-434 | the lookup on the piece's own side, as the comment at line 428 states |
| CubePiece.DrawnAgreeAtIdentity | src/RubiksCube.cpp:423-436 | before any turn both loops draw the same |
| CubePiece.DrawnFacesOutward | src/RubiksCube.cpp:423-436 | with the corrected lookup, every drawn sticker lies on an outer side of the piece and has that side's colour |
| CubePiece.Piece.Valid | src/RubiksCubePiece.cpp:56-60 | the piece's orientation is one of the 24 rotations and its position is where that orientation takes its initial position, which every `rotate` keeps |
| CubePiece.Piece.constructor | src/RubiksCubePiece.cpp:11-15 | the new piece is at its position, with its type, the identity orientation and the sticker map of `initColors` |
| CubePiece.Piece.InitColors | src/RubiksCubePiece.cpp:17-54 | the map the if/else chains build is `InitialColors(position, type)` |
| CubePiece.Piece.Rotate | src/RubiksCubePiece.cpp:56-60 | the position is turned, the turn composes on the left of the orientation, and the piece invariant (lattice position of its kind reached by its rotation) is kept |
| CubePiece.Piece.Reset | src/RubiksCubePiece.cpp:117-120 | position back to the initial one, identity orientation |
| CubePiece.Piece.GetFaceCorners | src/RubiksCubePiece.cpp:62-111 | no corners for an unknown name, else the table's four corners turned by the orientation |
| CubePiece.Piece.CurrentFaceColor | src/RubiksCubePiece.cpp:113-115 | the lookup under the piece's own orientation |
| CubePiece.Piece.FaceColorWithRotation | src/RubiksCubePiece.cpp:131-166 | NONE for an unknown name, else the sticker of the initial side that now faces that name, or NONE |
| CubePiece.Piece.FaceColorOn | src/RubiksCubePiece.cpp:138-165 | the best-match scan over the stickers with threshold 0.9 returns the sticker whose side faces the target, or NONE |
| CubeState.Positions | src/RubiksCube.cpp:251-263 | the positions of the pieces, in creation order |
| CubeState.Solved | src/RubiksCubePiece.cpp:117-120 | every piece at its initial position with the identity orientation |
| CubeState.FacePieces | src/RubiksCube.cpp:209-249 | exactly the indices of the pieces on the face |
| CubeState.FacePiecesOfKind | src/RubiksCube.cpp:209-249 | exactly the indices of the pieces of a kind on the face |
| CubeState.TurnFace | src/RubiksCube.cpp:192-207 | the pieces on the face turn about its axis; all others are unchanged |
| CubeState.TurnPiece | src/RubiksCubePiece.cpp:56-60 | one piece turned: its position rotated, and the turn composed on the left of (applied after) its orientation |
| CubeState.TurnFaces | src/RubiksCube.cpp:642-663 | a sequence of face turns applied in order; it keeps consistency and extends by one turn (`TurnFacesConsistent`, `TurnFacesAppend`) |
| CubeState.Consistent | src/RubiksCube.cpp:57-103 | the state turns can reach: every orientation a rotation taking the initial grid position to the current one, and no two pieces on one position |
| CubeState.SolvedIsConsistent | src/RubiksCube.cpp:57-103 | the solved state is reachable: distinct positions, each reached by its rotation |
| CubeState.ConsistentOnGrid | src/RubiksCubePiece.cpp:56-60 | in a reachable state every piece is on the lattice with its own kind |
| CubeState.TurnFaceConsistent | src/RubiksCube.cpp:192-207 | a face turn keeps the state reachable and permutes the pieces of that face among themselves |
| CubeState.NinePerFace | src/RubiksCube.cpp:209-249 | in any reachable state each face holds 9 pieces: 4 corners, 4 edges, 1 centre |
| CubeState.TurnFaceUndone | src/RubiksCube.cpp:192-207 | a turn followed by the opposite turn of the same face restores the state |
| CubeState.FourTurnsRestoreState | src/RubiksCube.cpp:192-207 | four equal turns of a face restore the state |
| CubeState.TurnFacesConsistent | src/RubiksCube.cpp:633-663 | any sequence of turns keeps the state reachable |
| CubeState.TurnFacesAppend | src/RubiksCube.cpp:642-663 | turning `a` then `b` is turning `a + b` |
| CubeState.Undo | src/RubiksCube.cpp:195 | a specification helper, not an operation of the program (which has no undo): the opposite turns in reverse order, one per move; `UndoRestores` proves that they restore the state |
| CubeState.UndoRestores | src/RubiksCube.cpp:192-207 | the opposite turns in reverse order restore any state |
| ViewMapping.FaceNamesParse | src/RubiksCube.cpp:32-35 | a string is a face name exactly when it parses |
| ViewMapping.IdentityMappingValid | src/RubiksCube.cpp:51-52 | the initial mapping sends every view direction to its own face |
| ViewMapping.FaceDotIsDot | src/RubiksCube.cpp:119 | the score of a face is the dot product with its normal |
| ViewMapping.ViewInCube | src/RubiksCube.cpp:110-111 | the view direction turned into cube space by the conjugate of the view rotation |
| ViewMapping.FirstBest | src/RubiksCube.cpp:118-124 | the face the inner loop settles on: the highest score, and every face earlier in key order strictly lower; it exists and is unique (the lemmas below) |
| ViewMapping.EntryUpdate | src/RubiksCube.cpp:126-128 | the new entry of one view direction: its first best face when it scores above 0.5, otherwise no change |
| ViewMapping.MappingUpdated | src/RubiksCube.cpp:105-130 | the relation between the mapping before and after `updateViewMapping`: names that are not view directions keep their entries, and each view direction takes `EntryUpdate` |
| ViewMapping.FirstBestUnique | src/RubiksCube.cpp:118-124 | at most one face is the first best in key order |
| ViewMapping.FirstBestExists | src/RubiksCube.cpp:118-124 | some face is the first best |
| ViewMapping.FirstBestAmong | src/RubiksCube.cpp:118-124 | among the first n faces in key order, the face with the highest score, ties to the earliest |
| ViewMapping.BestFace | src/RubiksCube.cpp:107-124 | the strict `>` scan from −1 finds the first best face in key order and its score |
| ViewMapping.MappingUpdatedValid | src/RubiksCube.cpp:105-130 | an update keeps six keys mapped to face names |
| ViewMapping.MappingUpdatedAtIdentity | src/RubiksCube.cpp:105-130 | under the identity rotation the update yields the identity mapping |
| ViewMapping.UnitRotationOverwrites | src/RubiksCube.cpp:126 | under a unit rotation the best score is always above 0.5 |
| ViewMapping.MappingUpdatedUnit | src/RubiksCube.cpp:105-130 | under a unit rotation every entry is overwritten with the first best face |
| RubiksCube.ZoomedScale | src/RubiksCube.cpp:149-151 | scale + factor/2, clamped to [15, 50] |
| RubiksCube.ZoomMonotone | src/RubiksCube.cpp:149-151 | a larger factor never gives a smaller scale |
| RubiksCube.Progress | src/RubiksCube.cpp:185 | progress is in [0, 1], equals 1 exactly once 0.3 s have passed, and before that is elapsed/0.3 |
| RubiksCube.AxisQuat | src/RubiksCube.cpp:135-143 | the drag rotations about y and x are unit quaternions |
| RubiksCube.DraggedRotation | src/RubiksCube.cpp:132-147 | the dragged view rotation stays a unit quaternion and is unchanged without a drag |
| RubiksCube.MappedMoves | src/RubiksCube.cpp:642-663 | the face turns a scramble performs, at most one per chosen direction |
| RubiksCube.MappedMovesSnoc | src/RubiksCube.cpp:642-663 | one more move adds its mapped turn, if any, at the end |
| RubiksCube.MappedMovesIdentity | src/RubiksCube.cpp:642-663 | under the identity mapping every chosen direction turns its own face |
| RubiksCube.ListsCard | src/RubiksCube.cpp:241-246 | an increasing index list is as long as the set it lists |
| RubiksCube.Cube.State | src/RubiksCube.hpp:20 | the position and orientation of every piece, in creation order |
| RubiksCube.Cube.AnimationValid | src/RubiksCube.hpp:31-37 | a progress within [0, 1]; no turn recorded while idle; a recorded turn lists exactly the pieces of its face, about that face's axis |
| RubiksCube.Cube.Valid | src/RubiksCube.hpp:20-43 | the cube's invariant: the 26 built pieces in a state turns can reach, a valid animation, a valid view mapping, a unit view rotation and a scale within the zoom limits |
| RubiksCube.Cube.EachPieceValid | src/RubiksCube.cpp:57-103 | in a valid cube every piece keeps its own invariant |
| RubiksCube.Cube.constructor | src/RubiksCube.cpp:37-55 | identity rotation, scale 25, position (0,0,10), the identity mapping, idle, and the solved pieces |
| RubiksCube.Cube.CreatePieces | src/RubiksCube.cpp:57-103 | 26 new distinct pieces, created at the grid positions in order, with their kinds and sticker maps, untouched |
| RubiksCube.Cube.GetPiecesOnFace | src/RubiksCube.cpp:209-249 | nothing for an unknown name; otherwise exactly the pieces on that face, in creation order, 9 of them in a valid cube |
| RubiksCube.Cube.RotatePieces | src/RubiksCube.cpp:197-199 | rotating exactly the listed pieces of a face is the value-level `TurnFace` |
| RubiksCube.Cube.CompleteAnimation | src/RubiksCube.cpp:192-207 | the recorded turn, if any, is applied and nothing else moves; the cube ends idle with progress 0 and no pieces; the view is unchanged |
| RubiksCube.Cube.ApplyRecordedTurn | src/RubiksCube.cpp:193-200 | the recorded turn, if any, is applied to the state |
| RubiksCube.Cube.RotateViewDirection | src/RubiksCube.cpp:153-177 | an unmapped name changes nothing; otherwise the turn in flight is completed and a turn of the mapped face is recorded with progress 0 and the pieces now on it |
| RubiksCube.Cube.StartTurn | src/RubiksCube.cpp:163-176 | records (`ROTATION_AXES[face]`, face, clockwise) with the pieces on the face |
| RubiksCube.Cube.UpdateAnimation | src/RubiksCube.cpp:179-190 | idle: nothing changes; before 0.3 s: progress grows and nothing turns; from 0.3 s: the turn is completed |
| RubiksCube.Cube.Reset | src/RubiksCube.cpp:615-631 | solved pieces, identity rotation, scale 25, position (0,0,10), idle, identity mapping |
| RubiksCube.Cube.ResetPieces | src/RubiksCube.cpp:616-618 | every piece back in its solved state |
| RubiksCube.Cube.Scramble | src/RubiksCube.cpp:633-670 | for a cube idle or with a turn recorded but not yet moved: the state is the given moves' turns through the view mapping, applied at once; the recorded turn is discarded; the cube ends idle; the view is unchanged |
| RubiksCube.Cube.ScrambleMoves | src/RubiksCube.cpp:642-663 | the loop applies the mapped turns in order |
| RubiksCube.Cube.ScrambleStep | src/RubiksCube.cpp:660-662 | one more turn extends the applied sequence |
| RubiksCube.Cube.TurnNamedFace | src/RubiksCube.cpp:650-662 | one scramble move turns exactly the pieces now on the face |
| RubiksCube.Cube.UpdateViewMapping | src/RubiksCube.cpp:105-130 | per view direction, the entry becomes the first best face when its score is above 0.5, else stays; a valid mapping stays valid |
| RubiksCube.Cube.UpdateStep | src/RubiksCube.cpp:106-129 | one direction's step of the update loop |
| RubiksCube.Cube.RotateByMouseDelta | src/RubiksCube.cpp:132-147 | the rotation becomes the dragged one; without a drag the mapping is unchanged; after a drag every direction maps to its first best face |
| RubiksCube.Cube.MappingDetermined | src/RubiksCube.cpp:105-130 | after an update under a unit rotation the mapping depends on the rotation alone |
| RubiksCube.Cube.Zoom | src/RubiksCube.cpp:149-151 | the scale becomes the clamped zoomed scale; nothing else changes |
| Renderer.CalculateBrightness | src/RubiksCube.cpp:300-311 | the brightness is in [0.25, 1.2], and exactly 0.7 for faces turned away from the light |
| Renderer.BrightnessMonotone | src/RubiksCube.cpp:300-311 | a face lit more directly is never darker |
| Renderer.BrightnessIsAmbientPlusDiffuse | src/RubiksCube.cpp:302-310 | below saturation the brightness is 0.7 + 0.7·dot, above it 1.2, so the highlight step never changes the result |
| Renderer.Trunc | src/RubiksCube.cpp:327-329 | `static_cast<int>` truncates toward zero |
| Renderer.TruncMonotone | src/RubiksCube.cpp:327-329 | truncation is monotone |
| Renderer.ProjectPoint | src/RubiksCube.cpp:313-332 | a point at or behind the camera plane gives (−1000, −1000, −z) |
| Renderer.ProjectRelative | src/RubiksCube.cpp:320-331 | the sentinel (−1000, −1000, −z) for a point not in front of the camera, otherwise its screen column and row |
| Renderer.ScreenColumn | src/RubiksCube.cpp:324-327 | the perspective column, truncated toward zero, centred on half the width |
| Renderer.ScreenRow | src/RubiksCube.cpp:325-329 | the perspective row, flipped, divided by the aspect ratio, truncated toward zero and centred on half the height |
| Renderer.ProjectAhead | src/RubiksCube.cpp:324-329 | a point straight ahead lands in the middle of the window |
| Renderer.ProjectOrdersColumns | src/RubiksCube.cpp:324-327 | at equal depth, a point further right never lands in a column further left |
| Renderer.LowestRow | src/RubiksCube.cpp:347-353 | the smallest of the start value and the vertex rows |
| Renderer.HighestRow | src/RubiksCube.cpp:347-353 | the largest of the start value and the vertex rows |
| Renderer.Next | src/RubiksCube.cpp:364 | the next vertex index wraps around |
| Renderer.Crosses | src/RubiksCube.cpp:370 | the half-open crossing rule: one end on or above the row and the other strictly below; horizontal edges never cross |
| Renderer.IntersectX | src/RubiksCube.cpp:372-373 | where a non-horizontal edge meets the row, truncated toward zero; it lies between the edge's ends (`IntersectBetween`) |
| Renderer.EdgeCrossing | src/RubiksCube.cpp:363-375 | the crossing of one edge, wrapping from the last point to the first, when it crosses |
| Renderer.Intersections | src/RubiksCube.cpp:361-376 | the crossings of the edges with a row, in edge order |
| Renderer.IntersectBetween | src/RubiksCube.cpp:370-373 | an edge that crosses the row meets it between its end columns; horizontal edges never cross, so there is no division by zero |
| Renderer.InsertSorted | src/RubiksCube.cpp:379 | inserting into a sorted list keeps it sorted, with the same values plus the new one |
| Renderer.SortInts | src/RubiksCube.cpp:379 | `std::sort` of the crossings: ascending, a permutation |
| Renderer.InSpans | src/RubiksCube.cpp:382-389 | a column inside one of the spans between crossing 2i and crossing 2i + 1, clipped to the window |
| Renderer.Painted | src/RubiksCube.cpp:334-403 | the cells `drawPolygon` writes: none for fewer than three points, otherwise the spans of each clipped row range; every such cell is in the window (`PaintedInWindow`) |
| Renderer.Ink | src/RubiksCube.cpp:391-397 | the cell written: the character in the colour pair when the pair is positive, otherwise plainly |
| Renderer.PaintedInWindow | src/RubiksCube.cpp:355-390 | every painted cell is inside the window |
| Renderer.PaintedBetweenVertices | src/RubiksCube.cpp:346-376 | a painted row lies between the lowest vertex row (inclusive) and the highest (exclusive) |
| Renderer.IntersectionsFromCrossing | src/RubiksCube.cpp:363-376 | a row with crossings has an edge that crosses it |
| Renderer.DrawPolygon | src/RubiksCube.cpp:334-403 | exactly the cells of `Painted` get the face's ink, all others keep their content; fewer than 3 points paint nothing |
| Renderer.RowRange | src/RubiksCube.cpp:347-353 | the vertex row range, starting from maxY and 0 |
| Renderer.ScanLine | src/RubiksCube.cpp:361-376 | the crossings of all edges with the row, in edge order |
| Renderer.FillRow | src/RubiksCube.cpp:382-400 | exactly the cells of the spans between crossings 2i and 2i+1, clipped to the window, get the ink |
| Renderer.FillSpan | src/RubiksCube.cpp:386-399 | one clipped span of a row gets the ink |
| Renderer.ColorCache.constructor | src/main.cpp:58 | the cache starts empty |
| Renderer.ColorCache.PairFor | src/RubiksCube.cpp:476-483 | a cached colour reuses its pair and changes nothing; a new colour gets pair size+1, cached and registered once; every pair is in 1..size |
| Renderer.ColorCache.PairsDistinct | src/RubiksCube.cpp:476-483 | different colours never share a pair |
| Renderer.SortByDepth | src/RubiksCube.cpp:503-505 | the faces end farthest first and are a permutation of the faces given |
| Renderer.SinkFace | src/RubiksCube.cpp:503-505 | one insertion step extends the ordered prefix, a permutation |
| Renderer.Swap | src/RubiksCube.cpp:503-505 | two faces exchange places |
| Renderer.TopFace | src/RubiksCube.cpp:508-510 | the last face painting a cell, or −1 when none does |
| Renderer.NearestFaceShows | src/RubiksCube.cpp:503-510 | in depth order, the face that shows in a cell is no farther than any other face covering it |
| Renderer.PaintFaces | src/RubiksCube.cpp:508-510 | each cell shows the ink of the last face painting it, else keeps its content |
| Renderer.DrawFaces | src/RubiksCube.cpp:503-510 | the faces are sorted farthest first, and each cell then shows the last painting face |

## Left out

- ncurses output is not modelled: `werase`, `wattron`, `mvwaddch` and `getmaxyx`. The window is a grid of cells
  whose dimensions are the window's size. `init_pair` is a logged event of `ColorCache`.
- `drawUI`, the `toString` methods and `src/main.cpp` are not modelled; they are presentation and I/O only. The
  key dispatch loop, the terminal setup and the sleeps are part of the last.
- The clock of `rotateViewDirection` and `updateAnimation` is not modelled. `UpdateAnimation` takes the elapsed
  seconds as a parameter.
- The random number generator of `scramble` is not modelled. `Scramble` takes the chosen view directions and the
  turn senses as a list.
- Trig, sqrt and float rounding are not modelled; they have no exact counterpart:
  - piece positions and orientations are exact integers, and the 0.1 tolerance is exact equality;
  - `RotateByMouseDelta` takes the cosine and sine of its half angles as parameters;
  - `Quaternion.Normalize` and `Vector3.Normalized` take the length with its square as a precondition;
  - `lightDir` is a parameter of `CalculateBrightness`.
- `fromAxisAngle` is modelled only for the ±π/2 quarter turns (`QuarterTurn.QuarterQuat`); the drag rotations
  are built from the given cosine and sine.
- Mid-turn interpolation is not modelled: `getPiecePosition` and `getPieceFaceCorners` turn the pieces in flight by a
  partial angle. Scramble and face selection read the stored positions, which is what the code reads once no turn is
  in flight.
- `animationRotation` is not modelled; it is written but never read.
- The `ROTATION_AXES` lookup failures in `rotateViewDirection` and `scramble` are not branches of the model. The model
  proves them unreachable because every mapped name is a face name (`ViewMapping.FaceNamesParse`).
- The float geometry of `draw` is not modelled: the face centre, the cross-product normal, the back-face cull, the world
  transform and the depth as a length. The face list is given to `DrawFaces` already collected. The colour lookup of
  that loop is modelled by `CubePiece.DrawnAsWritten` / `CubePiece.Drawn`.
- The defensive `COLOR_RGB` range check at `src/RubiksCube.cpp:466-469` is not modelled. `Enums.ColorIndex` shows
  that every colour other than NONE is in range.
- Renderer.ProjectPoint: for a point in front of the camera the third component is the squared distance, not the
  distance, because sqrt is left out (draw discards this value).
- Renderer.SortByDepth: the model is an insertion sort, which is stable, while `std::sort` need not be. The contract
  states only what both guarantee: farthest first, and a permutation.
- Shared-pointer ownership is not modelled. The cube holds a fixed sequence of piece objects, and the recorded turn
  lists piece indices.
- The static `ColorConverter` wrappers declared in `src/ColorConverter.hpp` are not modelled; their definitions are
  not part of this model. The `RGB` member functions are modelled instead.
- RubiksCube.Cube.UpdateAnimation follows the code. The progress is clamped only from above, `min(1, elapsed / 0.3)`.
  The elapsed time is non-negative, so the model does not also clamp it at 0.
- RubiksCube.Cube.Scramble: its requires leave out `AnimationValid`, because the recorded turn is discarded. They
  also demand that no turn is partly drawn (idle, or progress zero, where the interpolation is the identity). The model
  does not promise anything for a scramble started while a turn has progress above zero: `getPiecesOnFace` then reads
  interpolated positions (`src/RubiksCube.cpp:243`, `src/RubiksCube.cpp:251-258`), so the pieces in flight can miss
  the tolerance test and two pieces can end up on one position.
- CubePiece.Piece.FaceColorOn: the per-sticker dot product is an integer in {−1, 0, 1}, since the normals are exact
  lattice vectors. Float `bestDot` values strictly between these cannot arise.

## Findings

| source | as written | input that shows it | evidently intended | confidence | as-written member | corrected member |
|---|---|---|---|---|---|---|
| src/RubiksCube.cpp:423-436 | `draw` takes the colour of face name `n` from `getCurrentFaceColor(n)`, a world-frame lookup through the piece's rotation. It takes the outline from `getFaceCorners(n)`, which is the piece's own side `n` turned by the rotation. The two frames disagree once a piece has turned. | one R turn, then drawing the edge that starts at (1, 0, −1): its orange sticker is drawn on its −z side, which faces into the cube, and its +y side, where the sticker now faces, is drawn with no colour | the colour and the outline describe the same side. The comment at line 428 says to look up the piece's own table, independent of the rotation, so the lookup is `initialColors[n]` | not executed | CubePiece.DrawnAsWritten, CubePiece.DrawnAsWrittenMisplaces | CubePiece.Drawn, CubePiece.DrawnFacesOutward |
