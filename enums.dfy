/** The two enumerations of the cube: sticker colours and piece kinds. */
module Enums {

  /** `Color`: the six sticker colours and `NONE` for a face without one. */
  datatype Color = Red | Orange | Blue | Green | White | Yellow | NoColor

  /** The enumerator's integer value: Red = 0 up to Yellow = 5, NONE = -1. */
  function ColorIndex(c: Color): (i: int)
    ensures c == NoColor <==> i == -1
    ensures c != NoColor ==> 0 <= i < 6
  {
    match c
    case Red => 0
    case Orange => 1
    case Blue => 2
    case Green => 3
    case White => 4
    case Yellow => 5
    case NoColor => -1
  }

  lemma ColorIndexInjective(c: Color, d: Color)
    ensures ColorIndex(c) == ColorIndex(d) <==> c == d
  {
  }

  datatype PieceType = Corner | Edge | Center
}
