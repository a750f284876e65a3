/** Block positions, with the comparisons and the truncating remainder of types.hpp. */
module Positions {

  datatype Position = Position(x: int, y: int, z: int) {
    /** `pos >= i`: the source compares every coordinate and asks for all of them. */
    predicate AtLeast(i: int) { x >= i && y >= i && z >= i }

    /** `pos < i`, again only when every coordinate is below. */
    predicate Below(i: int) { x < i && y < i && z < i }

    function Rem(i: int): Position
      requires i > 0
    {
      Position(TruncRem(x, i), TruncRem(y, i), TruncRem(z, i))
    }
  }

  /** C++ integer division rounds toward zero. */
  function TruncDiv(a: int, b: int): (q: int)
    requires b > 0
    ensures a >= 0 ==> q == a / b
  {
    if a >= 0 then a / b else -((-a) / b)
  }

  /** C++ remainder takes the sign of the dividend. */
  function TruncRem(a: int, b: int): (r: int)
    requires b > 0
    ensures a == TruncDiv(a, b) * b + r && -b < r < b
    ensures a >= 0 ==> r == a % b
  {
    a - TruncDiv(a, b) * b
  }
}
