/**
 * Two-dimensional positions over the reals, standing in for
 * System.Numerics.Vector2. Every operation works on the two axes
 * independently, as Vector2's operators do.
 */
module Vectors {

  datatype Vec2 = Vec2(x: real, y: real) {

    function Plus(o: Vec2): Vec2 {
      Vec2(x + o.x, y + o.y)
    }

    function Minus(o: Vec2): Vec2 {
      Vec2(x - o.x, y - o.y)
    }

    function Scale(k: real): Vec2 {
      Vec2(k * x, k * y)
    }

    function Div(k: real): Vec2
      requires k != 0.0
    {
      Vec2(x / k, y / k)
    }
  }
}
