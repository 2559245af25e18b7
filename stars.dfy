/** The value types shared by both backends: 2-D vectors, window sizes,
    8-bit colours and the star itself. */
module Stars {

  /** A 2-D vector of (real-valued) floats. */
  datatype Vec2 = Vec2(x: real, y: real)
  {
    function Add(o: Vec2): Vec2 { Vec2(x + o.x, y + o.y) }
    function Sub(o: Vec2): Vec2 { Vec2(x - o.x, y - o.y) }
    function Mul(k: real): Vec2 { Vec2(x * k, y * k) }
  }

  /** The size of the window in pixels. Both backends obtain it from the
      display as non-negative integers and convert it to floats. */
  datatype Size = Size(width: nat, height: nat)
  {
    function AsVec2(): Vec2 { Vec2(width as real, height as real) }
  }

  /** An unsigned 8-bit integer. */
  newtype byte = x: int | 0 <= x < 256

  /** An RGBA colour with 8-bit channels. */
  datatype Color = Color(r: byte, g: byte, b: byte, a: byte)

  /** A star: its position at the reference depth 1 and its depth `z`. */
  datatype Star = Star(position: Vec2, z: real)
}
