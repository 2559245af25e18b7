/** The per-star expressions both backends use in `update_geometry`: the
    perspective scale and the depth-based grey level. */
module Shading {
  import opened Conf
  import opened Stars

  /** The perspective divide: a star at depth `z` is drawn `1/z` times its size at depth 1. */
  function Scale(z: real): (s: real)
    requires z != 0.0
    ensures s * z == 1.0
  {
    1.0 / z
  }

  /** Rust's `x as u8` on a float: truncation toward zero, saturating at 0 and 255. */
  function AsU8(x: real): (b: byte)
    ensures 0.0 <= x < 256.0 ==> b as real <= x < b as real + 1.0
    ensures x < 0.0 ==> b == 0
    ensures x >= 256.0 ==> b == 255
  {
    if x <= 0.0 then 0 else if x >= 255.0 then 255 else x.Floor as byte
  }

  /** Brightness before quantisation: 1 at the near plane, falling linearly to 0 at the far plane. */
  function ColorRatio(z: real): (r: real)
    ensures z == NEAR ==> r == 1.0
    ensures NEAR <= z < FAR ==> 0.0 < r <= 1.0
    ensures r * (FAR - NEAR) == FAR - z
  {
    1.0 - (z - NEAR) / (FAR - NEAR)
  }

  /** The grey level of a star at depth `z`. */
  function Grey(z: real): (c: byte)
    ensures z == NEAR ==> c == 255
    ensures NEAR <= z < FAR ==> c as real <= ColorRatio(z) * 255.0 < c as real + 1.0
  {
    AsU8(ColorRatio(z) * 255.0)
  }

  /** The colour of a star at depth `z`: grey, fully opaque. */
  function GreyColor(z: real): (c: Color)
    ensures c.r == c.g == c.b == Grey(z) && c.a == 255
  {
    var c := Grey(z);
    Color(c, c, c, 255)
  }

  /** `as u8` never reverses the order of its arguments. */
  lemma AsU8Monotone(x: real, y: real)
    requires x <= y
    ensures AsU8(x) <= AsU8(y)
  {
  }

  /** A nearer star is at least as bright: the grey level never increases with depth. */
  lemma GreyMonotone(z1: real, z2: real)
    requires z1 <= z2
    ensures Grey(z1) >= Grey(z2)
  {
  }

  /** A nearer star is drawn strictly larger. */
  lemma NearerIsLarger(z1: real, z2: real)
    requires 0.0 < z1 < z2
    ensures Scale(z1) > Scale(z2)
  {
  }

  /** Halfway through the depth range the grey level is 127: the unquantised value is 127.5, truncated. */
  lemma GreyAtMidDepth()
    ensures Grey(NEAR + 0.5 * (FAR - NEAR)) == 127
  {
  }
}
