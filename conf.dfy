/** Compile-time configuration shared by both rendering backends.
    Floating-point constants are modelled as exact reals. */
module Conf {

  /** Target frame rate (frames per second). */
  const MAX_FRAMERATE: nat := 144

  /** Length of one frame in seconds. */
  const DT: real := 1.0 / MAX_FRAMERATE as real

  /** Number of stars in the field. */
  const STAR_COUNT: nat := 10000

  /** Radius of a star sprite in world units at depth 1. */
  const STAR_RADIUS: real := 40.0

  /** Near plane: stars closer than this are recycled. */
  const NEAR: real := 0.1

  /** Far plane: recycled stars re-enter here. */
  const FAR: real := 10.0

  /** Depth travelled per second. */
  const SPEED: real := 1.0

  /** The facts about the configuration that the rest of the model relies on:
      the perspective divide is defined on every in-range depth, the depth range
      is non-empty, one frame's travel fits in the depth range, the rotated
      traversal never takes a remainder by zero, and sprites have a positive size. */
  lemma ConfigurationIsSane()
    ensures 0.0 < NEAR < FAR
    ensures FAR - NEAR > 0.0
    ensures DT * MAX_FRAMERATE as real == 1.0
    ensures DT == 1.0 / 144.0
    ensures SPEED * DT == 1.0 / 144.0
    ensures SPEED * DT <= FAR - NEAR
    ensures STAR_COUNT > 0
    ensures STAR_RADIUS > 0.0
  {
  }
}
