# Starfield: a Dafny model of the per-frame logic

This project models the core of a "3D starfield" demo that exists in two
rendering backends (SFML and raylib). Ten thousand stars approach the viewer.
Each frame:

- every star's depth `z` drops by `SPEED * DT`;
- a star that passes the near plane re-enters at the far plane, keeping its
  overshoot, and its slot becomes the new `first`;
- the stars are projected in rotated order, starting at slot `first`, into a
  preallocated vertex buffer. The projection uses a perspective scale `1/z`
  and a grey level that fades with depth.

At start-up the stars are placed by rejection sampling outside a star-free
rectangle, then sorted farthest first.

Floats (`f32`) are modelled as exact `real`s. The constants are those of
`sfml/src/conf.rs`.

Modules:

- `Conf` — the configuration constants.
- `Stars` — the value types: `Vec2`, `Size`, `byte`, `Color`, `Star`.
- `Travel` — the travel loop and the rotated index. Both backends have the
  same code here.
- `Shading` — the scale, the `as u8` conversion and the grey level. Both
  backends have the same code here.
- `Placement` — `create_stars` and the one-time sort by depth. Both backends
  have the same code here.
- `SfmlFrame` and `RaylibFrame` — each backend's `update_geometry`, its
  traversal, and one whole frame.

State the source changes in place is modelled in place. The star vector is an
`array<Star>`, and the travel step updates it slot by slot. The vertex buffers
are `array<Vertex>` and `array<StarVertex>`, and `update_geometry` writes only
its own slots. `first` is passed in and returned.

Two behaviours worth knowing:

- The grey level is truncated by `as u8`, not rounded: at mid-depth 127.5
  becomes 127.
- `create_stars` puts no condition on its `scale` argument. Over a finite
  stream of draws the model reports `DrawsExhausted` where the program would
  keep drawing.

## Model

| member | source | states |
|---|---|---|
| `Conf.ConfigurationIsSane` | sfml/src/conf.rs:2-10 | `0 < NEAR < FAR`, `DT = 1/MAX_FRAMERATE = 1/144`, `SPEED*DT <= FAR-NEAR` (the side condition for the depth invariant), `STAR_COUNT > 0` (the traversal's `%` has a non-zero divisor), `STAR_RADIUS > 0` |
| `Travel.Advance` | sfml/src/main.rs:84-86 | a star that does not recycle comes exactly `SPEED*DT` closer; a recycled star is exactly as far below `FAR` as the stepped depth fell below `NEAR` (strictly below `FAR`, not clamped); a depth in `[NEAR, FAR)` stays there; for in-range depths a star recycles exactly when its depth increases |
| `Travel.Advanced` | sfml/src/main.rs:83-91 | one frame changes only depths: same length, same positions, each depth advanced; the depth invariant of all stars is preserved |
| `Travel.FirstRecycled` | sfml/src/main.rs:83-89 | because the loop runs in reverse and the last assignment wins, `first` ends as the lowest recycled slot, or is unchanged when no star recycled |
| `Travel.Step` | sfml/src/main.rs:83-91 | the in-place travel loop leaves the array equal to `Advanced` of its old contents and returns `FirstRecycled` of them |
| `Travel.TravelKeepsInvariant` | raylib/src/main.rs:51-57 | when all depths are in `[NEAR, FAR)` and `first` is a valid slot, both stay so after one frame |
| `Travel.Simulate` | sfml/src/main.rs:77-91 | running the travel step any number of frames keeps the number of stars |
| `Travel.SimulateKeepsRange` | sfml/src/main.rs:77-91 | the depth invariant holds after any number of frames |
| `Travel.Rotate` | sfml/src/main.rs:97 | `idx = (i + first) % len` is always a valid star slot, and for `i, first < len` it is `i + first` wrapped once past the end of the array |
| `Travel.UnrotateRotate` | sfml/src/main.rs:95-98 | slot `i` reads star `(i + first) % len`, and that star index maps back to `i`: no two slots read the same star |
| `Travel.RotateUnrotate` | raylib/src/main.rs:61-64 | every star index `j` is read by slot `(j + len - first) % len` |
| `Travel.RotationIsBijection` | sfml/src/main.rs:95-101 | for `first < len`, `i -> (i + first) % len` maps `0..len` one-to-one onto `0..len`, so each star is projected exactly once |
| `Shading.Scale` | sfml/src/main.rs:116 | the perspective scale `s` satisfies `s * z == 1` |
| `Shading.AsU8` | sfml/src/main.rs:121 | `as u8` truncates a value in `[0, 256)` to the integer below it and saturates at 0 and 255 |
| `Shading.ColorRatio` | sfml/src/main.rs:119-120 | the brightness `1 - (z-NEAR)/(FAR-NEAR)` is 1 at `NEAR`, lies in `(0, 1]` on `[NEAR, FAR)`, and is proportional to the remaining distance `FAR - z` |
| `Shading.Grey` | sfml/src/main.rs:119-121 | the grey level is 255 at `NEAR`; for `z` in `[NEAR, FAR)` it is the truncation of `(1 - (z-NEAR)/(FAR-NEAR))*255`, so saturation never applies there |
| `Shading.GreyColor` | raylib/src/main.rs:97-98 | R, G and B equal the grey level and alpha is 255 |
| `Shading.AsU8Monotone` | raylib/src/main.rs:97 | `as u8` preserves order |
| `Shading.GreyMonotone` | raylib/src/main.rs:95-97 | the grey level is non-increasing in `z`: a nearer star is at least as bright |
| `Shading.NearerIsLarger` | raylib/src/main.rs:92 | a nearer star has a strictly larger scale |
| `Shading.GreyAtMidDepth` | sfml/src/main.rs:119-121 | halfway through the depth range the grey level is 127 |
| `Placement.Candidate` | sfml/src/main.rs:153-155 | a candidate built from draws in `[0, 1)` has `z` in `[NEAR, FAR)` |
| `Placement.CandidateWithinSpread` | raylib/src/main.rs:125-126 | a candidate's `x` and `y` lie within half the window extent times `scale` of the origin |
| `Placement.InStarFreeZone` | sfml/src/main.rs:148-157 | the star-free rectangle is the window scaled by `NEAR` centred at the origin, tested half-open (left and top edges inside, right and bottom edges outside); a point inside lies within half the scaled window of the origin, and the origin itself is inside |
| `Placement.StarFreeZoneIsHalfOpen` | raylib/src/main.rs:115-130 | for a non-empty window the top-left corner of the rectangle is inside it, while points on its right and bottom edges are outside |
| `Placement.Accepted` | sfml/src/main.rs:151-162 | the stars accepted from a stream of draws all lie outside the star-free rectangle; if the draws are in range, all depths are in `[NEAR, FAR)`; at most one star per draw |
| `Placement.AcceptedPrefix` | sfml/src/main.rs:152-160 | consuming more draws only appends accepted stars |
| `Placement.CreateStars` | sfml/src/main.rs:142-165 | the nested retry loop returns exactly `count` stars iff the draws contain `count` acceptable ones, and then they are the first `count` accepted stars in order: none inside the rectangle of size `window_size*NEAR` centred at the origin, depths in range |
| `Placement.SortByDepth` | sfml/src/main.rs:40 | the result is a permutation of the input ordered by descending `z` |
| `Placement.SortStars` | raylib/src/main.rs:37 | sorting in place leaves the array ordered by descending `z` and a permutation of its old contents |
| `Placement.SortKeepsRange` | sfml/src/main.rs:39-40 | sorting keeps every depth in `[NEAR, FAR)` |
| `Placement.PrepareStars` | raylib/src/main.rs:36-37 | start-up yields `STAR_COUNT` stars (when enough draws are accepted), sorted farthest first, a permutation of the first accepted stars, all depths in range |
| `SfmlFrame.Corners` | sfml/src/main.rs:125-133 | the four corners form an axis-aligned square, in the order top-left, top-right, bottom-right, bottom-left, with edge `2*STAR_RADIUS/z` centred on `position/z`; for `z > 0` the corners are distinct and ordered |
| `SfmlFrame.Shaded` | sfml/src/main.rs:130-138 | a written vertex becomes the given corner of the star's quad, keeps its texture coordinates and takes the star's grey colour |
| `SfmlFrame.UpdateGeometry` | sfml/src/main.rs:115-139 | writes the star's corners and one shared grey colour into `va[4*idx .. 4*idx+4]` and leaves every other vertex unchanged |
| `SfmlFrame.QuadSlot` | sfml/src/main.rs:128 | vertex `j` of quad `i` is corner `j - 4*i`, where `i = j / 4` |
| `SfmlFrame.Geometry` | sfml/src/main.rs:95-102 | after the traversal the buffer keeps its length and every vertex keeps its texture coordinates |
| `SfmlFrame.ProjectAll` | sfml/src/main.rs:95-102 | quad `i` of the buffer shows star `(i + first) % len`; vertices past the last quad are untouched |
| `SfmlFrame.EachStarOneQuad` | sfml/src/main.rs:95-101 | each star fills exactly one quad, and no other quad shows it |
| `SfmlFrame.Frame` | sfml/src/main.rs:77-102 | one frame: stars advanced, `first` the lowest recycled slot or unchanged, depth invariant and valid `first` preserved, buffer filled in rotated order from the new depths |
| `RaylibFrame.Projected` | raylib/src/main.rs:86-106 | the vertex has scale `1/z` and the grey colour with alpha 255; its top-left corner plus `RADIUS*scale` is the projected centre `position/z` |
| `RaylibFrame.TextureEdge` | raylib/src/main.rs:27 | the texture edge `STAR_RADIUS as i32 * 2` is positive and equals the full sprite diameter `2 * STAR_RADIUS`: the truncating cast loses nothing |
| `RaylibFrame.UpdateGeometry` | raylib/src/main.rs:86-106 | writes the projection into the given vertex and no other |
| `RaylibFrame.OnScreen` | raylib/src/main.rs:70 | the caller moves the vertex by half the window size and keeps its scale and colour |
| `RaylibFrame.ProjectAll` | raylib/src/main.rs:61-71 | vertex `i` is the on-screen projection of star `(i + first) % len`; each slot `0..len` is written; later slots are untouched |
| `RaylibFrame.EachStarOneSprite` | raylib/src/main.rs:61-68 | each star fills exactly one vertex, and no other vertex shows it |
| `RaylibFrame.Frame` | raylib/src/main.rs:50-71 | one frame: stars advanced, `first` as in SFML, depth invariant preserved, every vertex filled in rotated order |
| `RaylibFrame.SameSquareAsSfml` | raylib/src/main.rs:27-104 | for `z > 0` the raylib sprite covers the same square as the SFML quad: same top-left corner, and texture edge (`STAR_RADIUS as i32 * 2`) times scale equals the quad's edge |

## Left out

- Window creation, texture loading and mipmaps, `clear`, `draw_primitives`, `draw_texture_ex`, `display` and frame-rate limiting: these are foreign graphics calls.
- The texture-coordinate prefill and the SFML `RenderStates` translate: these are static set-up with no logic. The vertex's texture coordinates are a field that the frame is proved never to change. The SFML translate by half the window is not modelled. The raylib backend's explicit offset is modelled (`RaylibFrame.OnScreen`).
- Event polling (`sfml/src/events.rs`, the raylib Q key and close checks) and the unbounded `while` loop. One frame is modelled as `Frame`. Repeated frames appear only as `Travel.Simulate` over depths.
- The random generator: its draws are an input sequence of `Draw` triples, one per attempt. Termination of the rejection loop on an infinite stream is not modelled. The model's `DrawsExhausted` outcome exists only because the input is finite.
- IEEE-754 `f32` rounding, NaN and infinities. In `f32`, `FAR - tiny` can round to exactly `FAR`, so the strict bound `z < FAR` holds only over reals. Division by zero is excluded by `z != 0` preconditions.
- `Shading.AsU8`: NaN inputs (which Rust maps to 0) are not modelled, because reals have no NaN.
- The internals of `sort_unstable_by` and `total_cmp`. The in-place sort is specified only as sorted descending and a permutation. `SortByDepth` is an insertion sort that witnesses that specification.
- The star-free rectangle's containment test belongs to the graphics libraries. It is modelled as half-open: left and top edges inside, right and bottom edges outside. Window sizes are non-negative integers, so SFML's normalisation of negative widths never applies.
- Any claim that the rotated order stays sorted across frames. When several stars recycle in one frame, `first` is only best-effort; the model proves only which slot it names.
