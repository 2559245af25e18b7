/** The raylib backend's frame: travel, then one sprite vertex per star
    (top-left corner, scale, colour), in rotated (farthest-first) order and
    shifted to the centre of the window. */
module RaylibFrame {
  import opened Conf
  import opened Stars
  import opened Shading
  import opened Travel
  import SfmlFrame

  /** Where, how large and in which colour one star's sprite is drawn. */
  datatype StarVertex = StarVertex(position: Vec2, scale: real, color: Color)

  /** Half the sprite's edge, in both axes. */
  const RADIUS: Vec2 := Vec2(STAR_RADIUS, STAR_RADIUS)

  /** The edge of the sprite texture at scale 1, in pixels (`STAR_RADIUS as i32 * 2`):
      the truncating cast loses nothing, so the texture spans the full diameter. */
  function TextureEdge(): (e: int)
    ensures e > 0 && e as real == 2.0 * STAR_RADIUS
  {
    STAR_RADIUS.Floor * 2
  }

  /** The sprite vertex of `star` relative to the window centre: drawn at
      scale `1/z`, with its top-left corner placed so that the sprite is
      centred on the projected position `position / z`. */
  function Projected(star: Star): (v: StarVertex)
    requires star.z != 0.0
    ensures v.scale * star.z == 1.0
    ensures v.position.Add(RADIUS.Mul(v.scale)) == star.position.Mul(v.scale)
    ensures v.color == GreyColor(star.z) && v.color.a == 255
  {
    var scale := Scale(star.z);
    StarVertex(star.position.Sub(RADIUS).Mul(scale), scale, GreyColor(star.z))
  }

  /** Overwrites the vertex `va[i]` (the source's `&mut StarVertex`) with the
      projection of `star`; no other vertex changes. */
  method UpdateGeometry(star: Star, va: array<StarVertex>, i: nat)
    requires star.z != 0.0 && i < va.Length
    modifies va
    ensures va[i] == Projected(star)
    ensures forall j :: 0 <= j < va.Length && j != i ==> va[j] == old(va[j])
  {
    var scale := 1.0 / star.z;

    var depthRatio := (star.z - NEAR) / (FAR - NEAR);
    var colorRatio := 1.0 - depthRatio;
    var c := AsU8(colorRatio * 255.0);
    var color := Color(c, c, c, 255);

    var p := star.position.Sub(RADIUS).Mul(scale);

    va[i] := va[i].(position := p);
    va[i] := va[i].(scale := scale);
    va[i] := va[i].(color := color);
  }

  /** A vertex moved from window-centred to screen coordinates. */
  function OnScreen(v: StarVertex, ws: Size): (w: StarVertex)
    ensures w.scale == v.scale && w.color == v.color
    ensures w.position.Sub(v.position) == ws.AsVec2().Mul(0.5)
  {
    v.(position := v.position.Add(ws.AsVec2().Mul(0.5)))
  }

  /** The traversal: vertex `i` is the on-screen projection of star
      `(i + first) % len`; vertices past `len` are untouched. */
  method ProjectAll(stars: array<Star>, first: nat, va: array<StarVertex>, ws: Size)
    requires forall k :: 0 <= k < stars.Length ==> stars[k].z != 0.0
    requires stars.Length <= va.Length
    modifies va
    ensures forall i :: 0 <= i < stars.Length ==> va[i] == OnScreen(Projected(stars[Rotate(i, first, stars.Length)]), ws)
    ensures forall j :: stars.Length <= j < va.Length ==> va[j] == old(va[j])
  {
    var n := stars.Length;
    for i := 0 to n
      invariant forall k :: 0 <= k < i ==> va[k] == OnScreen(Projected(stars[Rotate(k, first, n)]), ws)
      invariant forall j :: i <= j < va.Length ==> va[j] == old(va[j])
    {
      var idx := (i + first) % n;
      var star := stars[idx];
      UpdateGeometry(star, va, i);
      va[i] := va[i].(position := va[i].position.Add(ws.AsVec2().Mul(0.5)));
    }
  }

  /** Every star is drawn by exactly one sprite vertex: star `j` fills
      vertex `Unrotate(j)` and no other. */
  lemma EachStarOneSprite(va: seq<StarVertex>, stars: seq<Star>, first: nat, ws: Size, j: nat)
    requires forall k :: 0 <= k < |stars| ==> stars[k].z != 0.0
    requires |stars| <= |va| && first < |stars| && j < |stars|
    requires forall i :: 0 <= i < |stars| ==> va[i] == OnScreen(Projected(stars[Rotate(i, first, |stars|)]), ws)
    ensures Unrotate(j, first, |stars|) < |stars|
    ensures va[Unrotate(j, first, |stars|)] == OnScreen(Projected(stars[j]), ws)
    ensures forall i :: 0 <= i < |stars| && Rotate(i, first, |stars|) == j ==> i == Unrotate(j, first, |stars|)
  {
    RotateUnrotate(j, first, |stars|);
    RotationIsBijection(first, |stars|);
  }

  /** One iteration of the frame loop: travel, then place every star's sprite in rotated order. */
  method Frame(stars: array<Star>, first: nat, va: array<StarVertex>, ws: Size) returns (first': nat)
    requires AllInRange(stars[..]) && first < stars.Length
    requires va.Length == stars.Length
    modifies stars, va
    ensures stars[..] == Advanced(old(stars[..]))
    ensures first' == FirstRecycled(old(stars[..]), 0, first)
    ensures AllInRange(stars[..]) && first' < stars.Length
    ensures forall i :: 0 <= i < stars.Length ==> va[i] == OnScreen(Projected(stars[Rotate(i, first', stars.Length)]), ws)
  {
    first' := Step(stars, first);
    TravelKeepsInvariant(old(stars[..]), first);
    assert forall k :: 0 <= k < stars.Length ==> stars[k].z != 0.0 by {
      assert AllInRange(stars[..]);
    }
    ProjectAll(stars, first', va, ws);
  }

  /** Both backends draw the same square for a star in front of the viewer:
      the raylib sprite's top-left corner is the SFML quad's top-left corner,
      and its drawn edge (texture edge times scale) is the quad's edge. Both
      colour their star with `GreyColor(z)`. */
  lemma SameSquareAsSfml(star: Star)
    requires star.z > 0.0
    ensures Projected(star).position == SfmlFrame.Corners(star)[0]
    ensures TextureEdge() as real * Projected(star).scale
              == SfmlFrame.Corners(star)[1].x - SfmlFrame.Corners(star)[0].x
  {
    var sc, p := Scale(star.z), star.position;
    var v, q := Projected(star), SfmlFrame.Corners(star);
    assert v.position == Vec2((p.x - STAR_RADIUS) * sc, (p.y - STAR_RADIUS) * sc);
    assert q[0] == Vec2(p.x * sc - STAR_RADIUS * sc, p.y * sc - STAR_RADIUS * sc);
    assert (p.x - STAR_RADIUS) * sc == p.x * sc - STAR_RADIUS * sc;
    assert (p.y - STAR_RADIUS) * sc == p.y * sc - STAR_RADIUS * sc;
    assert TextureEdge() == 80;
  }
}
