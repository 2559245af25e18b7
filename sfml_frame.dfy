/** The SFML backend's frame: travel, then each star's quad written into a
    vertex array of four vertices per star, in rotated (farthest-first) order. */
module SfmlFrame {
  import opened Conf
  import opened Stars
  import opened Shading
  import opened Travel

  /** A vertex of the batched quad array. The texture coordinates are filled in
      once at start-up and never rewritten by the frame. */
  datatype Vertex = Vertex(position: Vec2, color: Color, texCoords: Vec2)

  /** The four corners of a star's sprite, in the order top-left, top-right,
      bottom-right, bottom-left: an axis-aligned square of edge
      `2 * STAR_RADIUS / z` centred on the projected position `position / z`. */
  function Corners(star: Star): (q: seq<Vec2>)
    requires star.z != 0.0
    ensures |q| == 4
    ensures q[0].y == q[1].y && q[1].x == q[2].x && q[2].y == q[3].y && q[3].x == q[0].x
    ensures q[1].x - q[0].x == q[2].y - q[1].y == 2.0 * STAR_RADIUS * Scale(star.z)
    ensures q[0].Add(q[2]).Mul(0.5) == star.position.Mul(Scale(star.z))
    ensures star.z > 0.0 ==> q[0].x < q[1].x && q[1].y < q[2].y
  {
    var s := Scale(star.z);
    var p := star.position.Mul(s);
    var r := STAR_RADIUS * s;
    [Vec2(p.x - r, p.y - r), Vec2(p.x + r, p.y - r), Vec2(p.x + r, p.y + r), Vec2(p.x - r, p.y + r)]
  }

  /** Vertex `v` after it became corner `corner` of `star`'s quad: new position
      and colour, texture coordinates kept. */
  function Shaded(v: Vertex, star: Star, corner: nat): (w: Vertex)
    requires star.z != 0.0 && corner < 4
    ensures w.position == Corners(star)[corner]
    ensures w.texCoords == v.texCoords
    ensures w.color == GreyColor(star.z)
  {
    v.(position := Corners(star)[corner], color := GreyColor(star.z))
  }

  /** Writes `star`'s quad into the four vertices `va[4*idx .. 4*idx+4]` and nothing else. */
  method UpdateGeometry(idx: nat, star: Star, va: array<Vertex>)
    requires star.z != 0.0
    requires 4 * idx + 4 <= va.Length
    modifies va
    ensures forall j :: 4 * idx <= j < 4 * idx + 4 ==> va[j] == Shaded(old(va[j]), star, j - 4 * idx)
    ensures forall j :: 0 <= j < va.Length && !(4 * idx <= j < 4 * idx + 4) ==> va[j] == old(va[j])
  {
    var scale := 1.0 / star.z;

    var depthRatio := (star.z - NEAR) / (FAR - NEAR);
    var colorRatio := 1.0 - depthRatio;
    var c := AsU8(colorRatio * 255.0);
    var color := Color(c, c, c, 255);

    var p := star.position.Mul(scale);
    var r := STAR_RADIUS * scale;

    var i := idx * 4;

    va[i + 0] := va[i + 0].(position := Vec2(p.x - r, p.y - r));
    va[i + 1] := va[i + 1].(position := Vec2(p.x + r, p.y - r));
    va[i + 2] := va[i + 2].(position := Vec2(p.x + r, p.y + r));
    va[i + 3] := va[i + 3].(position := Vec2(p.x - r, p.y + r));

    va[i + 0] := va[i + 0].(color := color);
    va[i + 1] := va[i + 1].(color := color);
    va[i + 2] := va[i + 2].(color := color);
    va[i + 3] := va[i + 3].(color := color);
  }

  /** No star has depth 0, so every star can be projected. */
  predicate Projectable(stars: seq<Star>)
  {
    forall k :: 0 <= k < |stars| ==> stars[k].z != 0.0
  }

  /** The vertex array after the traversal: quad `i` shows star
      `(i + first) % |stars|`; vertices past the last quad are untouched. */
  function Geometry(va: seq<Vertex>, stars: seq<Star>, first: nat): (r: seq<Vertex>)
    requires Projectable(stars) && 4 * |stars| <= |va|
    ensures |r| == |va|
    ensures forall j :: 0 <= j < |va| ==> r[j].texCoords == va[j].texCoords
  {
    seq(|va|, j requires 0 <= j < |va| =>
      if j < 4 * |stars| then Shaded(va[j], stars[Rotate(j / 4, first, |stars|)], j % 4) else va[j])
  }

  /** Vertex `j` of the array belongs to quad `i`, as its corner `j - 4*i`. */
  lemma QuadSlot(i: nat, j: nat)
    requires 4 * i <= j < 4 * i + 4
    ensures j / 4 == i && j % 4 == j - 4 * i
  {
  }

  /** The traversal: slot `i` of the vertex array is filled from star `(i + first) % len`. */
  method ProjectAll(stars: array<Star>, first: nat, va: array<Vertex>)
    requires Projectable(stars[..]) && 4 * stars.Length <= va.Length
    modifies va
    ensures va[..] == Geometry(old(va[..]), stars[..], first)
  {
    var n := stars.Length;
    for i := 0 to n
      invariant forall j :: 0 <= j < 4 * i ==> va[j] == Shaded(old(va[j]), stars[Rotate(j / 4, first, n)], j % 4)
      invariant forall j :: 4 * i <= j < va.Length ==> va[j] == old(va[j])
    {
      var idx := (i + first) % n;
      var star := stars[idx];
      UpdateGeometry(i, star, va);
      forall j | 4 * i <= j < 4 * i + 4
        ensures va[j] == Shaded(old(va[j]), stars[Rotate(j / 4, first, n)], j % 4)
      {
        QuadSlot(i, j);
      }
    }
    assert va[..] == Geometry(old(va[..]), stars[..], first);
  }

  /** Every star is drawn by exactly one quad: star `j` fills the four
      vertices of quad `Unrotate(j)`, and no other quad shows it. */
  lemma EachStarOneQuad(va: seq<Vertex>, stars: seq<Star>, first: nat, j: nat)
    requires Projectable(stars) && 4 * |stars| <= |va|
    requires first < |stars| && j < |stars|
    ensures var i := Unrotate(j, first, |stars|);
            i < |stars| &&
            forall v :: 4 * i <= v < 4 * i + 4 ==> Geometry(va, stars, first)[v] == Shaded(va[v], stars[j], v - 4 * i)
    ensures forall i :: 0 <= i < |stars| && Rotate(i, first, |stars|) == j ==> i == Unrotate(j, first, |stars|)
  {
    var n := |stars|;
    var i := Unrotate(j, first, n);
    RotateUnrotate(j, first, n);
    forall v | 4 * i <= v < 4 * i + 4
      ensures Geometry(va, stars, first)[v] == Shaded(va[v], stars[j], v - 4 * i)
    {
      QuadSlot(i, v);
    }
    RotationIsBijection(first, n);
  }

  /** One iteration of the frame loop: travel, then project every star in rotated order. */
  method Frame(stars: array<Star>, first: nat, va: array<Vertex>) returns (first': nat)
    requires AllInRange(stars[..]) && first < stars.Length
    requires va.Length == 4 * stars.Length
    modifies stars, va
    ensures stars[..] == Advanced(old(stars[..]))
    ensures first' == FirstRecycled(old(stars[..]), 0, first)
    ensures AllInRange(stars[..]) && first' < stars.Length
    ensures Projectable(stars[..])
    ensures va[..] == Geometry(old(va[..]), stars[..], first')
  {
    first' := Step(stars, first);
    TravelKeepsInvariant(old(stars[..]), first);
    ProjectAll(stars, first', va);
  }
}
