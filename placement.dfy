/** Initial placement of the stars (`create_stars`) and the one-time sort by
    depth that precedes the frame loop; both are the same in the two backends. */
module Placement {
  import opened Conf
  import opened Stars
  import opened Travel

  /** The three random numbers one placement attempt draws, in order, for x, y and z. */
  datatype Draw = Draw(rx: real, ry: real, rz: real)

  /** The random generator yields floats in [0, 1). */
  predicate DrawInRange(d: Draw)
  {
    0.0 <= d.rx < 1.0 && 0.0 <= d.ry < 1.0 && 0.0 <= d.rz < 1.0
  }

  /** The outcome of placement over a finite stream of draws: the stars, or
      the stream ran out before enough of them were accepted. */
  datatype PlacementResult = Placed(stars: seq<Star>) | DrawsExhausted

  /** The star an attempt proposes: x and y spread over the window scaled by
      `scale` around the origin, z uniform over the depth range. */
  function Candidate(ws: Size, scale: real, d: Draw): (s: Star)
    ensures DrawInRange(d) ==> InRange(s.z)
  {
    Star(Vec2((d.rx - 0.5) * ws.width as real * scale,
              (d.ry - 0.5) * ws.height as real * scale),
         d.rz * (FAR - NEAR) + NEAR)
  }

  /** `v` lies within half the extent `a` of the origin. */
  predicate WithinHalf(v: real, a: real) { -0.5 * a <= v <= 0.5 * a }

  /** A draw in [0, 1), centred and stretched over the extent `w * scale`,
      stays within half that extent of the origin. */
  lemma Spread(r: real, w: nat, scale: real)
    requires 0.0 <= r < 1.0 && scale >= 0.0
    ensures WithinHalf((r - 0.5) * w as real * scale, w as real * scale)
  {
  }

  /** A candidate lies in the window scaled by `scale` and centred at the origin. */
  lemma CandidateWithinSpread(ws: Size, scale: real, d: Draw)
    requires DrawInRange(d) && scale >= 0.0
    ensures WithinHalf(Candidate(ws, scale, d).position.x, ws.width as real * scale)
    ensures WithinHalf(Candidate(ws, scale, d).position.y, ws.height as real * scale)
  {
    var p := Candidate(ws, scale, d).position;
    assert p.x == (d.rx - 0.5) * ws.width as real * scale;
    assert p.y == (d.ry - 0.5) * ws.height as real * scale;
    Spread(d.rx, ws.width, scale);
    Spread(d.ry, ws.height, scale);
  }

  /** The star-free zone: the window shrunk to the near plane, centred at the
      origin, as a half-open rectangle (left and top edges inside, right and
      bottom edges outside). A star placed here would pop into view. */
  predicate InStarFreeZone(ws: Size, p: Vec2): (b: bool)
    ensures b ==> WithinHalf(p.x, ws.width as real * NEAR) && WithinHalf(p.y, ws.height as real * NEAR)
    ensures ws.width > 0 && ws.height > 0 && p == Vec2(0.0, 0.0) ==> b
  {
    var w := ws.width as real * NEAR;
    var h := ws.height as real * NEAR;
    w * -0.5 <= p.x < w * -0.5 + w && h * -0.5 <= p.y < h * -0.5 + h
  }

  /** The zone is half-open: a point on its left or top edge is inside it, a
      point on its right or bottom edge is outside it. */
  lemma StarFreeZoneIsHalfOpen(ws: Size)
    requires ws.width > 0 && ws.height > 0
    ensures var w, h := ws.width as real * NEAR, ws.height as real * NEAR;
            InStarFreeZone(ws, Vec2(w * -0.5, h * -0.5)) &&
            !InStarFreeZone(ws, Vec2(w * 0.5, 0.0)) &&
            !InStarFreeZone(ws, Vec2(0.0, h * 0.5))
  {
  }

  /** The stars that rejection sampling accepts from the draws `ds`, in order. */
  function Accepted(ws: Size, scale: real, ds: seq<Draw>): (r: seq<Star>)
    decreases |ds|
    ensures |r| <= |ds|
    ensures forall k :: 0 <= k < |r| ==> !InStarFreeZone(ws, r[k].position)
    ensures (forall k :: 0 <= k < |ds| ==> DrawInRange(ds[k])) ==> AllInRange(r)
  {
    if ds == [] then []
    else
      var c := Candidate(ws, scale, ds[|ds| - 1]);
      Accepted(ws, scale, ds[..|ds| - 1]) + (if InStarFreeZone(ws, c.position) then [] else [c])
  }

  /** More draws only ever add accepted stars at the end. */
  lemma {:induction false} AcceptedPrefix(ws: Size, scale: real, ds: seq<Draw>, k: nat)
    requires k <= |ds|
    ensures Accepted(ws, scale, ds[..k]) <= Accepted(ws, scale, ds)
    decreases |ds|
  {
    if k < |ds| {
      var ds' := ds[..|ds| - 1];
      assert ds[..k] == ds'[..k];
      AcceptedPrefix(ws, scale, ds', k);
    } else {
      assert ds[..k] == ds;
    }
  }

  /** Rejection sampling of `count` stars from the draws `ds`: each attempt
      builds a candidate and keeps it unless it lies in the star-free zone. */
  method CreateStars(ws: Size, count: nat, scale: real, ds: seq<Draw>) returns (r: PlacementResult)
    ensures r.Placed? <==> count <= |Accepted(ws, scale, ds)|
    ensures r.Placed? ==> r.stars == Accepted(ws, scale, ds)[..count]
    ensures r.Placed? ==> |r.stars| == count
    ensures r.Placed? ==> forall k :: 0 <= k < count ==> !InStarFreeZone(ws, r.stars[k].position)
    ensures r.Placed? && (forall k :: 0 <= k < |ds| ==> DrawInRange(ds[k])) ==> AllInRange(r.stars)
  {
    var stars: seq<Star> := [];
    var used := 0;
    for n := 0 to count
      invariant used <= |ds|
      invariant |stars| == n
      invariant stars == Accepted(ws, scale, ds[..used])
    {
      while true
        invariant used <= |ds|
        invariant |stars| == n
        invariant stars == Accepted(ws, scale, ds[..used])
        decreases |ds| - used
      {
        if used == |ds| {
          assert ds[..used] == ds;
          return DrawsExhausted;
        }
        var c := Candidate(ws, scale, ds[used]);
        assert ds[..used + 1][..used] == ds[..used];
        used := used + 1;
        if !InStarFreeZone(ws, c.position) {
          stars := stars + [c];
          break;
        }
      }
    }
    AcceptedPrefix(ws, scale, ds, used);
    r := Placed(stars);
  }

  /** Ordered farthest first: depths never increase along the sequence. */
  predicate DescendingByDepth(s: seq<Star>)
  {
    forall i, j :: 0 <= i < j < |s| ==> s[i].z >= s[j].z
  }

  /** Inserts `x` into a sequence ordered farthest first. */
  function Insert(x: Star, s: seq<Star>): (r: seq<Star>)
    requires DescendingByDepth(s)
    ensures multiset(r) == multiset(s) + multiset{x}
    ensures DescendingByDepth(r)
    ensures |r| == |s| + 1 && (r[0] == x || (s != [] && r[0] == s[0]))
    decreases |s|
  {
    if s == [] || x.z >= s[0].z then [x] + s
    else
      var t := Insert(x, s[1..]);
      assert s == [s[0]] + s[1..];
      PrependKeepsDescending(s[0], t);
      [s[0]] + t
  }

  /** A star at least as far as the head of an ordered sequence may go in front of it. */
  lemma PrependKeepsDescending(a: Star, t: seq<Star>)
    requires DescendingByDepth(t)
    requires t == [] || t[0].z <= a.z
    ensures DescendingByDepth([a] + t)
  {
    assert forall j :: 0 <= j < |t| ==> t[j].z <= a.z by {
      forall j | 0 <= j < |t| ensures t[j].z <= a.z {
        assert t[j].z <= t[0].z;
      }
    }
  }

  /** The stars ordered farthest first (an insertion sort; the source's
      unstable sort is specified by the same two properties). */
  function SortByDepth(s: seq<Star>): (r: seq<Star>)
    ensures multiset(r) == multiset(s)
    ensures DescendingByDepth(r)
    decreases |s|
  {
    if s == [] then []
    else
      assert s == [s[0]] + s[1..];
      Insert(s[0], SortByDepth(s[1..]))
  }

  /** Sorts the stars in place, farthest first. */
  method SortStars(a: array<Star>)
    modifies a
    ensures DescendingByDepth(a[..])
    ensures multiset(a[..]) == multiset(old(a[..]))
  {
    var sorted := SortByDepth(a[..]);
    assert |sorted| == a.Length by {
      assert |multiset(sorted)| == |multiset(a[..])|;
    }
    forall i | 0 <= i < a.Length {
      a[i] := sorted[i];
    }
    assert a[..] == sorted;
  }

  /** Sorting keeps the depth invariant: the star field is ready for its first frame. */
  lemma SortKeepsRange(s: seq<Star>)
    requires AllInRange(s)
    ensures AllInRange(SortByDepth(s))
  {
    var r := SortByDepth(s);
    forall k | 0 <= k < |r| ensures InRange(r[k].z) {
      assert r[k] in multiset(s);
    }
  }

  /** Start-up: place `STAR_COUNT` stars spread over the window scaled by
      `FAR`, then sort them farthest first. `placed` is false only when the
      finite stream of draws runs out first. */
  method PrepareStars(ws: Size, ds: seq<Draw>) returns (stars: array<Star>, placed: bool)
    ensures fresh(stars)
    ensures placed <==> STAR_COUNT <= |Accepted(ws, FAR, ds)|
    ensures placed ==> stars.Length == STAR_COUNT
    ensures placed ==> multiset(stars[..]) == multiset(Accepted(ws, FAR, ds)[..STAR_COUNT])
    ensures placed ==> DescendingByDepth(stars[..])
    ensures placed && (forall k :: 0 <= k < |ds| ==> DrawInRange(ds[k])) ==> AllInRange(stars[..])
  {
    var r := CreateStars(ws, STAR_COUNT, FAR, ds);
    match r {
      case DrawsExhausted =>
        stars := new Star[0];
        placed := false;
      case Placed(s) =>
        stars := new Star[|s|](k requires 0 <= k < |s| => s[k]);
        assert stars[..] == s;
        SortStars(stars);
        placed := true;
        if forall k :: 0 <= k < |ds| ==> DrawInRange(ds[k]) {
          forall k | 0 <= k < stars.Length ensures InRange(stars[k].z) {
            assert stars[k] in multiset(s);
          }
        }
    }
  }
}
