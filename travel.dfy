/** The per-frame "fake travel" step and the rotated traversal order, which
    are the same in both rendering backends. */
module Travel {
  import opened Conf
  import opened Stars

  /** The between-frames invariant on a depth: inside the half-open range [NEAR, FAR). */
  predicate InRange(z: real) { NEAR <= z < FAR }

  /** Every star of `s` has its depth in range. */
  predicate AllInRange(s: seq<Star>) { forall k :: 0 <= k < |s| ==> InRange(s[k].z) }

  /** A star at depth `z` passes the near plane during this frame. */
  predicate Recycles(z: real) { z - SPEED * DT < NEAR }

  /** The depth of a star one frame later: it comes closer by SPEED*DT and,
      when it passes the near plane, re-enters at the far plane carrying the
      overshoot with it. */
  function Advance(z: real): (r: real)
    ensures !Recycles(z) ==> r == z - SPEED * DT
    ensures Recycles(z) ==> r < FAR && FAR - r == NEAR - (z - SPEED * DT)
    ensures InRange(z) ==> InRange(r)
    ensures InRange(z) ==> (Recycles(z) <==> r > z)
  {
    var z' := z - SPEED * DT;
    if z' < NEAR then FAR - (NEAR - z') else z'
  }

  /** The stars one frame later: only the depths change. */
  function Advanced(s: seq<Star>): (r: seq<Star>)
    ensures |r| == |s|
    ensures forall k :: 0 <= k < |s| ==> r[k].position == s[k].position && r[k].z == Advance(s[k].z)
    ensures AllInRange(s) ==> AllInRange(r)
  {
    seq(|s|, k requires 0 <= k < |s| => s[k].(z := Advance(s[k].z)))
  }

  /** The index that `first` holds after the travel loop has visited the slots
      `from..|s|` in reverse: the lowest of them whose star recycles, or `dflt`
      when none does. */
  function FirstRecycled(s: seq<Star>, from: nat, dflt: nat): (r: nat)
    decreases |s| - from
    ensures if exists k :: from <= k < |s| && Recycles(s[k].z)
            then from <= r < |s| && Recycles(s[r].z) && forall k :: from <= k < r ==> !Recycles(s[k].z)
            else r == dflt
  {
    if from >= |s| then dflt
    else if Recycles(s[from].z) then from
    else FirstRecycled(s, from + 1, dflt)
  }

  /** One frame of travel, in place: the stars are visited from the last slot
      to the first; each comes closer by SPEED*DT, and one that passes the near
      plane re-enters at the far plane and becomes the new `first`. */
  method Step(stars: array<Star>, first: nat) returns (first': nat)
    modifies stars
    ensures stars[..] == Advanced(old(stars[..]))
    ensures first' == FirstRecycled(old(stars[..]), 0, first)
  {
    first' := first;
    var i := stars.Length;
    while i > 0
      invariant 0 <= i <= stars.Length
      invariant forall k :: 0 <= k < i ==> stars[k] == old(stars[k])
      invariant forall k :: i <= k < stars.Length ==> stars[k] == old(stars[k]).(z := Advance(old(stars[k]).z))
      invariant first' == FirstRecycled(old(stars[..]), i, first)
    {
      i := i - 1;
      var s := stars[i];
      s := s.(z := s.z - SPEED * DT);
      if s.z < NEAR {
        s := s.(z := FAR - (NEAR - s.z));
        first' := i;
      }
      stars[i] := s;
    }
    assert stars[..] == Advanced(old(stars[..]));
  }

  /** One frame keeps the between-frames invariant and keeps `first` a valid slot. */
  lemma TravelKeepsInvariant(s: seq<Star>, first: nat)
    requires AllInRange(s) && first < |s|
    ensures AllInRange(Advanced(s))
    ensures FirstRecycled(s, 0, first) < |s|
  {
  }

  /** `n` frames of travel. */
  function Simulate(s: seq<Star>, n: nat): (r: seq<Star>)
    ensures |r| == |s|
    decreases n
  {
    if n == 0 then s else Simulate(Advanced(s), n - 1)
  }

  /** The depth invariant holds across any number of frames. */
  lemma {:induction false} SimulateKeepsRange(s: seq<Star>, n: nat)
    requires AllInRange(s)
    ensures AllInRange(Simulate(s, n))
    decreases n
  {
    if n > 0 {
      SimulateKeepsRange(Advanced(s), n - 1);
    }
  }

  /** The star slot that fills slot `i` of the vertex buffer: the traversal
      starts at `first` and wraps around the end of the array. */
  function Rotate(i: nat, first: nat, n: nat): (r: nat)
    requires n > 0
    ensures r < n
    ensures i < n && first < n ==> r == if i + first < n then i + first else i + first - n
  {
    if i < n && first < n then
      ModOnce(i + first, n);
      (i + first) % n
    else
      (i + first) % n
  }

  /** The slot of the vertex buffer that star `j` fills. */
  function Unrotate(j: nat, first: nat, n: nat): nat
    requires first < n
  {
    (j + n - first) % n
  }

  /** For `0 <= x < 2n`, the remainder by `n` is a single conditional subtraction. */
  lemma ModOnce(x: nat, n: nat)
    requires 0 < n && x < 2 * n
    ensures x % n == if x < n then x else x - n
  {
  }

  /** `Unrotate` undoes `Rotate`: no two buffer slots read the same star. */
  lemma UnrotateRotate(i: nat, first: nat, n: nat)
    requires i < n && first < n
    ensures Rotate(i, first, n) < n
    ensures Unrotate(Rotate(i, first, n), first, n) == i
  {
    ModOnce(i + first, n);
    var j := Rotate(i, first, n);
    ModOnce(j + n - first, n);
  }

  /** `Rotate` undoes `Unrotate`: every star is read by some buffer slot. */
  lemma RotateUnrotate(j: nat, first: nat, n: nat)
    requires j < n && first < n
    ensures Unrotate(j, first, n) < n
    ensures Rotate(Unrotate(j, first, n), first, n) == j
  {
    ModOnce(j + n - first, n);
    var i := Unrotate(j, first, n);
    ModOnce(i + first, n);
  }

  /** The rotated traversal projects every star exactly once: on `0..n` the map
      `i -> (i + first) % n` is one-to-one and onto. */
  lemma RotationIsBijection(first: nat, n: nat)
    requires first < n
    ensures forall i :: 0 <= i < n ==> Rotate(i, first, n) < n
    ensures forall i, i' :: 0 <= i < n && 0 <= i' < n && Rotate(i, first, n) == Rotate(i', first, n) ==> i == i'
    ensures forall j :: 0 <= j < n ==> Rotate(Unrotate(j, first, n), first, n) == j
  {
    forall i | 0 <= i < n
      ensures Rotate(i, first, n) < n && Unrotate(Rotate(i, first, n), first, n) == i
    {
      UnrotateRotate(i, first, n);
    }
    forall j | 0 <= j < n
      ensures Rotate(Unrotate(j, first, n), first, n) == j
    {
      RotateUnrotate(j, first, n);
    }
  }
}
