/** Shared helpers of the evaluation package: merging bounding boxes, the
    combined bounds of a list of polygons, and rounding a parameter dictionary
    in place. Polygons enter only through their `bounds`. */
module Helpers {
  import opened Common

  // ---------------------------------------------------------------------------
  // get_max_bound and get_max_bounds_polys
  // ---------------------------------------------------------------------------

  /** A box whose minimum does not exceed its maximum on either axis. */
  predicate WellFormed(b: Bounds)
  {
    b.minx <= b.maxx && b.miny <= b.maxy
  }

  /** `outer` reaches at least as far as `inner` on every side. */
  predicate Covers(outer: Bounds, inner: Bounds)
  {
    outer.minx <= inner.minx && outer.miny <= inner.miny
    && outer.maxx >= inner.maxx && outer.maxy >= inner.maxy
  }

  /** `get_max_bound(bound1, bound2)`: the smallest box covering both: every
      side reaches as far as the farther of the two and is one of them. */
  function MaxBound(b1: Bounds, b2: Bounds): (r: Bounds)
    ensures Covers(r, b1) && Covers(r, b2)
    ensures r.minx == b1.minx || r.minx == b2.minx
    ensures r.miny == b1.miny || r.miny == b2.miny
    ensures r.maxx == b1.maxx || r.maxx == b2.maxx
    ensures r.maxy == b1.maxy || r.maxy == b2.maxy
  {
    Bounds(Min(b1.minx, b2.minx), Min(b1.miny, b2.miny), Max(b1.maxx, b2.maxx), Max(b1.maxy, b2.maxy))
  }

  lemma MaxBoundCommutative(b1: Bounds, b2: Bounds)
    ensures MaxBound(b1, b2) == MaxBound(b2, b1)
  {
  }

  lemma MaxBoundIdempotent(b: Bounds)
    ensures MaxBound(b, b) == b
  {
  }

  lemma MaxBoundAssociative(b1: Bounds, b2: Bounds, b3: Bounds)
    ensures MaxBound(MaxBound(b1, b2), b3) == MaxBound(b1, MaxBound(b2, b3))
  {
  }

  /** For well-formed boxes the merged box is well formed and contains both. */
  lemma MaxBoundContains(b1: Bounds, b2: Bounds)
    requires WellFormed(b1) && WellFormed(b2)
    ensures WellFormed(MaxBound(b1, b2))
    ensures Covers(MaxBound(b1, b2), b1) && Covers(MaxBound(b1, b2), b2)
  {
  }

  /** The fold `for poly in polygons: max_bounds = get_max_bound(max_bounds, poly.bounds)`. */
  function FoldBounds(seed: Bounds, boxes: seq<Bounds>): Bounds
  {
    if boxes == [] then seed
    else MaxBound(FoldBounds(seed, boxes[..|boxes| - 1]), boxes[|boxes| - 1])
  }

  /** Seeding the fold with the first box and then folding that box in again
      gives the same result as folding it in once. */
  lemma {:induction false} FoldBoundsSeedTwice(first: Bounds, rest: seq<Bounds>)
    ensures FoldBounds(first, [first] + rest) == FoldBounds(first, rest)
  {
    if rest == [] {
      assert ([first] + rest)[..0] == [];
      MaxBoundIdempotent(first);
    } else {
      var rest' := rest[..|rest| - 1];
      assert ([first] + rest)[..|[first] + rest| - 1] == [first] + rest';
      FoldBoundsSeedTwice(first, rest');
    }
  }

  /** `get_max_bounds_polys(polygons)`, on the polygons' bounds: the box
      covering every input box, each of its sides being that side of some
      input. An empty list raises IndexError at `polygons[0]`. */
  method MaxBoundsPolys(boxes: seq<Bounds>) returns (r: Result<Bounds>)
    ensures r.Err? <==> boxes == []
    ensures r.Err? ==> r.error == IndexError
    ensures r.Ok? ==> r.value == FoldBounds(boxes[0], boxes)
    ensures r.Ok? ==> forall i :: 0 <= i < |boxes| ==> Covers(r.value, boxes[i])
    ensures r.Ok? ==> exists i :: 0 <= i < |boxes| && r.value.minx == boxes[i].minx
    ensures r.Ok? ==> exists i :: 0 <= i < |boxes| && r.value.miny == boxes[i].miny
    ensures r.Ok? ==> exists i :: 0 <= i < |boxes| && r.value.maxx == boxes[i].maxx
    ensures r.Ok? ==> exists i :: 0 <= i < |boxes| && r.value.maxy == boxes[i].maxy
  {
    if boxes == [] {
      return Err(IndexError);
    }
    var maxBounds := boxes[0];
    ghost var a, b, c, d := 0, 0, 0, 0;
    var i := 0;
    while i < |boxes|
      invariant 0 <= i <= |boxes|
      invariant maxBounds == FoldBounds(boxes[0], boxes[..i])
      invariant forall j :: 0 <= j < i ==> Covers(maxBounds, boxes[j])
      invariant Covers(maxBounds, boxes[0])
      invariant 0 <= a < |boxes| && maxBounds.minx == boxes[a].minx
      invariant 0 <= b < |boxes| && maxBounds.miny == boxes[b].miny
      invariant 0 <= c < |boxes| && maxBounds.maxx == boxes[c].maxx
      invariant 0 <= d < |boxes| && maxBounds.maxy == boxes[d].maxy
    {
      assert boxes[..i + 1][..i] == boxes[..i];
      var next := MaxBound(maxBounds, boxes[i]);
      if next.minx != maxBounds.minx { a := i; }
      if next.miny != maxBounds.miny { b := i; }
      if next.maxx != maxBounds.maxx { c := i; }
      if next.maxy != maxBounds.maxy { d := i; }
      maxBounds := next;
      i := i + 1;
    }
    assert boxes[..i] == boxes;
    r := Ok(maxBounds);
  }

  // ---------------------------------------------------------------------------
  // round_dict
  // ---------------------------------------------------------------------------

  /** The integer nearest to `x`, ties going to the even neighbour (Python's
      `round`). */
  function RoundHalfEven(x: real): (n: int)
    ensures -0.5 <= x - n as real <= 0.5
    ensures x - n as real == 0.5 || x - n as real == -0.5 ==> n % 2 == 0
  {
    var f := x.Floor;
    var d := x - f as real;
    if d < 0.5 then f
    else if d > 0.5 then f + 1
    else if f % 2 == 0 then f
    else f + 1
  }

  /** `round(v, 2)`: the nearest multiple of 1/100, ties to even hundredths. */
  function Round2(v: real): real
  {
    RoundHalfEven(v * 100.0) as real / 100.0
  }

  /** Rounding to two decimals moves a value by at most half a hundredth, lands
      on a whole number of hundredths, and rounding again changes nothing. */
  lemma Round2Properties(v: real)
    ensures -0.005 <= Round2(v) - v <= 0.005
    ensures (Round2(v) * 100.0).Floor as real == Round2(v) * 100.0
    ensures Round2(Round2(v)) == Round2(v)
  {
    var n := RoundHalfEven(v * 100.0);
    assert Round2(v) * 100.0 == n as real;
    assert RoundHalfEven(n as real) == n;
  }

  /** A dictionary of numeric parameters (Python dict), updated in place. */
  class ParamDict {
    var entries: map<string, real>

    constructor (m: map<string, real>)
      ensures entries == m
    {
      entries := m;
    }

    /** `round_dict(dict_value)`: overwrites every value with its two-decimal
        rounding, keeps the key set, and returns the same dictionary object. */
    method RoundDict() returns (same: ParamDict)
      modifies this
      ensures same == this
      ensures entries.Keys == old(entries).Keys
      ensures forall k :: k in entries ==> entries[k] == Round2(old(entries)[k])
    {
      var done: set<string> := {};
      while done != entries.Keys
        invariant done <= entries.Keys
        invariant entries.Keys == old(entries).Keys
        invariant forall k :: k in done ==> entries[k] == Round2(old(entries)[k])
        invariant forall k :: k in entries && k !in done ==> entries[k] == old(entries)[k]
        decreases |entries.Keys - done|
      {
        var k :| k in entries.Keys - done;
        entries := entries[k := Round2(entries[k])];
        done := done + {k};
      }
      same := this;
    }
  }
}
