/** The profiling script: one square unit grid sized for `n` points is
    triangulated once. Only the grid it builds is modelled; the timings
    polylidar reports are printed and not kept. */
module ProfilePolylidar {
  import opened Common
  import opened Grid

  /** The points `main(n)` hands to polylidar: the square unit grid of side
      `int(sqrt(n))`, or ValueError from `math.sqrt` for a negative `n`. */
  function ProfilePoints(n: int): (r: Result<seq<GridPoint>>)
    ensures r.Err? <==> n < 0
    ensures r.Err? ==> r.error == ValueError
    ensures r.Ok? ==> |r.value| == ISqrt(n) * ISqrt(n) <= n
  {
    if n < 0 then Err(ValueError)
    else
      UnitGridRows(ISqrt(n));
      Ok(GenPoints(0, ISqrt(n), 1, 0, ISqrt(n), 1))
  }

  /** For `n >= 0` the grid is exactly the integer points of `[0, v)²` for the
      largest `v` with `v² <= n`, so it holds at most `n` points and fewer
      than `(v + 1)²`. */
  lemma ProfilePointsGrid(n: int)
    ensures ProfilePoints(n).Err? <==> n < 0
    ensures n >= 0 ==>
      var v := ISqrt(n);
      && v * v <= n < (v + 1) * (v + 1)
      && |ProfilePoints(n).value| == v * v
      && forall p: GridPoint :: p in ProfilePoints(n).value <==> 0 <= p.x < v && 0 <= p.y < v
  {
    if n >= 0 {
      UnitGridRows(ISqrt(n));
      UnitGrid(ISqrt(n));
    }
  }

  /** With the default `n = 10_000_000` the grid has side 3162 and holds
      9_998_244 points. */
  lemma ProfileDefault()
    ensures ISqrt(10_000_000) == 3162
    ensures ProfilePoints(10_000_000).Ok?
    ensures |ProfilePoints(10_000_000).value| == 9_998_244
  {
    assert 3162 * 3162 == 9_998_244 && 3163 * 3163 == 10_004_569;
    ISqrtUnique(10_000_000, 3162);
    UnitGridRows(3162);
  }
}
