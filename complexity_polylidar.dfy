/** The polylidar complexity benchmark: for each requested size `n`, a square
    unit grid of side `int(sqrt(n))` is triangulated `reps` times and one
    timing record is kept per run. The timings polylidar reports are a
    parameter: `times(a, j)` is what the `j`-th run on the `a`-th size reports. */
module ComplexityPolylidar {
  import opened Common
  import opened Grid

  /** The three timings `extractPolygonsAndTimings` reports. */
  datatype Timings = Timings(delaunay: real, region: real, polygon: real)

  /** `dict(n=true_n, delaunay=..., region=..., polygon=...)`. */
  datatype TimingRecord = TimingRecord(n: int, delaunay: real, region: real, polygon: real)

  /** `range(reps)` has this many values. */
  function Reps(reps: int): nat
  {
    if reps > 0 then reps else 0
  }

  /** The records of the `a`-th size: one per run, all with the grid's size. */
  function SizeRecords(a: nat, n: nat, reps: int, times: (nat, nat) -> Timings): (rs: seq<TimingRecord>)
    ensures |rs| == Reps(reps)
  {
    var trueN := ISqrt(n) * ISqrt(n);
    seq(Reps(reps), j requires 0 <= j < Reps(reps) =>
      TimingRecord(trueN, times(a, j).delaunay, times(a, j).region, times(a, j).polygon))
  }

  /** All sizes are valid arguments of `math.sqrt`. */
  predicate AllNonNegative(nVal: seq<int>)
  {
    forall a :: 0 <= a < |nVal| ==> nVal[a] >= 0
  }

  /** The records of every size, size by size. */
  function AllRecords(nVal: seq<int>, reps: int, times: (nat, nat) -> Timings): (rs: seq<TimingRecord>)
    requires AllNonNegative(nVal)
    ensures |rs| == |nVal| * Reps(reps)
  {
    if nVal == [] then []
    else
      var k := |nVal| - 1;
      assert |nVal| * Reps(reps) == k * Reps(reps) + Reps(reps);
      AllRecords(nVal[..k], reps, times) + SizeRecords(k, nVal[k], reps, times)
  }

  /** The inner loop of `polylidar_timings` for the `a`-th size `n`: the grid
      is built once, its point count is recorded with each run's timings. */
  method MeasureRuns(a: nat, n: nat, reps: int, times: (nat, nat) -> Timings) returns (rs: seq<TimingRecord>)
    ensures rs == SizeRecords(a, n, reps, times)
  {
    var valmax := ISqrt(n);
    var points := GenPoints(0, valmax, 1, 0, valmax, 1);
    UnitGridRows(valmax);
    var trueN := |points|;
    rs := [];
    var j := 0;
    while j < reps
      invariant 0 <= j <= Reps(reps)
      invariant rs == SizeRecords(a, n, reps, times)[..j]
    {
      var t := times(a, j);
      assert SizeRecords(a, n, reps, times)[..j + 1]
             == SizeRecords(a, n, reps, times)[..j] + [TimingRecord(trueN, t.delaunay, t.region, t.polygon)];
      rs := rs + [TimingRecord(trueN, t.delaunay, t.region, t.polygon)];
      j := j + 1;
    }
    assert SizeRecords(a, n, reps, times)[..j] == SizeRecords(a, n, reps, times);
  }

  /** `polylidar_timings(reps, n_val)`: a negative size makes `math.sqrt` raise
      ValueError; otherwise the records of every size, in order. */
  method PolylidarTimings(reps: int, nVal: seq<int>, times: (nat, nat) -> Timings)
    returns (r: Result<seq<TimingRecord>>)
    ensures r.Err? <==> !AllNonNegative(nVal)
    ensures r.Err? ==> r.error == ValueError
    ensures r.Ok? ==> AllNonNegative(nVal) && r.value == AllRecords(nVal, reps, times)
  {
    var records: seq<TimingRecord> := [];
    var a := 0;
    while a < |nVal|
      invariant 0 <= a <= |nVal|
      invariant AllNonNegative(nVal[..a])
      invariant records == AllRecords(nVal[..a], reps, times)
    {
      var n := nVal[a];
      if n < 0 {
        return Err(ValueError);
      }
      var runs := MeasureRuns(a, n, reps, times);
      assert nVal[..a + 1][..a] == nVal[..a];
      assert AllRecords(nVal[..a + 1], reps, times) == records + runs;
      records := records + runs;
      a := a + 1;
    }
    assert nVal[..a] == nVal;
    r := Ok(records);
  }

  /** An index inside block `a` of blocks of `width` lies before the blocks
      that follow it. */
  lemma BlockIndexBelow(a: nat, j: nat, width: nat, blocks: nat)
    requires a < blocks && j < width
    ensures a * width + j < blocks * width
  {
    MulMonotone(width, a + 1, blocks);
  }

  /** Exactly `reps` records per size, grouped in the order of the sizes: record
      `a * reps + j` is the `j`-th run on the `a`-th size, and its `n` is the
      grid's point count `⌊√n⌋²`. */
  lemma {:induction false} AllRecordsLayout(nVal: seq<int>, reps: int, times: (nat, nat) -> Timings, a: nat, j: nat)
    requires AllNonNegative(nVal) && a < |nVal| && j < Reps(reps)
    ensures a * Reps(reps) + j < |AllRecords(nVal, reps, times)|
    ensures AllRecords(nVal, reps, times)[a * Reps(reps) + j]
            == TimingRecord(ISqrt(nVal[a]) * ISqrt(nVal[a]), times(a, j).delaunay, times(a, j).region, times(a, j).polygon)
  {
    var k := |nVal| - 1;
    var init := nVal[..k];
    BlockIndexBelow(a, j, Reps(reps), |nVal|);
    assert AllNonNegative(init);
    if a < k {
      AllRecordsLayout(init, reps, times, a, j);
      BlockIndexBelow(a, j, Reps(reps), k);
      assert init[a] == nVal[a];
    } else {
      assert a * Reps(reps) == |AllRecords(init, reps, times)|;
    }
  }
}
