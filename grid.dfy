/** The regular grid the three polylidar benchmark scripts generate with
    `np.mgrid`, and the integer side length `int(math.sqrt(n))` they size it
    with. The three scripts carry identical copies of `gen_points`; it is
    modelled once here. */
module Grid {

  /** One row of the generated array: an integer point. */
  datatype GridPoint = GridPoint(x: int, y: int)

  /** The number of values `start:stop:step` yields for a positive step:
      `ceil((stop - start) / step)`, or none when the range is empty. */
  function StepCount(start: int, stop: int, step: int): (count: nat)
    requires step > 0
    ensures start + (count - 1) * step < stop || count == 0
    ensures start + count * step >= stop
    decreases stop - start
  {
    if stop <= start then 0 else 1 + StepCount(start + step, stop, step)
  }

  /** The slice `start:stop:step` as a list: every value from `start` on, `step`
      apart, below `stop`. */
  lemma {:induction false} StepCountValues(start: int, stop: int, step: int, i: nat)
    requires step > 0
    ensures i < StepCount(start, stop, step) <==> start + i * step < stop
    decreases StepCount(start, stop, step)
  {
    if stop > start && i > 0 {
      StepCountValues(start + step, stop, step, i - 1);
      assert start + step + (i - 1) * step == start + i * step;
    }
  }

  /** The rows of `X` equal to the `i`-th x value: that x paired with every y
      value, in order. */
  function Column(x: int, ymin: int, ystep: int, ny: nat): (col: seq<GridPoint>)
    ensures |col| == ny
  {
    seq(ny, j requires 0 <= j < ny => GridPoint(x, ymin + j * ystep))
  }

  /** `np.vstack([X.ravel(), Y.ravel()]).transpose()` for the first `nx` x
      values: the columns one after another (x varies slowest). */
  function Columns(xmin: int, xstep: int, nx: nat, ymin: int, ystep: int, ny: nat): (rows: seq<GridPoint>)
    ensures |rows| == nx * ny
  {
    if nx == 0 then []
    else Columns(xmin, xstep, nx - 1, ymin, ystep, ny) + Column(xmin + (nx - 1) * xstep, ymin, ystep, ny)
  }

  /** `gen_points(xmin, xmax, xstep, ymin, ymax, ystep)` for positive steps. */
  function GenPoints(xmin: int, xmax: int, xstep: int, ymin: int, ymax: int, ystep: int): (rows: seq<GridPoint>)
    requires xstep > 0 && ystep > 0
    ensures |rows| == StepCount(xmin, xmax, xstep) * StepCount(ymin, ymax, ystep)
  {
    Columns(xmin, xstep, StepCount(xmin, xmax, xstep), ymin, ystep, StepCount(ymin, ymax, ystep))
  }

  /** Multiplying by a natural number keeps the order. */
  lemma {:induction false} MulMonotone(c: nat, a: int, b: int)
    requires a <= b
    ensures c * a <= c * b
  {
    if c > 0 {
      MulMonotone(c - 1, a, b);
      assert c * a == (c - 1) * a + a && c * b == (c - 1) * b + b;
    }
  }

  /** `k = i * ny + j` with `0 <= j < ny` splits uniquely into `k / ny` and
      `k % ny`. */
  lemma DivModOfRow(k: int, ny: int, i: int, j: int)
    requires ny > 0 && 0 <= j < ny && k == i * ny + j
    ensures k / ny == i && k % ny == j
  {
    var q, r := k / ny, k % ny;
    assert k == q * ny + r && 0 <= r < ny;
    var d := q - i;
    assert d * ny == j - r;
    if d >= 1 {
      MulMonotone(ny, 1, d);
    } else if d <= -1 {
      MulMonotone(ny, d, -1);
    }
  }

  /** Row `k` of the grid is `(xmin + (k div ny) * xstep, ymin + (k mod ny) * ystep)`. */
  lemma {:induction false} ColumnsRow(xmin: int, xstep: int, nx: nat, ymin: int, ystep: int, ny: nat, k: nat)
    requires k < nx * ny
    ensures ny > 0
    ensures Columns(xmin, xstep, nx, ymin, ystep, ny)[k] == GridPoint(xmin + (k / ny) * xstep, ymin + (k % ny) * ystep)
  {
    var rows := Columns(xmin, xstep, nx, ymin, ystep, ny);
    var init := Columns(xmin, xstep, nx - 1, ymin, ystep, ny);
    assert nx > 0 && ny > 0;
    assert |init| == (nx - 1) * ny;
    if k < (nx - 1) * ny {
      ColumnsRow(xmin, xstep, nx - 1, ymin, ystep, ny, k);
      assert rows[k] == init[k];
    } else {
      var j := k - (nx - 1) * ny;
      DivModOfRow(k, ny, nx - 1, j);
      assert rows[k] == Column(xmin + (nx - 1) * xstep, ymin, ystep, ny)[j];
    }
  }

  /** `gen_points` yields `nx * ny` rows, `nx` and `ny` the step counts of the
      two ranges, row `k` being `(xmin + (k div ny) * xstep, ymin + (k mod ny) * ystep)`,
      so that x varies slowest. */
  lemma GenPointsLayout(xmin: int, xmax: int, xstep: int, ymin: int, ymax: int, ystep: int)
    requires xstep > 0 && ystep > 0
    ensures var nx, ny := StepCount(xmin, xmax, xstep), StepCount(ymin, ymax, ystep);
      && |GenPoints(xmin, xmax, xstep, ymin, ymax, ystep)| == nx * ny
      && forall k :: 0 <= k < nx * ny ==>
           GenPoints(xmin, xmax, xstep, ymin, ymax, ystep)[k]
           == GridPoint(xmin + (k / ny) * xstep, ymin + (k % ny) * ystep)
  {
    var nx, ny := StepCount(xmin, xmax, xstep), StepCount(ymin, ymax, ystep);
    forall k | 0 <= k < nx * ny
      ensures GenPoints(xmin, xmax, xstep, ymin, ymax, ystep)[k]
              == GridPoint(xmin + (k / ny) * xstep, ymin + (k % ny) * ystep)
    {
      ColumnsRow(xmin, xstep, nx, ymin, ystep, ny, k);
    }
  }

  /** The number of unit steps from 0 to `n`. */
  lemma {:induction false} StepCountUnit(n: int)
    ensures StepCount(0, n, 1) == if n > 0 then n else 0
  {
    if n > 0 {
      StepCountShift(1, n, 1);
      StepCountUnit(n - 1);
    }
  }

  /** Shifting both ends of the range shifts nothing in the count. */
  lemma {:induction false} StepCountShift(start: int, stop: int, step: int)
    requires step > 0
    ensures StepCount(start, stop, step) == StepCount(0, stop - start, step)
    decreases stop - start
  {
    if stop > start {
      StepCountShift(start + step, stop, step);
      StepCountShift(step, stop - start, step);
    }
  }

  /** A row index below `v * v` has a quotient by `v` below `v`. */
  lemma QuotientBelow(k: nat, v: nat)
    requires k < v * v
    ensures v > 0 && k / v < v
  {
    var q := k / v;
    if q >= v {
      MulMonotone(v, v, q);
    }
  }

  /** The row of point `(x, y)` in a square grid of side `v` is below `v * v`. */
  lemma RowBelow(x: nat, y: nat, v: nat)
    requires x < v && y < v
    ensures x * v + y < v * v
  {
    MulMonotone(v, x, v - 1);
    assert v * (v - 1) == v * v - v;
  }

  /** The square unit grid of side `v` from the origin has `v * v` rows, row
      `k` being `(k div v, k mod v)`. */
  lemma UnitGridRows(v: nat)
    ensures |GenPoints(0, v, 1, 0, v, 1)| == v * v
    ensures forall k :: 0 <= k < v * v ==> GenPoints(0, v, 1, 0, v, 1)[k] == GridPoint(k / v, k % v)
  {
    StepCountUnit(v);
    GenPointsLayout(0, v, 1, 0, v, 1);
  }

  /** Every row of the square unit grid of side `v` lies in `[0, v)²`. */
  lemma UnitGridInside(v: nat, k: nat)
    requires k < |GenPoints(0, v, 1, 0, v, 1)|
    ensures 0 <= GenPoints(0, v, 1, 0, v, 1)[k].x < v && 0 <= GenPoints(0, v, 1, 0, v, 1)[k].y < v
  {
    UnitGridRows(v);
    QuotientBelow(k, v);
  }

  /** Every integer point of `[0, v)²` is the row `x * v + y` of the grid. */
  lemma UnitGridComplete(v: nat, p: GridPoint)
    requires 0 <= p.x < v && 0 <= p.y < v
    ensures p.x * v + p.y < |GenPoints(0, v, 1, 0, v, 1)|
    ensures GenPoints(0, v, 1, 0, v, 1)[p.x * v + p.y] == p
  {
    UnitGridRows(v);
    var k := p.x * v + p.y;
    RowBelow(p.x, p.y, v);
    DivModOfRow(k, v, p.x, p.y);
  }

  /** The rows of the square unit grid of side `v` are exactly the integer
      points of `[0, v)²`. */
  lemma UnitGrid(v: nat)
    ensures forall p: GridPoint :: p in GenPoints(0, v, 1, 0, v, 1) <==> 0 <= p.x < v && 0 <= p.y < v
  {
    var g := GenPoints(0, v, 1, 0, v, 1);
    forall p | p in g
      ensures 0 <= p.x < v && 0 <= p.y < v
    {
      var k :| 0 <= k < |g| && g[k] == p;
      UnitGridInside(v, k);
    }
    forall p: GridPoint | 0 <= p.x < v && 0 <= p.y < v
      ensures p in g
    {
      UnitGridComplete(v, p);
    }
  }

  /** With the default arguments, `gen_points()` is the 100 integer points of
      `[0, 10)²`. */
  lemma GenPointsDefault()
    ensures |GenPoints(0, 10, 1, 0, 10, 1)| == 100
    ensures forall p: GridPoint :: p in GenPoints(0, 10, 1, 0, 10, 1) <==> 0 <= p.x < 10 && 0 <= p.y < 10
  {
    UnitGridRows(10);
    UnitGrid(10);
  }

  // ---------------------------------------------------------------------------
  // int(math.sqrt(n))
  // ---------------------------------------------------------------------------

  /** Doubling the root of `n / 4` brackets the root of `n` between `2h` and
      `2h + 1`. */
  lemma ISqrtStep(n: nat, h: nat)
    requires h * h <= n / 4 < (h + 1) * (h + 1)
    ensures var lo, mid := 2 * h, 2 * h + 1;
      && lo * lo <= n && n < (mid + 1) * (mid + 1) && mid == lo + 1
  {
    var a, b := h * h, (h + 1) * (h + 1);
    assert (2 * h) * (2 * h) == 4 * a;
    assert (2 * h + 2) * (2 * h + 2) == 4 * b;
  }

  /** The integer square root: the largest `r` with `r * r <= n`. */
  function ISqrt(n: nat): (r: nat)
    ensures r * r <= n < (r + 1) * (r + 1)
  {
    if n == 0 then 0
    else
      var h := ISqrt(n / 4);
      var lo, mid := 2 * h, 2 * h + 1;
      ISqrtStep(n, h);
      if mid * mid <= n then mid else lo
  }

  /** Squaring keeps the order of natural numbers. */
  lemma SquareMonotone(a: nat, b: nat)
    requires a <= b
    ensures a * a <= b * b
  {
    MulMonotone(a, a, b);
    MulMonotone(b, a, b);
  }

  /** The integer square root is the only `r` with `r² <= n < (r + 1)²`. */
  lemma ISqrtUnique(n: nat, r: nat)
    requires r * r <= n < (r + 1) * (r + 1)
    ensures ISqrt(n) == r
  {
    var s := ISqrt(n);
    if s < r {
      SquareMonotone(s + 1, r);
    } else if s > r {
      SquareMonotone(r + 1, s);
    }
  }

  /** `int(math.sqrt(v * v))` is `v`: a square grid's side is recovered. */
  lemma ISqrtOfSquare(v: nat)
    ensures ISqrt(v * v) == v
  {
    assert (v + 1) * (v + 1) == v * v + 2 * v + 1;
    ISqrtUnique(v * v, v);
  }
}
