/** Values shared by every module of the benchmark harness model: Python's
    exceptions as an error datatype, results, points, segments and bounding
    boxes, and an order-preserving filter over sequences. */
module Common {

  /** The Python and C++ exceptions the modelled routines can raise. */
  datatype PyError =
    | IndexError           // indexing past the end of a list or tuple
    | NameError            // a name that was never imported or bound
    | ValueError           // a bad literal, or min() of an empty sequence
    | NotImplementedError
    | ZeroDivisionError
    | UnboundLocalError    // a loop variable read after a loop that never ran
    | TypeError            // e.g. a keyword passed twice to dict(**a, **b)

  datatype Option<+T> = None | Some(value: T)

  datatype Result<+T> = Ok(value: T) | Err(error: PyError)

  /** A 2-D point; the source's doubles are modelled as reals. */
  datatype Point = Point(x: real, y: real)

  /** A line segment between two points (CGAL Segment_2, Shapely LineString of two points). */
  datatype Segment = Segment(source: Point, target: Point)

  /** An axis-aligned bounding box (minx, miny, maxx, maxy), as Shapely's `bounds`. */
  datatype Bounds = Bounds(minx: real, miny: real, maxx: real, maxy: real)

  function Min(a: real, b: real): (m: real)
    ensures m <= a && m <= b && (m == a || m == b)
  {
    if a <= b then a else b
  }

  function Max(a: real, b: real): (m: real)
    ensures m >= a && m >= b && (m == a || m == b)
  {
    if a >= b then a else b
  }

  /** The elements of `s` that satisfy `p`, in their original order. */
  function Filter<T>(p: T -> bool, s: seq<T>): (r: seq<T>)
  {
    if s == [] then []
    else Filter(p, s[..|s| - 1]) + (if p(s[|s| - 1]) then [s[|s| - 1]] else [])
  }

  /** Filtering keeps exactly the elements that satisfy the predicate, and never
      adds any. */
  lemma {:induction false} FilterMembership<T>(p: T -> bool, s: seq<T>, x: T)
    ensures x in Filter(p, s) <==> x in s && p(x)
    ensures |Filter(p, s)| <= |s|
  {
    if s != [] {
      FilterMembership(p, s[..|s| - 1], x);
      assert s == s[..|s| - 1] + [s[|s| - 1]];
    }
  }

  /** Filtering distributes over concatenation: the kept elements of `a` come
      before the kept elements of `b`. */
  lemma {:induction false} FilterAppend<T>(p: T -> bool, a: seq<T>, b: seq<T>)
    ensures Filter(p, a + b) == Filter(p, a) + Filter(p, b)
  {
    if b == [] {
      assert a + b == a;
    } else {
      var b' := b[..|b| - 1];
      assert (a + b)[..|a + b| - 1] == a + b';
      FilterAppend(p, a, b');
    }
  }

  /** Every element of a filtered sequence satisfies the predicate. */
  lemma {:induction false} FilterAll<T>(p: T -> bool, s: seq<T>)
    ensures forall i :: 0 <= i < |Filter(p, s)| ==> p(Filter(p, s)[i])
  {
    if s != [] {
      FilterAll(p, s[..|s| - 1]);
    }
  }

  /** If every element satisfies the predicate, filtering changes nothing. */
  lemma {:induction false} FilterKeepsAll<T>(p: T -> bool, s: seq<T>)
    requires forall i :: 0 <= i < |s| ==> p(s[i])
    ensures Filter(p, s) == s
  {
    if s != [] {
      FilterKeepsAll(p, s[..|s| - 1]);
    }
  }

  /** Sum of a sequence of reals. */
  function Sum(xs: seq<real>): real
  {
    if xs == [] then 0.0 else Sum(xs[..|xs| - 1]) + xs[|xs| - 1]
  }

  /** `[f(x) for x in xs]`. */
  function Map<A, B>(f: A -> B, xs: seq<A>): (ys: seq<B>)
    ensures |ys| == |xs|
  {
    if xs == [] then [] else Map(f, xs[..|xs| - 1]) + [f(xs[|xs| - 1])]
  }

  /** The `i`-th element of the mapped list is `f` of the `i`-th element. */
  lemma {:induction false} MapPointwise<A, B>(f: A -> B, xs: seq<A>)
    ensures forall i :: 0 <= i < |xs| ==> Map(f, xs)[i] == f(xs[i])
  {
    if xs != [] {
      var init := xs[..|xs| - 1];
      MapPointwise(f, init);
      assert forall i :: 0 <= i < |init| ==> Map(f, xs)[i] == Map(f, init)[i] && xs[i] == init[i];
    }
  }

  /** Apply `f` to every element in order, stopping at the first error: the
      shape of a Python loop that appends `f(x)` and lets an exception escape. */
  function Traverse<A, B>(f: A -> Result<B>, xs: seq<A>): Result<seq<B>>
  {
    if xs == [] then Ok([])
    else
      var init := Traverse(f, xs[..|xs| - 1]);
      if init.Err? then init
      else
        var last := f(xs[|xs| - 1]);
        if last.Err? then Err(last.error) else Ok(init.value + [last.value])
  }

  /** One more element: a success extends the prefix's results, a failure
      decides the whole traversal. */
  lemma {:induction false} TraverseStep<A, B>(f: A -> Result<B>, xs: seq<A>, a: nat, done: seq<B>)
    requires a < |xs| && Traverse(f, xs[..a]) == Ok(done)
    ensures f(xs[a]).Ok? ==> Traverse(f, xs[..a + 1]) == Ok(done + [f(xs[a]).value])
    ensures f(xs[a]).Err? ==> Traverse(f, xs) == Err(f(xs[a]).error)
  {
    assert xs[..a + 1][..a] == xs[..a];
    if f(xs[a]).Err? {
      TraverseStopsAtError(f, xs, a + 1);
    }
  }

  /** Once a prefix fails, the whole traversal fails with its error. */
  lemma {:induction false} TraverseStopsAtError<A, B>(f: A -> Result<B>, xs: seq<A>, a: nat)
    requires a <= |xs| && Traverse(f, xs[..a]).Err?
    ensures Traverse(f, xs) == Traverse(f, xs[..a])
    decreases |xs| - a
  {
    if a == |xs| {
      assert xs[..a] == xs;
    } else {
      var k := |xs| - 1;
      assert xs[..k][..a] == xs[..a];
      TraverseStopsAtError(f, xs[..k], a);
    }
  }

  /** A traversal fails exactly when some element fails, with the error of
      the first such element; otherwise it holds `f` of every element, in
      order. */
  lemma {:induction false} TraverseOutcome<A, B>(f: A -> Result<B>, xs: seq<A>)
    ensures Traverse(f, xs).Err? <==> exists a :: 0 <= a < |xs| && f(xs[a]).Err?
    ensures Traverse(f, xs).Err? ==>
      exists a :: 0 <= a < |xs| && f(xs[a]).Err?
        && Traverse(f, xs).error == f(xs[a]).error
        && forall b :: 0 <= b < a ==> f(xs[b]).Ok?
    ensures Traverse(f, xs).Ok? ==>
      |Traverse(f, xs).value| == |xs|
      && forall a :: 0 <= a < |xs| ==> Ok(Traverse(f, xs).value[a]) == f(xs[a])
  {
    if xs != [] {
      var k := |xs| - 1;
      var init := xs[..k];
      TraverseOutcome(f, init);
      assert forall a :: 0 <= a < k ==> xs[a] == init[a];
      if Traverse(f, init).Err? {
        var a :| 0 <= a < |init| && f(init[a]).Err?
          && Traverse(f, init).error == f(init[a]).error
          && forall b :: 0 <= b < a ==> f(init[b]).Ok?;
        assert f(xs[a]).Err?;
      } else if f(xs[k]).Err? {
        assert forall b :: 0 <= b < k ==> f(xs[b]).Ok?;
      } else {
        forall a | 0 <= a < |xs|
          ensures f(xs[a]).Ok?
        {
          if a < k {
            assert Ok(Traverse(f, init).value[a]) == f(init[a]);
          }
        }
      }
    }
  }
}
