/** The CGAL alpha-shape driver: it reads a point file, times `n` alpha-shape
    constructions, keeps the REGULAR edges of the shape as segments and prints
    the list of timings. The alpha-shape construction itself, the clock and the
    file system are parameters of the model. */
module CgalAlpha {
  import opened Common

  /** CGAL's classification of an alpha-shape edge. */
  datatype ClassType = Exterior | Singular | Regular | Interior

  /** An edge produced by the alpha-shape edge iterator: its segment and how
      the shape classifies it. */
  datatype AlphaEdge = AlphaEdge(segment: Segment, cls: ClassType)

  // ---------------------------------------------------------------------------
  // Output streams and `operator<<` for vectors
  // ---------------------------------------------------------------------------

  /** An output stream, as the text written to it so far. Two references may
      denote the same stream (`os` may be `std::cout`). */
  class Stream {
    var text: string

    constructor ()
      ensures text == ""
    {
      text := "";
    }

    method Write(s: string)
      modifies this
      ensures text == old(text) + s
    {
      text := text + s;
    }
  }

  /** The elements separated by single commas, with no leading or trailing comma. */
  function Joined(elems: seq<string>): string
  {
    if elems == [] then ""
    else if |elems| == 1 then elems[0]
    else elems[0] + "," + Joined(elems[1..])
  }

  lemma {:induction false} JoinedSnoc(elems: seq<string>, x: string)
    ensures Joined(elems + [x]) == if elems == [] then x else Joined(elems) + "," + x
  {
    if |elems| > 1 {
      assert (elems + [x])[1..] == elems[1..] + [x];
      JoinedSnoc(elems[1..], x);
    } else if |elems| == 1 {
      assert (elems + [x])[1..] == [x];
    }
  }

  /** `os << vec`: the brackets go to `os`, but the elements and their
      separating commas go to `std::cout`. Only when `os` is `std::cout` is the
      whole list written to one stream. Each element is given already formatted. */
  method PrintVector(os: Stream, cout: Stream, elems: seq<string>)
    modifies os, cout
    ensures os == cout ==> os.text == old(os.text) + "[" + Joined(elems) + "]"
    ensures os != cout ==> os.text == old(os.text) + "[]"
    ensures os != cout ==> cout.text == old(cout.text) + Joined(elems)
  {
    os.Write("[");
    ghost var coutStart := cout.text;
    var i := 0;
    while i < |elems|
      invariant 0 <= i <= |elems|
      invariant cout.text == coutStart + Joined(elems[..i])
      invariant os != cout ==> os.text == old(os.text) + "["
    {
      JoinedSnoc(elems[..i], elems[i]);
      assert elems[..i + 1] == elems[..i] + [elems[i]];
      cout.Write((if i != 0 then "," else "") + elems[i]);
      i := i + 1;
    }
    assert elems[..i] == elems;
    os.Write("]");
  }

  /** The comma-separated fields of a string (the inverse of Joined). */
  function Split(s: string): (parts: seq<string>)
    ensures |parts| >= 1
  {
    if s == [] then [""]
    else
      var rest := Split(s[1..]);
      if s[0] == ',' then [""] + rest else [[s[0]] + rest[0]] + rest[1..]
  }

  lemma {:induction false} SplitPrefix(e: string, t: string)
    requires ',' !in e
    ensures Split(e + t) == [e + Split(t)[0]] + Split(t)[1..]
  {
    if e != [] {
      assert (e + t)[1..] == e[1..] + t;
      SplitPrefix(e[1..], t);
      assert [e[0]] + (e[1..] + Split(t)[0]) == e + Split(t)[0];
    } else {
      assert e + t == t;
      assert e + Split(t)[0] == Split(t)[0];
    }
  }

  /** Printing is unambiguous: when no element contains a comma, splitting the
      printed list at its commas gives back exactly the elements, so the output
      has one comma between consecutive elements and none elsewhere. */
  lemma {:induction false} SplitJoined(elems: seq<string>)
    requires |elems| >= 1
    requires forall i :: 0 <= i < |elems| ==> ',' !in elems[i]
    ensures Split(Joined(elems)) == elems
  {
    if |elems| == 1 {
      SplitPrefix(elems[0], "");
      assert elems[0] + "" == elems[0];
    } else {
      var t := Joined(elems[1..]);
      SplitJoined(elems[1..]);
      assert elems[0] + "," + t == elems[0] + ("," + t);
      SplitPrefix(elems[0], "," + t);
      assert ("," + t)[1..] == t;
      assert elems[0] + "" == elems[0];
    }
  }

  // ---------------------------------------------------------------------------
  // alpha_edges
  // ---------------------------------------------------------------------------

  /** The segments of the REGULAR edges, in iterator order. */
  function RegularSegments(edges: seq<AlphaEdge>): seq<Segment>
  {
    if edges == [] then []
    else
      RegularSegments(edges[..|edges| - 1])
      + (if edges[|edges| - 1].cls == Regular then [edges[|edges| - 1].segment] else [])
  }

  /** The positions of the REGULAR edges, in increasing order. */
  function RegularPositions(edges: seq<AlphaEdge>): seq<nat>
  {
    if edges == [] then []
    else
      RegularPositions(edges[..|edges| - 1])
      + (if edges[|edges| - 1].cls == Regular then [|edges| - 1] else [])
  }

  /** The output of `alpha_edges` is exactly the REGULAR edges, each once, in
      iterator order: the k-th segment written is the segment of the k-th
      REGULAR edge, and every REGULAR edge is written. */
  lemma {:induction false} RegularSegmentsExact(edges: seq<AlphaEdge>)
    ensures |RegularSegments(edges)| == |RegularPositions(edges)|
    ensures forall k :: 0 <= k < |RegularPositions(edges)| ==>
      RegularPositions(edges)[k] < |edges|
      && edges[RegularPositions(edges)[k]].cls == Regular
      && RegularSegments(edges)[k] == edges[RegularPositions(edges)[k]].segment
    ensures forall k, l :: 0 <= k < l < |RegularPositions(edges)| ==>
      RegularPositions(edges)[k] < RegularPositions(edges)[l]
    ensures forall i :: 0 <= i < |edges| && edges[i].cls == Regular ==> i in RegularPositions(edges)
  {
    RegularPositionsPick(edges);
    RegularPositionsIncreasing(edges);
    RegularPositionsComplete(edges);
  }

  /** The k-th output segment is the segment of the k-th REGULAR edge. */
  lemma {:induction false} RegularPositionsPick(edges: seq<AlphaEdge>)
    ensures |RegularSegments(edges)| == |RegularPositions(edges)|
    ensures forall k :: 0 <= k < |RegularPositions(edges)| ==>
      RegularPositions(edges)[k] < |edges|
      && edges[RegularPositions(edges)[k]].cls == Regular
      && RegularSegments(edges)[k] == edges[RegularPositions(edges)[k]].segment
  {
    if edges != [] {
      var init := edges[..|edges| - 1];
      RegularPositionsPick(init);
      var ps, ss := RegularPositions(edges), RegularSegments(edges);
      forall k | 0 <= k < |ps|
        ensures ps[k] < |edges| && edges[ps[k]].cls == Regular && ss[k] == edges[ps[k]].segment
      {
        if k < |RegularPositions(init)| {
          assert ps[k] == RegularPositions(init)[k] && ss[k] == RegularSegments(init)[k];
          assert edges[ps[k]] == init[ps[k]];
        }
      }
    }
  }

  /** The REGULAR edges are kept in iterator order. */
  lemma {:induction false} RegularPositionsIncreasing(edges: seq<AlphaEdge>)
    ensures forall k :: 0 <= k < |RegularPositions(edges)| ==> RegularPositions(edges)[k] < |edges|
    ensures forall k, l :: 0 <= k < l < |RegularPositions(edges)| ==>
      RegularPositions(edges)[k] < RegularPositions(edges)[l]
  {
    if edges != [] {
      var init := edges[..|edges| - 1];
      RegularPositionsIncreasing(init);
      var ps, qs := RegularPositions(edges), RegularPositions(init);
      assert forall k :: 0 <= k < |qs| ==> ps[k] == qs[k];
    }
  }

  /** No REGULAR edge is dropped. */
  lemma {:induction false} RegularPositionsComplete(edges: seq<AlphaEdge>)
    ensures forall i :: 0 <= i < |edges| && edges[i].cls == Regular ==> i in RegularPositions(edges)
  {
    if edges != [] {
      var init := edges[..|edges| - 1];
      RegularPositionsComplete(init);
      forall i | 0 <= i < |edges| && edges[i].cls == Regular
        ensures i in RegularPositions(edges)
      {
        if i < |init| {
          assert init[i] == edges[i];
          assert i in RegularPositions(init);
        }
      }
    }
  }

  /** `alpha_edges(A, out)`: writes the segment of every REGULAR edge through
      the output iterator, after what `out` already holds. */
  method AlphaEdges(edges: seq<AlphaEdge>, out: seq<Segment>) returns (written: seq<Segment>)
    ensures written == out + RegularSegments(edges)
  {
    written := out;
    var i := 0;
    while i < |edges|
      invariant 0 <= i <= |edges|
      invariant written == out + RegularSegments(edges[..i])
    {
      assert edges[..i + 1][..i] == edges[..i];
      if edges[i].cls == Regular {
        written := written + [edges[i].segment];
      }
      i := i + 1;
    }
    assert edges[..i] == edges;
  }

  // ---------------------------------------------------------------------------
  // file_input
  // ---------------------------------------------------------------------------

  /** One line of the point file, as the outcome of `iss >> a >> b`: the two
      numbers extracted, or None when extraction fails. */
  type ParsedLine = Option<Point>

  /** The points of the lines before the first line that does not parse. */
  function LeadingPoints(lines: seq<ParsedLine>): seq<Point>
  {
    if lines == [] || lines[0].None? then []
    else [lines[0].value] + LeadingPoints(lines[1..])
  }

  /** The points read are those of the longest prefix of lines that parse: one
      point per line, in line order, stopping exactly at the first bad line. */
  lemma {:induction false} LeadingPointsPrefix(lines: seq<ParsedLine>)
    ensures |LeadingPoints(lines)| <= |lines|
    ensures forall j :: 0 <= j < |LeadingPoints(lines)| ==> lines[j] == Some(LeadingPoints(lines)[j])
    ensures |LeadingPoints(lines)| < |lines| ==> lines[|LeadingPoints(lines)|].None?
  {
    if lines != [] && lines[0].Some? {
      LeadingPointsPrefix(lines[1..]);
    }
  }

  /** A bad line hides everything after it: appending lines after a file that
      already holds a bad line does not change the points read. */
  lemma {:induction false} LeadingPointsIgnoreRest(lines: seq<ParsedLine>, rest: seq<ParsedLine>)
    requires exists j :: 0 <= j < |lines| && lines[j].None?
    ensures LeadingPoints(lines + rest) == LeadingPoints(lines)
  {
    if lines[0].Some? {
      assert (lines + rest)[1..] == lines[1..] + rest;
      var j :| 0 <= j < |lines| && lines[j].None?;
      assert lines[1..][j - 1].None?;
      LeadingPointsIgnoreRest(lines[1..], rest);
    }
  }

  lemma {:induction false} LeadingPointsSnoc(lines: seq<ParsedLine>, p: Point)
    requires forall j :: 0 <= j < |lines| ==> lines[j].Some?
    ensures LeadingPoints(lines + [Some(p)]) == LeadingPoints(lines) + [p]
  {
    if lines != [] {
      assert (lines + [Some(p)])[1..] == lines[1..] + [Some(p)];
      LeadingPointsSnoc(lines[1..], p);
    }
  }

  lemma {:induction false} LeadingPointsStop(lines: seq<ParsedLine>, i: nat)
    requires i < |lines| && lines[i].None?
    requires forall j :: 0 <= j < i ==> lines[j].Some?
    ensures LeadingPoints(lines) == LeadingPoints(lines[..i])
  {
    if i > 0 {
      assert lines[..i][1..] == lines[1..][..i - 1];
      LeadingPointsStop(lines[1..], i - 1);
    }
  }

  /** `file_input(points, path)`: `file` is the file's lines, or None when it
      cannot be opened. Fails (and appends nothing) only when the file cannot be
      opened; otherwise appends the points of the lines before the first bad
      line and succeeds, even when no point was read. */
  method FileInput(points: seq<Point>, file: Option<seq<ParsedLine>>)
    returns (ok: bool, points': seq<Point>)
    ensures ok <==> file.Some?
    ensures !ok ==> points' == points
    ensures ok ==> points' == points + LeadingPoints(file.value)
  {
    points' := points;
    if file.None? {
      return false, points';
    }
    var lines := file.value;
    var n := 0;
    var i := 0;
    while i < |lines|
      invariant 0 <= i <= |lines|
      invariant forall j :: 0 <= j < i ==> lines[j].Some?
      invariant points' == points + LeadingPoints(lines[..i])
      invariant n == |points'| - |points|
    {
      if lines[i].None? {
        LeadingPointsStop(lines, i);
        break;
      }
      LeadingPointsSnoc(lines[..i], lines[i].value);
      assert lines[..i + 1] == lines[..i] + [Some(lines[i].value)];
      points' := points' + [lines[i].value];
      n := n + 1;
      i := i + 1;
    }
    if i == |lines| {
      assert lines[..i] == lines;
    }
    ok := true;
  }

  // ---------------------------------------------------------------------------
  // calculate_alpha_shape and main
  // ---------------------------------------------------------------------------

  /** The number of timing iterations `for (int i = 0; i < n; i++)` runs. */
  function Iterations(n: int): nat
  {
    if n > 0 then n else 0
  }

  /** `calculate_alpha_shape`: builds the alpha shape `n` times, recording one
      timing per iteration and discarding those edges, then builds it once
      more and appends its REGULAR edges to `segments`. `alphaShape` is CGAL's
      construction, `elapsed(i)` the duration of iteration `i`. */
  method CalculateAlphaShape(points: seq<Point>, segments: seq<Segment>, alpha: real, n: int,
                             alphaShape: (seq<Point>, real) -> seq<AlphaEdge>, elapsed: nat -> real)
    returns (timeList: seq<real>, segments': seq<Segment>)
    ensures |timeList| == Iterations(n)
    ensures forall i :: 0 <= i < |timeList| ==> timeList[i] == elapsed(i)
    ensures segments' == segments + RegularSegments(alphaShape(points, alpha))
  {
    timeList := [];
    var i := 0;
    while i < n
      invariant 0 <= i <= Iterations(n)
      invariant |timeList| == i
      invariant forall j :: 0 <= j < i ==> timeList[j] == elapsed(j)
    {
      var segmentsTemp := AlphaEdges(alphaShape(points, alpha), []);
      timeList := timeList + [elapsed(i)];
      i := i + 1;
    }
    segments' := AlphaEdges(alphaShape(points, alpha), segments);
  }

  /** The iteration count `main` passes on: the fifth argv entry when argv has
      exactly five entries, otherwise 1. */
  function RequestedIterations(args: seq<string>, stoi: string -> int): int
  {
    if |args| == 5 then stoi(args[4]) else 1
  }

  /** The first `k` timings as `operator<<` prints each double. */
  function FormattedTimings(k: nat, elapsed: nat -> real, format: real -> string): seq<string>
  {
    seq(k, i requires 0 <= i < k => format(elapsed(i)))
  }

  /** `main(argc, argv)`. `files` is the file system (a path is openable when it
      is a key); `stod`/`stoi` are the string conversions, `format` how a double
      is printed. Returns the exit code, the segments written to the output file
      (with its name), and what was printed on standard output. */
  method RunDriver(args: seq<string>, files: map<string, seq<ParsedLine>>,
                   stod: string -> real, stoi: string -> int,
                   alphaShape: (seq<Point>, real) -> seq<AlphaEdge>, elapsed: nat -> real,
                   format: real -> string)
    returns (code: int, written: Option<(string, seq<Segment>)>, stdout: string)
    ensures |args| < 4 ==> code == -1 && written == None && stdout == ""
    ensures |args| >= 4 && args[1] !in files ==> code == -1 && written == None && stdout == ""
    ensures |args| >= 4 && args[1] in files ==>
      && code == 0
      && written == Some((args[2], RegularSegments(alphaShape(LeadingPoints(files[args[1]]), stod(args[3])))))
      && stdout == "[" + Joined(FormattedTimings(Iterations(RequestedIterations(args, stoi)), elapsed, format)) + "]\n"
  {
    if |args| < 4 {
      return -1, None, "";
    }
    var pointFileName := args[1];
    var outFileName := args[2];
    var alpha := stod(args[3]);
    var n := if |args| == 5 then stoi(args[4]) else 1;

    var ok, points := FileInput([], if pointFileName in files then Some(files[pointFileName]) else None);
    if !ok {
      return -1, None, "";
    }
    var timeList, segments := CalculateAlphaShape(points, [], alpha, n, alphaShape, elapsed);
    assert segments == RegularSegments(alphaShape(points, alpha));
    written := Some((outFileName, segments));

    var cout := new Stream();
    assert points == LeadingPoints(files[pointFileName]);
    var formatted := seq(|timeList|, i requires 0 <= i < |timeList| => format(timeList[i]));
    assert formatted == FormattedTimings(Iterations(RequestedIterations(args, stoi)), elapsed, format);
    PrintVector(cout, cout, formatted);
    cout.Write("\n");
    stdout := cout.text;
    code := 0;
  }
}
