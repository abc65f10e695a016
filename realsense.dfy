/** The RealSense benchmark driver: discovering the scene directories in sorted
    path order, deriving each scene's file paths, name and index from its
    directory, and running the four algorithms on a scene with the keyword
    arguments built from the common configuration. Directory listing, file
    loading, the algorithms themselves, the alpha and target-percent formulas
    and the statistics of the timings are parameters or left out. */
module Realsense {
  import opened Common
  import opened Geometry

  // ---------------------------------------------------------------------------
  // Paths and their order
  // ---------------------------------------------------------------------------

  /** A pure path, as its sequence of parts (`PurePath.parts`). */
  datatype Path = Path(parts: seq<string>)

  /** `path / name`. */
  function Join(p: Path, name: string): Path
  {
    Path(p.parts + [name])
  }

  /** Python's string order: lexicographic on code points, a proper prefix
      coming first. */
  predicate StrLe(a: string, b: string)
  {
    a == [] || (b != [] && (a[0] < b[0] || (a[0] == b[0] && StrLe(a[1..], b[1..]))))
  }

  lemma {:induction false} StrLeTotal(a: string, b: string)
    ensures StrLe(a, b) || StrLe(b, a)
  {
    if a != [] && b != [] && a[0] == b[0] {
      StrLeTotal(a[1..], b[1..]);
    }
  }

  lemma {:induction false} StrLeTransitive(a: string, b: string, c: string)
    requires StrLe(a, b) && StrLe(b, c)
    ensures StrLe(a, c)
  {
    if a != [] && a[0] == b[0] && b[0] == c[0] {
      StrLeTransitive(a[1..], b[1..], c[1..]);
    }
  }

  lemma {:induction false} StrLeAntisymmetric(a: string, b: string)
    requires StrLe(a, b) && StrLe(b, a)
    ensures a == b
  {
    if a != [] {
      StrLeAntisymmetric(a[1..], b[1..]);
      assert a == [a[0]] + a[1..] && b == [b[0]] + b[1..];
    }
  }

  /** The order of pure paths: their parts compared as lists, each part by the
      string order. */
  predicate PartsLe(a: seq<string>, b: seq<string>)
  {
    a == [] || (b != [] && (if a[0] == b[0] then PartsLe(a[1..], b[1..]) else StrLe(a[0], b[0])))
  }

  predicate PathLe(p: Path, q: Path)
  {
    PartsLe(p.parts, q.parts)
  }

  lemma {:induction false} PartsLeTotal(a: seq<string>, b: seq<string>)
    ensures PartsLe(a, b) || PartsLe(b, a)
  {
    if a != [] && b != [] {
      if a[0] == b[0] {
        PartsLeTotal(a[1..], b[1..]);
      } else {
        StrLeTotal(a[0], b[0]);
      }
    }
  }

  lemma {:induction false} PartsLeTransitive(a: seq<string>, b: seq<string>, c: seq<string>)
    requires PartsLe(a, b) && PartsLe(b, c)
    ensures PartsLe(a, c)
  {
    if a != [] {
      if a[0] == b[0] && b[0] == c[0] {
        PartsLeTransitive(a[1..], b[1..], c[1..]);
      } else if a[0] == b[0] {
        assert StrLe(b[0], c[0]);
      } else if b[0] == c[0] {
        assert StrLe(a[0], b[0]);
      } else {
        StrLeTransitive(a[0], b[0], c[0]);
        if a[0] == c[0] {
          StrLeAntisymmetric(a[0], b[0]);
        }
      }
    }
  }

  /** Paths are sorted when every path comes no later than each one after it. */
  predicate SortedPaths(s: seq<Path>)
  {
    forall i, j :: 0 <= i < j < |s| ==> PathLe(s[i], s[j])
  }

  /** Inserting a path in front of the first path it does not exceed. */
  function InsertPath(x: Path, s: seq<Path>): (r: seq<Path>)
    ensures |r| == |s| + 1
  {
    if s == [] then [x]
    else if PathLe(x, s[0]) then [x] + s
    else [s[0]] + InsertPath(x, s[1..])
  }

  /** `list.sort()` on paths, as an insertion sort. */
  function SortPaths(s: seq<Path>): (sorted: seq<Path>)
    ensures |sorted| == |s|
  {
    if s == [] then [] else InsertPath(s[|s| - 1], SortPaths(s[..|s| - 1]))
  }

  /** Inserting adds the one path and keeps all the others. */
  lemma {:induction false} InsertPathMultiset(x: Path, s: seq<Path>)
    ensures multiset(InsertPath(x, s)) == multiset(s) + multiset{x}
  {
    if s != [] && !PathLe(x, s[0]) {
      InsertPathMultiset(x, s[1..]);
      assert s == [s[0]] + s[1..];
    }
  }

  /** Every path of the insertion is `x` or a path of `s`. */
  lemma InsertPathMembers(x: Path, s: seq<Path>, y: Path)
    requires y in InsertPath(x, s)
    ensures y == x || y in s
  {
    InsertPathMultiset(x, s);
    assert y in multiset(InsertPath(x, s));
  }

  /** Inserting into a sorted list keeps it sorted. */
  lemma {:induction false} InsertPathSorted(x: Path, s: seq<Path>)
    requires SortedPaths(s)
    ensures SortedPaths(InsertPath(x, s))
  {
    if s == [] {
    } else if PathLe(x, s[0]) {
      forall j | 0 < j < |s|
        ensures PathLe(x, s[j])
      {
        PartsLeTransitive(x.parts, s[0].parts, s[j].parts);
      }
      assert forall j :: 1 <= j < |[x] + s| ==> ([x] + s)[j] == s[j - 1];
    } else {
      var rest := InsertPath(x, s[1..]);
      InsertPathSorted(x, s[1..]);
      PartsLeTotal(x.parts, s[0].parts);
      forall j | 0 <= j < |rest|
        ensures PathLe(s[0], rest[j])
      {
        InsertPathMembers(x, s[1..], rest[j]);
        if rest[j] != x {
          var k :| 0 <= k < |s[1..]| && s[1..][k] == rest[j];
          assert s[k + 1] == rest[j];
        }
      }
      assert forall j :: 1 <= j < |[s[0]] + rest| ==> ([s[0]] + rest)[j] == rest[j - 1];
    }
  }

  /** Sorting yields the same paths, each as often, in order. */
  lemma SortPathsFacts(s: seq<Path>)
    ensures multiset(SortPaths(s)) == multiset(s)
    ensures SortedPaths(SortPaths(s))
  {
    SortPathsPermutation(s);
    SortPathsSorted(s);
  }

  /** Sorting keeps every path, as often as it occurs. */
  lemma {:induction false} SortPathsPermutation(s: seq<Path>)
    ensures multiset(SortPaths(s)) == multiset(s)
  {
    if s != [] {
      var init, last := s[..|s| - 1], s[|s| - 1];
      SortPathsPermutation(init);
      InsertPathMultiset(last, SortPaths(init));
      assert s == init + [last];
    }
  }

  /** Sorting orders the paths. */
  lemma {:induction false} SortPathsSorted(s: seq<Path>)
    ensures SortedPaths(SortPaths(s))
  {
    if s != [] {
      var init, last := s[..|s| - 1], s[|s| - 1];
      SortPathsSorted(init);
      InsertPathSorted(last, SortPaths(init));
    }
  }

  // ---------------------------------------------------------------------------
  // Stems and scene indices
  // ---------------------------------------------------------------------------

  /** `PurePath.name`: the last part, or the empty string. */
  function Name(p: Path): string
  {
    if p.parts == [] then "" else p.parts[|p.parts| - 1]
  }

  /** The index of the last occurrence of `c` in `s`, or -1 (`str.rfind`). */
  function RFind(s: string, c: char): (i: int)
    ensures -1 <= i < |s|
    ensures i >= 0 ==> s[i] == c && forall j :: i < j < |s| ==> s[j] != c
    ensures i == -1 ==> forall j :: 0 <= j < |s| ==> s[j] != c
  {
    if s == [] then -1
    else if s[|s| - 1] == c then |s| - 1
    else RFind(s[..|s| - 1], c)
  }

  /** `PurePath.stem`: the name without its last suffix; a name whose only dot
      leads it, or that ends in a dot, keeps its whole name. */
  function Stem(p: Path): string
  {
    var name := Name(p);
    var i := RFind(name, '.');
    if 0 < i < |name| - 1 then name[..i] else name
  }

  /** `str.split(sep)`: the pieces between separators, always at least one. */
  function SplitOn(s: string, sep: char): (pieces: seq<string>)
    ensures |pieces| >= 1
    ensures forall k :: 0 <= k < |pieces| ==> sep !in pieces[k]
  {
    if s == [] then [""]
    else
      var rest := SplitOn(s[1..], sep);
      if s[0] == sep then [""] + rest else [[s[0]] + rest[0]] + rest[1..]
  }

  /** Splitting a separator-free head followed by the separator and the rest
      gives the head, then the pieces of the rest. */
  lemma {:induction false} SplitOnHead(head: string, sep: char, rest: string)
    requires sep !in head
    ensures SplitOn(head + [sep] + rest, sep) == [head] + SplitOn(rest, sep)
  {
    if head == [] {
      assert head + [sep] + rest == [sep] + rest;
    } else {
      assert (head + [sep] + rest)[1..] == head[1..] + [sep] + rest;
      SplitOnHead(head[1..], sep, rest);
      assert [head[0]] + head[1..] == head;
    }
  }

  /** A separator-free string is one piece. */
  lemma {:induction false} SplitOnNone(s: string, sep: char)
    requires sep !in s
    ensures SplitOn(s, sep) == [s]
  {
    if s != [] {
      SplitOnNone(s[1..], sep);
      assert [s[0]] + s[1..] == s;
    }
  }

  /** A string without the separator splits into itself alone. */
  lemma SplitOnWithout(s: string, sep: char)
    ensures sep !in s ==> SplitOn(s, sep) == [s]
  {
    if sep !in s {
      SplitOnNone(s, sep);
    }
  }

  predicate IsDigit(c: char)
  {
    '0' <= c <= '9'
  }

  /** The whitespace `int()` strips around a number. */
  predicate IsSpace(c: char)
  {
    c == ' ' || c == '\t' || c == '\n' || c == '\r' || c == '\U{B}' || c == '\U{C}'
  }

  /** The value of a string of decimal digits, most significant first. */
  function DigitsValue(s: string): nat
    requires forall i :: 0 <= i < |s| ==> IsDigit(s[i])
  {
    if s == [] then 0
    else
      assert IsDigit(s[|s| - 1]);
      DigitsValue(s[..|s| - 1]) * 10 + (s[|s| - 1] as int - '0' as int)
  }

  /** `s.strip()` on the whitespace above. */
  function Strip(s: string): (t: string)
    ensures |t| <= |s|
    ensures t != [] ==> !IsSpace(t[0]) && !IsSpace(t[|t| - 1])
  {
    if s != [] && IsSpace(s[0]) then Strip(s[1..])
    else if s != [] && IsSpace(s[|s| - 1]) then Strip(s[..|s| - 1])
    else s
  }

  /** Every character is a decimal digit. */
  predicate AllDigits(s: string)
  {
    forall i :: 0 <= i < |s| ==> IsDigit(s[i])
  }

  /** `int()` after stripping: an optional sign and at least one digit;
      anything else raises ValueError. */
  function ParseStripped(t: string): Result<int>
  {
    var signed := t != [] && (t[0] == '+' || t[0] == '-');
    var digits := if signed then t[1..] else t;
    if digits == [] || !AllDigits(digits) then Err(ValueError)
    else
      var v: int := DigitsValue(digits);
      if signed && t[0] == '-' then Ok(-v) else Ok(v)
  }

  /** `int(s)` on a base-10 string: surrounding whitespace, an optional sign
      and at least one digit. */
  function ParseInt(s: string): Result<int>
  {
    ParseStripped(Strip(s))
  }

  /** `int(stem.split('_')[1]) - 1`: IndexError when the stem has no `_`. */
  function SceneIdx(stem: string): (r: Result<int>)
    ensures '_' !in stem ==> r == Err(IndexError)
    ensures r.Ok? ==> |SplitOn(stem, '_')| >= 2 && ParseInt(SplitOn(stem, '_')[1]) == Ok(r.value + 1)
  {
    SplitOnWithout(stem, '_');
    var pieces := SplitOn(stem, '_');
    if |pieces| < 2 then Err(IndexError)
    else
      match ParseInt(pieces[1])
      case Ok(v) => Ok(v - 1)
      case Err(e) => Err(e)
  }

  /** A plain string of digits parses to the number it spells. */
  lemma ParseDigits(digits: string)
    requires digits != [] && AllDigits(digits)
    ensures ParseInt(digits) == Ok(DigitsValue(digits) as int)
  {
    assert IsDigit(digits[0]) && IsDigit(digits[|digits| - 1]);
    assert !IsSpace(digits[0]) && !IsSpace(digits[|digits| - 1]);
    assert Strip(digits) == digits;
    assert !(digits[0] == '+' || digits[0] == '-');
    assert ParseStripped(digits) == Ok(DigitsValue(digits) as int);
  }

  /** Stripping keeps every character that is not whitespace. */
  lemma {:induction false} StripKeeps(s: string, k: nat)
    requires k < |s| && !IsSpace(s[k])
    ensures s[k] in Strip(s)
  {
    if s != [] && IsSpace(s[0]) {
      StripKeeps(s[1..], k - 1);
    } else if s != [] && IsSpace(s[|s| - 1]) {
      StripKeeps(s[..|s| - 1], k);
    }
  }

  /** A string with a character that is neither a digit, whitespace nor a
      sign does not parse. */
  lemma ParseIntRejects(s: string, k: nat)
    requires k < |s| && !IsDigit(s[k]) && !IsSpace(s[k]) && s[k] != '+' && s[k] != '-'
    ensures ParseInt(s) == Err(ValueError)
  {
    StripKeeps(s, k);
    var t := Strip(s);
    var signed := t != [] && (t[0] == '+' || t[0] == '-');
    var digits := if signed then t[1..] else t;
    var j :| 0 <= j < |t| && t[j] == s[k];
    if signed {
      assert j > 0 && digits[j - 1] == s[k];
      assert !AllDigits(digits);
    } else {
      assert digits[j] == s[k];
      assert !AllDigits(digits);
    }
  }

  /** A stem `<prefix>_<digits>` (prefix without `_`) gives the number the
      digits spell, minus one. */
  lemma SceneIdxSpec(stem: string, prefix: string, digits: string)
    requires stem == prefix + "_" + digits
    requires '_' !in prefix
    requires digits != [] && AllDigits(digits)
    ensures SceneIdx(stem) == Ok(DigitsValue(digits) - 1)
  {
    DigitsHaveNoUnderscore(digits);
    var v: int := DigitsValue(digits);
    SplitStem(prefix, digits);
    ParseDigits(digits);
    SceneIdxOfPieces(stem, prefix, digits, v);
  }

  /** Digits are never the `_` separator. */
  lemma DigitsHaveNoUnderscore(digits: string)
    requires AllDigits(digits)
    ensures '_' !in digits
  {
    forall i | 0 <= i < |digits| ensures digits[i] != '_' { assert IsDigit(digits[i]); }
  }

  /** A stem that splits on `_` into two pieces, the second parsing to `v`, is
      scene `v - 1`. */
  lemma SceneIdxOfPieces(stem: string, head: string, piece: string, v: int)
    requires SplitOn(stem, '_') == [head, piece] && ParseInt(piece) == Ok(v)
    ensures SceneIdx(stem) == Ok(v - 1)
  {
    assert SplitOn(stem, '_')[1] == piece;
  }

  /** `<prefix>_<piece>` splits on `_` into the prefix and the piece. */
  lemma SplitStem(prefix: string, piece: string)
    requires '_' !in prefix && '_' !in piece
    ensures SplitOn(prefix + "_" + piece, '_') == [prefix, piece]
  {
    assert prefix + "_" + piece == prefix + ['_'] + piece;
    SplitOnHead(prefix, '_', piece);
    SplitOnNone(piece, '_');
  }

  /** A stem without `_` fails with IndexError; a piece after the first `_`
      holding a character that cannot be part of a number fails with
      ValueError. */
  lemma SceneIdxErrors(stem: string, prefix: string, piece: string, k: nat)
    ensures '_' !in stem ==> SceneIdx(stem) == Err(IndexError)
    ensures '_' !in prefix && '_' !in piece && k < |piece| && !IsDigit(piece[k]) && !IsSpace(piece[k])
            && piece[k] != '+' && piece[k] != '-'
            ==> SceneIdx(prefix + "_" + piece) == Err(ValueError)
  {
    if '_' !in stem {
      SplitOnNone(stem, '_');
    }
    if '_' !in prefix && '_' !in piece && k < |piece| && !IsDigit(piece[k]) && !IsSpace(piece[k])
       && piece[k] != '+' && piece[k] != '-' {
      SplitStem(prefix, piece);
      ParseIntRejects(piece, k);
    }
  }

  /** The directory naming the scenes use: `Scene_004` is scene 3. */
  lemma SceneIdxExample(stem: string)
    requires stem == "Scene_004"
    ensures SceneIdx(stem) == Ok(3)
  {
    var prefix, digits := "Scene", "004";
    assert stem == prefix + "_" + digits;
    assert AllDigits(digits);
    SceneIdxSpec(stem, prefix, digits);
    ThreeDigitsValue(digits);
  }

  /** Three digits spell hundreds, tens and units. */
  lemma ThreeDigitsValue(s: string)
    requires |s| == 3 && AllDigits(s)
    ensures DigitsValue(s) == 100 * (s[0] as int - '0' as int) + 10 * (s[1] as int - '0' as int) + (s[2] as int - '0' as int)
  {
    var s1, s2 := s[..1], s[..2];
    assert s1[..0] == [] && s2[..1] == s1;
    assert DigitsValue(s1) == s[0] as int - '0' as int;
    assert DigitsValue(s2) == DigitsValue(s1) * 10 + (s[1] as int - '0' as int);
    assert s[..|s| - 1] == s2;
  }

  // ---------------------------------------------------------------------------
  // get_realsense_scenes
  // ---------------------------------------------------------------------------

  /** The dictionary built for one scene directory. */
  datatype Scene = Scene(
    pointPath: Path, gtPath: Path, colorPath: Path, depthPath: Path,
    depthRawPath: Path, metaPath: Path, sceneName: string, sceneIdx: int, sceneDir: Path)

  /** The scene of directory `subdir` with index `idx`: the fixed file names
      inside it, its stem as name, and the directory itself. */
  function MakeScene(subdir: Path, idx: int): Scene
  {
    Scene(Join(subdir, "points.txt"), Join(subdir, "gt.geojson"), Join(subdir, "color_nopoly.jpg"),
          Join(subdir, "depth.jpg"), Join(subdir, "depth_raw.txt"), Join(subdir, "meta.json"),
          Stem(subdir), idx, subdir)
  }

  /** The entries of `rs_dir.iterdir()`, as paths under the directory. */
  function Children(rsDir: Path, entries: seq<string>): (children: seq<Path>)
    ensures |children| == |entries|
    ensures forall i :: 0 <= i < |entries| ==> children[i] == Join(rsDir, entries[i])
  {
    seq(|entries|, i requires 0 <= i < |entries| => Join(rsDir, entries[i]))
  }

  /** The scene of one directory, or the error deriving its index raises. */
  function SceneOf(subdir: Path): Result<Scene>
  {
    match SceneIdx(Stem(subdir))
    case Ok(idx) => Ok(MakeScene(subdir, idx))
    case Err(e) => Err(e)
  }

  /** The second loop of `get_realsense_scenes`: one scene per path, in order;
      the first path without a valid index stops it with that error. */
  method BuildScenes(paths: seq<Path>) returns (r: Result<seq<Scene>>)
    ensures r == Traverse(SceneOf, paths)
  {
    var scenes: seq<Scene> := [];
    var i := 0;
    while i < |paths|
      invariant 0 <= i <= |paths|
      invariant Traverse(SceneOf, paths[..i]) == Ok(scenes)
    {
      TraverseStep(SceneOf, paths, i, scenes);
      var subdir := paths[i];
      var scene := SceneOf(subdir);
      if scene.Err? {
        return Err(scene.error);
      }
      scenes := scenes + [scene.value];
      i := i + 1;
    }
    assert paths[..i] == paths;
    r := Ok(scenes);
  }

  /** `get_realsense_scenes(realsense_dir)`: `entries` is the directory
      listing, in whatever order the file system gives it. The paths are
      sorted, and the scenes are built from them in that order. */
  method GetRealsenseScenes(rsDir: Path, entries: seq<string>) returns (r: Result<seq<Scene>>)
    ensures r.Ok? <==> forall i :: 0 <= i < |entries| ==> SceneOf(SortPaths(Children(rsDir, entries))[i]).Ok?
    ensures r.Err? ==>
      exists i :: 0 <= i < |entries| && SceneOf(SortPaths(Children(rsDir, entries))[i]) == Err(r.error)
        && forall j :: 0 <= j < i ==> SceneOf(SortPaths(Children(rsDir, entries))[j]).Ok?
    ensures r.Ok? ==>
      |r.value| == |entries|
      && forall i :: 0 <= i < |entries| ==> Ok(r.value[i]) == SceneOf(SortPaths(Children(rsDir, entries))[i])
  {
    var paths: seq<Path> := [];
    var k := 0;
    while k < |entries|
      invariant 0 <= k <= |entries|
      invariant paths == Children(rsDir, entries[..k])
    {
      paths := paths + [Join(rsDir, entries[k])];
      k := k + 1;
    }
    assert entries[..k] == entries;
    ScenePathsSorted(rsDir, entries);
    paths := SortPaths(paths);
    r := BuildScenes(paths);
    TraverseOutcome(SceneOf, paths);
  }

  /** The sorted paths are exactly the directory's entries, each once per
      listing, in path order: one scene per entry, ordered by path. */
  lemma ScenePathsSorted(rsDir: Path, entries: seq<string>)
    ensures var sorted := SortPaths(Children(rsDir, entries));
      && |sorted| == |entries|
      && SortedPaths(sorted)
      && multiset(sorted) == multiset(Children(rsDir, entries))
      && (forall i :: 0 <= i < |entries| ==> Join(rsDir, entries[i]) in sorted)
      && (forall p :: p in sorted ==> exists i :: 0 <= i < |entries| && p == Join(rsDir, entries[i]))
  {
    var children := Children(rsDir, entries);
    var sorted := SortPaths(children);
    SortPathsFacts(children);
    assert |sorted| == |multiset(sorted)| == |multiset(children)| == |children|;
    forall i | 0 <= i < |entries|
      ensures Join(rsDir, entries[i]) in sorted
    {
      assert children[i] in multiset(children);
    }
    forall p | p in sorted
      ensures exists i :: 0 <= i < |entries| && p == Join(rsDir, entries[i])
    {
      assert p in multiset(children);
    }
  }

  // ---------------------------------------------------------------------------
  // run_test_on_scene
  // ---------------------------------------------------------------------------

  /** A keyword-argument value. */
  datatype KwValue = Num(x: real) | Text(s: string) | Shape(g: Geom)

  type Kwargs = map<string, KwValue>

  /** `dict(**a, **b)`: a key given twice raises TypeError. */
  function Merge(a: Kwargs, b: Kwargs): (r: Result<Kwargs>)
    ensures r.Err? <==> exists k :: k in a && k in b
    ensures r.Ok? ==> r.value.Keys == a.Keys + b.Keys
    ensures r.Ok? ==> forall k :: k in a ==> r.value[k] == a[k]
    ensures r.Ok? ==> forall k :: k in b ==> r.value[k] == b[k]
  {
    if exists k :: k in a && k in b then Err(TypeError) else Ok(a + b)
  }

  /** The keyword arguments of the four runs. */
  datatype RunKwargs = RunKwargs(polylidar: Kwargs, cgal: Kwargs, spatialite: Kwargs, postgis: Kwargs)

  /** The common parameters with the ground-truth shape and the scene name set. */
  function GlobalKwargs(common: Kwargs, gtShape: Geom, sceneName: string): Kwargs
  {
    common["gt_fpath" := Shape(gtShape)]["save_poly" := Text(sceneName)]
  }

  /** The four merged keyword dictionaries, built in the source's order:
      polylidar gets `minTriangles` and `alpha`, CGAL `alpha` squared,
      Spatialite `factor`, PostGIS `target_percent`. */
  function BuildKwargs(common: Kwargs, gtShape: Geom, sceneName: string, alpha: real, targetPercent: real)
    : Result<RunKwargs>
  {
    var g := GlobalKwargs(common, gtShape, sceneName);
    var pl := Merge(g, map["minTriangles" := Num(1.0), "alpha" := Num(alpha)]);
    var cg := Merge(g, map["alpha" := Num(alpha * alpha)]);
    var sl := Merge(g, map["factor" := Num(3.0)]);
    var pg := Merge(g, map["target_percent" := Num(targetPercent)]);
    if pl.Err? then Err(pl.error)
    else if cg.Err? then Err(cg.error)
    else if sl.Err? then Err(sl.error)
    else if pg.Err? then Err(pg.error)
    else Ok(RunKwargs(pl.value, cg.value, sl.value, pg.value))
  }

  /** The dictionary the PostGIS run is called with, exactly as written: the
      Spatialite one. */
  function PostgisCallKwargsAsWritten(kw: RunKwargs): Kwargs
  {
    kw.spatialite
  }

  /** The dictionary the PostGIS run is evidently meant to get: its own. */
  function PostgisCallKwargs(kw: RunKwargs): Kwargs
  {
    kw.postgis
  }

  /** The `target_percent` PostGIS's `run_test` ends up using: the keyword, or
      its default 0.99. */
  function TargetPercentUsed(kw: Kwargs): KwValue
  {
    if "target_percent" in kw then kw["target_percent"] else Num(0.99)
  }

  /** As written, PostGIS never sees the computed target percentage: unless the
      common parameters carry their own `target_percent`, it runs with the
      default 0.99 (and an extra `factor` of 3), whereas the intended call uses
      the computed value. */
  lemma PostgisKwargsFinding(common: Kwargs, gtShape: Geom, sceneName: string, alpha: real, targetPercent: real)
    requires BuildKwargs(common, gtShape, sceneName, alpha, targetPercent).Ok?
    ensures var kw := BuildKwargs(common, gtShape, sceneName, alpha, targetPercent).value;
      && TargetPercentUsed(PostgisCallKwargsAsWritten(kw)) == Num(0.99)
      && "factor" in PostgisCallKwargsAsWritten(kw)
      && PostgisCallKwargsAsWritten(kw)["factor"] == Num(3.0)
      && TargetPercentUsed(PostgisCallKwargs(kw)) == Num(targetPercent)
  {
    var g := GlobalKwargs(common, gtShape, sceneName);
    var pg := Merge(g, map["target_percent" := Num(targetPercent)]);
    assert "target_percent" !in g;
    assert "target_percent" !in common;
  }

  /** A concrete instance: with no common parameters and a computed target of
      0.5, PostGIS runs with 0.99 as written and with 0.5 as intended. */
  lemma PostgisKwargsCounterexample(gtShape: Geom)
    ensures BuildKwargs(map[], gtShape, "Scene_001", 1.0, 0.5).Ok?
    ensures TargetPercentUsed(PostgisCallKwargsAsWritten(BuildKwargs(map[], gtShape, "Scene_001", 1.0, 0.5).value))
            == Num(0.99)
    ensures TargetPercentUsed(PostgisCallKwargs(BuildKwargs(map[], gtShape, "Scene_001", 1.0, 0.5).value))
            == Num(0.5)
  {
    var g := GlobalKwargs(map[], gtShape, "Scene_001");
    assert g.Keys == {"gt_fpath", "save_poly"};
    PostgisKwargsFinding(map[], gtShape, "Scene_001", 1.0, 0.5);
  }

  /** One row of the scene's data frame, before the timing statistics. */
  datatype Record = Record(alg: string, timings: seq<real>, l2: real, sceneName: string, numPoints: nat)

  /** `np.sum(timings, axis=1)`: each run's sub-timings added up. */
  function RowSums(rows: seq<seq<real>>): (sums: seq<real>)
    ensures |sums| == |rows|
    ensures forall i :: 0 <= i < |rows| ==> sums[i] == Sum(rows[i])
  {
    seq(|rows|, i requires 0 <= i < |rows| => Sum(rows[i]))
  }

  /** `run_test_on_scene(scene_data, config)`, with the PostGIS call given its
      own keyword arguments. An empty scene fails on the point density with
      ZeroDivisionError before anything else; then the dictionaries are built
      and the four runs are made in order, the first failure being passed on.
      Each run is a function of its keyword arguments returning its timings
      and its L2 error, or its own error; polylidar's timings are lists of
      sub-timings. */
  function RunTestOnScene(
    sceneName: string, numPoints: nat, common: Kwargs, gtShape: Geom, alpha: real, targetPercent: real,
    runPolylidar: Kwargs -> Result<(seq<seq<real>>, real)>,
    runCgal: Kwargs -> Result<(seq<real>, real)>,
    runSpatialite: Kwargs -> Result<(seq<real>, real)>,
    runPostgis: Kwargs -> Result<(seq<real>, real)>): (r: Result<seq<Record>>)
    ensures numPoints == 0 ==> r == Err(ZeroDivisionError)
    ensures var kw := BuildKwargs(common, gtShape, sceneName, alpha, targetPercent);
      numPoints != 0 && kw.Err? ==> r == Err(kw.error)
    ensures var kw := BuildKwargs(common, gtShape, sceneName, alpha, targetPercent);
      numPoints != 0 && kw.Ok? ==>
        var pl, cg := runPolylidar(kw.value.polylidar), runCgal(kw.value.cgal);
        var sl, pg := runSpatialite(kw.value.spatialite), runPostgis(kw.value.postgis);
        && (pl.Err? ==> r == Err(pl.error))
        && (pl.Ok? && cg.Err? ==> r == Err(cg.error))
        && (pl.Ok? && cg.Ok? && sl.Err? ==> r == Err(sl.error))
        && (pl.Ok? && cg.Ok? && sl.Ok? && pg.Err? ==> r == Err(pg.error))
        && (r.Ok? <==> pl.Ok? && cg.Ok? && sl.Ok? && pg.Ok?)
    ensures r.Ok? ==> |r.value| == 4 && forall i :: 0 <= i < 4 ==>
      r.value[i].sceneName == sceneName && r.value[i].numPoints == numPoints
  {
    if numPoints == 0 then Err(ZeroDivisionError)
    else
      match BuildKwargs(common, gtShape, sceneName, alpha, targetPercent)
      case Err(e) => Err(e)
      case Ok(kw) =>
        match runPolylidar(kw.polylidar)
        case Err(e) => Err(e)
        case Ok(pl) =>
          match runCgal(kw.cgal)
          case Err(e) => Err(e)
          case Ok(cg) =>
            match runSpatialite(kw.spatialite)
            case Err(e) => Err(e)
            case Ok(sl) =>
              match runPostgis(PostgisCallKwargs(kw))
              case Err(e) => Err(e)
              case Ok(pg) =>
                Ok([Record("polylidar", RowSums(pl.0), pl.1, sceneName, numPoints),
                    Record("cgal", cg.0, cg.1, sceneName, numPoints),
                    Record("spatialite", sl.0, sl.1, sceneName, numPoints),
                    Record("postgis", pg.0, pg.1, sceneName, numPoints)])
  }

  /** Building the keyword dictionaries fails with TypeError exactly when the
      common parameters already hold a key one of the algorithms sets; PostGIS's
      own dictionary carries the computed target percentage. */
  lemma BuildKwargsSpec(common: Kwargs, gtShape: Geom, sceneName: string, alpha: real, targetPercent: real)
    ensures var kw := BuildKwargs(common, gtShape, sceneName, alpha, targetPercent);
      && (kw.Err? <==> "minTriangles" in common || "alpha" in common || "factor" in common
                       || "target_percent" in common)
      && (kw.Err? ==> kw.error == TypeError)
      && (kw.Ok? ==> TargetPercentUsed(kw.value.postgis) == Num(targetPercent))
  {
    var g := GlobalKwargs(common, gtShape, sceneName);
    MergePair(g, "minTriangles", Num(1.0), "alpha", Num(alpha));
    MergeSingle(g, "alpha", Num(alpha * alpha));
    MergeSingle(g, "factor", Num(3.0));
    MergeSingle(g, "target_percent", Num(targetPercent));
    assert "minTriangles" in g <==> "minTriangles" in common;
    assert "alpha" in g <==> "alpha" in common;
    assert "factor" in g <==> "factor" in common;
    assert "target_percent" in g <==> "target_percent" in common;
  }

  /** Adding one keyword fails exactly when it is already there. */
  lemma MergeSingle(a: Kwargs, k: string, v: KwValue)
    ensures Merge(a, map[k := v]).Err? <==> k in a
  {
    assert k in map[k := v];
  }

  /** Adding two keywords fails exactly when either is already there. */
  lemma MergePair(a: Kwargs, k1: string, v1: KwValue, k2: string, v2: KwValue)
    ensures Merge(a, map[k1 := v1, k2 := v2]).Err? <==> k1 in a || k2 in a
  {
    assert k1 in map[k1 := v1, k2 := v2] && k2 in map[k1 := v1, k2 := v2];
  }

  /** When the scene has points, the dictionaries build and all four runs
      succeed: exactly four records, in the order polylidar, CGAL, Spatialite,
      PostGIS, each stamped with the scene's name and point count; polylidar's
      timings are its per-run totals, the others' timings and errors are the
      runs' own. */
  lemma RunTestOnSceneRecords(
    sceneName: string, numPoints: nat, common: Kwargs, gtShape: Geom, alpha: real, targetPercent: real,
    runPolylidar: Kwargs -> Result<(seq<seq<real>>, real)>,
    runCgal: Kwargs -> Result<(seq<real>, real)>,
    runSpatialite: Kwargs -> Result<(seq<real>, real)>,
    runPostgis: Kwargs -> Result<(seq<real>, real)>)
    requires numPoints != 0
    requires BuildKwargs(common, gtShape, sceneName, alpha, targetPercent).Ok?
    requires var kw := BuildKwargs(common, gtShape, sceneName, alpha, targetPercent).value;
      && runPolylidar(kw.polylidar).Ok? && runCgal(kw.cgal).Ok?
      && runSpatialite(kw.spatialite).Ok? && runPostgis(kw.postgis).Ok?
    ensures var kw := BuildKwargs(common, gtShape, sceneName, alpha, targetPercent).value;
      var r := RunTestOnScene(sceneName, numPoints, common, gtShape, alpha, targetPercent,
                              runPolylidar, runCgal, runSpatialite, runPostgis);
      var pl, cg := runPolylidar(kw.polylidar).value, runCgal(kw.cgal).value;
      var sl, pg := runSpatialite(kw.spatialite).value, runPostgis(kw.postgis).value;
      && r.Ok? && |r.value| == 4
      && r.value[0].alg == "polylidar" && r.value[1].alg == "cgal"
      && r.value[2].alg == "spatialite" && r.value[3].alg == "postgis"
      && (forall i :: 0 <= i < 4 ==> r.value[i].sceneName == sceneName && r.value[i].numPoints == numPoints)
      && |r.value[0].timings| == |pl.0|
      && (forall i :: 0 <= i < |pl.0| ==> r.value[0].timings[i] == Sum(pl.0[i]))
      && r.value[0].l2 == pl.1
      && r.value[1].timings == cg.0 && r.value[1].l2 == cg.1
      && r.value[2].timings == sl.0 && r.value[2].l2 == sl.1
      && r.value[3].timings == pg.0 && r.value[3].l2 == pg.1
  {
  }
}
