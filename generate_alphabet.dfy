/** Building one polygon per letter from the alphabet table: each row carries
    a letter (`group`), a path group and a vertex. Per letter, the first path
    group becomes the shell and every later one a hole, all coordinates
    scaled. Reading the CSV, printing and pickling are not modelled; the
    polygons, their parameters and the number of "Invalid Polygon!" messages
    are returned instead. */
module GenerateAlphabet {
  import opened Common
  import opened Geometry

  /** One row of the alphabet table. */
  datatype CsvRow = CsvRow(group: string, pathGroup: int, x: real, y: real)

  /** `dict(name=letter)`. */
  datatype PolyParams = PolyParams(name: string)

  // ---------------------------------------------------------------------------
  // pandas' unique and row selection
  // ---------------------------------------------------------------------------

  /** `Series.unique()`: the distinct values in order of first appearance. */
  function Unique<T(==)>(s: seq<T>): seq<T>
  {
    if s == [] then []
    else
      var u := Unique(s[..|s| - 1]);
      if s[|s| - 1] in u then u else u + [s[|s| - 1]]
  }

  /** The distinct values are each listed once, are exactly the values that
      occur, and the first is the first value of the column. */
  lemma {:induction false} UniqueFacts<T>(s: seq<T>)
    ensures forall i, j :: 0 <= i < j < |Unique(s)| ==> Unique(s)[i] != Unique(s)[j]
    ensures forall x :: x in Unique(s) <==> x in s
    ensures s != [] ==> Unique(s) != [] && Unique(s)[0] == s[0]
  {
    if s != [] {
      var init := s[..|s| - 1];
      UniqueFacts(init);
      assert s == init + [s[|s| - 1]];
      if init == [] {
        assert Unique(s) == [s[0]];
      }
    }
  }

  /** Order of first appearance: the distinct values of any prefix are a prefix
      of the distinct values of the whole column. */
  lemma {:induction false} UniquePrefix<T>(s: seq<T>, k: nat)
    requires k <= |s|
    ensures Unique(s[..k]) <= Unique(s)
    decreases |s| - k
  {
    if k < |s| {
      var init := s[..|s| - 1];
      assert s[..k] == init[..k];
      UniquePrefix(init, k);
    } else {
      assert s[..k] == s;
    }
  }

  /** The letter column, row by row. */
  function Groups(rows: seq<CsvRow>): seq<string>
  {
    seq(|rows|, i requires 0 <= i < |rows| => rows[i].group)
  }

  /** The path-group column, row by row. */
  function PathGroups(rows: seq<CsvRow>): seq<int>
  {
    seq(|rows|, i requires 0 <= i < |rows| => rows[i].pathGroup)
  }

  /** `df['group'].unique()`. */
  function Letters(rows: seq<CsvRow>): seq<string>
  {
    Unique(Groups(rows))
  }

  /** `df[df['group'] == letter]`. */
  function LetterRows(rows: seq<CsvRow>, letter: string): seq<CsvRow>
  {
    Filter((r: CsvRow) => r.group == letter, rows)
  }

  /** `df_[df_['pathGroup'] == p_group]`. */
  function PathRows(rows: seq<CsvRow>, pathGroup: int): seq<CsvRow>
  {
    Filter((r: CsvRow) => r.pathGroup == pathGroup, rows)
  }

  /** `asLinearRing(dfp_[['x', 'y']].values * scale)`: the rows' vertices, in
      row order, each coordinate multiplied by `scale`. */
  function ScaledRing(rows: seq<CsvRow>, scale: real): Ring
  {
    Ring(seq(|rows|, i requires 0 <= i < |rows| => Point(rows[i].x * scale, rows[i].y * scale)))
  }

  /** The ring of one path group of a letter. */
  function GroupRing(letterRows: seq<CsvRow>, pathGroup: int, scale: real): Ring
  {
    ScaledRing(PathRows(letterRows, pathGroup), scale)
  }

  /** The polygon built for one letter: the ring of its first path group as
      shell, the rings of the later path groups, in order, as holes. A letter
      without rows leaves the shell unset, which builds the empty polygon. */
  function LetterPolygon(rows: seq<CsvRow>, letter: string, scale: real): Polygon
  {
    var letterRows := LetterRows(rows, letter);
    var groups := Unique(PathGroups(letterRows));
    if groups == [] then Polygon(Ring([]), [])
    else
      Polygon(GroupRing(letterRows, groups[0], scale),
              seq(|groups| - 1, i requires 0 <= i < |groups| - 1 => GroupRing(letterRows, groups[i + 1], scale)))
  }

  /** The number of polygons `is_valid` rejects. */
  function InvalidCount(polys: seq<Polygon>, isValid: Polygon -> bool): nat
  {
    if polys == [] then 0
    else InvalidCount(polys[..|polys| - 1], isValid) + (if isValid(polys[|polys| - 1]) then 0 else 1)
  }

  /** The inner loop of `main` for one letter: the first path group's ring
      becomes the shell, every later one is appended to the holes. */
  method BuildLetterPolygon(rows: seq<CsvRow>, letter: string, scale: real) returns (poly: Polygon)
    ensures poly == LetterPolygon(rows, letter, scale)
  {
    var shell: Option<Ring> := None;
    var holes: seq<Ring> := [];
    var letterRows := LetterRows(rows, letter);
    var pGroups := Unique(PathGroups(letterRows));
    var index := 0;
    while index < |pGroups|
      invariant 0 <= index <= |pGroups|
      invariant index == 0 ==> shell == None && holes == []
      invariant index > 0 ==> shell == Some(GroupRing(letterRows, pGroups[0], scale))
      invariant index > 0 ==> |holes| == index - 1
      invariant forall j :: 0 <= j < |holes| ==> holes[j] == GroupRing(letterRows, pGroups[j + 1], scale)
    {
      var lr := ScaledRing(PathRows(letterRows, pGroups[index]), scale);
      if index == 0 {
        shell := Some(lr);
      } else {
        holes := holes + [lr];
      }
      index := index + 1;
    }
    poly := if shell.Some? then Polygon(shell.value, holes) else Polygon(Ring([]), holes);
  }

  /** The polygons of the given letters, in their order. */
  function LetterPolygons(rows: seq<CsvRow>, letters: seq<string>, scale: real): seq<Polygon>
  {
    Map((letter: string) => LetterPolygon(rows, letter, scale), letters)
  }

  /** The parameter entries of the given letters, in their order. */
  function LetterParams(letters: seq<string>): seq<PolyParams>
  {
    Map((letter: string) => PolyParams(letter), letters)
  }

  /** There is one polygon and one parameter entry per letter: the `i`-th
      polygon is built from the `i`-th letter's rows and the `i`-th entry names
      that letter. */
  lemma LetterPolygonsPointwise(rows: seq<CsvRow>, letters: seq<string>, scale: real)
    ensures |LetterPolygons(rows, letters, scale)| == |LetterParams(letters)| == |letters|
    ensures forall i :: 0 <= i < |letters| ==>
      LetterPolygons(rows, letters, scale)[i] == LetterPolygon(rows, letters[i], scale)
      && LetterParams(letters)[i] == PolyParams(letters[i])
  {
    MapPointwise((letter: string) => LetterPolygon(rows, letter, scale), letters);
    MapPointwise((letter: string) => PolyParams(letter), letters);
  }

  /** `main(scale, points)`: one polygon and one parameter entry per distinct
      letter, in order of first appearance. Every polygon is kept, valid or
      not; the invalid ones are only counted. */
  method BuildLetters(rows: seq<CsvRow>, scale: real, isValid: Polygon -> bool)
    returns (polyLetters: seq<Polygon>, polyParams: seq<PolyParams>, invalidCount: nat)
    ensures polyLetters == LetterPolygons(rows, Letters(rows), scale)
    ensures polyParams == LetterParams(Letters(rows))
    ensures invalidCount == InvalidCount(polyLetters, isValid)
  {
    var letters := Letters(rows);
    polyLetters, polyParams, invalidCount := [], [], 0;
    var k := 0;
    while k < |letters|
      invariant 0 <= k <= |letters|
      invariant polyLetters == LetterPolygons(rows, letters[..k], scale)
      invariant polyParams == LetterParams(letters[..k])
      invariant invalidCount == InvalidCount(polyLetters, isValid)
    {
      var letter := letters[k];
      var poly := BuildLetterPolygon(rows, letter, scale);
      if !isValid(poly) {
        invalidCount := invalidCount + 1;
      }
      assert letters[..k + 1][..k] == letters[..k];
      assert (polyLetters + [poly])[..|polyLetters|] == polyLetters;
      assert LetterPolygons(rows, letters[..k + 1], scale) == polyLetters + [poly];
      polyLetters := polyLetters + [poly];
      polyParams := polyParams + [PolyParams(letter)];
      k := k + 1;
    }
    assert letters[..k] == letters;
  }

  /** Every letter that occurs gets its polygon (and nothing else does), each
      once; the first polygon belongs to the first row's letter. */
  lemma LettersCovered(rows: seq<CsvRow>)
    ensures forall r :: r in rows ==> r.group in Letters(rows)
    ensures forall letter :: letter in Letters(rows) ==> exists r :: r in rows && r.group == letter
    ensures forall i, j :: 0 <= i < j < |Letters(rows)| ==> Letters(rows)[i] != Letters(rows)[j]
    ensures rows != [] ==> Letters(rows) != [] && Letters(rows)[0] == rows[0].group
  {
    UniqueFacts(Groups(rows));
    forall r | r in rows
      ensures r.group in Letters(rows)
    {
      var i :| 0 <= i < |rows| && rows[i] == r;
      assert Groups(rows)[i] == r.group;
    }
    forall letter | letter in Letters(rows)
      ensures exists r :: r in rows && r.group == letter
    {
      var i :| 0 <= i < |rows| && Groups(rows)[i] == letter;
      assert rows[i] in rows;
    }
  }

  /** For a letter that occurs, the shell is the ring of the path group of the
      letter's first row (in row order, scaled), and every row of the letter
      belongs to the shell's path group or to that of exactly one hole. */
  lemma LetterShellAndHoles(rows: seq<CsvRow>, letter: string, scale: real)
    requires exists r :: r in rows && r.group == letter
    ensures var letterRows := LetterRows(rows, letter);
      var groups := Unique(PathGroups(letterRows));
      var poly := LetterPolygon(rows, letter, scale);
      && letterRows != [] && groups != []
      && groups[0] == letterRows[0].pathGroup
      && poly.exterior == GroupRing(letterRows, letterRows[0].pathGroup, scale)
      && |poly.interiors| == |groups| - 1
      && (forall r :: r in letterRows ==> r.pathGroup in groups)
  {
    var p := (r: CsvRow) => r.group == letter;
    var r :| r in rows && r.group == letter;
    FilterMembership(p, rows, r);
    var letterRows := LetterRows(rows, letter);
    UniqueFacts(PathGroups(letterRows));
    forall q | q in letterRows
      ensures q.pathGroup in Unique(PathGroups(letterRows))
    {
      var i :| 0 <= i < |letterRows| && letterRows[i] == q;
      assert PathGroups(letterRows)[i] == q.pathGroup;
    }
  }
}
