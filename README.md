# concavehull-evaluation, modelled in Dafny

The concavehull-evaluation repository benchmarks several concave-hull engines
against each other: a CGAL alpha-shape driver written in C++, the Polylidar
meshing library, and the concave-hull functions of PostGIS and Spatialite. Around
those engines sit small sequential routines, and this project models them:

- the CGAL driver's point-file reader, its REGULAR-edge filter, its timing loop,
  its argument rules and its `[a,b,c]` list printer;
- the conversion of the driver's output matrix into line segments;
- merging bounding boxes and rounding a parameter dictionary in place;
- selecting Shapely polygons from Polylidar's output. The list is sorted by
  shell size, invalid polygons are dropped, and the first polygon, the single
  one or all of them are returned;
- narrowing a PostGIS result to its polygonal members;
- gathering rings for the point-to-boundary distance, splitting the sampling
  work, and scaling a polygon's bounding box into a square;
- building one letter polygon (shell and holes) per glyph of the alphabet table;
- discovering the RealSense scene directories and deriving their indices;
  building the four algorithms' keyword arguments and their records;
- the unit grid the Polylidar benchmark scripts generate, and their record
  loops.

The geometry engines are never modelled: Shapely, CGAL, Polylidar and the
databases. Their results enter as parameters (function values or input
sequences), and geometry is an opaque datatype that exposes only what the
harness inspects. Python exceptions become a `Result` datatype whose error
names the exception. Each source file has one Dafny module. The shared
datatypes live in `Common` (results, points, boxes, filtering, folding) and
`Geometry` (rings, polygons, geometry-type tags). The three identical copies of
`gen_points` are modelled once, in `Grid`.

Where the source changes state step by step, the model does too. Loops become
methods with invariants, proved against a specification function:
- the caller's list that `convert_to_shapely_polygons` sorts in place is a
  class with a sequence field;
- the dictionary `round_dict` overwrites is a class with a map field;
- the C++ output stream is a class.

Library sorts (`list.sort`) are specification functions proved sorted, a
permutation of their input and, where Python promises it, stable.

## Model

| member | source | states |
|---|---|---|
| CgalAlpha.Stream.constructor | cpp/cgal/cgal_alpha.cpp:124-144 | a fresh output stream has nothing written to it |
| CgalAlpha.Stream.Write | cpp/cgal/cgal_alpha.cpp:31-35 | writing to a stream appends the text to what it already holds, and changes nothing else |
| CgalAlpha.PrintVector | cpp/cgal/cgal_alpha.cpp:26-37 | when `os` is `std::cout`, the output is `[`, then the elements separated by single commas (no leading or trailing comma), then `]`; an empty vector prints `[]`. When `os` is another stream, only the brackets reach `os` and the elements go to `std::cout` |
| CgalAlpha.JoinedSnoc | cpp/cgal/cgal_alpha.cpp:32-34 | adding one element adds one comma before it, except when it is the first |
| CgalAlpha.Split | cpp/cgal/cgal_alpha.cpp:26-37 | splitting printed text at commas always yields at least one field |
| CgalAlpha.SplitPrefix | cpp/cgal/cgal_alpha.cpp:32-34 | a comma-free element in front of a text becomes the start of its first field |
| CgalAlpha.SplitJoined | cpp/cgal/cgal_alpha.cpp:26-37 | the printed list can be read back unambiguously: splitting it at its commas returns exactly the printed elements, whenever the elements contain no comma |
| CgalAlpha.RegularSegmentsExact | cpp/cgal/cgal_alpha.cpp:39-50 | `alpha_edges` outputs exactly the REGULAR edges, each once, in iterator order: the k-th segment is the segment of the k-th REGULAR edge, and no REGULAR edge is missed |
| CgalAlpha.RegularPositionsPick | cpp/cgal/cgal_alpha.cpp:46-48 | every segment written comes from a REGULAR edge, in the position of that edge among the REGULAR ones |
| CgalAlpha.RegularPositionsIncreasing | cpp/cgal/cgal_alpha.cpp:44-48 | the REGULAR edges are written in iterator order |
| CgalAlpha.RegularPositionsComplete | cpp/cgal/cgal_alpha.cpp:44-48 | no REGULAR edge is dropped |
| CgalAlpha.AlphaEdges | cpp/cgal/cgal_alpha.cpp:39-50 | the loop appends, after what the output iterator already holds, exactly the segments of the REGULAR edges |
| CgalAlpha.LeadingPointsPrefix | cpp/cgal/cgal_alpha.cpp:77-85 | the points read are those of the longest prefix of lines that parse: one per line, in line order, and the line after them (if any) does not parse |
| CgalAlpha.LeadingPointsIgnoreRest | cpp/cgal/cgal_alpha.cpp:81 | once a line fails to parse, no later line contributes a point |
| CgalAlpha.LeadingPointsSnoc | cpp/cgal/cgal_alpha.cpp:77-83 | while every line has parsed, one more good line adds its point at the end |
| CgalAlpha.LeadingPointsStop | cpp/cgal/cgal_alpha.cpp:81 | the first bad line ends the reading: the points are those of the lines before it |
| CgalAlpha.FileInput | cpp/cgal/cgal_alpha.cpp:66-89 | returns false only when the file cannot be opened, and then appends nothing; otherwise it returns true (even with zero points) and appends the points of the lines before the first bad line |
| CgalAlpha.CalculateAlphaShape | cpp/cgal/cgal_alpha.cpp:93-120 | returns one timing per iteration (none when `n <= 0`), the i-th being iteration i's duration. It appends the REGULAR edges of the shape to `segments` once, not once per iteration |
| CgalAlpha.RunDriver | cpp/cgal/cgal_alpha.cpp:122-147 | with fewer than four argv entries, or an input file that cannot be opened, it exits with -1 having written and printed nothing. Otherwise it exits with 0, writes to argv[2] the REGULAR edges of the shape of the file's readable points, and prints the `[t0,t1,...]` timings. The number of timings comes from argv[4] only when argv has exactly five entries, and is 1 otherwise |
| CgalEvaluation.CreateLineStrings | concave_evaluation/cgal_evaluation/__init__.py:13-21 | one segment per row, in row order; segment i runs from (row[i][0], row[i][1]) to (row[i][2], row[i][3]), and further columns are ignored; zero rows give an empty list; a row narrower than four raises IndexError |
| CgalEvaluation.SegmentRow | concave_evaluation/cgal_evaluation/__init__.py:17-18 | the matrix row of a segment has exactly the four columns `create_line_strings` reads |
| CgalEvaluation.ReadBackSegments | concave_evaluation/cgal_evaluation/__init__.py:13-21 | round trip: the rows of a list of segments are read back as exactly those segments, in order |
| ComplexityPolylidar.SizeRecords | scripts/complexity_polylidar.py:23-25 | one record per repetition for each size |
| ComplexityPolylidar.AllRecords | scripts/complexity_polylidar.py:19-25 | `reps` records for every entry of `n_val` |
| ComplexityPolylidar.MeasureRuns | scripts/complexity_polylidar.py:20-25 | the inner loop yields the records of its size: `reps` of them, each with the grid's point count and that run's three timings |
| ComplexityPolylidar.PolylidarTimings | scripts/complexity_polylidar.py:16-26 | fails with ValueError exactly when some size is negative (`math.sqrt`); otherwise returns the records of every size, size by size |
| ComplexityPolylidar.AllRecordsLayout | scripts/complexity_polylidar.py:19-25 | exactly `reps` records per size, grouped in `n_val` order: record `a * reps + j` is the j-th run on the a-th size, and its `n` is ⌊√n⌋² |
| EdgeGrowth.MeasureSize | scripts/edge_growth.py:25-33 | the loop body fails with ValueError exactly for a negative size, and otherwise with IndexError exactly when polylidar finds no polygon; a record has `n == n_copy == ⌊√n⌋²`, `triangles * 3 == edges`, and the first polygon's shell length as its border edges |
| EdgeGrowth.ReadExtraction | scripts/edge_growth.py:27-33 | IndexError exactly when there is no polygon; otherwise `n` and `n_copy` are the grid's size, `edges` the triangle-index count, `triangles` a third of it, the border edges the first shell's length and the hull size polylidar's hull count |
| EdgeGrowth.PolylidarEdgeGrowth | scripts/edge_growth.py:21-34 | the loop yields the record of every size in order, or the first failing size's error |
| EdgeGrowth.AllRecordsOutcome | scripts/edge_growth.py:21-34 | the loop emits exactly one record per entry of `n_val`, in order, whatever `reps` is; it fails exactly when some size fails, with the error of the first one |
| EdgeGrowth.SizeRecordFields | scripts/edge_growth.py:25-33 | every record has `n == n_copy == ⌊√n⌋²` and `triangles * 3 == edges`; its border-edge count is the first polygon's shell length |
| EdgeGrowth.SizeRecord | scripts/edge_growth.py:25-33 | a size fails with ValueError exactly when it is negative, otherwise only with IndexError; a record has `n == n_copy` and `triangles * 3 == edges` (EdgeGrowth.SizeRecordFields gives every field) |
| GenerateAlphabet.UniqueFacts | scripts/generate_alphabet.py:26 | `unique()` lists each value once, lists exactly the values that occur, and starts with the first value |
| GenerateAlphabet.UniquePrefix | scripts/generate_alphabet.py:26 | `unique()` keeps the order of first appearance: the distinct values of any prefix come first |
| GenerateAlphabet.BuildLetterPolygon | scripts/generate_alphabet.py:30-41 | a letter's polygon: the first path group's scaled ring is the shell, and every later group's scaled ring is a hole, in order |
| GenerateAlphabet.LetterPolygonsPointwise | scripts/generate_alphabet.py:44-45 | one polygon and one parameter entry per letter; the i-th entry's name is the i-th letter |
| GenerateAlphabet.BuildLetters | scripts/generate_alphabet.py:24-48 | one polygon and one parameter entry per distinct letter, in order of first appearance; invalid polygons are kept and only counted |
| GenerateAlphabet.LettersCovered | scripts/generate_alphabet.py:26-29 | every letter that occurs gets a polygon, and only those letters; each gets exactly one; the first polygon belongs to the first row's letter |
| GenerateAlphabet.LetterShellAndHoles | scripts/generate_alphabet.py:32-41 | for a letter that occurs, the shell is the scaled ring of the path group of the letter's first row; there is one hole per later path group; every row of the letter belongs to one of these groups |
| Grid.StepCount | scripts/complexity_polylidar.py:7 | a slice `start:stop:step` with a positive step has as many values as fit below `stop` |
| Grid.StepCountValues | scripts/complexity_polylidar.py:7 | value i of the slice exists exactly when `start + i * step < stop` |
| Grid.Column | scripts/complexity_polylidar.py:7-9 | one grid row per y value for each x value |
| Grid.Columns | scripts/complexity_polylidar.py:7-9 | the flattened grid has `nx * ny` rows |
| Grid.ColumnsRow | scripts/complexity_polylidar.py:7-9 | row k of the flattened grid is `(xmin + (k div ny) * xstep, ymin + (k mod ny) * ystep)` |
| Grid.GenPointsLayout | scripts/complexity_polylidar.py:6-10 | `gen_points` yields `nx * ny` rows (the step counts of the two ranges); row k is `(xmin + (k div ny) * xstep, ymin + (k mod ny) * ystep)`, so x varies slowest |
| Grid.GenPoints | scripts/complexity_polylidar.py:6-10 | the grid has one point per pair of an x step and a y step (Grid.GenPointsLayout gives each point) |
| Grid.StepCountUnit | scripts/complexity_polylidar.py:21 | `0:n:1` has `n` values (none when `n <= 0`) |
| Grid.StepCountShift | scripts/complexity_polylidar.py:7 | a slice's length depends only on the distance between its ends |
| Grid.UnitGridRows | scripts/complexity_polylidar.py:20-22 | the unit grid of side v from the origin has v² rows, row k being `(k div v, k mod v)` |
| Grid.UnitGridInside | scripts/complexity_polylidar.py:21 | every row of the unit grid of side v lies in `[0, v)²` |
| Grid.UnitGridComplete | scripts/complexity_polylidar.py:21 | every integer point of `[0, v)²` is a row of the unit grid, namely row `x * v + y` |
| Grid.UnitGrid | scripts/edge_growth.py:25-26 | the unit grid of side v holds exactly the integer points of `[0, v)²` |
| Grid.GenPointsDefault | scripts/profile_polylidar.py:4-8 | with the default arguments, `gen_points()` holds exactly the 100 integer points of `[0, 10)²` |
| Grid.ISqrt | scripts/complexity_polylidar.py:20 | `int(math.sqrt(n))` is the largest r with r² <= n |
| Grid.ISqrtUnique | scripts/edge_growth.py:25 | that r is the only natural number with r² <= n < (r + 1)² |
| Grid.ISqrtOfSquare | scripts/edge_growth.py:25-27 | the side of a square grid is recovered from its point count |
| Helpers.MaxBound | concave_evaluation/helpers/__init__.py:41-47 | the merged box reaches as far as both inputs on every side, and each side is that side of one of the inputs |
| Helpers.MaxBoundCommutative | concave_evaluation/helpers/__init__.py:41-47 | merging is commutative |
| Helpers.MaxBoundIdempotent | concave_evaluation/helpers/__init__.py:41-47 | merging a box with itself gives that box |
| Helpers.MaxBoundAssociative | concave_evaluation/helpers/__init__.py:41-47 | merging is associative |
| Helpers.MaxBoundContains | concave_evaluation/helpers/__init__.py:41-47 | for well-formed boxes (min <= max), the merged box is well formed and contains both |
| Helpers.FoldBoundsSeedTwice | concave_evaluation/helpers/__init__.py:35-37 | folding the first polygon's box in a second time (seed plus loop) changes nothing |
| Helpers.MaxBoundsPolys | concave_evaluation/helpers/__init__.py:34-39 | an empty list raises IndexError at `polygons[0]`; otherwise the result contains every polygon's bounds, and each of its sides is that side of some input |
| Helpers.RoundHalfEven | concave_evaluation/helpers/__init__.py:31 | `round` picks an integer within one half of the value, and an even one on a tie |
| Helpers.Round2Properties | concave_evaluation/helpers/__init__.py:31 | `round(v, 2)` moves a value by at most 0.005, yields a whole number of hundredths, and is idempotent |
| Helpers.ParamDict.constructor | concave_evaluation/helpers/__init__.py:29 | the dictionary holds the given entries |
| Helpers.ParamDict.RoundDict | concave_evaluation/helpers/__init__.py:29-32 | the dictionary is changed in place: same key set, each value replaced by its two-decimal rounding, and the same object is returned |
| PolylidarEvaluation.InsertByShellMultiset | concave_evaluation/polylidar_evaluation/__init__.py:18 | inserting into the sorted prefix adds the record and loses none |
| PolylidarEvaluation.InsertByShellMembers | concave_evaluation/polylidar_evaluation/__init__.py:18 | inserting brings in no record other than the inserted one |
| PolylidarEvaluation.SortedAppend | concave_evaluation/polylidar_evaluation/__init__.py:18 | appending a record no longer than any other keeps the descending order |
| PolylidarEvaluation.InsertByShellSorted | concave_evaluation/polylidar_evaluation/__init__.py:18 | inserting keeps the list in descending shell length |
| PolylidarEvaluation.InsertByShellFilter | concave_evaluation/polylidar_evaluation/__init__.py:18 | inserting places the record after every record of equal shell length |
| PolylidarEvaluation.SortByShellFacts | concave_evaluation/polylidar_evaluation/__init__.py:18 | the sort orders by descending shell length, is a permutation of its input, and is stable: records of equal shell length keep their relative order |
| PolylidarEvaluation.SortByShell | concave_evaluation/polylidar_evaluation/__init__.py:18 | sorting keeps exactly the records it was given (PolylidarEvaluation.SortByShellFacts gives the order) |
| PolylidarEvaluation.PolygonList.constructor | concave_evaluation/polylidar_evaluation/__init__.py:14 | the list holds the caller's records |
| PolylidarEvaluation.ValidShapesMembership | concave_evaluation/polylidar_evaluation/__init__.py:25-34 | a shape is kept exactly when it is valid and built from one of the records |
| PolylidarEvaluation.ValidShapesHeadIsLargest | concave_evaluation/polylidar_evaluation/__init__.py:36-38 | on the sorted list, the first valid shape has the longest shell among the valid ones |
| PolylidarEvaluation.KeepValid | concave_evaluation/polylidar_evaluation/__init__.py:25-34 | the loop skips invalid shapes and keeps the valid ones in sorted order |
| PolylidarEvaluation.SelectedNoValid | concave_evaluation/polylidar_evaluation/__init__.py:45-48 | a non-empty list with no valid polygon raises ValueError, whether or not `return_first` is set |
| PolylidarEvaluation.SelectedFirstIsLargest | concave_evaluation/polylidar_evaluation/__init__.py:37-38 | with `return_first` and some valid polygon, the result is a valid polygon with the largest shell among the valid ones |
| PolylidarEvaluation.SelectedAll | concave_evaluation/polylidar_evaluation/__init__.py:41-48 | without `return_first`: one valid polygon is returned bare, and two or more become a multi-polygon of all of them in sorted order. None valid raises ValueError |
| PolylidarEvaluation.Selected | concave_evaluation/polylidar_evaluation/__init__.py:19-48 | None exactly for an empty list; ValueError only when no polygon is valid; anything returned is a polygon or a multi-polygon |
| PolylidarEvaluation.ConvertToShapelyPolygons | concave_evaluation/polylidar_evaluation/__init__.py:14-50 | the caller's list is sorted in place (descending shell length, stable); an empty list returns None; otherwise the selection above is made from the valid polygons |
| PolylidarEvaluation.RunTest | concave_evaluation/polylidar_evaluation/__init__.py:69-85 | a positive `alpha` forces `xyThresh` to 0, otherwise it is kept; exactly `n` timings are returned, one per iteration, with the last iteration's polygons; `n <= 0` leaves the polygons unbound |
| PostgisEvaluation.PolygonalMembersExact | concave_evaluation/postgis_evaluation/__init__.py:62 | the comprehension keeps exactly the Polygon and MultiPolygon members, in their original order |
| PostgisEvaluation.NarrowAsWrittenFailsOnTwo | concave_evaluation/postgis_evaluation/__init__.py:63-65 | as written, any collection with two or more polygonal members raises NameError; as intended, it yields the multi-polygon of all of them |
| PostgisEvaluation.NarrowAsWrittenCounterexample | concave_evaluation/postgis_evaluation/__init__.py:64-65 | two polygons and a point: NameError as written, a two-polygon multi-polygon as intended |
| PostgisEvaluation.NarrowSpec | concave_evaluation/postgis_evaluation/__init__.py:60-68 | a non-collection is returned unchanged; one polygonal member is returned as is; several become a multi-polygon; none fails at `polygons[0]` |
| PostgisEvaluation.NarrowAsWritten | concave_evaluation/postgis_evaluation/__init__.py:60-68 | as written, a non-collection is returned unchanged; a collection fails with IndexError exactly when it has no polygonal member, returns its one polygonal member when it has exactly one, and succeeds only in that case |
| PostgisEvaluation.Narrow | concave_evaluation/postgis_evaluation/__init__.py:60-68 | as intended, a collection fails exactly when it has no polygonal member, with IndexError; a narrowed collection is always polygonal |
| PostgisEvaluation.ExtractConcaveHull | concave_evaluation/postgis_evaluation/__init__.py:41-68 | exactly `n` timings, one per execution, and only the last result is decoded and narrowed as intended (PostgisEvaluation.Narrow: IndexError without a polygonal member, a multi-polygon for several); `n <= 0` leaves the result unbound and fails |
| ProfilePolylidar.ProfilePointsGrid | scripts/profile_polylidar.py:11-14 | `main` builds the square unit grid of side ⌊√n⌋ from the origin; a negative `n` raises ValueError |
| ProfilePolylidar.ProfilePoints | scripts/profile_polylidar.py:11-14 | ValueError exactly for a negative `n`; otherwise ⌊√n⌋² points, never more than `n` |
| ProfilePolylidar.ProfileDefault | scripts/profile_polylidar.py:11-14 | with the default `n = 10_000_000` the side is 3162 and the grid has 3162² points |
| Realsense.StrLeTotal | concave_evaluation/scripts/realsense.py:72 | any two names are ordered one way or the other |
| Realsense.StrLeTransitive | concave_evaluation/scripts/realsense.py:72 | the name order is transitive |
| Realsense.StrLeAntisymmetric | concave_evaluation/scripts/realsense.py:72 | names ordered both ways are equal |
| Realsense.PartsLeTotal | concave_evaluation/scripts/realsense.py:72 | any two paths are ordered one way or the other |
| Realsense.PartsLeTransitive | concave_evaluation/scripts/realsense.py:72 | the path order is transitive |
| Realsense.InsertPath | concave_evaluation/scripts/realsense.py:72 | inserting a path lengthens the list by one |
| Realsense.SortPaths | concave_evaluation/scripts/realsense.py:72 | sorting keeps the number of paths |
| Realsense.InsertPathMultiset | concave_evaluation/scripts/realsense.py:72 | inserting adds the path and loses none |
| Realsense.InsertPathMembers | concave_evaluation/scripts/realsense.py:72 | inserting brings in no path other than the inserted one |
| Realsense.InsertPathSorted | concave_evaluation/scripts/realsense.py:72 | inserting into a sorted list keeps it sorted |
| Realsense.SortPathsFacts | concave_evaluation/scripts/realsense.py:72 | `paths.sort()` yields the same paths, each as often, in path order |
| Realsense.SortPathsPermutation | concave_evaluation/scripts/realsense.py:72 | sorting is a permutation |
| Realsense.SortPathsSorted | concave_evaluation/scripts/realsense.py:72 | sorting orders the paths |
| Realsense.RFind | concave_evaluation/scripts/realsense.py:78 | the last dot of a name is found, or its absence reported |
| Realsense.SplitOn | concave_evaluation/scripts/realsense.py:78 | `split('_')` yields at least one piece, and no piece holds a `_` |
| Realsense.SplitOnHead | concave_evaluation/scripts/realsense.py:78 | the text before the first `_` is the first piece |
| Realsense.SplitOnNone | concave_evaluation/scripts/realsense.py:78 | a text without `_` is one piece |
| Realsense.Strip | concave_evaluation/scripts/realsense.py:78 | `int()`'s stripping leaves no whitespace at either end |
| Realsense.ParseDigits | concave_evaluation/scripts/realsense.py:78 | a string of decimal digits parses to the number it spells |
| Realsense.StripKeeps | concave_evaluation/scripts/realsense.py:78 | stripping keeps every character that is not whitespace |
| Realsense.ParseIntRejects | concave_evaluation/scripts/realsense.py:78 | a string holding a character that is no digit, whitespace or sign raises ValueError |
| Realsense.SceneIdxSpec | concave_evaluation/scripts/realsense.py:78 | a stem `<prefix>_<digits>` has as index the number the digits spell, minus one |
| Realsense.SceneIdx | concave_evaluation/scripts/realsense.py:78 | a stem without `_` raises IndexError; an index is one less than the integer the piece after the first `_` spells |
| Realsense.DigitsHaveNoUnderscore | concave_evaluation/scripts/realsense.py:78 | a digit string is never split by `_` |
| Realsense.SceneIdxOfPieces | concave_evaluation/scripts/realsense.py:78 | the index is the second piece's value minus one |
| Realsense.SplitStem | concave_evaluation/scripts/realsense.py:78 | `<prefix>_<piece>` splits into the prefix and the piece |
| Realsense.SceneIdxErrors | concave_evaluation/scripts/realsense.py:78 | a stem without `_` raises IndexError; a non-numeric piece after the `_` raises ValueError |
| Realsense.SceneIdxExample | concave_evaluation/scripts/realsense.py:78 | `Scene_004` is scene 3 |
| Realsense.ThreeDigitsValue | concave_evaluation/scripts/realsense.py:78 | three digits spell hundreds, tens and units |
| Realsense.Children | concave_evaluation/scripts/realsense.py:70-71 | one path per directory entry, each joined to the directory |
| Realsense.BuildScenes | concave_evaluation/scripts/realsense.py:74-80 | one scene per path, in order, each with the six fixed file names inside its directory, its stem as name and the directory itself; the first path without a valid index stops the loop with that error |
| Realsense.GetRealsenseScenes | concave_evaluation/scripts/realsense.py:65-82 | one scene per directory entry, ordered by sorted path; the scene at position i is built from the i-th sorted path, or the first failing one's error is raised |
| Realsense.ScenePathsSorted | concave_evaluation/scripts/realsense.py:70-74 | the sorted paths are exactly the directory's entries, each once, in path order |
| Realsense.Merge | concave_evaluation/scripts/realsense.py:147-150 | `dict(**a, **b)` raises TypeError exactly when a key is in both; otherwise it holds every key of both with its value |
| Realsense.PostgisKwargsFinding | concave_evaluation/scripts/realsense.py:159 | as written, PostGIS runs with the Spatialite keywords: target percentage 0.99 (the default) and an extra `factor` of 3; as intended, with the computed target percentage |
| Realsense.PostgisKwargsCounterexample | concave_evaluation/scripts/realsense.py:144-159 | with no common parameters and a computed target of 0.5, PostGIS runs with 0.99 as written and 0.5 as intended |
| Realsense.RowSums | concave_evaluation/scripts/realsense.py:162 | polylidar's per-run timing is the sum of that run's sub-timings |
| Realsense.BuildKwargsSpec | concave_evaluation/scripts/realsense.py:131-150 | building the keyword dictionaries raises TypeError exactly when the common parameters already hold a key that an algorithm sets; PostGIS's own dictionary carries the computed target percentage |
| Realsense.MergeSingle | concave_evaluation/scripts/realsense.py:148-150 | adding one keyword fails exactly when it is already present |
| Realsense.MergePair | concave_evaluation/scripts/realsense.py:147 | adding two keywords fails exactly when either is already present |
| Realsense.RunTestOnSceneRecords | concave_evaluation/scripts/realsense.py:162-171 | when every run succeeds: four records in the order polylidar, cgal, spatialite, postgis, each stamped with the scene's name and point count, each carrying its run's L2 error; polylidar's timings are its per-run totals, the others' timings the runs' own |
| Realsense.RunTestOnScene | concave_evaluation/scripts/realsense.py:124-171 | an empty scene raises ZeroDivisionError first; then a key clash in the dictionaries raises its TypeError; then the first run to fail, in the order polylidar, CGAL, Spatialite, PostGIS, passes on its error; it succeeds exactly when all four runs do, with four records stamped with the scene's name and point count |
| TestGeneration.GatherRings | concave_evaluation/test_generation/__init__.py:7-18 | a Polygon yields its exterior then its interiors in order. A MultiPolygon yields the exteriors in reverse member order, then all interiors in member order. Any other type raises NotImplementedError |
| TestGeneration.GatheredRingsComplete | concave_evaluation/test_generation/__init__.py:12-16 | a multi-polygon contributes one exterior per member, last member first, and every member's interiors |
| TestGeneration.ExteriorsReversedOrder | concave_evaluation/test_generation/__init__.py:14-16 | the j-th gathered exterior belongs to the j-th member from the end |
| TestGeneration.AllInteriorsComplete | concave_evaluation/test_generation/__init__.py:14-15 | every interior of every member is gathered |
| TestGeneration.MinOf | concave_evaluation/test_generation/__init__.py:21 | `min` is at most every value and equals one of them |
| TestGeneration.DistanceTo | concave_evaluation/test_generation/__init__.py:7-21 | the result is at most the distance to every gathered ring and equals the distance to one of them. Non-polygonal types raise NotImplementedError; a memberless multi-polygon raises ValueError |
| TestGeneration.RingsOfEmpty | concave_evaluation/test_generation/__init__.py:12-20 | the gathered ring list is empty only for a multi-polygon without members |
| TestGeneration.RingsOf | concave_evaluation/test_generation/__init__.py:7-18 | NotImplementedError exactly for a geometry that is neither a polygon nor a multi-polygon; a polygon gives its exterior first, then one ring per interior |
| TestGeneration.MinOverRings | concave_evaluation/test_generation/__init__.py:20-21 | the minimum distance is at most each ring's distance and attained by one ring |
| TestGeneration.TotalCountUniform | concave_evaluation/test_generation/__init__.py:25 | items of equal size ask for their number times that size |
| TestGeneration.WorkItemsAsWrittenTotal | concave_evaluation/test_generation/__init__.py:24-26 | as written, always four items, item i seeded with i, asking together for `4 * num_points / processes` points, which equals `num_points` only when `processes` is 4 or no points are asked for |
| TestGeneration.WorkItemsAsWrittenCounterexample | concave_evaluation/test_generation/__init__.py:24-25 | 100 points on two processes: 200 points asked for as written, 100 as intended |
| TestGeneration.WorkItemsAsWritten | concave_evaluation/test_generation/__init__.py:23-26 | ZeroDivisionError exactly for zero processes; otherwise four items, item i seeded with i, each asking for `num_points / processes` points |
| TestGeneration.WorkItemsTotal | concave_evaluation/test_generation/__init__.py:24-26 | as intended, one item per process, item i seeded with i, asking together for exactly `num_points` points |
| TestGeneration.ScaledToOriginBox | concave_evaluation/test_generation/__init__.py:52-54 | with a positive factor, scaling about the centre then shifting to the origin gives the box from (0, 0) with the old sides times the factor |
| TestGeneration.RatioFits | concave_evaluation/test_generation/__init__.py:51 | the factor is positive, brings one side exactly to `max_size`, and brings neither beyond it |
| TestGeneration.ScalePolyBox | concave_evaluation/test_generation/__init__.py:47-56 | on a box of positive width and height, `scale_poly` yields the origin box whose sides are the old ones times the common factor |
| TestGeneration.ScaledBox | concave_evaluation/test_generation/__init__.py:51-54 | that box starts at the origin, keeps the aspect ratio, and fits `max_size` with one side exactly equal to it |
| TestGeneration.ScalePolyFits | concave_evaluation/test_generation/__init__.py:47-56 | the scaled bounds start at (0, 0) and keep the aspect ratio; one side equals `max_size` and neither exceeds it |
| TestGeneration.ScalePoly | concave_evaluation/test_generation/__init__.py:47-56 | ZeroDivisionError exactly for a zero width or height; a scaled box always starts at the origin |

## Left out

- The segment-to-polygon assembly is not part of this model. `lines_to_polygon`
  is imported at concave_evaluation/cgal_evaluation/__init__.py:7 but none of
  the modelled files defines it. The code modelled here is the harness around it.
- `get_poly_coords`, `save_shapely`, `modified_fname` and `plot_line` are not
  part of this model. A polygon's coordinate lookup is a parameter.
- Shapely, CGAL, Polylidar and the databases are foreign libraries. Their
  results are parameters:
  - geometry construction, `is_valid`, `distance`, `area`, `convex_hull`,
    `within`, `buffer`, `difference`;
  - CGAL's alpha-shape construction and edge classification;
  - Polylidar's extraction and its timings;
  - the PostGIS query and its WKB decoding.
- The clock is a parameter: every timing is an input sequence. The
  microsecond-to-millisecond conversions (cpp/cgal/cgal_alpha.cpp:108-110,
  concave_evaluation/polylidar_evaluation/__init__.py:61) are left out.
- Floating-point arithmetic is not modelled: coordinates, ratios and timings
  are exact reals. This covers `measure_concavity`, `calc_mean_and_std`,
  `segment_points`, and the alpha and target-percent formulas of
  `run_test_on_scene`; the alpha value and the target percentage are
  parameters.
- Randomness is left out: `random_points_within`, `holes_poly` and the noise in
  `get_polygon`. Only the work split of `random_points_within_mp` is modelled.
  Its process pool is left out because it is concurrency.
- I/O, the CLI, persistence and plotting are left out: point files, CSV,
  pickle, GeoJSON, `load_polygon`, `get_data_from_scene`, `write_edges`,
  database connections and the matplotlib helpers. The CGAL driver's file
  system is a map from path to parsed lines, and its standard output is a
  `Stream` object.
- CgalAlpha.RunDriver: `stod`/`stoi` are parameters, so their exceptions on
  malformed numbers are not modelled. Each line of the point file is given
  already parsed (two numbers or a failure), and the textual form of a double
  is a parameter.
- CgalAlpha.FileInput: the point counter `n` is kept as in the source but not
  returned, because nothing reads it.
- Helpers.Round2: it rounds exact decimals half to even. Python's `round` on a
  binary float can differ at ties that the float does not represent exactly.
- Grid.GenPoints: covers positive steps only. Every caller uses step 1.
- Grid.ISqrt: `int(math.sqrt(n))` is modelled as the exact integer square root.
  Float rounding of `math.sqrt` for very large `n` is not captured.
- Realsense.ParseInt: accepts ASCII digits and ASCII whitespace only. Python's
  `int` also accepts other Unicode digits, other whitespace and `_` between
  digits.
- Realsense.Stem: follows `PurePath.stem` for plain names. Names that are only
  dots are not distinguished.
- Realsense.RunTestOnScene: gives PostGIS its own keyword arguments, which is
  the corrected behaviour (see Findings). The global keyword dictionary is
  modelled as a value, not as the configuration object it mutates. Each run is
  modelled with the result shape `run_test_on_scene` expects: its timings and
  its L2 error, or the error the run raises, with polylidar's timings as rows of sub-timings. The
  `run_test` functions of the evaluation packages return a geometry and its
  timings instead (concave_evaluation/polylidar_evaluation/__init__.py:85,
  concave_evaluation/postgis_evaluation/__init__.py:90). Given those, the row
  sum at concave_evaluation/scripts/realsense.py:162 and the three-way unpack
  at concave_evaluation/scripts/realsense.py:165-166 would fail. That mismatch
  is not modelled. The point density, `alpha` and the target percentage of
  concave_evaluation/scripts/realsense.py:140-144 are parameters; only the
  empty scene's ZeroDivisionError at :140 is modelled, not the one a
  ground-truth shape with a zero-area convex hull would raise at :144.
- PostgisEvaluation.ExtractConcaveHull: narrows the decoded geometry as
  intended (PostgisEvaluation.Narrow), so two or more polygonal members give
  their multi-polygon. The code as written raises NameError there
  (PostgisEvaluation.NarrowAsWritten, see Findings).
- TestGeneration.ScaledAboutCentre: assumes an ordered box (min <= max) and
  mirrors it on a negative factor by swapping corners. Shapely's scaling of the
  actual geometry is not modelled, only its bounding box.
- PolylidarEvaluation.RunTest: `get_polygon` is a function of `alpha` and
  `xyThresh`, so every iteration computes the same polygons. The noise option
  and Polylidar's own failure modes are not modelled.
- ComplexityPolylidar.PolylidarTimings and EdgeGrowth.PolylidarEdgeGrowth: what
  Polylidar reports for a grid is a parameter. `polylidar_kwargs` (`xyThresh`,
  `alpha`) is not passed to it.
- TestGeneration.DistanceTo: follows the code. A multi-polygon without members
  gathers no ring, and `min` of no distance raises ValueError, so the ring list
  can be empty.

## Findings

| source | as written | input that shows it | evidently intended | confidence | as-written member | corrected member |
|---|---|---|---|---|---|---|
| concave_evaluation/postgis_evaluation/__init__.py:64-65 | `MultiPolygon` is used but never imported (line 7 imports only `asMultiPoint` and `asPoint`), so a collection with two or more polygonal members raises NameError | a GeometryCollection of two polygons and a point | return the multi-polygon of all polygonal members | high (not executed) | PostgisEvaluation.NarrowAsWrittenCounterexample | PostgisEvaluation.NarrowSpec |
| concave_evaluation/test_generation/__init__.py:25 | the work list always has 4 items of `num_points / processes`, whatever `processes` is | `num_points = 100`, `processes = 2`: four items of 50, 200 points in all | one item per process, `num_points` points in all | high (not executed) | TestGeneration.WorkItemsAsWrittenCounterexample | TestGeneration.WorkItemsTotal |
| concave_evaluation/scripts/realsense.py:159 | PostGIS is run with `spatialite_kwargs`, so the computed `target_percent` never reaches it and the default 0.99 is used (plus an unused `factor`) | common parameters `{}`, computed target percentage 0.5: PostGIS runs with 0.99 | `run_test_postgis(points, **postgis_kwargs)` | high (not executed) | Realsense.PostgisKwargsCounterexample | Realsense.BuildKwargsSpec |
