/** Reading back the CGAL driver's output: each row of the loaded matrix
    `x1 y1 x2 y2` becomes one two-point line string. Assembling those segments
    into a polygon is not part of this model. */
module CgalEvaluation {
  import opened Common

  /** The line string of one matrix row: from (row[0], row[1]) to (row[2], row[3]). */
  function RowSegment(row: seq<real>): Segment
    requires |row| >= 4
  {
    Segment(Point(row[0], row[1]), Point(row[2], row[3]))
  }

  /** `create_line_strings(result)`: one segment per row, in row order; extra
      columns are ignored. A row with fewer than four columns raises IndexError
      (a loaded matrix has rows of one width, so either all rows fail or none). */
  method CreateLineStrings(result: seq<seq<real>>) returns (r: Result<seq<Segment>>)
    ensures r.Err? <==> exists i :: 0 <= i < |result| && |result[i]| < 4
    ensures r.Err? ==> r.error == IndexError
    ensures r.Ok? ==> |r.value| == |result|
    ensures r.Ok? ==> forall i :: 0 <= i < |result| ==>
      |result[i]| >= 4 && r.value[i] == Segment(Point(result[i][0], result[i][1]), Point(result[i][2], result[i][3]))
  {
    var numLines := |result|;
    var allLines: seq<Segment> := [];
    var i := 0;
    while i < numLines
      invariant 0 <= i <= numLines
      invariant |allLines| == i
      invariant forall j :: 0 <= j < i ==> |result[j]| >= 4 && allLines[j] == RowSegment(result[j])
    {
      var npLine := result[i];
      if |npLine| < 4 {
        return Err(IndexError);
      }
      allLines := allLines + [RowSegment(npLine)];
      i := i + 1;
    }
    r := Ok(allLines);
  }

  /** The row the CGAL driver writes for a segment: `x1 y1 x2 y2`. */
  function SegmentRow(s: Segment): (row: seq<real>)
    ensures |row| == 4
  {
    [s.source.x, s.source.y, s.target.x, s.target.y]
  }

  /** Round trip: the rows written for a list of segments are read back as
      exactly those segments, in order. */
  method ReadBackSegments(segments: seq<Segment>) returns (r: Result<seq<Segment>>)
    ensures r == Ok(segments)
  {
    var rows := seq(|segments|, i requires 0 <= i < |segments| => SegmentRow(segments[i]));
    r := CreateLineStrings(rows);
    assert r.value == segments;
  }
}
