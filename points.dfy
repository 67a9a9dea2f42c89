/** The point extractor `pointExtractor`: one (lat, long, speed) sample per
    vertex per segment, in segment order and then vertex order. */
module Points {
  import opened Wrappers
  import opened Frames

  /** The empty `{'lat': [], 'long': [], 'speed': []}` table. */
  const Empty: PointFrame := PointFrame([], [], [])

  /** Total number of vertices over all segments. */
  function TotalVertices(points: seq<seq<Coord>>): nat
  {
    if points == [] then 0
    else TotalVertices(points[..|points| - 1]) + |points[|points| - 1]|
  }

  /** The samples of one segment: latitude is `tup[1]`, longitude `tup[0]`,
      and every vertex carries the segment's speed. */
  function SegmentFrame(speed: int, pts: seq<Coord>): (r: PointFrame)
    ensures r.WellFormed() && r.Rows() == |pts|
  {
    if pts == [] then Empty
    else
      var last := pts[|pts| - 1];
      SegmentFrame(speed, pts[..|pts| - 1]).Append(PointFrame([last.y], [last.x], [speed]))
  }

  /** The flattened table, built segment after segment. */
  function Flatten(speeds: seq<int>, points: seq<seq<Coord>>): (r: PointFrame)
    requires |speeds| == |points|
    ensures r.WellFormed() && r.Rows() == TotalVertices(points)
  {
    if points == [] then Empty
    else
      var n := |points| - 1;
      Flatten(speeds[..n], points[..n]).Append(SegmentFrame(speeds[n], points[n]))
  }

  /** Vertex `j` of a segment lands in row `j` of its frame. */
  lemma {:induction false} SegmentFrameAt(speed: int, pts: seq<Coord>, j: int)
    requires 0 <= j < |pts|
    ensures SegmentFrame(speed, pts).lat[j] == pts[j].y
    ensures SegmentFrame(speed, pts).long[j] == pts[j].x
    ensures SegmentFrame(speed, pts).speed[j] == speed
  {
    var n := |pts| - 1;
    if j < n {
      SegmentFrameAt(speed, pts[..n], j);
    }
  }

  /** The vertices of the segments before segment `i` come first. */
  lemma {:induction false} TotalVerticesPrefix(points: seq<seq<Coord>>, i: int)
    requires 0 <= i < |points|
    ensures TotalVertices(points[..i]) + |points[i]| <= TotalVertices(points)
  {
    var n := |points| - 1;
    assert points[..n + 1] == points;
    if i < n {
      assert points[..n][..i] == points[..i];
      TotalVerticesPrefix(points[..n], i);
    } else {
      assert points[..n] == points[..i];
    }
  }

  /** Vertex `j` of segment `i` is the row that follows the vertices of the
      segments before it; its latitude and longitude are swapped out of the
      coordinate pair and its speed is the segment's `max_speed`. */
  lemma {:induction false} FlattenAt(speeds: seq<int>, points: seq<seq<Coord>>, i: int, j: int)
    requires |speeds| == |points|
    requires 0 <= i < |points| && 0 <= j < |points[i]|
    ensures TotalVertices(points[..i]) + j < Flatten(speeds, points).Rows()
    ensures Flatten(speeds, points).lat[TotalVertices(points[..i]) + j] == points[i][j].y
    ensures Flatten(speeds, points).long[TotalVertices(points[..i]) + j] == points[i][j].x
    ensures Flatten(speeds, points).speed[TotalVertices(points[..i]) + j] == speeds[i]
  {
    var n := |points| - 1;
    TotalVerticesPrefix(points, i);
    if i < n {
      assert points[..n][..i] == points[..i];
      FlattenAt(speeds[..n], points[..n], i, j);
    } else {
      assert points[..n] == points[..i];
      SegmentFrameAt(speeds[n], points[n], j);
    }
  }

  /** Every row of the flattened table comes from some vertex of some
      segment: row `k` is vertex `j` of segment `i`. */
  lemma {:induction false} FlattenRowOrigin(points: seq<seq<Coord>>, k: int) returns (i: nat, j: nat)
    requires 0 <= k < TotalVertices(points)
    ensures i < |points| && j < |points[i]|
    ensures k == TotalVertices(points[..i]) + j
  {
    var n := |points| - 1;
    if k < TotalVertices(points[..n]) {
      i, j := FlattenRowOrigin(points[..n], k);
      assert points[..n][..i] == points[..i];
    } else {
      i, j := n, k - TotalVertices(points[..n]);
    }
  }

  /** Extending a segment's prefix by one vertex appends one row. */
  lemma SegmentFrameStep(speed: int, pts: seq<Coord>, j: int)
    requires 0 <= j < |pts|
    ensures SegmentFrame(speed, pts[..j + 1])
         == SegmentFrame(speed, pts[..j]).Append(PointFrame([pts[j].y], [pts[j].x], [speed]))
  {
    assert pts[..j + 1][..j] == pts[..j];
  }

  /** Extending the segment prefix by one segment appends its samples. */
  lemma FlattenStep(speeds: seq<int>, points: seq<seq<Coord>>, i: int)
    requires |speeds| == |points| && 0 <= i < |points|
    ensures Flatten(speeds[..i + 1], points[..i + 1])
         == Flatten(speeds[..i], points[..i]).Append(SegmentFrame(speeds[i], points[i]))
  {
    assert speeds[..i + 1][..i] == speeds[..i];
    assert points[..i + 1][..i] == points[..i];
  }

  /** Row-wise concatenation is associative. */
  lemma AppendAssoc(a: PointFrame, b: PointFrame, c: PointFrame)
    ensures a.Append(b).Append(c) == a.Append(b.Append(c))
  {
    assert (a.lat + b.lat) + c.lat == a.lat + (b.lat + c.lat);
    assert (a.long + b.long) + c.long == a.long + (b.long + c.long);
    assert (a.speed + b.speed) + c.speed == a.speed + (b.speed + c.speed);
  }

  /** `pointExtractor(df)`: the nested loops over rows and vertices that
      extend the three lists of `pdict`. */
  method PointExtractor(df: NetworkFrame) returns (pf: PointFrame)
    requires df.Prepared()
    ensures pf == Flatten(df.maxSpeed.value, df.points.value)
    ensures pf.WellFormed() && pf.Rows() == TotalVertices(df.points.value)
  {
    var speeds, rows := df.maxSpeed.value, df.points.value;
    var lat, long, speed := [], [], [];
    for i := 0 to |rows|
      invariant PointFrame(lat, long, speed) == Flatten(speeds[..i], rows[..i])
    {
      ghost var done := Flatten(speeds[..i], rows[..i]);
      var pts := rows[i];
      for j := 0 to |pts|
        invariant PointFrame(lat, long, speed) == done.Append(SegmentFrame(speeds[i], pts[..j]))
      {
        SegmentFrameStep(speeds[i], pts, j);
        AppendAssoc(done, SegmentFrame(speeds[i], pts[..j]),
                    PointFrame([pts[j].y], [pts[j].x], [speeds[i]]));
        lat := lat + [pts[j].y];
        long := long + [pts[j].x];
        speed := speed + [speeds[i]];
      }
      assert pts[..|pts|] == pts;
      FlattenStep(speeds, rows, i);
    }
    assert speeds[..|rows|] == speeds && rows[..|rows|] == rows;
    pf := PointFrame(lat, long, speed);
  }
}
