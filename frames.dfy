/** The tables the heatmap holder works on. A pandas dataframe becomes a
    datatype: one sequence entry per row, and one `Option` per derived column
    that may or may not have been added yet. */
module Frames {
  import opened Wrappers

  /** One shapely coordinate tuple: `tup[0]` is the longitude (x),
      `tup[1]` the latitude (y). */
  datatype Coord = Coord(x: real, y: real)

  /** One row of the road-network shapefile: the four availability flags
      (`Avail_50_1`, `Avail_25_5`, `Avail_10_2`, `Avail_5_1_`) and the vertices
      of the segment's line geometry. */
  datatype Segment = Segment(avail50: int, avail25: int, avail10: int, avail5: int,
                             geometry: seq<Coord>)

  /** The road-network dataframe `dfmap`: its rows, plus the `max_speed` and
      `points` columns, which are absent until computed. */
  datatype NetworkFrame = NetworkFrame(rows: seq<Segment>,
                                       maxSpeed: Option<seq<int>>,
                                       points: Option<seq<seq<Coord>>>)
  {
    /** A column, when present, has one entry per row. */
    predicate Valid() {
      (maxSpeed.Some? ==> |maxSpeed.value| == |rows|) &&
      (points.Some? ==> |points.value| == |rows|)
    }

    /** Both derived columns are present, as `pointExtractor` needs. */
    predicate Prepared() {
      Valid() && maxSpeed.Some? && points.Some?
    }
  }

  /** The point-sample dataframe `for_map`, column by column. */
  datatype PointFrame = PointFrame(lat: seq<real>, long: seq<real>, speed: seq<int>)
  {
    /** A dataframe's columns all have the same number of rows. */
    predicate WellFormed() {
      |lat| == |long| == |speed|
    }

    function Rows(): nat {
      |lat|
    }

    /** Row-wise concatenation of two point frames. */
    function Append(other: PointFrame): PointFrame {
      PointFrame(lat + other.lat, long + other.long, speed + other.speed)
    }
  }

  /** One row of the boundary dataframe `dfcan`: the province or territory
      name (`PRENAME`) and the outline of its polygon. */
  datatype Boundary = Boundary(prename: string, outline: seq<Coord>)
}
