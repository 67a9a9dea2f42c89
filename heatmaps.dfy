/** The holder class `NetworkHeatmaps`: the two input dataframes, the
    configuration, and the results it caches on itself (`max_speed` and
    `points` columns, `for_map`, and the grid `xi`, `yi`, `zi`). */
module Heatmaps {
  import opened Wrappers
  import opened Frames
  import opened Speed
  import opened Points
  import opened Grid
  import opened Provinces

  /** The `points` column: each row's geometry as its list of coordinates. */
  function Geometries(rows: seq<Segment>): (r: seq<seq<Coord>>)
    ensures |r| == |rows|
    ensures forall i :: 0 <= i < |rows| ==> r[i] == rows[i].geometry
  {
    seq(|rows|, i requires 0 <= i < |rows| => rows[i].geometry)
  }

  /** The two derived columns of `dfmap` after `prepData`: each is computed
      only when it is not there yet. */
  function PrepColumns(df: NetworkFrame): (r: NetworkFrame)
    requires df.Valid()
    ensures r.Prepared() && r.rows == df.rows
  {
    df.(maxSpeed := if df.maxSpeed.Some? then df.maxSpeed else Some(ClassifyAll(df.rows)),
        points := if df.points.Some? then df.points else Some(Geometries(df.rows)))
  }

  /** Preparing prepared columns changes nothing. */
  lemma PrepColumnsIdempotent(df: NetworkFrame)
    requires df.Valid()
    ensures PrepColumns(PrepColumns(df)) == PrepColumns(df)
  {
  }

  /** Columns that are already there are never overwritten, and the ones
      computed are those of the current rows. */
  lemma PrepColumnsKeeps(df: NetworkFrame)
    requires df.Valid()
    ensures df.maxSpeed.Some? ==> PrepColumns(df).maxSpeed == df.maxSpeed
    ensures df.points.Some? ==> PrepColumns(df).points == df.points
    ensures df.maxSpeed.None? ==> forall i :: 0 <= i < |df.rows| ==>
              PrepColumns(df).maxSpeed.value[i] == MaxAvail(df.rows[i])
    ensures df.points.None? ==> forall i :: 0 <= i < |df.rows| ==>
              PrepColumns(df).points.value[i] == df.rows[i].geometry
  {
  }

  class NetworkHeatmaps {
    var dfcan: seq<Boundary>
    var dfmap: NetworkFrame
    var xi: Option<seq<real>>
    var yi: Option<seq<real>>
    var zi: array2?<Option<real>>
    var folder: string
    var suffix: string
    var save: bool
    var points: nat
    var forMap: Option<PointFrame>

    /** `NetworkHeatmaps(dfcan, dfmap, folder, suffix, save, points)`, with
        the source's defaults. Nothing is computed yet. */
    constructor (dfcan: seq<Boundary>, dfmap: NetworkFrame, folder: string := "fig/",
                 suffix: string := "_heat", save: bool := false, points: nat := 1000)
      ensures this.dfcan == dfcan && this.dfmap == dfmap
      ensures this.folder == folder && this.suffix == suffix
      ensures this.save == save && this.points == points
      ensures xi.None? && yi.None? && zi == null && forMap.None?
    {
      this.dfcan := dfcan;
      this.dfmap := dfmap;
      xi, yi, zi := None, None, null;
      this.folder := folder;
      this.suffix := suffix;
      this.save := save;
      this.points := points;
      forMap := None;
    }

    /** The point cloud `prepData` hands to the interpolation: the cached
        `for_map` if there is one, else the one extracted from the prepared
        columns. */
    ghost function CloudAfterPrep(): PointFrame
      reads this
      requires dfmap.Valid()
    {
      if forMap.Some? then forMap.value
      else var df := PrepColumns(dfmap); Flatten(df.maxSpeed.value, df.points.value)
    }

    /** `makeInterpolation`: both axes have `points` samples spanning the
        cloud's longitudes and latitudes, and `zi` has one row per `yi`
        entry and one cell per `xi` entry, holding the interpolated value at
        that grid position after the clamp. `interp` stands for
        `griddata(..., method='linear', rescale=True)` evaluated at one
        position, `None` where it has no data. */
    method MakeInterpolation(interp: (PointFrame, real, real) -> Option<real>)
      requires forMap.Some? && forMap.value.WellFormed() && forMap.value.Rows() > 0
      modifies this`xi, this`yi, this`zi
      ensures xi == Some(Linspace(Min(forMap.value.long), Max(forMap.value.long), points))
      ensures yi == Some(Linspace(Min(forMap.value.lat), Max(forMap.value.lat), points))
      ensures |xi.value| == points && |yi.value| == points
      ensures zi != null && fresh(zi)
      ensures zi.Length0 == |yi.value| && zi.Length1 == |xi.value|
      ensures forall i, j :: 0 <= i < zi.Length0 && 0 <= j < zi.Length1 ==>
                zi[i, j] == ClampCell(interp(forMap.value, xi.value[j], yi.value[i]))
    {
      var cloud := forMap.value;
      var x, y := cloud.long, cloud.lat;
      var gx := Linspace(Min(x), Max(x), points);
      var gy := Linspace(Min(y), Max(y), points);
      xi, yi := Some(gx), Some(gy);
      var grid := new Option<real>[|gy|, |gx|]((i: nat, j: nat) requires i < |gy| && j < |gx| =>
                                                  interp(cloud, gx[j], gy[i]));
      ClampGrid(grid);
      zi := grid;
    }

    /** `prepData`: fill `max_speed`, `points` and `for_map` only where they
        are absent, then always interpolate. A cached `for_map` is kept even
        when `dfmap` has changed since it was computed. */
    method PrepData(interp: (PointFrame, real, real) -> Option<real>)
      requires dfmap.Valid()
      requires forMap.Some? ==> forMap.value.WellFormed()
      requires CloudAfterPrep().Rows() > 0
      modifies this`dfmap, this`forMap, this`xi, this`yi, this`zi
      ensures dfmap.rows == old(dfmap.rows) && dfmap.Prepared()
      ensures old(dfmap.maxSpeed).Some? ==> dfmap.maxSpeed == old(dfmap.maxSpeed)
      ensures old(dfmap.maxSpeed).None? ==> dfmap.maxSpeed == Some(ClassifyAll(dfmap.rows))
      ensures old(dfmap.points).Some? ==> dfmap.points == old(dfmap.points)
      ensures old(dfmap.points).None? ==> dfmap.points == Some(Geometries(dfmap.rows))
      ensures old(forMap).Some? ==> forMap == old(forMap)
      ensures old(forMap).None? ==> forMap == Some(Flatten(dfmap.maxSpeed.value, dfmap.points.value))
      ensures forMap.Some? && forMap.value.WellFormed() && forMap.value.Rows() > 0
      ensures xi == Some(Linspace(Min(forMap.value.long), Max(forMap.value.long), points))
      ensures yi == Some(Linspace(Min(forMap.value.lat), Max(forMap.value.lat), points))
      ensures zi != null && fresh(zi)
      ensures zi.Length0 == points && zi.Length1 == points
      ensures forall i, j :: 0 <= i < zi.Length0 && 0 <= j < zi.Length1 ==>
                zi[i, j] == ClampCell(interp(forMap.value, xi.value[j], yi.value[i]))
    {
      if dfmap.maxSpeed.None? {
        dfmap := dfmap.(maxSpeed := Some(ClassifyAll(dfmap.rows)));
      }
      if dfmap.points.None? {
        dfmap := dfmap.(points := Some(Geometries(dfmap.rows)));
      }
      if forMap.None? {
        var cloud := PointExtractor(dfmap);
        forMap := Some(cloud);
      }
      MakeInterpolation(interp);
    }

    /** The `makePlot` call `provincePlots` makes for one province: its
        boundary rows, its name as title, `save=True`, and the file
        `folder + name + suffix + ".png"`. */
    function ProvinceRequest(name: string): (r: PlotRequest)
      reads this
      ensures r.title == Some(name) && r.save && !r.box && r.data == forMap
      ensures r.file == Some(folder + name + suffix + ".png")
      ensures r.patch == Select(dfcan, name)
    {
      PlotRequest(forMap, Select(dfcan, name), false, Some(name),
                  Some(folder + name + suffix + ".png"), true)
    }

    /** `provincePlots`: one plot request per distinct `PRENAME`, in order of
        first appearance. */
    method ProvincePlots() returns (requests: seq<PlotRequest>)
      ensures |requests| == |Unique(Names(dfcan))|
      ensures forall k :: 0 <= k < |requests| ==> requests[k] == ProvinceRequest(Unique(Names(dfcan))[k])
    {
      var provinces := Unique(Names(dfcan));
      requests := [];
      for k := 0 to |provinces|
        invariant |requests| == k
        invariant forall m :: 0 <= m < k ==> requests[m] == ProvinceRequest(provinces[m])
      {
        var prov := provinces[k];
        var local := Select(dfcan, prov);
        requests := requests + [PlotRequest(forMap, local, false, Some(prov),
                                            Some(folder + prov + suffix + ".png"), true)];
      }
    }
  }

  /** Preparing, editing `dfmap`, and preparing again: the columns are those
      of the edited frame, but `for_map` is still the cloud of the first
      preparation, since it is only computed when absent. */
  method StaleCache(h: NetworkHeatmaps, interp: (PointFrame, real, real) -> Option<real>,
                    edited: NetworkFrame)
    requires h.dfmap.Valid() && h.forMap.None? && h.CloudAfterPrep().Rows() > 0
    requires edited.Valid()
    modifies h`dfmap, h`forMap, h`xi, h`yi, h`zi
    ensures h.dfmap == PrepColumns(edited)
    ensures h.forMap == old(Some(Flatten(PrepColumns(h.dfmap).maxSpeed.value,
                                         PrepColumns(h.dfmap).points.value)))
  {
    h.PrepData(interp);
    h.dfmap := edited;
    h.PrepData(interp);
  }
}
