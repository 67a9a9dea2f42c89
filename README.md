# Network speed heatmaps: a Dafny model

This project models the logic inside the `NetworkHeatmaps` class of
`scripts/heatmapPython.py`. The class turns a Statistics Canada road-network
dataset into heatmaps of the maximum available download speed. The model
covers these parts:

- the speed classifier `maxAvail`, which gives each road segment its highest
  advertised tier (50, 25, 10, 5 or 0 Mbps);
- the point extractor `pointExtractor`, which flattens every segment's line
  geometry into one (lat, long, speed) sample per vertex;
- the preparation cache `prepData`, which computes the `max_speed` column, the
  `points` column and the `for_map` point table only when they are absent, and
  then always interpolates;
- the shape of the interpolation grid (`xi`, `yi`, `zi`) and the in-place clamp
  `zi[zi > 50] = 50`;
- the batch driver `provincePlots`, which makes one plot call per distinct
  province name.

Layout:

- `wrappers.dfy` (module `Wrappers`): the `Option` type, used for absent columns
  and for attributes still set to None.
- `frames.dfy` (module `Frames`): the dataframes as datatypes. `NetworkFrame` is
  `dfmap`, with `Option` columns. `PointFrame` is `for_map`, column by column.
  `Boundary` is a row of `dfcan`.
- `speed.dfy` (module `Speed`): `maxAvail`. It is checked against a reference
  statement: the highest tier whose flag equals 1.
- `points.dfy` (module `Points`): the extraction loop, proved equal to a flatten
  function. Lemmas give every row's value and show where every row comes from.
- `grid.dfy` (module `Grid`): axis construction, the column minimum and maximum,
  and the clamp, written both per cell and as an in-place loop over a 2-D array.
- `provinces.dfy` (module `Provinces`): distinct names in first-appearance
  order, the row selection by name, and the plot-request record.
- `heatmaps.dfy` (module `Heatmaps`): the holder class, whose methods update its
  fields in place.

Details the model keeps from the code:

- The classifier compares each flag with `== 1`. A flag of 2 does not count.
- The point table keeps segment order, then vertex order.
- A cached `for_map` is never rebuilt, even after `dfmap` changes;
  `StaleCache` states this.
- The axes have exactly `points` samples for every non-negative count.

The external calls are parameters or are computed exactly:

- `griddata` is a function-typed parameter `interp`. It gives the value at one
  grid position, or `None` where there is no data.
- `np.linspace` is computed in exact real arithmetic.
- Plotting is represented by the `PlotRequest` records that would be passed to
  `makePlot`.

## Model

| member | source | states |
|---|---|---|
| `Speed.MaxAvail` | scripts/heatmapPython.py:44-59 | The result is one of 0, 5, 10, 25, 50. It is 0 exactly when no tier's flag equals 1. Otherwise it is a tier whose flag equals 1, and no higher-priority tier has its flag equal to 1. |
| `Speed.ClassifyAll` | scripts/heatmapPython.py:85 | The `max_speed` column has one entry per row, and each entry is that row's classification. |
| `Speed.ClassifyAllInTiers` | scripts/heatmapPython.py:85 | Every entry of the `max_speed` column is one of the five tiers. |
| `Points.SegmentFrame` | scripts/heatmapPython.py:68-71 | One segment's samples form a table whose three columns each have one row per vertex. |
| `Points.Flatten` | scripts/heatmapPython.py:66-72 | The flattened table has equal-length `lat`, `long` and `speed` columns. Its row count is the total vertex count, so empty input gives an empty table. |
| `Points.SegmentFrameAt` | scripts/heatmapPython.py:69-71 | In one segment's samples, row `j` has `lat = y` and `long = x` of vertex `j`, and the segment's speed. |
| `Points.FlattenAt` | scripts/heatmapPython.py:67-71 | Vertex `j` of segment `i` comes right after the vertices of all earlier segments. That row has `lat = tup[1]`, `long = tup[0]` and `speed` equal to segment `i`'s `max_speed`. |
| `Points.FlattenRowOrigin` | scripts/heatmapPython.py:67-71 | Every row index of the table is the position of some vertex `j` of some segment `i`, so no row comes from anywhere else. |
| `Points.PointExtractor` | scripts/heatmapPython.py:61-72 | The nested loops that extend the three lists give exactly the flattened table. Its columns have equal length and its row count is the total vertex count. |
| `Grid.Min` | scripts/heatmapPython.py:121-122 | The minimum of a non-empty column is one of its entries and is at most every entry. |
| `Grid.Max` | scripts/heatmapPython.py:121-122 | The maximum of a non-empty column is one of its entries and is at least every entry. |
| `Grid.Linspace` | scripts/heatmapPython.py:121-122 | The axis has exactly `n` samples. When `n > 0` it starts at the lower end point, and when `n > 1` it ends at the upper one. |
| `Grid.LinspaceBounded` | scripts/heatmapPython.py:121-122 | Every axis sample lies between the two end points. |
| `Grid.ClampCell` | scripts/heatmapPython.py:125 | A clamped cell never exceeds 50. A cell at or below 50 is unchanged, a cell above 50 becomes 50, and a no-data cell stays no-data. |
| `Grid.ClampCellIdempotent` | scripts/heatmapPython.py:125 | Clamping a clamped cell changes nothing. |
| `Grid.ClampGrid` | scripts/heatmapPython.py:125 | The in-place masked assignment replaces every cell of the array with its clamped value. |
| `Provinces.Names` | scripts/heatmapPython.py:174 | The `PRENAME` column has one entry per boundary row, and each entry is that row's name. |
| `Provinces.Unique` | scripts/heatmapPython.py:174 | `unique()` holds exactly the values of the column, each value once. |
| `Provinces.UniqueFirstAppearance` | scripts/heatmapPython.py:174 | `unique()` lists its values in the order of their first appearance in the column. |
| `Provinces.Select` | scripts/heatmapPython.py:176 | The selection by `PRENAME` never has more rows than the frame. |
| `Provinces.SelectContents` | scripts/heatmapPython.py:176 | The selection holds exactly the boundary rows whose `PRENAME` equals the name, each as many times as it occurs, and no other rows. |
| `Provinces.SelectInOrder` | scripts/heatmapPython.py:176 | The selection is the in-order subsequence of the boundary rows with that name: its rows sit at strictly increasing positions of the frame, and every row with that name is among them. |
| `Provinces.SelectNonEmpty` | scripts/heatmapPython.py:174-176 | A name taken from the column selects at least one boundary row. |
| `Heatmaps.Geometries` | scripts/heatmapPython.py:91 | The `points` column has one entry per row, and each entry is that row's list of coordinates. |
| `Heatmaps.PrepColumns` | scripts/heatmapPython.py:80-91 | After preparation both derived columns are present and the rows are unchanged. |
| `Heatmaps.PrepColumnsIdempotent` | scripts/heatmapPython.py:80-91 | Preparing the columns a second time changes nothing. |
| `Heatmaps.PrepColumnsKeeps` | scripts/heatmapPython.py:80-91 | A column that is already present is kept as it is. A column that is absent is computed from the current rows. |
| `Heatmaps.NetworkHeatmaps.constructor` | scripts/heatmapPython.py:16-42 | The constructor stores the inputs with the same defaults as the source (`fig/`, `_heat`, no saving, 1000 points). No cache or grid exists yet. |
| `Heatmaps.NetworkHeatmaps.MakeInterpolation` | scripts/heatmapPython.py:113-125 | `xi` and `yi` each have exactly `points` samples, spanning the longitude and latitude range of `for_map`. `zi` is a new array with `len(yi)` rows of `len(xi)` cells. Each cell holds the interpolated value at its grid position, clamped. No other field changes. |
| `Heatmaps.NetworkHeatmaps.PrepData` | scripts/heatmapPython.py:74-98 | `max_speed`, `points` and a non-None `for_map` are kept when present. Absent ones are computed. The rows are unchanged, and the interpolation always runs. The resulting state is the one the method's postconditions describe. |
| `Heatmaps.NetworkHeatmaps.ProvinceRequest` | scripts/heatmapPython.py:176-178 | A province's request has `title = name`, `save = True`, no box, and file `folder + name + suffix + ".png"`. Its boundary rows are the selection of the rows whose `PRENAME` is that name. |
| `Heatmaps.NetworkHeatmaps.ProvincePlots` | scripts/heatmapPython.py:170-178 | There is exactly one request per distinct `PRENAME`, in the order of the distinct names, and each is that province's request. |
| `Heatmaps.StaleCache` | scripts/heatmapPython.py:92-96 | Prepare, replace `dfmap`, then prepare again. The columns are those of the new frame, but `for_map` is still the table computed from the first frame. |

## Left out

- `makePatch`: it computes a polygon difference with shapely/geopandas, a foreign geometry library. The `res_difference` attribute it sets is not modelled.
- `makePlot`: it renders with matplotlib (contours, colorbar labels, the 0.5-degree axis padding, `savefig`, `show`). It is represented only by the `PlotRequest` record of its arguments.
- `framePlot`: it reads `self.formap`, an attribute the class never sets, so every call raises `AttributeError`. It is not modelled.
- `Heatmaps.NetworkHeatmaps.MakeInterpolation`: the numerics of `griddata` (linear interpolation on rescaled inputs) are not modelled. It is the uninterpreted parameter `interp`, evaluated at each grid position, and its own failures, such as Qhull errors on too few or collinear points, are not represented.
- `Heatmaps.NetworkHeatmaps.MakeInterpolation`: requires a `for_map` that is present and non-empty. When it is absent (None, before `prepData`) the source raises `TypeError` at `self.for_map['lat']`; on an empty one it gets NaN from `min()`/`max()` and `griddata` raises. Neither exception is represented, and NaN is not a real.
- `Grid.Linspace`: computes in exact real arithmetic, so floating-point rounding of `np.linspace` is not modelled.
- `Heatmaps.NetworkHeatmaps.constructor`: `points` is a natural number. A negative count makes `np.linspace` raise, which the model does not represent.
- Pandas mechanics (`apply`, `iterrows`, column insertion, aliasing of the shared `dfmap` object): dataframes are immutable values held in fields, with absent columns as `None`.
- `Heatmaps.NetworkHeatmaps.ProvincePlots`: the failure of a plot call, for example when no grid has been computed yet, is not modelled, because rendering is not part of this model.
- `print` calls, reading the shapefiles and writing image files: console and file I/O.
