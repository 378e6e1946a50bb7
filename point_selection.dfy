/**
 * The point-selection step of `get_forecast` (weather_forecast/main.py): a query
 * point on the 0.25-degree grid is read off the grid directly; any other point is
 * interpolated inside the grid cell that encloses it, the cell being found by
 * floor division by the grid step.  Coordinates are exact reals: 0.25 is a power
 * of two, so the source's float `%` and `//` on it are exact as well.
 */
module PointSelection {
  import opened Outcomes
  import opened Calendar
  import opened Gfs

  const GRID_STEP: real := 0.25

  /** `x // 0.25`. */
  function GridIndex(x: real): int {
    (x / GRID_STEP).Floor
  }

  /** `x % 0.25`, Python's floored remainder. */
  function GridRemainder(x: real): real {
    x - GridIndex(x) as real * GRID_STEP
  }

  /** `x % 0.25 == 0`: x is a whole number of grid steps. */
  predicate OnGrid(x: real)
    ensures OnGrid(x) <==> x / GRID_STEP == (x / GRID_STEP).Floor as real
  {
    GridRemainder(x) == 0.0
  }

  lemma MultipleOnGrid(k: int)
    ensures GridIndex(k as real * GRID_STEP) == k && OnGrid(k as real * GRID_STEP)
  {
    assert k as real * GRID_STEP / GRID_STEP == k as real;
  }

  /** `(x // 0.25) * 0.25`: a grid coordinate at most one step below x. */
  function Lower(x: real): (l: real)
    ensures l <= x < l + GRID_STEP && OnGrid(l)
  {
    MultipleOnGrid(GridIndex(x));
    GridIndex(x) as real * GRID_STEP
  }

  /** `((x // 0.25) + 1) * 0.25`: the grid coordinate one step above the lower bound. */
  function Upper(x: real): (u: real)
    ensures u == Lower(x) + GRID_STEP && x < u && OnGrid(u)
  {
    MultipleOnGrid(GridIndex(x) + 1);
    (GridIndex(x) + 1) as real * GRID_STEP
  }

  /** The grid cell `[lat1, lat2] x [lon1, lon2]` the source slices out. */
  datatype Cell = Cell(lat1: real, lat2: real, lon1: real, lon2: real)

  function EnclosingCell(lat: real, lon: real): (c: Cell)
    ensures c.lat1 <= lat < c.lat2 && c.lat2 == c.lat1 + GRID_STEP
    ensures c.lon1 <= lon < c.lon2 && c.lon2 == c.lon1 + GRID_STEP
    ensures OnGrid(c.lat1) && OnGrid(c.lat2) && OnGrid(c.lon1) && OnGrid(c.lon2)
  {
    Cell(Lower(lat), Upper(lat), Lower(lon), Upper(lon))
  }

  /** A grid coordinate is its own lower bound. */
  lemma OnGridIsOwnLower(x: real)
    requires OnGrid(x)
    ensures Lower(x) == x && Upper(x) == x + GRID_STEP
  {
  }

  /**
   * The lower bound is the greatest grid coordinate not above x, so the cell
   * sliced out is the only grid cell `[g, g + 0.25)` that contains x.
   */
  lemma LowerIsGreatestGridPointBelow(x: real, g: real)
    requires OnGrid(g)
    ensures g <= x ==> g <= Lower(x)
    ensures g <= x < g + GRID_STEP ==> g == Lower(x)
  {
    var k := GridIndex(g);
    assert g == k as real * GRID_STEP;
    if g <= x {
      assert k as real <= x / GRID_STEP;
      assert k <= GridIndex(x);
    }
    if g <= x < g + GRID_STEP {
      assert x / GRID_STEP < k as real + 1.0;
      assert GridIndex(x) == k;
    }
  }

  // ---------------------------------------------------------------- the data

  /** One variable on the grid: its time series at each `(lat, lon)` grid point. */
  type Grid = map<(real, real), seq<real>>

  /** The data at one point: its coordinates, the time axis and each variable's series. */
  datatype PointData = PointData(lat: real, lon: real, time: seq<DateTime>, vars: map<string, seq<real>>)

  /** `ds.sel(lat=slice(c.lat1, c.lat2), lon=slice(c.lon1, c.lon2))`: label slices include both ends. */
  function SliceCell(grid: Grid, c: Cell): (g: Grid)
    ensures forall k :: k in g <==> k in grid && c.lat1 <= k.0 <= c.lat2 && c.lon1 <= k.1 <= c.lon2
    ensures forall k :: k in g ==> g[k] == grid[k]
  {
    map k | k in grid && c.lat1 <= k.0 <= c.lat2 && c.lon1 <= k.1 <= c.lon2 :: grid[k]
  }

  /** On a grid whose points all lie on the 0.25 lattice, the enclosing cell keeps just its four corners. */
  lemma SliceKeepsCorners(grid: Grid, lat: real, lon: real)
    requires forall k :: k in grid ==> OnGrid(k.0) && OnGrid(k.1)
    ensures var c := EnclosingCell(lat, lon);
      forall k :: k in SliceCell(grid, c) ==> (k.0 == c.lat1 || k.0 == c.lat2) && (k.1 == c.lon1 || k.1 == c.lon2)
  {
    var c := EnclosingCell(lat, lon);
    forall k | k in SliceCell(grid, c)
      ensures (k.0 == c.lat1 || k.0 == c.lat2) && (k.1 == c.lon1 || k.1 == c.lon2)
    {
      LatticeInStep(c.lat1, k.0);
      LatticeInStep(c.lon1, k.1);
    }
  }

  /** A lattice point within one step above a lattice point is that point or the next. */
  lemma LatticeInStep(lo: real, g: real)
    requires OnGrid(lo) && OnGrid(g) && lo <= g <= lo + GRID_STEP
    ensures g == lo || g == lo + GRID_STEP
  {
    var i, j := GridIndex(lo), GridIndex(g);
    assert lo == i as real * GRID_STEP && g == j as real * GRID_STEP;
    assert i <= j <= i + 1;
  }

  /** How the source picks the point: read it off the grid, or interpolate in the enclosing cell. */
  datatype Selection = Exact(lat: real, lon: real) | Interpolated(cell: Cell, lat: real, lon: real)

  function Choose(lat: real, lon: real): (s: Selection)
    ensures s.lat == lat && s.lon == lon
    ensures s.Exact? <==> OnGrid(lat) && OnGrid(lon)
    ensures s.Interpolated? ==> s.cell == EnclosingCell(lat, lon)
  {
    if OnGrid(lat) && OnGrid(lon) then Exact(lat, lon)
    else Interpolated(EnclosingCell(lat, lon), lat, lon)
  }

  /**
   * A grid cell that reaches past the edge of the axes keeps fewer than two
   * grid coordinates along that axis.  On a grid whose latitudes end at 90 and
   * whose longitudes start at 0, the cell of an off-lattice point at latitude 90
   * keeps only latitude 90, and the cell of a negative longitude keeps at most
   * longitude 0.
   */
  lemma SliceBeyondAxisEnd(grid: Grid, lat: real, lon: real)
    requires forall k :: k in grid ==> OnGrid(k.0) && OnGrid(k.1) && k.0 <= 90.0 && 0.0 <= k.1
    ensures var slice := SliceCell(grid, EnclosingCell(lat, lon));
      && (lat == 90.0 ==> forall k :: k in slice ==> k.0 == 90.0)
      && (lon < 0.0 ==> forall k :: k in slice ==> k.1 == 0.0)
  {
    var c := EnclosingCell(lat, lon);
    if lat == 90.0 {
      MultipleOnGrid(360);
      OnGridIsOwnLower(90.0);
    }
    if lon < 0.0 {
      var i := GridIndex(c.lon1);
      assert c.lon1 == i as real * GRID_STEP;
      assert i < 0;
      assert c.lon2 <= 0.0;
    }
  }

  // ---------------------------------------------------------------- what the environment keeps

  /** Every grid point of every variable has one value per time step, as in one xarray Dataset. */
  ghost predicate SeriesSpanTime(ds: Dataset<Grid>) {
    forall name, pt :: name in ds.vars && pt in ds.vars[name] ==> |ds.vars[name][pt]| == |ds.time|
  }

  /**
   * xarray's `interp` keeps the time dimension: when it succeeds on a cell, the cell
   * held grid points and the result has one value per time step of theirs.
   */
  ghost predicate InterpKeepsLength(interp: (Grid, real, real) -> Option<seq<real>>) {
    forall g, lat, lon :: interp(g, lat, lon).Some? ==>
      && (exists pt :: pt in g)
      && forall pt :: pt in g ==> |interp(g, lat, lon).value| == |g[pt]|
  }

  /** Every variable's series runs along the whole time axis, which consists of real timestamps. */
  predicate Conforms(p: PointData) {
    && (forall name :: name in p.vars ==> |p.vars[name]| == |p.time|)
    && (forall i :: 0 <= i < |p.time| ==> ValidDateTime(p.time[i]))
  }

  /**
   * The selection block of `get_forecast`: `ds.sel(lat=lat, lon=lon)` on a grid
   * point, which raises (a KeyError) when that label is not in the grid, and
   * otherwise `ds.sel(...slices...).interp(lat=lat, lon=lon)`.  `interp` is
   * xarray's bilinear interpolation of one variable's cell at the query point,
   * `None` when it raises; the dataset's `interp` raises when any variable's does.
   */
  function SelectPoint(ds: Dataset<Grid>, lat: real, lon: real,
                       interp: (Grid, real, real) -> Option<seq<real>>): (r: Outcome<PointData>)
    ensures r.Ok? ==> r.value.lat == lat && r.value.lon == lon
    ensures r.Ok? ==> r.value.time == ds.time && r.value.vars.Keys == ds.vars.Keys
    ensures OnGrid(lat) && OnGrid(lon) ==>
              && (r.Ok? <==> forall name :: name in ds.vars ==> (lat, lon) in ds.vars[name])
              && (r.Err? ==> r.failure == PointOffGrid)
              && (r.Ok? ==> forall name :: name in ds.vars ==> r.value.vars[name] == ds.vars[name][(lat, lon)])
    ensures !(OnGrid(lat) && OnGrid(lon)) ==>
              && (r.Ok? <==> forall name :: name in ds.vars ==>
                                interp(SliceCell(ds.vars[name], EnclosingCell(lat, lon)), lat, lon).Some?)
              && (r.Err? ==> r.failure == InterpolationFailed)
              && (r.Ok? ==> forall name :: name in ds.vars ==>
                   r.value.vars[name] == interp(SliceCell(ds.vars[name], EnclosingCell(lat, lon)), lat, lon).value)
  {
    match Choose(lat, lon)
    case Exact(_, _) =>
      if forall name :: name in ds.vars ==> (lat, lon) in ds.vars[name] then
        Ok(PointData(lat, lon, ds.time, map name | name in ds.vars :: ds.vars[name][(lat, lon)]))
      else
        Err(PointOffGrid)
    case Interpolated(c, _, _) =>
      if forall name :: name in ds.vars ==> interp(SliceCell(ds.vars[name], c), lat, lon).Some? then
        Ok(PointData(lat, lon, ds.time, map name | name in ds.vars :: interp(SliceCell(ds.vars[name], c), lat, lon).value))
      else
        Err(InterpolationFailed)
  }

  /**
   * When every grid series spans the time axis and `interp` keeps it, the selected
   * point's series span the time axis too.
   */
  lemma SelectedConforms(ds: Dataset<Grid>, lat: real, lon: real,
                         interp: (Grid, real, real) -> Option<seq<real>>)
    requires SeriesSpanTime(ds) && InterpKeepsLength(interp)
    requires forall i :: 0 <= i < |ds.time| ==> ValidDateTime(ds.time[i])
    ensures SelectPoint(ds, lat, lon, interp).Ok? ==> Conforms(SelectPoint(ds, lat, lon, interp).value)
  {
    var r := SelectPoint(ds, lat, lon, interp);
    if r.Ok? && !(OnGrid(lat) && OnGrid(lon)) {
      var c := EnclosingCell(lat, lon);
      forall name | name in r.value.vars ensures |r.value.vars[name]| == |ds.time| {
        var g := SliceCell(ds.vars[name], c);
        assert interp(g, lat, lon).Some?;
        var pt :| pt in g;
        assert |interp(g, lat, lon).value| == |g[pt]| == |ds.vars[name][pt]|;
      }
    }
  }
}
