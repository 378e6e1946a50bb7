/**
 * The `/short_forecast` handler `get_forecast` (weather_forecast/main.py): fetch the
 * six surface variables through `get_gfs` for today, pick the query point out of
 * the grid and shape the point's series into the response records.  Today's date,
 * the network and xarray's interpolation are parameters.
 */
module Forecast {
  import opened Outcomes
  import opened Calendar
  import opened TextFormat
  import opened Gfs
  import opened GfsProperties
  import opened PointSelection
  import opened Shaping

  /** Every time axis the server hands back is made of real timestamps. */
  ghost predicate ServesValidTimes(fetch: string -> Option<Dataset<Grid>>) {
    forall url :: fetch(url).Some? ==>
      forall i :: 0 <= i < |fetch(url).value.time| ==> ValidDateTime(fetch(url).value.time[i])
  }

  /**
   * Every dataset the server hands back is one xarray Dataset: each grid point's
   * series of each variable has one value per time step.
   */
  ghost predicate ServesConformingSeries(fetch: string -> Option<Dataset<Grid>>) {
    forall url :: fetch(url).Some? ==> SeriesSpanTime(fetch(url).value)
  }

  /** The dataset `get_gfs(date, variables)` returns to the handler. */
  function Retrieved(today: Date, reachable: string -> bool,
                     fetch: string -> Option<Dataset<Grid>>): Outcome<Dataset<Grid>>
    requires ValidDate(today) && today.year <= MAX_YEAR
  {
    Retrieve(today, VARIABLES, DEFAULT_RESOLUTION, reachable, fetch).result
  }

  /** A dataset `get_gfs` returns holds exactly the requested variables, on a valid time axis. */
  lemma RetrievedShape(today: Date, reachable: string -> bool, fetch: string -> Option<Dataset<Grid>>)
    requires ValidDate(today) && today.year <= MAX_YEAR && ServesValidTimes(fetch)
    ensures var got := Retrieved(today, reachable, fetch);
      got.Ok? ==>
        && got.value.vars.Keys == VARIABLE_SET
        && forall i :: 0 <= i < |got.value.time| ==> ValidDateTime(got.value.time[i])
  {
    ResultHoldsRequestedVariables(today, VARIABLES, DEFAULT_RESOLUTION, reachable, fetch);
    VariableSetOfList();
  }

  /**
   * What the handler responds for the query point: the records, or the failure that
   * ends it.  A failure of `get_gfs` is passed on unchanged, and the request fails
   * exactly when `get_gfs` or the point selection does.
   */
  function ForecastOf(today: Date, lat: real, lon: real,
                      reachable: string -> bool, fetch: string -> Option<Dataset<Grid>>,
                      interp: (Grid, real, real) -> Option<seq<real>>,
                      speed: (real, real) -> real, direction: (real, real) -> real): (r: Outcome<seq<Record>>)
    requires ValidDate(today) && today.year <= MAX_YEAR && ServesValidTimes(fetch)
    ensures Retrieved(today, reachable, fetch).Err? ==> r == Err(Retrieved(today, reachable, fetch).failure)
    ensures r.Err? <==>
              Retrieved(today, reachable, fetch).Err? || SelectPoint(Retrieved(today, reachable, fetch).value, lat, lon, interp).Err?
  {
    RetrievedShape(today, reachable, fetch);
    match Retrieved(today, reachable, fetch)
    case Err(e) => Err(e)
    case Ok(ds) =>
      match SelectPoint(ds, lat, lon, interp)
      case Err(e) => Err(e)
      case Ok(p) => Ok(ShapeRecords(p, speed, direction))
  }

  /**
   * `get_forecast(lat, lon)` on the day `today`.  `get_gfs` is called with its
   * defaults (run 0, no hour, resolution 0p25); an exception anywhere ends the
   * request with the failure that raised it.
   */
  method GetForecast(today: Date, lat: real, lon: real,
                     reachable: string -> bool, fetch: string -> Option<Dataset<Grid>>,
                     interp: (Grid, real, real) -> Option<seq<real>>,
                     speed: (real, real) -> real, direction: (real, real) -> real)
    returns (r: Outcome<seq<Record>>)
    requires ValidDate(today) && today.year <= MAX_YEAR && ServesValidTimes(fetch)
    ensures r == ForecastOf(today, lat, lon, reachable, fetch, interp, speed, direction)
  {
    var got, probes, attempts := GetGfs(today, VARIABLES, 0, DEFAULT_RESOLUTION, reachable, fetch);
    RetrievedShape(today, reachable, fetch);
    if got.Err? {
      return Err(got.failure);
    }
    var point := SelectPoint(got.value, lat, lon, interp);
    if point.Err? {
      return Err(point.failure);
    }
    r := Ok(ShapeRecords(point.value, speed, direction));
  }

  /**
   * The handler fails exactly when `get_gfs` raises or the grid has no such point:
   * with `DateOutOfRange` when the probe fails on the first representable day, with
   * `DataUnavailable` when no run of the resolved day opens, with `PointOffGrid`
   * when a query point on the 0.25-degree lattice is missing from some variable's
   * grid, and with `InterpolationFailed` when any other point cannot be interpolated
   * in some variable's cell.
   */
  lemma ForecastFailures(today: Date, lat: real, lon: real,
                         reachable: string -> bool, fetch: string -> Option<Dataset<Grid>>,
                         interp: (Grid, real, real) -> Option<seq<real>>,
                         speed: (real, real) -> real, direction: (real, real) -> real)
    requires ValidDate(today) && today.year <= MAX_YEAR && ServesValidTimes(fetch)
    ensures var r := ForecastOf(today, lat, lon, reachable, fetch, interp, speed, direction);
      var got := Retrieved(today, reachable, fetch);
      && (r == Err(DateOutOfRange) <==> !reachable(DayUrl(DEFAULT_RESOLUTION, today)) && today == MIN_DATE)
      && (r == Err(DataUnavailable) <==> got == Err(DataUnavailable))
      && (r == Err(PointOffGrid) <==>
            && got.Ok? && OnGrid(lat) && OnGrid(lon)
            && !(forall name :: name in got.value.vars ==> (lat, lon) in got.value.vars[name]))
      && (r == Err(InterpolationFailed) <==>
            && got.Ok? && !(OnGrid(lat) && OnGrid(lon))
            && !(forall name :: name in got.value.vars ==>
                   interp(SliceCell(got.value.vars[name], EnclosingCell(lat, lon)), lat, lon).Some?))
  {
    var rd := ResolveDate(DEFAULT_RESOLUTION, today, reachable);
    var got := Retrieved(today, reachable, fetch);
    assert got.Err? && got.failure == DateOutOfRange ==> rd.Err?;
  }

  /**
   * On success there is one record per time step but the first, every record is
   * laid out in the nine-column schema, and the time column of record k is step
   * k + 1 of the dataset's time axis moved 5:30 later and rendered.
   */
  lemma ForecastRecords(today: Date, lat: real, lon: real,
                        reachable: string -> bool, fetch: string -> Option<Dataset<Grid>>,
                        interp: (Grid, real, real) -> Option<seq<real>>,
                        speed: (real, real) -> real, direction: (real, real) -> real)
    requires ValidDate(today) && today.year <= MAX_YEAR && ServesValidTimes(fetch)
    ensures var r := ForecastOf(today, lat, lon, reachable, fetch, interp, speed, direction);
      var got := Retrieved(today, reachable, fetch);
      r.Ok? ==>
        && got.Ok?
        && (forall i :: 0 <= i < |got.value.time| ==> ValidDateTime(got.value.time[i]))
        && |r.value| == (if got.value.time == [] then 0 else |got.value.time| - 1)
        && (forall k :: 0 <= k < |r.value| ==> |r.value[k]| == |COLUMNS| && ColumnsOf(r.value[k]) == COLUMNS)
        && forall k :: 0 <= k < |r.value| ==>
             r.value[k][2] == ("time", Text(FormatDateTime(AddMinutes(got.value.time[k + 1], TIME_OFFSET_MINUTES))))
  {
    RetrievedShape(today, reachable, fetch);
    var r := ForecastOf(today, lat, lon, reachable, fetch, interp, speed, direction);
    var got := Retrieved(today, reachable, fetch);
    if r.Ok? {
      var p := SelectPoint(got.value, lat, lon, interp).value;
      assert r.value == ShapeRecords(p, speed, direction);
      RecordsOfSelection(got.value, p, r.value, speed, direction);
    }
  }

  /** The records shaped from a point selected out of a dataset, in terms of the dataset's time axis. */
  lemma RecordsOfSelection(ds: Dataset<Grid>, p: PointData, out: seq<Record>,
                           speed: (real, real) -> real, direction: (real, real) -> real)
    requires forall i :: 0 <= i < |ds.time| ==> ValidDateTime(ds.time[i])
    requires p.time == ds.time && p.vars.Keys == VARIABLE_SET
    requires out == ShapeRecords(p, speed, direction)
    ensures |out| == (if ds.time == [] then 0 else |ds.time| - 1)
    ensures forall k :: 0 <= k < |out| ==> |out[k]| == |COLUMNS| && ColumnsOf(out[k]) == COLUMNS
    ensures forall k :: 0 <= k < |out| ==>
              out[k][2] == ("time", Text(FormatDateTime(AddMinutes(ds.time[k + 1], TIME_OFFSET_MINUTES))))
  {
    ShapeRecordsTimes(p, speed, direction);
  }

  /**
   * When the server's series span their time axes and `interp` keeps the time
   * dimension, as xarray guarantees, record k holds step k + 1 of the selected
   * point field by field as `ExpectedRecord` writes it.
   */
  lemma ForecastRecordContents(today: Date, lat: real, lon: real,
                               reachable: string -> bool, fetch: string -> Option<Dataset<Grid>>,
                               interp: (Grid, real, real) -> Option<seq<real>>,
                               speed: (real, real) -> real, direction: (real, real) -> real)
    requires ValidDate(today) && today.year <= MAX_YEAR && ServesValidTimes(fetch)
    requires ServesConformingSeries(fetch) && InterpKeepsLength(interp)
    ensures var r := ForecastOf(today, lat, lon, reachable, fetch, interp, speed, direction);
      var got := Retrieved(today, reachable, fetch);
      r.Ok? ==>
        && got.Ok? && SelectPoint(got.value, lat, lon, interp).Ok?
        && var p := SelectPoint(got.value, lat, lon, interp).value;
        && p.vars.Keys == VARIABLE_SET && Conforms(p)
        && forall k :: 0 <= k < |r.value| ==>
             k + 1 < |p.time| && r.value[k] == ExpectedRecord(p, k + 1, speed, direction)
  {
    RetrievedShape(today, reachable, fetch);
    var r := ForecastOf(today, lat, lon, reachable, fetch, interp, speed, direction);
    var got := Retrieved(today, reachable, fetch);
    if r.Ok? {
      RetrievedSeriesSpanTime(today, reachable, fetch);
      SelectedConforms(got.value, lat, lon, interp);
      var p := SelectPoint(got.value, lat, lon, interp).value;
      forall k | 0 <= k < |r.value| ensures k + 1 < |p.time| && r.value[k] == ExpectedRecord(p, k + 1, speed, direction) {
        ShapeRecordsAt(p, speed, direction, k);
      }
    }
  }

  /** `ds[varlist]` keeps the data it selects, so the dataset `get_gfs` returns spans its time axis too. */
  lemma RetrievedSeriesSpanTime(today: Date, reachable: string -> bool, fetch: string -> Option<Dataset<Grid>>)
    requires ValidDate(today) && today.year <= MAX_YEAR && ServesConformingSeries(fetch)
    ensures Retrieved(today, reachable, fetch).Ok? ==> SeriesSpanTime(Retrieved(today, reachable, fetch).value)
  {
    ResultHoldsRequestedVariables(today, VARIABLES, DEFAULT_RESOLUTION, reachable, fetch);
    var rv := Retrieve(today, VARIABLES, DEFAULT_RESOLUTION, reachable, fetch);
    if rv.result.Ok? {
      var url := rv.attempts[|rv.attempts| - 1];
      assert SeriesSpanTime(fetch(url).value);
    }
  }
}
