# weather_forecast: the GFS short-forecast service, modelled in Dafny

The service answers `GET /short_forecast?lat=..&lon=..` with a list of forecast
records for one point, one per time step of the GFS dataset but the first. Two functions in `weather_forecast/main.py` do the work.

- **`get_gfs`** opens a NOAA GFS model run on the NOMADS OPeNDAP server. It
  settles on one date first, then tries that date's runs only.
  - It probes the day's directory once with a HEAD request.
  - If the probe fails, it moves to the day before, without probing again.
  - It then opens the runs of that one date newest first: 18, 12, 6, then 0 UTC.
  - It returns the first run that opens and holds every requested variable.
  - If none does, it raises "Data could not be retrieved". This happens even
    when today's directory answered the probe and yesterday's runs would open:
    the day before is tried only when the probe fails.
- **`get_forecast`** turns the dataset into records:
  - It picks the query point. A point on the 0.25-degree lattice is read off the
    grid. Any other point is interpolated inside the grid cell that encloses it.
  - It derives wind speed and direction, drops the wind components and converts
    the temperature to Celsius.
  - It renames the fields to their public names and moves the time axis 5:30 later.
  - It flattens the data to rows, drops the first row, renders the time as
    `YYYY-MM-DD HH:MM` and lays every row out in a fixed nine-column schema.

The model has these modules:

- `Outcomes`: the `Option` and `Outcome` types and the failure kinds.
- `Calendar`: Python's proleptic Gregorian `date`, `toordinal`, `± timedelta(days=1)`,
  and timestamps with minute resolution.
- `TextFormat`: zero-padded decimals, the `%Y%m%d` and `%Y-%m-%d %H:%M` layouts,
  and parsers that read each layout back.
- `Gfs` and `GfsProperties`: `get_gfs` and what it promises.
- `PointSelection`: picking the query point out of the grid.
- `Shaping`: the record shaping.
- `Forecast`: the handler as a whole.

The environment is passed in as parameters:

- `reachable(url)` stands for "the HEAD request answered 200".
- `fetch(url)` stands for what `xr.open_dataset(url)` yields. It is `None` when
  opening raises.
- `interp` stands for xarray's interpolation of one variable's cell. It is `None`
  when xarray raises.
- `speed` and `direction` stand for the numpy wind formulas.
- `today` stands for `dt.date.today()`.

`get_gfs`'s loop is a `while` loop (`Gfs.OpenFirst`). It is proved against the
recursive specification `Gfs.FirstOpen`, and what the source promises is proved
as lemmas about `Gfs.Retrieve`.

In three places the code is easy to misread, and the model follows the code:

- The bare `except` in `get_gfs` also catches the `KeyError` of `ds[varlist]`. A
  run that lacks a variable is therefore skipped like a run that does not open,
  and it is never a separate error.
- The runs of one date only are tried, so at most four are opened, after exactly
  one probe. The day before is never probed.
- `get_forecast` fetches the default dataset once. Nothing merges hourly and
  three-hourly series.

## Model

| member | source | states |
|---|---|---|
| Calendar.PrevDay | weather_forecast/main.py:20 | `date - timedelta(days=1)` of any date after 0001-01-01 is a valid date, in the same year or the one before |
| Calendar.PrevDayOrdinal | weather_forecast/main.py:20 | `date - timedelta(days=1)` is exactly one day number earlier, across month and year ends and leap years |
| Calendar.NextDayOrdinal | weather_forecast/main.py:91 | the day a time shift carries into is exactly one day number later |
| Calendar.NextDayUndoesPrevDay | weather_forecast/main.py:20 | stepping back a day and forward again returns the same date |
| Calendar.AddMinutes | weather_forecast/main.py:91 | adding under a day of minutes gives a valid timestamp exactly that many minutes later on the time line |
| TextFormat.PadRoundTrip | weather_forecast/main.py:26 | `{run:02d}` zero padding of a number that fits the width has exactly that width and reads back as the number |
| TextFormat.RunLabel | weather_forecast/main.py:26 | a run hour renders as two digits that read back as the hour |
| TextFormat.DateStamp | weather_forecast/main.py:15 | `%Y%m%d` of a date up to year 9999 is eight digits |
| TextFormat.DateStampRoundTrip | weather_forecast/main.py:15 | the `%Y%m%d` stamp reads back as the date it came from |
| TextFormat.DateTextRoundTrip | weather_forecast/main.py:96 | `%Y-%m-%d` reads back as the date |
| TextFormat.ClockTextRoundTrip | weather_forecast/main.py:96 | `%H:%M` reads back as the hour and minute |
| TextFormat.FormatDateTime | weather_forecast/main.py:96 | `%Y-%m-%d %H:%M` is 16 characters for a year up to 9999 |
| TextFormat.DateTimeRoundTrip | weather_forecast/main.py:96 | the rendered time loses nothing: it parses back to the timestamp |
| Gfs.DayUrl | weather_forecast/main.py:15-16 | the day directory starts with `GFS_BASE` and is 17 characters plus the resolution longer |
| Gfs.DayUrlNamesDate | weather_forecast/main.py:15-16 | the last eight characters of the day directory read back as its date |
| Gfs.RunUrl | weather_forecast/main.py:26 | a run URL extends its day directory by the resolution plus nine characters and ends in `z` |
| Gfs.RunUrlNamesRun | weather_forecast/main.py:26 | the two characters before the `z` are digits that read back as the run hour |
| Gfs.CandidateUrl | weather_forecast/main.py:15-26 | a candidate URL has a fixed length for a resolution and starts with its date's day directory |
| Gfs.CandidateUrlRoundTrip | weather_forecast/main.py:15-26 | a run URL `{GFS_BASE}/gfs_{res}/gfs{YYYYMMDD}/gfs_{res}_{run:02d}z` decodes back to its date and run hour |
| Gfs.CandidateUrlInjective | weather_forecast/main.py:15-26 | different (date, run) pairs never share a URL |
| Gfs.DescendingRuns | weather_forecast/main.py:24 | the counted-down range has n entries, entry i being (n-1-i)·6 |
| Gfs.CandidateRuns | weather_forecast/main.py:24 | `reversed(range(0, 24, 6))` is 18, 12, 6, 0 |
| Gfs.SelectVars | weather_forecast/main.py:30 | `ds[varlist]` succeeds iff every listed name is a variable; it then keeps the time axis and exactly the listed variables, unchanged |
| Gfs.Attempt | weather_forecast/main.py:27-39 | one `try` succeeds iff the URL opens and holds every listed variable, and then yields `ds[varlist]` |
| Gfs.ResolveDate | weather_forecast/main.py:18-22 | the runs are tried on the reference date when the probe answers and on the day before otherwise; it fails only when the probe fails on 0001-01-01 |
| Gfs.FirstOpen | weather_forecast/main.py:24-39 | the search never opens more URLs than it is given |
| Gfs.FirstOpenFindsFirst | weather_forecast/main.py:24-39 | the URLs opened are a prefix of the candidates; nothing is found iff every candidate fails, and then all were opened; on success the last URL opened is the one that opened and every earlier one failed |
| Gfs.Retrieve | weather_forecast/main.py:14-41 | one call opens at most four URLs and fails only with date-out-of-range or data-unavailable |
| Gfs.OpenFirst | weather_forecast/main.py:24-39 | the loop opens exactly the URLs, and returns exactly the dataset, that the search specification prescribes |
| Gfs.GetGfs | weather_forecast/main.py:14-41 | one HEAD probe on the day directory; the URLs opened and the result are those of `Retrieve` |
| GfsProperties.AttemptsAreCandidatesInOrder | weather_forecast/main.py:24-26 | at most four URLs are opened, the i-th being run 18-6i of the resolved date, and none when the date cannot be resolved |
| GfsProperties.RunUrlsAreCandidates | weather_forecast/main.py:24-26 | the run URLs of a date's directory are its candidate URLs for runs 18, 12, 6 and 0, in that order |
| GfsProperties.AttemptsDecodeToResolvedDateAndRun | weather_forecast/main.py:15-26 | every URL opened names the resolved date and run 18-6i |
| GfsProperties.UnavailableIffAllRunsFail | weather_forecast/main.py:38-41 | "Data could not be retrieved" is raised iff the date resolved and all four runs failed, and then all four were opened |
| GfsProperties.ResultIsFirstRunThatOpens | weather_forecast/main.py:27-39 | a dataset comes from the last URL opened, which opened with all the variables; every URL before it failed |
| GfsProperties.ResultHoldsRequestedVariables | weather_forecast/main.py:28-37 | what is returned has the opened dataset's time axis and exactly the requested variables with the server's data |
| PointSelection.OnGrid | weather_forecast/main.py:60 | `x % 0.25 == 0` holds iff x / 0.25 is a whole number |
| PointSelection.Lower | weather_forecast/main.py:66-68 | `(x // 0.25) * 0.25` is on the lattice, at most x and less than one step below it |
| PointSelection.Upper | weather_forecast/main.py:67-69 | `((x // 0.25) + 1) * 0.25` is one step above the lower bound, above x and on the lattice |
| PointSelection.EnclosingCell | weather_forecast/main.py:66-69 | the cell bounds bracket the point, are one step apart and lie on the 0.25 lattice |
| PointSelection.OnGridIsOwnLower | weather_forecast/main.py:60-69 | a lattice coordinate is its own lower bound |
| PointSelection.LowerIsGreatestGridPointBelow | weather_forecast/main.py:66-70 | the lower bound is the greatest lattice point not above x, so the cell is the only lattice cell holding x |
| PointSelection.SliceCell | weather_forecast/main.py:70 | label slicing keeps exactly the grid points inside the cell, both ends included, with their data |
| PointSelection.SliceKeepsCorners | weather_forecast/main.py:70 | on a lattice grid the slice keeps only the four cell corners |
| PointSelection.Choose | weather_forecast/main.py:60-69 | the point is read off the grid iff both coordinates are on the lattice, and interpolated in the enclosing cell otherwise |
| PointSelection.SliceBeyondAxisEnd | weather_forecast/main.py:66-70 | on a grid whose latitudes end at 90 and whose longitudes start at 0, the slice for latitude 90 keeps only latitude 90, and the slice for a negative longitude keeps only longitude 0 |
| PointSelection.SelectPoint | weather_forecast/main.py:60-74 | a lattice point succeeds iff every variable has it, with the grid's series, and fails off-grid otherwise; another point succeeds iff `interp` succeeds on every variable's enclosing cell, and fails with an interpolation failure otherwise; the time axis and variable names are kept |
| PointSelection.SelectedConforms | weather_forecast/main.py:60-74 | when every grid series spans the time axis and `interp` keeps the series length, every series of the selected point spans the time axis |
| Shaping.VariableSetOfList | weather_forecast/main.py:55 | the six requested names as a set |
| Shaping.ZipWith | weather_forecast/main.py:77-78 | an elementwise formula of u and v runs along the shared time axis |
| Shaping.AddWind | weather_forecast/main.py:77-78 | the two wind fields are added from u and v, and every other variable is kept |
| Shaping.DropWindComponents | weather_forecast/main.py:80 | the u and v components are gone and nothing else changes |
| Shaping.ToCelsius | weather_forecast/main.py:83 | each temperature value plus 273.15 is the Kelvin value; the other variables are kept |
| Shaping.Rename | weather_forecast/main.py:85-90 | the renamed variables are the images of the old names, each holding its old data |
| Shaping.PublicNames | weather_forecast/main.py:85-90 | renaming the shaped variables gives exactly temp, prec, rh, rad, wind_speed and wind_dir |
| Shaping.RenameShapedKeys | weather_forecast/main.py:85-90 | no two shaped variables collide under the rename, and the result has the public names |
| Shaping.ShapedBeforeRename | weather_forecast/main.py:76-83 | before the rename: the six shaped variables, each holding the data it derives from |
| Shaping.RenameShapedValues | weather_forecast/main.py:85-90 | the rename moves each shaped variable's data to its public name |
| Shaping.ShapeVariables | weather_forecast/main.py:76-90 | the shaped data holds exactly temp, prec, rh, rad, wind_speed and wind_dir |
| Shaping.ShapeVariablesFields | weather_forecast/main.py:76-90 | after shaping (`ShapedFrom`): exactly the six public fields and no wind components; temp plus 273.15 is the Kelvin series; prec, rh and rad are unchanged; the wind fields are the formulas of u and v step by step |
| Shaping.ShiftTimes | weather_forecast/main.py:91 | every time step moves exactly 330 minutes later |
| Shaping.RowAt | weather_forecast/main.py:94 | a flattened row holds every variable plus time, lat and lon |
| Shaping.Flatten | weather_forecast/main.py:94 | one row per time step, in time order |
| Shaping.DropFirst | weather_forecast/main.py:95 | `iloc[1:]` keeps every row but the first, in order |
| Shaping.FormatTime | weather_forecast/main.py:96 | only the time column changes, to its rendered text |
| Shaping.Reindex | weather_forecast/main.py:97 | a record has exactly the nine schema columns in order; a column the row lacks is NaN |
| Shaping.LayOut | weather_forecast/main.py:94-97 | flattening, dropping the first row and reindexing give one record per time step but the first, each with the nine columns in schema order |
| Shaping.ShapeRecords | weather_forecast/main.py:76-100 | one record per time step but the first, each with the nine columns in schema order |
| Shaping.ShapedDataOfPoint | weather_forecast/main.py:76-94 | what gets laid out keeps the point, has the time axis moved 5:30 later, and holds variables shaped as `ShapedFrom` says |
| Shaping.LayOutElement | weather_forecast/main.py:94-97 | record k is row k+1 of the data, with its time rendered, in the schema |
| Shaping.RowAtEntries | weather_forecast/main.py:94 | a row holds the point's coordinates, the time step and each variable's value at that step |
| Shaping.ShapedRowCoordinates | weather_forecast/main.py:91-96 | the row of step j holds the point's lat and lon and the time of step j moved 5:30 later and rendered |
| Shaping.ShapedRowFields | weather_forecast/main.py:94 | under each public name, the row of step j holds that field's value at step j |
| Shaping.RowOfShapedAgrees | weather_forecast/main.py:76-96 | a row with the point, the shifted rendered time and the shaped fields of step j agrees with `ExpectedRow` on every schema column |
| Shaping.ShapedRowEntries | weather_forecast/main.py:76-96 | the formatted row of step j agrees on every schema column with `ExpectedRow`: the point, the shifted rendered time, temp in Celsius, prec/rh/rad and the wind of step j |
| Shaping.ReindexAgrees | weather_forecast/main.py:97 | two rows that agree on every schema column give the same record |
| Shaping.ShapedRecord | weather_forecast/main.py:76-97 | the row of step j is laid out exactly as `ExpectedRecord` of step j |
| Shaping.LayOutRecord | weather_forecast/main.py:76-97 | record k of shaped data is `ExpectedRecord` of step k+1 |
| Shaping.ShapeRecordsAt | weather_forecast/main.py:76-97 | when the series span the time axis, record k is the one for time step k+1, field by field as `ExpectedRecord` writes it |
| Shaping.ShapeRecordsTime | weather_forecast/main.py:91-97 | with no assumption on the series, the time column of record k is step k+1 moved 5:30 later and rendered |
| Shaping.ShapeRecordsTimes | weather_forecast/main.py:91-97 | the same, for every record at once |
| Shaping.LayOutTime | weather_forecast/main.py:91-97 | the time column of record k of data on the shifted time axis is step k+1 moved 5:30 later and rendered |
| Shaping.ReindexTime | weather_forecast/main.py:97 | the third column of a record is `time`, holding the row's time |
| Shaping.RecordTimeReadsBack | weather_forecast/main.py:91-96 | a record's time text parses back to a timestamp exactly 330 minutes after the source step |
| Forecast.RetrievedShape | weather_forecast/main.py:55-58 | the dataset the handler gets holds exactly the six requested variables on a valid time axis |
| Forecast.ForecastOf | weather_forecast/main.py:47-102 | a failure of get_gfs is passed on unchanged, and the request fails iff get_gfs or the point selection fails |
| Forecast.GetForecast | weather_forecast/main.py:47-102 | the handler returns exactly `ForecastOf`: get_gfs, then point selection, then shaping, with any failure passed through |
| Forecast.ForecastFailures | weather_forecast/main.py:58-74 | date-out-of-range iff the probe fails on 0001-01-01; data-unavailable iff get_gfs says so; off-grid iff a lattice point is missing from a variable; interpolation failure iff the point is off the lattice and some variable's cell cannot be interpolated |
| Forecast.ForecastRecords | weather_forecast/main.py:58-100 | on success, with no assumption on the series: the time axis is valid, there is one record per time step but the first, each in the nine-column schema, and record k's time column is step k+1 of the dataset moved 5:30 later and rendered |
| Forecast.RecordsOfSelection | weather_forecast/main.py:91-97 | the records shaped from a point selected out of a dataset, stated against the dataset's time axis |
| Forecast.ForecastRecordContents | weather_forecast/main.py:58-100 | when the server's series span their time axes and `interp` keeps the series length, the selected point conforms and record k is `ExpectedRecord` of its step k+1 |
| Forecast.RetrievedSeriesSpanTime | weather_forecast/main.py:28-37 | `ds[varlist]` keeps the data it selects, so the dataset get_gfs returns spans its time axis when the server's does |

## Left out

- Gfs.GetGfs: the `hour` branch is not modelled. It selects the nearest time to
  `date` at `hour`, and `get_forecast` never uses it, so `GetGfs` is the
  `hour=None` path only. The `run` argument is accepted and never read, as in
  the source: the loop variable shadows it.
- Shaping.AddWind: `speed` and `direction` are parameters. They stand for numpy's
  `sqrt(u**2 + v**2)` and `arctan2(u, v) * 180/pi + 180`. Floating point is not
  modelled.
- Shaping.ToCelsius: the Kelvin conversion is exact real arithmetic, with no
  float rounding.
- PointSelection.SelectPoint: `% 0.25` and `// 0.25` are exact on reals. In
  floating point they can differ for coordinates that are not dyadic.
- PointSelection.SelectPoint: xarray's interpolation is the oracle `interp`, and
  `None` stands for xarray raising. Which cells make it raise is not modelled.
  scipy needs two grid points along each axis. `SliceBeyondAxisEnd` shows the
  cells whose slice keeps only one: latitude 90 and negative longitudes. The
  numerics of `interp` and its NaN outside the slice are not modelled either.
- Forecast.ForecastRecordContents: it assumes that every dataset the server hands
  back has one value per time step in each series (`ServesConformingSeries`). It
  also assumes that `interp` keeps the series length (`InterpKeepsLength`). xarray
  guarantees both. The model states them as requirements and does not derive them.
  `ForecastRecords` states the record count, the schema and the time column
  without them.
- Shaping.ShapeRecordsAt: it requires `Conforms`. `SelectedConforms` derives it
  from the two assumptions above.
- Forecast.GetForecast: it requires the server's time axes to consist of valid
  timestamps (`ServesValidTimes`). pandas Timestamp values always are.
- Times have minute resolution. Seconds and the pandas Timestamp range
  (years 1677 to 2262) are not modelled.
- TextFormat.DateStamp: `%Y` is rendered zero-padded to four digits. glibc's
  `strftime` does not pad years below 1000.
- The request's status and the network are not modelled:
  - The HTTP status check is the boolean `reachable`.
  - Opening a dataset is the oracle `fetch`.
  - Timeouts and partial reads are not modelled.
  - Gfs.GetGfs: the exceptions `requests.head` itself raises (a connection error,
    a timeout) are not modelled. In the source they escape `get_gfs`; in the model
    `reachable` answers every probe.
- `dt.date.today()` is the parameter `today`.
- FastAPI routing, query-parameter parsing and JSON serialisation are not modelled.
  Records are lists of (column, value) pairs, with NaN as `Missing`. The uvicorn
  entry point is also not modelled.
- Shaping.Rename: xarray's `ValueError` for an absent or colliding name is not
  modelled. The requires clauses exclude it, and the handler never triggers it.
- `weather_hist/funcs.py` is not part of this model.
