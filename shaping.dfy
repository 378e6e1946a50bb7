/**
 * The record shaping of `get_forecast` (weather_forecast/main.py), after the point
 * has been selected: derive wind speed and direction, drop the wind components,
 * convert temperature to Celsius, rename to the public field names, shift the
 * time axis by +5:30, flatten to rows, drop the first row, render the time and
 * lay every row out in the fixed nine-column schema.
 *
 * `speed` and `direction` stand for numpy's `sqrt(u**2 + v**2)` and
 * `arctan2(u, v) * (180 / pi) + 180`, which are not modelled.
 */
module Shaping {
  import opened Outcomes
  import opened Calendar
  import opened TextFormat
  import opened PointSelection

  /** The variables requested from GFS, in the order of the request. */
  const VARIABLES: seq<string> := ["tmp2m", "pratesfc", "rh2m", "dswrfsfc", "ugrd10m", "vgrd10m"]
  const WIND_U := "ugrd10m"
  const WIND_V := "vgrd10m"
  const TEMPERATURE := "tmp2m"
  const WIND_SPEED := "wind_speed"
  const WIND_DIR := "wind_dir"
  const KELVIN_OFFSET: real := 273.15
  /** `pd.Timedelta(5.5, 'h')` in minutes. */
  const TIME_OFFSET_MINUTES := 330

  /** The public names of the four renamed fields. */
  const RENAMES: map<string, string> :=
    map["tmp2m" := "temp", "pratesfc" := "prec", "rh2m" := "rh", "dswrfsfc" := "rad"]

  /** The output schema, in order. */
  const COLUMNS: seq<string> := ["lat", "lon", "time", "temp", "prec", "rh", "rad", "wind_speed", "wind_dir"]

  /** The requested variables as a set. */
  const VARIABLE_SET: set<string> := {"tmp2m", "pratesfc", "rh2m", "dswrfsfc", "ugrd10m", "vgrd10m"}

  lemma VariableSetOfList()
    ensures (set i | 0 <= i < |VARIABLES| :: VARIABLES[i]) == VARIABLE_SET
  {
    var listed := set i | 0 <= i < |VARIABLES| :: VARIABLES[i];
    assert VARIABLES[0] in listed && VARIABLES[1] in listed && VARIABLES[2] in listed;
    assert VARIABLES[3] in listed && VARIABLES[4] in listed && VARIABLES[5] in listed;
  }

  // ---------------------------------------------------------------- variables

  function Min(a: int, b: int): int {
    if a <= b then a else b
  }

  /** `f(u, v)` taken elementwise along the shared time axis. */
  function ZipWith(f: (real, real) -> real, u: seq<real>, v: seq<real>): (w: seq<real>)
    ensures |w| == Min(|u|, |v|)
    ensures forall i :: 0 <= i < |w| ==> w[i] == f(u[i], v[i])
  {
    seq(Min(|u|, |v|), i requires 0 <= i < Min(|u|, |v|) => f(u[i], v[i]))
  }

  /** `data['wind_speed'] = ...; data['wind_dir'] = ...`. */
  function AddWind(vars: map<string, seq<real>>, speed: (real, real) -> real,
                   direction: (real, real) -> real): (r: map<string, seq<real>>)
    requires WIND_U in vars && WIND_V in vars
    ensures r.Keys == vars.Keys + {WIND_SPEED, WIND_DIR}
    ensures r[WIND_SPEED] == ZipWith(speed, vars[WIND_U], vars[WIND_V])
    ensures r[WIND_DIR] == ZipWith(direction, vars[WIND_U], vars[WIND_V])
    ensures forall k :: k in vars && k != WIND_SPEED && k != WIND_DIR ==> r[k] == vars[k]
  {
    vars[WIND_SPEED := ZipWith(speed, vars[WIND_U], vars[WIND_V])]
        [WIND_DIR := ZipWith(direction, vars[WIND_U], vars[WIND_V])]
  }

  /** `data.drop_vars(['ugrd10m', 'vgrd10m'])`; xarray raises if either is absent. */
  function DropWindComponents(vars: map<string, seq<real>>): (r: map<string, seq<real>>)
    requires WIND_U in vars && WIND_V in vars
    ensures r.Keys == vars.Keys - {WIND_U, WIND_V}
    ensures forall k :: k in r ==> r[k] == vars[k]
  {
    vars - {WIND_U, WIND_V}
  }

  /** `data['tmp2m'] = data['tmp2m'] - 273.15`, in exact arithmetic. */
  function ToCelsius(vars: map<string, seq<real>>): (r: map<string, seq<real>>)
    requires TEMPERATURE in vars
    ensures r.Keys == vars.Keys
    ensures |r[TEMPERATURE]| == |vars[TEMPERATURE]|
    ensures forall i :: 0 <= i < |vars[TEMPERATURE]| ==> r[TEMPERATURE][i] + KELVIN_OFFSET == vars[TEMPERATURE][i]
    ensures forall k :: k in vars && k != TEMPERATURE ==> r[k] == vars[k]
  {
    var t := vars[TEMPERATURE];
    vars[TEMPERATURE := seq(|t|, i requires 0 <= i < |t| => t[i] - KELVIN_OFFSET)]
  }

  /** The name a variable has after `data.rename(RENAMES)`. */
  function NewName(k: string): string {
    if k in RENAMES then RENAMES[k] else k
  }

  /**
   * `data.rename(RENAMES)`.  xarray raises when a name to rename is absent or
   * when two variables would end up with one name; the source always calls it
   * on a dataset where neither happens.
   */
  function Rename(vars: map<string, seq<real>>): (r: map<string, seq<real>>)
    requires forall k :: k in RENAMES ==> k in vars
    requires forall k1, k2 :: k1 in vars && k2 in vars && NewName(k1) == NewName(k2) ==> k1 == k2
    ensures r.Keys == set k | k in vars :: NewName(k)
    ensures forall k :: k in vars ==> r[NewName(k)] == vars[k]
  {
    map k | k in vars :: NewName(k) := vars[k]
  }

  /** The variables after the wind derivation, the drop and the conversion. */
  const SHAPED_SET: set<string> := {"tmp2m", "pratesfc", "rh2m", "dswrfsfc", "wind_speed", "wind_dir"}

  /** The public field names the response carries besides lat, lon and time. */
  const PUBLIC_SET: set<string> := {"temp", "prec", "rh", "rad", "wind_speed", "wind_dir"}

  lemma NewNames()
    ensures NewName("tmp2m") == "temp" && NewName("pratesfc") == "prec"
    ensures NewName("rh2m") == "rh" && NewName("dswrfsfc") == "rad"
    ensures NewName(WIND_SPEED) == WIND_SPEED && NewName(WIND_DIR) == WIND_DIR
  {
  }

  /** No two of the shaped variables end up with one name. */
  lemma RenameInjectiveOnShaped()
    ensures forall k1, k2 :: k1 in SHAPED_SET && k2 in SHAPED_SET && NewName(k1) == NewName(k2) ==> k1 == k2
  {
    NewNames();
  }

  /** The variables after every step up to the rename, as `data` holds them before the time shift. */
  function ShapeVariables(vars: map<string, seq<real>>, speed: (real, real) -> real,
                          direction: (real, real) -> real): (r: map<string, seq<real>>)
    requires vars.Keys == VARIABLE_SET
    ensures r.Keys == PUBLIC_SET
  {
    var c := ToCelsius(DropWindComponents(AddWind(vars, speed, direction)));
    assert c.Keys == SHAPED_SET;
    RenameShapedKeys(c);
    Rename(c)
  }

  /** Renaming the shaped variables yields exactly the public field names. */
  lemma PublicNames()
    ensures (set k | k in SHAPED_SET :: NewName(k)) == PUBLIC_SET
  {
    NewNames();
    var img := set k | k in SHAPED_SET :: NewName(k);
    forall x | x in img ensures x in PUBLIC_SET {
      var k :| k in SHAPED_SET && NewName(k) == x;
    }
    assert NewName("tmp2m") in img && NewName("pratesfc") in img;
    assert NewName("rh2m") in img && NewName("dswrfsfc") in img;
    assert NewName(WIND_SPEED) in img && NewName(WIND_DIR) in img;
  }

  lemma ComponentsNotPublic()
    ensures WIND_U !in PUBLIC_SET && WIND_V !in PUBLIC_SET
  {
  }

  lemma RenameShapedKeys(c: map<string, seq<real>>)
    requires c.Keys == SHAPED_SET
    ensures forall k1, k2 :: k1 in c && k2 in c && NewName(k1) == NewName(k2) ==> k1 == k2
    ensures Rename(c).Keys == PUBLIC_SET
  {
    RenameInjectiveOnShaped();
    PublicNames();
    assert (set k | k in c :: NewName(k)) == (set k | k in SHAPED_SET :: NewName(k));
  }

  /** Before the rename: the shaped variables, each holding the data it was derived from. */
  lemma ShapedBeforeRename(vars: map<string, seq<real>>, speed: (real, real) -> real,
                           direction: (real, real) -> real)
    requires vars.Keys == VARIABLE_SET
    ensures var c := ToCelsius(DropWindComponents(AddWind(vars, speed, direction)));
      && c.Keys == SHAPED_SET
      && c["pratesfc"] == vars["pratesfc"] && c["rh2m"] == vars["rh2m"] && c["dswrfsfc"] == vars["dswrfsfc"]
      && |c[TEMPERATURE]| == |vars[TEMPERATURE]|
      && (forall i :: 0 <= i < |vars[TEMPERATURE]| ==> c[TEMPERATURE][i] + KELVIN_OFFSET == vars[TEMPERATURE][i])
      && c[WIND_SPEED] == ZipWith(speed, vars[WIND_U], vars[WIND_V])
      && c[WIND_DIR] == ZipWith(direction, vars[WIND_U], vars[WIND_V])
  {
  }

  /** The rename moves each shaped variable's data to its public name. */
  lemma RenameShapedValues(c: map<string, seq<real>>)
    requires c.Keys == SHAPED_SET
    ensures (RenameShapedKeys(c); var r := Rename(c);
      && r["temp"] == c[TEMPERATURE]
      && r["prec"] == c["pratesfc"] && r["rh"] == c["rh2m"] && r["rad"] == c["dswrfsfc"]
      && r[WIND_SPEED] == c[WIND_SPEED] && r[WIND_DIR] == c[WIND_DIR])
  {
    RenameShapedKeys(c);
    NewNames();
  }

  /**
   * What the shaped variables r hold, in terms of the requested variables: exactly
   * the six public fields, the temperature in Celsius, precipitation, humidity and
   * radiation unchanged, and the wind speed and direction taken from u and v.
   */
  predicate ShapedFrom(r: map<string, seq<real>>, vars: map<string, seq<real>>,
                       speed: (real, real) -> real, direction: (real, real) -> real)
    requires vars.Keys == VARIABLE_SET
  {
    && r.Keys == PUBLIC_SET
    && r["prec"] == vars["pratesfc"] && r["rh"] == vars["rh2m"] && r["rad"] == vars["dswrfsfc"]
    && |r["temp"]| == |vars[TEMPERATURE]|
    && (forall i :: 0 <= i < |vars[TEMPERATURE]| ==> r["temp"][i] + KELVIN_OFFSET == vars[TEMPERATURE][i])
    && r[WIND_SPEED] == ZipWith(speed, vars[WIND_U], vars[WIND_V])
    && r[WIND_DIR] == ZipWith(direction, vars[WIND_U], vars[WIND_V])
  }

  /**
   * After shaping, the wind components are gone, the two wind fields are there,
   * exactly the four fields of RENAMES carry their public names, and each field
   * holds the data it was derived from.
   */
  lemma ShapeVariablesFields(vars: map<string, seq<real>>, speed: (real, real) -> real,
                             direction: (real, real) -> real)
    requires vars.Keys == VARIABLE_SET
    ensures var r := ShapeVariables(vars, speed, direction);
      && ShapedFrom(r, vars, speed, direction)
      && WIND_U !in r && WIND_V !in r
  {
    var c := ToCelsius(DropWindComponents(AddWind(vars, speed, direction)));
    ShapedBeforeRename(vars, speed, direction);
    RenameShapedKeys(c);
    RenameShapedValues(c);
    ComponentsNotPublic();
  }

  // ---------------------------------------------------------------- time axis

  /** `data['time'] + pd.Timedelta(5.5, 'h')`. */
  function ShiftTimes(times: seq<DateTime>): (r: seq<DateTime>)
    requires forall i :: 0 <= i < |times| ==> ValidDateTime(times[i])
    ensures |r| == |times|
    ensures forall i :: 0 <= i < |r| ==> ValidDateTime(r[i]) && Ticks(r[i]) == Ticks(times[i]) + TIME_OFFSET_MINUTES
  {
    seq(|times|, i requires 0 <= i < |times| => AddMinutes(times[i], TIME_OFFSET_MINUTES))
  }

  // ---------------------------------------------------------------- rows and records

  /** One cell of the flattened table; `Missing` is pandas' NaN. */
  datatype Entry = Number(x: real) | Text(s: string) | Stamp(t: DateTime) | Missing

  type Row = map<string, Entry>

  /** An output record: column names and values in column order (`to_dict(orient='records')`). */
  type Record = seq<(string, Entry)>

  function EntryAt(s: seq<real>, k: nat): Entry {
    if k < |s| then Number(s[k]) else Missing
  }

  /** Row k of `data.to_dataframe().reset_index()`: every variable, the time and the point's coordinates. */
  function RowAt(p: PointData, k: nat): (row: Row)
    requires k < |p.time|
    ensures row.Keys == p.vars.Keys + {"time", "lat", "lon"}
  {
    (map name | name in p.vars :: EntryAt(p.vars[name], k))
      + map["time" := Stamp(p.time[k]), "lat" := Number(p.lat), "lon" := Number(p.lon)]
  }

  /** `to_dataframe().reset_index()`: one row per time step, in time-axis order. */
  function Flatten(p: PointData): (rows: seq<Row>)
    ensures |rows| == |p.time|
    ensures forall k :: 0 <= k < |rows| ==> rows[k] == RowAt(p, k)
  {
    seq(|p.time|, k requires 0 <= k < |p.time| => RowAt(p, k))
  }

  /** `data_df.iloc[1:]`: every row but the first (nothing, for an empty table). */
  function DropFirst<T>(rows: seq<T>): (r: seq<T>)
    ensures |r| == if rows == [] then 0 else |rows| - 1
    ensures forall k :: 0 <= k < |r| ==> r[k] == rows[k + 1]
  {
    if rows == [] then [] else rows[1..]
  }

  /** `data_df['time'].dt.strftime('%Y-%m-%d %H:%M')` on one row. */
  function FormatTime(row: Row): (r: Row)
    ensures r.Keys == row.Keys
    ensures forall c :: c in row && c != "time" ==> r[c] == row[c]
    ensures "time" in row && row["time"].Stamp? && ValidDateTime(row["time"].t) ==>
              r["time"] == Text(FormatDateTime(row["time"].t))
  {
    if "time" in row && row["time"].Stamp? && ValidDateTime(row["time"].t) then
      row["time" := Text(FormatDateTime(row["time"].t))]
    else
      row
  }

  /** The column names of a record, in order. */
  function ColumnsOf(rec: Record): (names: seq<string>)
    ensures |names| == |rec| && forall i :: 0 <= i < |rec| ==> names[i] == rec[i].0
  {
    seq(|rec|, i requires 0 <= i < |rec| => rec[i].0)
  }

  /** `reindex(columns=COLUMNS)` on one row: exactly the schema's columns, a missing one as NaN. */
  function Reindex(row: Row): (rec: Record)
    ensures |rec| == |COLUMNS| && ColumnsOf(rec) == COLUMNS
    ensures forall i :: 0 <= i < |COLUMNS| ==>
              rec[i].0 == COLUMNS[i] && rec[i].1 == (if COLUMNS[i] in row then row[COLUMNS[i]] else Missing)
  {
    seq(|COLUMNS|, i requires 0 <= i < |COLUMNS| =>
      (COLUMNS[i], if COLUMNS[i] in row then row[COLUMNS[i]] else Missing))
  }

  /**
   * `to_dataframe().reset_index()`, `iloc[1:]`, the time rendering and the reindex,
   * applied to data that has already been shaped.
   */
  function LayOut(q: PointData): (out: seq<Record>)
    ensures |out| == if q.time == [] then 0 else |q.time| - 1
    ensures forall k :: 0 <= k < |out| ==> ColumnsOf(out[k]) == COLUMNS
  {
    var rows := DropFirst(Flatten(q));
    seq(|rows|, k requires 0 <= k < |rows| => Reindex(FormatTime(rows[k])))
  }

  /** Everything `get_forecast` does to the selected point's data, up to the response. */
  function ShapeRecords(p: PointData, speed: (real, real) -> real, direction: (real, real) -> real): (out: seq<Record>)
    requires p.vars.Keys == VARIABLE_SET
    requires forall i :: 0 <= i < |p.time| ==> ValidDateTime(p.time[i])
    ensures |out| == if p.time == [] then 0 else |p.time| - 1
    ensures forall k :: 0 <= k < |out| ==> ColumnsOf(out[k]) == COLUMNS
  {
    LayOut(PointData(p.lat, p.lon, ShiftTimes(p.time), ShapeVariables(p.vars, speed, direction)))
  }

  // ---------------------------------------------------------------- what a record holds

  /**
   * The row the response holds for time step j of the point's data, written out
   * column by column: the point, the time moved to +5:30 and rendered, the
   * temperature in Celsius, the three fields passed through, and the wind derived
   * from u and v.
   */
  function ExpectedRow(p: PointData, j: nat, speed: (real, real) -> real, direction: (real, real) -> real): Row
    requires p.vars.Keys == VARIABLE_SET && Conforms(p) && j < |p.time|
  {
    var u, v := p.vars[WIND_U][j], p.vars[WIND_V][j];
    map[ "lat" := Number(p.lat),
         "lon" := Number(p.lon),
         "time" := Text(FormatDateTime(AddMinutes(p.time[j], TIME_OFFSET_MINUTES))),
         "temp" := Number(p.vars[TEMPERATURE][j] - KELVIN_OFFSET),
         "prec" := Number(p.vars["pratesfc"][j]),
         "rh" := Number(p.vars["rh2m"][j]),
         "rad" := Number(p.vars["dswrfsfc"][j]),
         "wind_speed" := Number(speed(u, v)),
         "wind_dir" := Number(direction(u, v)) ]
  }

  /** The record of time step j: the expected row laid out in the schema. */
  function ExpectedRecord(p: PointData, j: nat, speed: (real, real) -> real, direction: (real, real) -> real): Record
    requires p.vars.Keys == VARIABLE_SET && Conforms(p) && j < |p.time|
  {
    Reindex(ExpectedRow(p, j, speed, direction))
  }

  /** q is the shaped form of p: the same point, the time axis moved 5:30 later, the variables shaped. */
  predicate ShapedData(q: PointData, p: PointData, speed: (real, real) -> real, direction: (real, real) -> real)
    requires p.vars.Keys == VARIABLE_SET
    requires forall i :: 0 <= i < |p.time| ==> ValidDateTime(p.time[i])
  {
    && q.lat == p.lat && q.lon == p.lon
    && q.time == ShiftTimes(p.time)
    && ShapedFrom(q.vars, p.vars, speed, direction)
  }

  /** What `ShapeRecords` lays out is the shaped form of the point's data. */
  lemma ShapedDataOfPoint(p: PointData, speed: (real, real) -> real, direction: (real, real) -> real)
    requires p.vars.Keys == VARIABLE_SET
    requires forall i :: 0 <= i < |p.time| ==> ValidDateTime(p.time[i])
    ensures var q := PointData(p.lat, p.lon, ShiftTimes(p.time), ShapeVariables(p.vars, speed, direction));
      ShapedData(q, p, speed, direction) && ShapeRecords(p, speed, direction) == LayOut(q)
  {
    ShapeVariablesFields(p.vars, speed, direction);
  }

  /** Record k of the layout is row k + 1 of the data, its time rendered, in the schema. */
  lemma LayOutElement(q: PointData, k: nat)
    requires k < |LayOut(q)|
    ensures k + 1 < |q.time| && LayOut(q)[k] == Reindex(FormatTime(RowAt(q, k + 1)))
  {
  }

  /** A flattened row holds the point's coordinates, the time step and each variable's entry. */
  lemma RowAtEntries(q: PointData, j: nat)
    requires j < |q.time|
    ensures var row := RowAt(q, j);
      && row["lat"] == Number(q.lat) && row["lon"] == Number(q.lon) && row["time"] == Stamp(q.time[j])
      && forall name :: name in q.vars && name != "time" && name != "lat" && name != "lon" ==>
           row[name] == EntryAt(q.vars[name], j)
  {
  }

  lemma PublicNotCoordinates()
    ensures forall n :: n in PUBLIC_SET ==> n != "time" && n != "lat" && n != "lon"
  {
  }

  /** The coordinate columns of a shaped row: the point and the shifted, rendered time. */
  lemma ShapedRowCoordinates(q: PointData, p: PointData, j: nat)
    requires forall i :: 0 <= i < |p.time| ==> ValidDateTime(p.time[i])
    requires j < |p.time|
    requires q.lat == p.lat && q.lon == p.lon && q.time == ShiftTimes(p.time)
    ensures var row := FormatTime(RowAt(q, j));
      && "lat" in row && "lon" in row && "time" in row
      && row["lat"] == Number(p.lat) && row["lon"] == Number(p.lon)
      && row["time"] == Text(FormatDateTime(AddMinutes(p.time[j], TIME_OFFSET_MINUTES)))
  {
    RowAtEntries(q, j);
  }

  /**
   * A row that holds the point, the shifted time of step j and, under each public
   * name, step j of shaped variables r holds in every column of the schema what the
   * expected row holds there.
   */
  lemma RowOfShapedAgrees(row: Row, p: PointData, j: nat, speed: (real, real) -> real,
                          direction: (real, real) -> real, r: map<string, seq<real>>)
    requires p.vars.Keys == VARIABLE_SET && Conforms(p) && j < |p.time|
    requires ShapedFrom(r, p.vars, speed, direction)
    requires "lat" in row && "lon" in row && "time" in row
    requires row["lat"] == Number(p.lat) && row["lon"] == Number(p.lon)
    requires row["time"] == Text(FormatDateTime(AddMinutes(p.time[j], TIME_OFFSET_MINUTES)))
    requires forall n :: n in PUBLIC_SET ==> n in row && row[n] == EntryAt(r[n], j)
    ensures var want := ExpectedRow(p, j, speed, direction);
      forall i :: 0 <= i < |COLUMNS| ==> COLUMNS[i] in row && COLUMNS[i] in want && row[COLUMNS[i]] == want[COLUMNS[i]]
  {
    assert |p.vars[TEMPERATURE]| == |p.vars[WIND_U]| == |p.vars[WIND_V]| == |p.time|;
    assert |p.vars["pratesfc"]| == |p.vars["rh2m"]| == |p.vars["dswrfsfc"]| == |p.time|;
  }

  /** The public fields of a shaped row: each shaped variable's entry at step j. */
  lemma ShapedRowFields(q: PointData, j: nat)
    requires q.vars.Keys == PUBLIC_SET && j < |q.time|
    ensures var row := FormatTime(RowAt(q, j));
      forall n :: n in PUBLIC_SET ==> n in row && row[n] == EntryAt(q.vars[n], j)
  {
    RowAtEntries(q, j);
    PublicNotCoordinates();
  }

  /** The formatted row for time step j of the shaped data holds in every column what the expected row holds. */
  lemma ShapedRowEntries(q: PointData, p: PointData, j: nat, speed: (real, real) -> real,
                         direction: (real, real) -> real)
    requires p.vars.Keys == VARIABLE_SET && Conforms(p) && j < |p.time|
    requires ShapedData(q, p, speed, direction)
    ensures var row := FormatTime(RowAt(q, j));
      var want := ExpectedRow(p, j, speed, direction);
      forall i :: 0 <= i < |COLUMNS| ==> COLUMNS[i] in row && COLUMNS[i] in want && row[COLUMNS[i]] == want[COLUMNS[i]]
  {
    ShapedRowCoordinates(q, p, j);
    ShapedRowFields(q, j);
    RowOfShapedAgrees(FormatTime(RowAt(q, j)), p, j, speed, direction, q.vars);
  }

  /** Two rows that agree on every column of the schema are laid out as the same record. */
  lemma ReindexAgrees(row1: Row, row2: Row)
    requires forall i :: 0 <= i < |COLUMNS| ==>
               (COLUMNS[i] in row1 <==> COLUMNS[i] in row2) && (COLUMNS[i] in row1 ==> row1[COLUMNS[i]] == row2[COLUMNS[i]])
    ensures Reindex(row1) == Reindex(row2)
  {
    assert forall i :: 0 <= i < |COLUMNS| ==> Reindex(row1)[i] == Reindex(row2)[i];
  }

  /** The row of time step j of the shaped data is laid out as the expected record. */
  lemma ShapedRecord(q: PointData, p: PointData, j: nat, speed: (real, real) -> real, direction: (real, real) -> real)
    requires p.vars.Keys == VARIABLE_SET && Conforms(p) && j < |p.time|
    requires ShapedData(q, p, speed, direction)
    ensures Reindex(FormatTime(RowAt(q, j))) == ExpectedRecord(p, j, speed, direction)
  {
    ShapedRowEntries(q, p, j, speed, direction);
    ReindexAgrees(FormatTime(RowAt(q, j)), ExpectedRow(p, j, speed, direction));
  }

  /** Record k of the layout of p's shaped data is the expected record of step k + 1. */
  lemma LayOutRecord(q: PointData, p: PointData, k: nat, speed: (real, real) -> real, direction: (real, real) -> real)
    requires p.vars.Keys == VARIABLE_SET && Conforms(p)
    requires ShapedData(q, p, speed, direction)
    requires k < |LayOut(q)|
    ensures k + 1 < |p.time| && LayOut(q)[k] == ExpectedRecord(p, k + 1, speed, direction)
  {
    LayOutElement(q, k);
    ShapedRecord(q, p, k + 1, speed, direction);
  }

  /**
   * Record k of the response is the one for time step k + 1 of the point's data:
   * the first step is dropped and every later one appears, in order, laid out as
   * `ExpectedRecord` writes it.
   */
  lemma ShapeRecordsAt(p: PointData, speed: (real, real) -> real, direction: (real, real) -> real, k: nat)
    requires p.vars.Keys == VARIABLE_SET && Conforms(p)
    requires k < |ShapeRecords(p, speed, direction)|
    ensures k + 1 < |p.time| && ShapeRecords(p, speed, direction)[k] == ExpectedRecord(p, k + 1, speed, direction)
  {
    var q := PointData(p.lat, p.lon, ShiftTimes(p.time), ShapeVariables(p.vars, speed, direction));
    ShapedDataOfPoint(p, speed, direction);
    LayOutRecord(q, p, k, speed, direction);
  }

  /**
   * The time column of record k is step k + 1 of the source time axis moved 5:30
   * later and rendered; this needs only the variable names and a valid time axis.
   */
  lemma ShapeRecordsTime(p: PointData, speed: (real, real) -> real, direction: (real, real) -> real, k: nat)
    requires p.vars.Keys == VARIABLE_SET
    requires forall i :: 0 <= i < |p.time| ==> ValidDateTime(p.time[i])
    requires k < |ShapeRecords(p, speed, direction)|
    ensures k + 1 < |p.time|
    ensures ShapeRecords(p, speed, direction)[k][2] ==
              ("time", Text(FormatDateTime(AddMinutes(p.time[k + 1], TIME_OFFSET_MINUTES))))
  {
    var q := PointData(p.lat, p.lon, ShiftTimes(p.time), ShapeVariables(p.vars, speed, direction));
    ShapedDataOfPoint(p, speed, direction);
    LayOutTime(q, p, k);
  }

  /** `ShapeRecordsTime` for every record at once. */
  lemma ShapeRecordsTimes(p: PointData, speed: (real, real) -> real, direction: (real, real) -> real)
    requires p.vars.Keys == VARIABLE_SET
    requires forall i :: 0 <= i < |p.time| ==> ValidDateTime(p.time[i])
    ensures var out := ShapeRecords(p, speed, direction);
      forall k :: 0 <= k < |out| ==>
        k + 1 < |p.time| && out[k][2] == ("time", Text(FormatDateTime(AddMinutes(p.time[k + 1], TIME_OFFSET_MINUTES))))
  {
    var out := ShapeRecords(p, speed, direction);
    forall k | 0 <= k < |out|
      ensures k + 1 < |p.time| && out[k][2] == ("time", Text(FormatDateTime(AddMinutes(p.time[k + 1], TIME_OFFSET_MINUTES))))
    {
      ShapeRecordsTime(p, speed, direction, k);
    }
  }

  /** The time column of record k of the layout of data on p's shifted time axis. */
  lemma LayOutTime(q: PointData, p: PointData, k: nat)
    requires forall i :: 0 <= i < |p.time| ==> ValidDateTime(p.time[i])
    requires q.lat == p.lat && q.lon == p.lon && q.time == ShiftTimes(p.time)
    requires k < |LayOut(q)|
    ensures k + 1 < |p.time|
    ensures LayOut(q)[k][2] == ("time", Text(FormatDateTime(AddMinutes(p.time[k + 1], TIME_OFFSET_MINUTES))))
  {
    LayOutElement(q, k);
    ShapedRowCoordinates(q, p, k + 1);
    ReindexTime(FormatTime(RowAt(q, k + 1)));
  }

  /** The third column of a record is the row's time. */
  lemma ReindexTime(row: Row)
    requires "time" in row
    ensures Reindex(row)[2] == ("time", row["time"])
  {
    assert COLUMNS[2] == "time";
  }

  /** The time text of a record reads back as the source time step moved 5:30 later. */
  lemma RecordTimeReadsBack(p: PointData, j: nat)
    requires j < |p.time| && ValidDateTime(p.time[j])
    requires AddMinutes(p.time[j], TIME_OFFSET_MINUTES).date.year <= MAX_YEAR
    ensures var text := FormatDateTime(AddMinutes(p.time[j], TIME_OFFSET_MINUTES));
      && ParseDateTime(text).Some?
      && ValidDateTime(ParseDateTime(text).value)
      && Ticks(ParseDateTime(text).value) == Ticks(p.time[j]) + TIME_OFFSET_MINUTES
  {
    DateTimeRoundTrip(AddMinutes(p.time[j], TIME_OFFSET_MINUTES));
  }
}
