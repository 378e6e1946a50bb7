/**
 * `get_gfs` (weather_forecast/main.py): open a GFS model run on the NOMADS
 * OPeNDAP server.  One reachability probe on the day's directory decides between
 * the reference date and the day before; the runs of that one date are then
 * opened newest first (18, 12, 6, 0 UTC) and the first one that opens and holds
 * the requested variables is returned.  When the probe answers but none of the
 * day's runs opens, the day before is not tried.
 *
 * The network is an oracle: `reachable(url)` is "HEAD on url answered 200" and
 * `fetch(url)` is what `xr.open_dataset(url)` yields, `None` when it raises.
 */
module Gfs {
  import opened Outcomes
  import opened Calendar
  import opened TextFormat

  const GFS_BASE := "https://nomads.ncep.noaa.gov/dods"
  const DEFAULT_RESOLUTION := "0p25"
  /** Model runs start every RUN_STEP hours of the UTC day. */
  const RUN_STEP := 6
  const HOURS_PER_DAY := 24

  /** An opened dataset: its time axis and its variables by name. */
  datatype Dataset<V> = Dataset(time: seq<DateTime>, vars: map<string, V>)

  // ---------------------------------------------------------------- URLs

  /** The directory of one day's runs, `{GFS_BASE}/gfs_{res}/gfs{YYYYMMDD}`. */
  function DayUrl(res: string, d: Date): (u: string)
    requires ValidDate(d) && d.year <= MAX_YEAR
    ensures |u| == |GFS_BASE| + |res| + 17 && u[..|GFS_BASE|] == GFS_BASE
  {
    GFS_BASE + "/gfs_" + res + "/gfs" + DateStamp(d)
  }

  /** A day directory ends in the stamp of its date, which reads back as that date. */
  lemma DayUrlNamesDate(res: string, d: Date)
    requires ValidDate(d) && d.year <= MAX_YEAR
    ensures var u := DayUrl(res, d); ParseDateStamp(u[|u| - 8..]) == Some(d)
  {
    var u := DayUrl(res, d);
    assert u[|u| - 8..] == DateStamp(d);
    DateStampRoundTrip(d);
  }

  /** One run inside a day directory, `{dayUrl}/gfs_{res}_{run:02d}z`. */
  function RunUrl(dayUrl: string, res: string, run: nat): (u: string)
    requires run < 100
    ensures |u| == |dayUrl| + |res| + 9 && u[..|dayUrl|] == dayUrl && u[|u| - 1] == 'z'
  {
    dayUrl + "/gfs_" + res + "_" + RunLabel(run) + "z"
  }

  /** A run URL ends in the two digits of its run hour and a `z`. */
  lemma RunUrlNamesRun(dayUrl: string, res: string, run: nat)
    requires run < 100
    ensures var u := RunUrl(dayUrl, res, run);
      AllDigits(u[|u| - 3..|u| - 1]) && Value(u[|u| - 3..|u| - 1]) == run
  {
    var u := RunUrl(dayUrl, res, run);
    assert u[|u| - 3..|u| - 1] == RunLabel(run);
  }

  /** The URL of run `run` of date d: a run URL inside the day directory of d. */
  function CandidateUrl(res: string, d: Date, run: nat): (u: string)
    requires ValidDate(d) && d.year <= MAX_YEAR && run < 100
    ensures |u| == |GFS_BASE| + 2 * |res| + 26
    ensures u[..|DayUrl(res, d)|] == DayUrl(res, d)
  {
    RunUrl(DayUrl(res, d), res, run)
  }

  /** Reads the date and run hour back out of a candidate URL for resolution res. */
  function DecodeCandidateUrl(url: string, res: string): Option<(Date, nat)> {
    var head := GFS_BASE + "/gfs_" + res + "/gfs";
    var middle := "/gfs_" + res + "_";
    var h, m := |head|, |middle|;
    if |url| == h + 8 + m + 3 && url[..h] == head && url[h + 8..h + 8 + m] == middle
       && url[|url| - 1] == 'z' && AllDigits(url[h + 8 + m..h + 8 + m + 2])
    then
      match ParseDateStamp(url[h..h + 8])
      case Some(d) => Some((d, Value(url[h + 8 + m..h + 8 + m + 2])))
      case None => None
    else
      None
  }

  /** A candidate URL names its date and its run hour unambiguously. */
  lemma CandidateUrlRoundTrip(res: string, d: Date, run: nat)
    requires ValidDate(d) && d.year <= MAX_YEAR && run < 100
    ensures DecodeCandidateUrl(CandidateUrl(res, d, run), res) == Some((d, run))
  {
    var head := GFS_BASE + "/gfs_" + res + "/gfs";
    var middle := "/gfs_" + res + "_";
    var stamp, hour := DateStamp(d), RunLabel(run);
    var url := CandidateUrl(res, d, run);
    var h, m := |head|, |middle|;
    assert url == head + stamp + middle + hour + "z";
    assert url[..h] == head;
    assert url[h..h + 8] == stamp;
    assert url[h + 8..h + 8 + m] == middle;
    assert url[h + 8 + m..h + 8 + m + 2] == hour;
    DateStampRoundTrip(d);
  }

  /** Distinct (date, run) pairs give distinct URLs. */
  lemma CandidateUrlInjective(res: string, d1: Date, run1: nat, d2: Date, run2: nat)
    requires ValidDate(d1) && d1.year <= MAX_YEAR && run1 < 100
    requires ValidDate(d2) && d2.year <= MAX_YEAR && run2 < 100
    requires CandidateUrl(res, d1, run1) == CandidateUrl(res, d2, run2)
    ensures d1 == d2 && run1 == run2
  {
    CandidateUrlRoundTrip(res, d1, run1);
    CandidateUrlRoundTrip(res, d2, run2);
  }

  // ---------------------------------------------------------------- runs

  /** The first n run hours counted down: `reversed(range(0, n * RUN_STEP, RUN_STEP))`. */
  function DescendingRuns(n: nat): (runs: seq<nat>)
    ensures |runs| == n
    ensures forall i :: 0 <= i < n ==> runs[i] == (n - 1 - i) * RUN_STEP
  {
    if n == 0 then [] else [(n - 1) * RUN_STEP] + DescendingRuns(n - 1)
  }

  /** `reversed(range(0, 24, 6))`. */
  function CandidateRuns(): (runs: seq<nat>)
    ensures runs == [18, 12, 6, 0]
  {
    DescendingRuns(HOURS_PER_DAY / RUN_STEP)
  }

  // ---------------------------------------------------------------- opening a run

  /** `ds[varlist]`: the listed variables, or `None` (a KeyError) when one is missing. */
  function SelectVars<V>(ds: Dataset<V>, names: seq<string>): (r: Option<Dataset<V>>)
    ensures r.Some? <==> forall i :: 0 <= i < |names| ==> names[i] in ds.vars
    ensures r.Some? ==> r.value.time == ds.time
    ensures r.Some? ==> r.value.vars.Keys == set i | 0 <= i < |names| :: names[i]
    ensures r.Some? ==> forall k :: k in r.value.vars ==> k in ds.vars && r.value.vars[k] == ds.vars[k]
  {
    if forall i :: 0 <= i < |names| ==> names[i] in ds.vars then
      Some(Dataset(ds.time, map k | k in ds.vars && k in names :: ds.vars[k]))
    else
      None
  }

  /**
   * One pass of the `try` block: open the URL and select the variables.  Everything
   * that can raise in it is caught by the bare `except`, so both an open failure
   * and a missing variable come out as `None`.
   */
  function Attempt<V>(fetch: string -> Option<Dataset<V>>, names: seq<string>, url: string): (r: Option<Dataset<V>>)
    ensures r.Some? <==> fetch(url).Some? && forall i :: 0 <= i < |names| ==> names[i] in fetch(url).value.vars
    ensures r.Some? ==> r == SelectVars(fetch(url).value, names)
  {
    match fetch(url)
    case None => None
    case Some(ds) => SelectVars(ds, names)
  }

  // ---------------------------------------------------------------- specification

  /** The date whose runs are tried: the reference date, or the day before when the probe fails. */
  function ResolveDate(res: string, date: Date, reachable: string -> bool): (r: Outcome<Date>)
    requires ValidDate(date) && date.year <= MAX_YEAR
    ensures r.Err? <==> !reachable(DayUrl(res, date)) && date == MIN_DATE
    ensures r.Err? ==> r.failure == DateOutOfRange
    ensures r.Ok? ==> ValidDate(r.value) && r.value.year <= MAX_YEAR
    ensures r.Ok? ==> Ordinal(r.value) == Ordinal(date) - (if reachable(DayUrl(res, date)) then 0 else 1)
  {
    if reachable(DayUrl(res, date)) then Ok(date)
    else if date == MIN_DATE then Err(DateOutOfRange)
    else PrevDayOrdinal(date); Ok(PrevDay(date))
  }

  /** The URLs of the given runs of one day directory, in the same order. */
  function RunUrls(dayUrl: string, res: string, runs: seq<nat>): (urls: seq<string>)
    requires forall i :: 0 <= i < |runs| ==> runs[i] < 100
  {
    seq(|runs|, i requires 0 <= i < |runs| => RunUrl(dayUrl, res, runs[i]))
  }

  /** The URLs opened, in order, and what the last of them yielded. */
  datatype Search<V> = Search(tried: seq<string>, found: Option<Dataset<V>>)

  /** Opens `urls` in order until one yields the variables. */
  function FirstOpen<V>(urls: seq<string>, names: seq<string>, fetch: string -> Option<Dataset<V>>): (s: Search<V>)
    ensures |s.tried| <= |urls|
  {
    if urls == [] then Search([], None)
    else
      var here := Attempt(fetch, names, urls[0]);
      if here.Some? then Search([urls[0]], here)
      else
        var rest := FirstOpen(urls[1..], names, fetch);
        Search([urls[0]] + rest.tried, rest.found)
  }

  /**
   * The search stops at the first URL that opens: the URLs tried are a prefix of
   * `urls`, every one of them but a successful last one failed, and nothing is
   * found only when every URL failed.
   */
  lemma {:induction false} FirstOpenFindsFirst<V>(urls: seq<string>, names: seq<string>,
                                                  fetch: string -> Option<Dataset<V>>)
    ensures var s := FirstOpen(urls, names, fetch);
      && |s.tried| <= |urls| && s.tried == urls[..|s.tried|]
      && (s.found.None? <==> forall i :: 0 <= i < |urls| ==> Attempt(fetch, names, urls[i]).None?)
      && (s.found.None? ==> s.tried == urls)
      && (s.found.Some? ==>
            1 <= |s.tried|
            && s.found == Attempt(fetch, names, urls[|s.tried| - 1])
            && forall i :: 0 <= i < |s.tried| - 1 ==> Attempt(fetch, names, urls[i]).None?)
  {
    if urls != [] && Attempt(fetch, names, urls[0]).None? {
      var tail := urls[1..];
      FirstOpenFindsFirst(tail, names, fetch);
      assert forall i :: 1 <= i < |urls| ==> urls[i] == tail[i - 1];
    }
  }

  /** Searching from position i opens urls[i] first and goes on from i + 1 only when it fails. */
  lemma FirstOpenStep<V>(urls: seq<string>, i: nat, names: seq<string>, fetch: string -> Option<Dataset<V>>)
    requires i < |urls|
    ensures var here := Attempt(fetch, names, urls[i]);
      var rest := FirstOpen(urls[i + 1..], names, fetch);
      FirstOpen(urls[i..], names, fetch) ==
        if here.Some? then Search([urls[i]], here) else Search([urls[i]] + rest.tried, rest.found)
  {
    assert urls[i..][0] == urls[i] && urls[i..][1..] == urls[i + 1..];
  }

  /** What one call of `get_gfs` does: the URLs it opens and what it returns. */
  datatype Retrieval<V> = Retrieval(attempts: seq<string>, result: Outcome<Dataset<V>>)

  /** What `get_gfs` does for a reference date, as a function of what the server answers. */
  function Retrieve<V>(date: Date, names: seq<string>, res: string,
                       reachable: string -> bool, fetch: string -> Option<Dataset<V>>): (r: Retrieval<V>)
    requires ValidDate(date) && date.year <= MAX_YEAR
    ensures |r.attempts| <= |CandidateRuns()|
    ensures r.result.Err? ==> r.result.failure == DateOutOfRange || r.result.failure == DataUnavailable
  {
    match ResolveDate(res, date, reachable)
    case Err(e) => Retrieval([], Err(e))
    case Ok(d) =>
      var s := FirstOpen(RunUrls(DayUrl(res, d), res, CandidateRuns()), names, fetch);
      Retrieval(s.tried, if s.found.Some? then Ok(s.found.value) else Err(DataUnavailable))
  }

  // ---------------------------------------------------------------- the operation

  /**
   * The `for run in ...` loop of `get_gfs` over the candidate URLs: open each in
   * turn, return the first dataset that opens with all the variables, and go on
   * to the next URL whenever the `try` block raises.
   */
  method OpenFirst<V>(urls: seq<string>, names: seq<string>, fetch: string -> Option<Dataset<V>>)
    returns (found: Option<Dataset<V>>, attempts: seq<string>)
    ensures Search(attempts, found) == FirstOpen(urls, names, fetch)
  {
    ghost var whole := FirstOpen(urls, names, fetch);
    attempts := [];
    var i := 0;
    while i < |urls|
      invariant 0 <= i <= |urls|
      invariant attempts == urls[..i]
      invariant whole.tried == attempts + FirstOpen(urls[i..], names, fetch).tried
      invariant whole.found == FirstOpen(urls[i..], names, fetch).found
    {
      var url := urls[i];
      FirstOpenStep(urls, i, names, fetch);
      attempts := attempts + [url];
      var got := Attempt(fetch, names, url);
      if got.Some? {
        return got, attempts;
      }
      i := i + 1;
    }
    found := None;
  }

  /**
   * `get_gfs(date, varlist, run, hour=None, res)`.  `probes` are the HEAD requests
   * made, `attempts` the URLs handed to `xr.open_dataset`, in order.  The `run`
   * argument is accepted and never read: the loop variable shadows it, so nothing
   * in the contract depends on it.
   */
  method GetGfs<V>(date: Date, names: seq<string>, run: int, res: string,
                   reachable: string -> bool, fetch: string -> Option<Dataset<V>>)
    returns (r: Outcome<Dataset<V>>, probes: seq<string>, attempts: seq<string>)
    requires ValidDate(date) && date.year <= MAX_YEAR
    ensures probes == [DayUrl(res, date)]
    ensures Retrieval(attempts, r) == Retrieve(date, names, res, reachable, fetch)
  {
    var day := date;
    var dayUrl := DayUrl(res, day);
    probes := [dayUrl];
    if !reachable(dayUrl) {
      if day == MIN_DATE {
        return Err(DateOutOfRange), probes, [];
      }
      day := PrevDay(day);
      dayUrl := DayUrl(res, day);
    }
    assert ResolveDate(res, date, reachable) == Ok(day);
    var found;
    found, attempts := OpenFirst(RunUrls(dayUrl, res, CandidateRuns()), names, fetch);
    r := if found.Some? then Ok(found.value) else Err(DataUnavailable);
  }
}

/** What the source promises about one call of `get_gfs`, stated over `Gfs.Retrieve`. */
module GfsProperties {
  import opened Outcomes
  import opened Calendar
  import opened TextFormat
  import opened Gfs

  /** The i-th URL opened is run 18 - 6i of the resolved date, so at most four are opened. */
  lemma AttemptsAreCandidatesInOrder<V>(date: Date, names: seq<string>, res: string,
                                        reachable: string -> bool, fetch: string -> Option<Dataset<V>>)
    requires ValidDate(date) && date.year <= MAX_YEAR
    ensures var rv := Retrieve(date, names, res, reachable, fetch);
      && |rv.attempts| <= 4
      && (ResolveDate(res, date, reachable).Err? ==> rv.attempts == [])
      && (ResolveDate(res, date, reachable).Ok? ==>
            forall i :: 0 <= i < |rv.attempts| ==>
              rv.attempts[i] == CandidateUrl(res, ResolveDate(res, date, reachable).value, 18 - 6 * i))
  {
    var rd := ResolveDate(res, date, reachable);
    if rd.Ok? {
      var urls := RunUrls(DayUrl(res, rd.value), res, CandidateRuns());
      FirstOpenFindsFirst(urls, names, fetch);
      RunUrlsAreCandidates(res, rd.value);
      var tried := Retrieve(date, names, res, reachable, fetch).attempts;
      assert tried == urls[..|tried|];
      assert forall i :: 0 <= i < |tried| ==> tried[i] == urls[i];
    }
  }

  /** The run URLs of d's directory are d's candidate URLs, run 18 - 6i at position i. */
  lemma RunUrlsAreCandidates(res: string, d: Date)
    requires ValidDate(d) && d.year <= MAX_YEAR
    ensures var urls := RunUrls(DayUrl(res, d), res, CandidateRuns());
      |urls| == 4 && forall i :: 0 <= i < 4 ==> urls[i] == CandidateUrl(res, d, 18 - 6 * i)
  {
    var urls := RunUrls(DayUrl(res, d), res, CandidateRuns());
    forall i | 0 <= i < 4
      ensures urls[i] == CandidateUrl(res, d, 18 - 6 * i)
    {
      assert CandidateRuns()[i] == 18 - 6 * i;
    }
  }

  /**
   * Every URL opened reads back as the resolved date (by `ResolveDate`'s contract the
   * reference date when the probe succeeded, the day before otherwise) and as the
   * runs 18, 12, 6, 0 in that order.
   */
  lemma AttemptsDecodeToResolvedDateAndRun<V>(date: Date, names: seq<string>, res: string,
                                              reachable: string -> bool, fetch: string -> Option<Dataset<V>>)
    requires ValidDate(date) && date.year <= MAX_YEAR
    ensures var rv := Retrieve(date, names, res, reachable, fetch);
      var rd := ResolveDate(res, date, reachable);
      forall i :: 0 <= i < |rv.attempts| ==>
        rd.Ok? && DecodeCandidateUrl(rv.attempts[i], res) == Some((rd.value, 18 - 6 * i))
  {
    var rv := Retrieve(date, names, res, reachable, fetch);
    var rd := ResolveDate(res, date, reachable);
    AttemptsAreCandidatesInOrder(date, names, res, reachable, fetch);
    forall i | 0 <= i < |rv.attempts|
      ensures rd.Ok? && DecodeCandidateUrl(rv.attempts[i], res) == Some((rd.value, 18 - 6 * i))
    {
      assert rv.attempts[i] == CandidateUrl(res, rd.value, 18 - 6 * i);
      CandidateUrlRoundTrip(res, rd.value, 18 - 6 * i);
    }
  }

  /**
   * `get_gfs` raises "Data could not be retrieved" exactly when the date resolved and
   * all four runs of it failed to open, and then it has opened all four.
   */
  lemma UnavailableIffAllRunsFail<V>(date: Date, names: seq<string>, res: string,
                                     reachable: string -> bool, fetch: string -> Option<Dataset<V>>)
    requires ValidDate(date) && date.year <= MAX_YEAR
    ensures var rv := Retrieve(date, names, res, reachable, fetch);
      var rd := ResolveDate(res, date, reachable);
      && (rv.result == Err(DataUnavailable) <==>
            rd.Ok? && forall i :: 0 <= i < |CandidateRuns()| ==>
              Attempt(fetch, names, CandidateUrl(res, rd.value, CandidateRuns()[i])).None?)
      && (rv.result == Err(DataUnavailable) ==> |rv.attempts| == |CandidateRuns()|)
  {
    var rd := ResolveDate(res, date, reachable);
    if rd.Ok? {
      var urls := RunUrls(DayUrl(res, rd.value), res, CandidateRuns());
      FirstOpenFindsFirst(urls, names, fetch);
      assert forall i :: 0 <= i < |urls| ==> urls[i] == CandidateUrl(res, rd.value, CandidateRuns()[i]);
    }
  }

  /**
   * A dataset is returned only from the last URL opened, that URL opened with all
   * the variables, and every URL opened before it failed: no run after a
   * successful one is tried.
   */
  lemma ResultIsFirstRunThatOpens<V>(date: Date, names: seq<string>, res: string,
                                     reachable: string -> bool, fetch: string -> Option<Dataset<V>>)
    requires ValidDate(date) && date.year <= MAX_YEAR
    ensures var rv := Retrieve(date, names, res, reachable, fetch);
      rv.result.Ok? ==>
        && 1 <= |rv.attempts|
        && Attempt(fetch, names, rv.attempts[|rv.attempts| - 1]) == Some(rv.result.value)
        && forall i :: 0 <= i < |rv.attempts| - 1 ==> Attempt(fetch, names, rv.attempts[i]).None?
  {
    var rd := ResolveDate(res, date, reachable);
    if rd.Ok? {
      var urls := RunUrls(DayUrl(res, rd.value), res, CandidateRuns());
      FirstOpenFindsFirst(urls, names, fetch);
    }
  }

  /** What is returned holds exactly the variables asked for, as the opened dataset has them. */
  lemma ResultHoldsRequestedVariables<V>(date: Date, names: seq<string>, res: string,
                                         reachable: string -> bool, fetch: string -> Option<Dataset<V>>)
    requires ValidDate(date) && date.year <= MAX_YEAR
    ensures var rv := Retrieve(date, names, res, reachable, fetch);
      rv.result.Ok? ==>
        && 1 <= |rv.attempts|
        && var url := rv.attempts[|rv.attempts| - 1];
        && fetch(url).Some?
        && rv.result.value.time == fetch(url).value.time
        && rv.result.value.vars.Keys == (set i | 0 <= i < |names| :: names[i])
        && forall k :: k in rv.result.value.vars ==>
             k in fetch(url).value.vars && rv.result.value.vars[k] == fetch(url).value.vars[k]
  {
    ResultIsFirstRunThatOpens(date, names, res, reachable, fetch);
  }
}
