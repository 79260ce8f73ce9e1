/** `importUserMetrics.js`: the command-line backfill that fetches a range
    of daily metrics from the analytics provider and writes them into the
    `user_metrics` table with an upsert of its own, counting the writes that
    succeed.

    The command-line argument (and what `parseInt` makes of it), today's
    date, the provider's report and the failure of each write are inputs.
    The writes are modelled as running in order, one callback after the
    other. */
module ImportScript {
  import opened Wrappers
  import opened Seqs
  import opened Text
  import opened Calendar
  import opened Analytics
  import opened Store

  const DefaultDays := 30
  const MaxDays := 730

  /** What `Math.min(NaN, 730)` leaves for `setDate`: `toISOString` then
      raises this. */
  const InvalidTime := "Invalid time value"

  // ----- getUserMetrics --------------------------------------------------

  /** The script's `getUserMetrics`: one metric per report row, in order,
      with the same mapping the analytics client uses; a failed call
      raises its error. */
  function FetchMetrics(response: Result<Option<seq<ReportRow>>>): (r: Result<seq<UserMetric>>)
    ensures r.Err? <==> response.Err?
    ensures r.Err? ==> r.error == response.error
    ensures r.Ok? ==>
              var rows := response.value.GetOr([]);
              && |r.value| == |rows|
              && forall i :: 0 <= i < |rows| ==>
                   && r.value[i].returningUsers >= 0
                   && r.value[i].returningUsers >= r.value[i].totalUsers - r.value[i].newUsers
                   && r.value[i].date == FormatDate(rows[i].date)
  {
    match response
    case Err(e) => Err(e)
    case Ok(rows) => Ok(Map(rows.GetOr([]), ToUserMetric))
  }

  /** With a property id configured, the script and the analytics client
      turn the same report into the same metrics. */
  lemma FetchMatchesClient(propertyId: string, response: Result<Option<seq<ReportRow>>>)
    requires propertyId != ""
    ensures FetchMetrics(response) == UserMetrics(propertyId, response)
  {
  }

  // ----- saveMetrics -----------------------------------------------------

  /** The row the script's statement leaves for a metric: every column
      taken from the metric (`excluded.*`), nothing kept from the stored
      row. */
  function Overwrite(m: UserMetric): (r: MetricsRow)
    ensures r.date == m.date && r.totalUsers == m.totalUsers && r.newUsers == m.newUsers
    ensures r.returningUsers == m.returningUsers && r.activeUsers == m.activeUsers && r.sessions == m.sessions
  {
    MetricsRow(m.date, m.totalUsers, m.newUsers, m.returningUsers, m.activeUsers, m.sessions)
  }

  /** The script's upsert: the row of m's date is replaced where it is, or
      a new row is appended. */
  function SaveOne(rows: seq<MetricsRow>, m: UserMetric): (r: seq<MetricsRow>)
  {
    if rows == [] then [Overwrite(m)]
    else if rows[0].date == m.date then [Overwrite(m)] + rows[1..]
    else [rows[0]] + SaveOne(rows[1..], m)
  }

  /** The script's statement and the service's `saveUserMetrics` store the
      same table: the service's COALESCE never keeps a stored value, and
      the script has none to keep. */
  lemma {:induction false} SaveOneIsServiceUpsert(rows: seq<MetricsRow>, m: UserMetric)
    ensures SaveOne(rows, m) == Upsert(rows, FromUserMetric(m))
  {
    if rows != [] && rows[0].date != m.date {
      SaveOneIsServiceUpsert(rows[1..], m);
    }
  }

  /** So the script keeps dates unique, stores the metric under its date
      and leaves every other date alone. */
  lemma SaveOneUpserts(rows: seq<MetricsRow>, m: UserMetric)
    ensures UniqueDates(rows) ==> UniqueDates(SaveOne(rows, m))
    ensures FindDate(SaveOne(rows, m), m.date) == Some(Overwrite(m))
    ensures forall d :: d != m.date ==> FindDate(SaveOne(rows, m), d) == FindDate(rows, d)
  {
    SaveOneIsServiceUpsert(rows, m);
  }

  /** The writes of `saveMetrics` in order, a failing one adding nothing. */
  function SaveAll(rows: seq<MetricsRow>, ms: seq<UserMetric>, fails: set<nat>): seq<MetricsRow>
  {
    if ms == [] then rows
    else
      var k := |ms| - 1;
      var before := SaveAll(rows, ms[..k], fails);
      if k in fails then before else SaveOne(before, ms[k])
  }

  /** The number of writes among the first n that succeed. */
  function SavedCount(n: nat, fails: set<nat>): (c: nat)
    ensures c <= n
  {
    if n == 0 then 0 else SavedCount(n - 1, fails) + (if n - 1 in fails then 0 else 1)
  }

  /** Every write counts exactly when none fails. */
  lemma {:induction false} SavedCountAll(n: nat, fails: set<nat>)
    ensures SavedCount(n, fails) == n <==> forall i :: 0 <= i < n ==> i !in fails
  {
    if n > 0 {
      SavedCountAll(n - 1, fails);
    }
  }

  lemma {:induction false} SaveAllUnique(rows: seq<MetricsRow>, ms: seq<UserMetric>, fails: set<nat>)
    requires UniqueDates(rows)
    ensures UniqueDates(SaveAll(rows, ms, fails))
  {
    if ms != [] {
      SaveAllUnique(rows, ms[..|ms| - 1], fails);
      SaveOneUpserts(SaveAll(rows, ms[..|ms| - 1], fails), ms[|ms| - 1]);
    }
  }

  /** With no write failing, the script's batch leaves the table as the
      service's `saveUserMetricsBatch` does with the same days. */
  lemma {:induction false} SaveAllIsServiceBatch(rows: seq<MetricsRow>, ms: seq<UserMetric>, fails: set<nat>)
    requires forall i :: 0 <= i < |ms| ==> i !in fails
    ensures SaveAll(rows, ms, fails) == UpsertAll(rows, Map(ms, FromUserMetric))
  {
    if ms != [] {
      var k := |ms| - 1;
      SaveAllIsServiceBatch(rows, ms[..k], fails);
      MapSnoc(ms, FromUserMetric);
      assert Map(ms, FromUserMetric)[..k] == Map(ms[..k], FromUserMetric);
      SaveOneIsServiceUpsert(SaveAll(rows, ms[..k], fails), ms[k]);
    }
  }

  /** `saveMetrics(metrics)`: one write per metric, a failing one only
      logged; the promise resolves with the count of successful writes in
      the callback of the last index, so with no metrics it never
      resolves. */
  method SaveMetrics(db: DatabaseService, metrics: seq<UserMetric>, fails: set<nat>) returns (resolved: Option<nat>)
    requires db.Valid()
    modifies db
    ensures db.Valid()
    ensures db.userMetrics == SaveAll(old(db.userMetrics), metrics, fails)
    ensures resolved.None? <==> metrics == []
    ensures resolved.Some? ==> resolved.value == SavedCount(|metrics|, fails)
    ensures db.snapshots == old(db.snapshots) && db.locationRows == old(db.locationRows)
    ensures db.nextId == old(db.nextId)
  {
    resolved := None;
    var savedCount := 0;
    var i := 0;
    while i < |metrics|
      invariant 0 <= i <= |metrics|
      invariant db.Valid()
      invariant db.userMetrics == SaveAll(old(db.userMetrics), metrics[..i], fails)
      invariant savedCount == SavedCount(i, fails)
      invariant i < |metrics| || i == 0 ==> resolved.None?
      invariant i == |metrics| && i > 0 ==> resolved == Some(savedCount)
      invariant db.snapshots == old(db.snapshots) && db.locationRows == old(db.locationRows)
      invariant db.nextId == old(db.nextId)
    {
      assert metrics[..i + 1][..i] == metrics[..i];
      if i !in fails {
        SaveOneUpserts(db.userMetrics, metrics[i]);
        db.userMetrics := SaveOne(db.userMetrics, metrics[i]);
        savedCount := savedCount + 1;
      }
      if i == |metrics| - 1 {
        resolved := Some(savedCount);
      }
      i := i + 1;
    }
    assert metrics[..i] == metrics;
  }

  // ----- the command line ------------------------------------------------

  /** What the script does with its argument: print the usage, or import
      some days (None for the NaN that a non-numeric argument gives). */
  datatype Command = Usage | Import(days: Option<int>)

  /** `args[0] ? parseInt(args[0]) : 30`, then `--help` or
      `importData(Math.min(days, 730))`; parsed is what `parseInt` makes of
      the argument. */
  function CommandOf(arg: Option<string>, parsed: Option<int>): (c: Command)
    ensures c.Usage? <==> arg == Some("--help")
    ensures arg.None? || arg == Some("") ==> c == Import(Some(DefaultDays))
    ensures c.Import? && c.days.Some? ==> c.days.value <= MaxDays
    ensures c.Import? && arg.Some? && arg.value != "" && parsed.Some? ==>
              c.days.Some? && (parsed.value <= MaxDays ==> c.days.value == parsed.value)
    ensures c.Import? && arg.Some? && arg.value != "" && parsed.None? ==> c.days.None?
  {
    if arg == Some("--help") then Usage
    else
      var days := if arg.None? || arg.value == "" then Some(DefaultDays) else parsed;
      Import(if days.Some? then Some(if days.value < MaxDays then days.value else MaxDays) else None)
  }

  /** The first and last day the import asks for: `setDate(getDate() -
      days + 1)`, so that the range holds days days ending today. */
  function ImportRange(today: Date, days: int): (r: (Date, Date))
    requires Valid(today)
    ensures Valid(r.0) && r.1 == today
    ensures AddDays(r.0, days - 1) == today
  {
    AddDaysInverse(today, 1 - days);
    (AddDays(today, 1 - days), today)
  }

  /** How a run ends. */
  datatype RunResult =
    | MissingPropertyId
    | PrintedUsage
    | Saved(count: nat)
    | NothingFetched
    | ImportFailed(error: string)

  /** A run of the script: the property id is checked first; then the
      range is fetched (as YYYY-MM-DD text) and, when it holds any day,
      saved; a failure is caught and logged. */
  method Run(db: DatabaseService, propertyId: string, arg: Option<string>, parsed: Option<int>, today: Date,
             report: (string, string) -> Result<Option<seq<ReportRow>>>, fails: set<nat>)
    returns (r: RunResult)
    requires db.Valid() && Valid(today)
    modifies db
    ensures db.Valid()
    ensures db.snapshots == old(db.snapshots) && db.locationRows == old(db.locationRows)
    ensures propertyId == "" ==> r == MissingPropertyId && db.userMetrics == old(db.userMetrics)
    ensures propertyId != "" && CommandOf(arg, parsed).Usage? ==>
              r == PrintedUsage && db.userMetrics == old(db.userMetrics)
    ensures propertyId != "" && CommandOf(arg, parsed) == Import(None) ==>
              r == ImportFailed(InvalidTime) && db.userMetrics == old(db.userMetrics)
    ensures propertyId != "" && CommandOf(arg, parsed).Import? && CommandOf(arg, parsed).days.Some? ==>
              var range := ImportRange(today, CommandOf(arg, parsed).days.value);
              var fetched := FetchMetrics(report(IsoText(range.0), IsoText(range.1)));
              && (fetched.Err? ==> r == ImportFailed(fetched.error) && db.userMetrics == old(db.userMetrics))
              && (fetched.Ok? && fetched.value == [] ==> r == NothingFetched && db.userMetrics == old(db.userMetrics))
              && (fetched.Ok? && fetched.value != [] ==>
                    && r == Saved(SavedCount(|fetched.value|, fails))
                    && db.userMetrics == SaveAll(old(db.userMetrics), fetched.value, fails))
  {
    if propertyId == "" {
      return MissingPropertyId;
    }
    var command := CommandOf(arg, parsed);
    if command.Usage? {
      return PrintedUsage;
    }
    if command.days.None? {
      return ImportFailed(InvalidTime);
    }
    var range := ImportRange(today, command.days.value);
    var fetched := FetchMetrics(report(IsoText(range.0), IsoText(range.1)));
    if fetched.Err? {
      return ImportFailed(fetched.error);
    }
    var metrics := fetched.value;
    if |metrics| == 0 {
      return NothingFetched;
    }
    var resolved := SaveMetrics(db, metrics, fails);
    return Saved(resolved.value);
  }
}
