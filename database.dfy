/** The SQLite store behind the dashboard: the `active_users` table of
    collected snapshots, the `location_history` table with one row per
    (country, city) of a collection, and the `user_metrics` table with one
    row per day, kept unique by date.

    The database is the object's three tables. The clock that
    `datetime('now', 'localtime')` reads is a parameter counted in seconds,
    and so is the failure of a statement: the error it calls back with, or
    for the statements of a loop the indices whose insert fails. */
module Store {
  import opened Wrappers
  import opened Seqs
  import opened Breakdown
  import opened Analytics

  // ----- rows -------------------------------------------------------------

  /** What `saveActiveUsers` and `saveCompleteData` are handed: any field
      may be missing, in which case `|| default` stands in. */
  datatype SnapshotInput = SnapshotInput(
    totalActiveUsers: Option<int>,
    byCountry: Option<Counts<string>>,
    byDevice: Option<Counts<string>>,
    byPlatform: Option<Counts<string>>,
    locationDetails: Option<seq<Location>>,
    rawData: Option<seq<RealtimeRow>>)

  /** A row of `active_users`; `locationDetails` is None where the column is
      NULL, which is what `saveActiveUsers` leaves it. */
  datatype Snapshot = Snapshot(
    id: nat,
    timestamp: int,
    totalActiveUsers: int,
    byCountry: Counts<string>,
    byDevice: Counts<string>,
    byPlatform: Counts<string>,
    locationDetails: Option<seq<Location>>,
    rawData: seq<RealtimeRow>)

  /** A row of `location_history`. */
  datatype LocationRow = LocationRow(
    timestamp: int,
    country: string,
    city: string,
    activeUsers: int,
    collectionId: nat)

  /** What `saveUserMetrics` is handed; the last two fields are optional. */
  datatype MetricsInput = MetricsInput(
    date: string,
    totalUsers: int,
    newUsers: int,
    returningUsers: int,
    activeUsers: Option<int>,
    sessions: Option<int>)

  /** A row of `user_metrics`. */
  datatype MetricsRow = MetricsRow(
    date: string,
    totalUsers: int,
    newUsers: int,
    returningUsers: int,
    activeUsers: int,
    sessions: int)

  /** A day of the analytics provider's metrics, handed to the store. */
  function FromUserMetric(m: UserMetric): MetricsInput
  {
    MetricsInput(m.date, m.totalUsers, m.newUsers, m.returningUsers, Some(m.activeUsers), Some(m.sessions))
  }

  /** `s || fallback` for a string. */
  function OrElse(s: string, fallback: string): (r: string)
    ensures r != "" || fallback == ""
  {
    if s == "" then fallback else s
  }

  // ----- active_users -----------------------------------------------------

  /** The row an insert into `active_users` adds: every missing field takes
      its `||` default, and the location column is written only by
      `saveCompleteData`. */
  function NewSnapshot(id: nat, now: int, data: SnapshotInput, withLocations: bool): (s: Snapshot)
    ensures s.id == id && s.timestamp == now
    ensures s.totalActiveUsers == data.totalActiveUsers.GetOr(0)
    ensures s.byCountry == data.byCountry.GetOr([]) && s.byDevice == data.byDevice.GetOr([])
    ensures s.byPlatform == data.byPlatform.GetOr([]) && s.rawData == data.rawData.GetOr([])
    ensures s.locationDetails.Some? <==> withLocations
    ensures withLocations ==> s.locationDetails == Some(data.locationDetails.GetOr([]))
  {
    Snapshot(
      id, now,
      data.totalActiveUsers.GetOr(0),
      data.byCountry.GetOr([]),
      data.byDevice.GetOr([]),
      data.byPlatform.GetOr([]),
      if withLocations then Some(data.locationDetails.GetOr([])) else None,
      data.rawData.GetOr([]))
  }

  /** The row with the largest timestamp, the later one on a tie. */
  function Latest(rows: seq<Snapshot>): (r: Option<Snapshot>)
    ensures r.None? <==> rows == []
    ensures r.Some? ==> r.value in rows
    ensures r.Some? ==> forall i :: 0 <= i < |rows| ==> rows[i].timestamp <= r.value.timestamp
  {
    if rows == [] then None
    else
      var last := rows[|rows| - 1];
      var best := Latest(rows[..|rows| - 1]);
      if best.None? || last.timestamp >= best.value.timestamp then Some(last) else best
  }

  /** A row as `getLatestEntry` reads it back: a NULL location column is
      read as the empty list. */
  function Parsed(s: Snapshot): (r: Snapshot)
    ensures r.locationDetails == Some(s.locationDetails.GetOr([]))
    ensures r.(locationDetails := s.locationDetails) == s
  {
    s.(locationDetails := Some(s.locationDetails.GetOr([])))
  }

  /** `datetime(timestamp) > datetime('now', '-<hours> hours')`. */
  function Since(cutoff: int): Snapshot -> bool
  {
    (s: Snapshot) => s.timestamp > cutoff
  }

  /** The cutoff of a window of the given hours counted back from now. */
  function Cutoff(hours: int, now: int): int
  {
    now - hours * 3600
  }

  /** `ORDER BY timestamp DESC`. */
  predicate NewerFirst(a: Snapshot, b: Snapshot)
  {
    a.timestamp >= b.timestamp
  }

  lemma NewerFirstIsPreorder()
    ensures TotalPreorder(NewerFirst)
  {
  }

  // ----- location_history -------------------------------------------------

  /** The row `saveLocationHistory` inserts for one location. */
  function LocationRecord(l: Location, collectionId: nat, now: int): (r: LocationRow)
    ensures r.country != "" && r.city != ""
    ensures l.country != "" ==> r.country == l.country
    ensures l.country == "" ==> r.country == "Unknown"
    ensures l.city != "" ==> r.city == l.city
    ensures l.city == "" ==> r.city == "Unknown"
    ensures r.activeUsers == l.activeUsers && r.collectionId == collectionId && r.timestamp == now
  {
    LocationRow(now, OrElse(l.country, "Unknown"), OrElse(l.city, "Unknown"), l.activeUsers, collectionId)
  }

  /** The rows the inserts of `saveLocationHistory` add, in order: one per
      location whose insert does not fail. */
  function LocationRecords(locations: seq<Location>, collectionId: nat, now: int, fails: set<nat>)
    : (r: seq<LocationRow>)
    ensures |r| <= |locations|
    ensures forall i :: 0 <= i < |r| ==>
              r[i].collectionId == collectionId && r[i].timestamp == now && r[i].country != "" && r[i].city != ""
  {
    if locations == [] then []
    else
      var n := |locations| - 1;
      LocationRecords(locations[..n], collectionId, now, fails)
        + (if n in fails then [] else [LocationRecord(locations[n], collectionId, now)])
  }

  /** When no insert fails, there is one row per location, in order. */
  lemma {:induction false} AllLocationsRecorded(locations: seq<Location>, collectionId: nat, now: int, fails: set<nat>)
    requires forall i :: 0 <= i < |locations| ==> i !in fails
    ensures var r := LocationRecords(locations, collectionId, now, fails);
      |r| == |locations| && forall i :: 0 <= i < |r| ==> r[i] == LocationRecord(locations[i], collectionId, now)
  {
    if locations != [] {
      AllLocationsRecorded(locations[..|locations| - 1], collectionId, now, fails);
    }
  }

  /** `since` over location rows. */
  function RowSince(cutoff: int): LocationRow -> bool
  {
    (l: LocationRow) => l.timestamp > cutoff
  }

  /** `ORDER BY timestamp DESC, active_users DESC`. */
  predicate NewerThenBusier(a: LocationRow, b: LocationRow)
  {
    a.timestamp > b.timestamp || (a.timestamp == b.timestamp && a.activeUsers >= b.activeUsers)
  }

  lemma NewerThenBusierIsPreorder()
    ensures TotalPreorder(NewerThenBusier)
  {
  }

  // ----- user_metrics -----------------------------------------------------

  /** The dates that have a row. */
  function Dates(rows: seq<MetricsRow>): set<string>
  {
    if rows == [] then {} else {rows[0].date} + Dates(rows[1..])
  }

  /** The UNIQUE constraint on `date`. */
  ghost predicate UniqueDates(rows: seq<MetricsRow>)
  {
    rows == [] || (rows[0].date !in Dates(rows[1..]) && UniqueDates(rows[1..]))
  }

  /** The row stored for a date, if any. */
  function FindDate(rows: seq<MetricsRow>, date: string): (r: Option<MetricsRow>)
    ensures r.Some? <==> date in Dates(rows)
    ensures r.Some? ==> r.value.date == date && r.value in rows
  {
    if rows == [] then None
    else if rows[0].date == date then Some(rows[0])
    else FindDate(rows[1..], date)
  }

  /** `COALESCE(x, y)`: x unless it is NULL. */
  function Coalesce(x: Option<int>, y: int): int
  {
    if x.Some? then x.value else y
  }

  /** The bound parameter `x || 0`: never NULL. */
  function OrZero(x: Option<int>): (r: Option<int>)
    ensures r.Some?
  {
    Some(x.GetOr(0))
  }

  /** The row the INSERT adds for a date without one. */
  function NewRow(m: MetricsInput): (r: MetricsRow)
    ensures r.date == m.date && r.totalUsers == m.totalUsers && r.newUsers == m.newUsers
    ensures r.returningUsers == m.returningUsers
    ensures r.activeUsers == m.activeUsers.GetOr(0) && r.sessions == m.sessions.GetOr(0)
  {
    MetricsRow(m.date, m.totalUsers, m.newUsers, m.returningUsers,
               OrZero(m.activeUsers).value, OrZero(m.sessions).value)
  }

  /** `ON CONFLICT(date) DO UPDATE SET ...`: the three counts are replaced
      and the other two are COALESCEd with the stored ones. As the bound
      values are never NULL, the update stores exactly what an insert
      would: the stored values never survive, and a metric left out
      becomes 0. */
  function Updated(row: MetricsRow, m: MetricsInput): (r: MetricsRow)
    requires row.date == m.date
    ensures r == NewRow(m)
  {
    row.(totalUsers := m.totalUsers, newUsers := m.newUsers, returningUsers := m.returningUsers,
         activeUsers := Coalesce(OrZero(m.activeUsers), row.activeUsers),
         sessions := Coalesce(OrZero(m.sessions), row.sessions))
  }

  /** `saveUserMetrics` on the table: the row of m's date is updated where
      it is, or a new row is appended. Afterwards that date holds the new
      row, every other date holds what it held, and dates stay unique. */
  function Upsert(rows: seq<MetricsRow>, m: MetricsInput): (r: seq<MetricsRow>)
    ensures UniqueDates(rows) ==> UniqueDates(r)
    ensures FindDate(r, m.date) == Some(NewRow(m))
    ensures forall d :: d != m.date ==> FindDate(r, d) == FindDate(rows, d)
    ensures Dates(r) == Dates(rows) + {m.date}
    ensures |r| == if m.date in Dates(rows) then |rows| else |rows| + 1
  {
    if rows == [] then [NewRow(m)]
    else if rows[0].date == m.date then
      assert ([Updated(rows[0], m)] + rows[1..])[1..] == rows[1..];
      [Updated(rows[0], m)] + rows[1..]
    else
      var r := [rows[0]] + Upsert(rows[1..], m);
      assert r[1..] == Upsert(rows[1..], m);
      r
  }

  /** Saving the same day twice leaves the table as saving it once. */
  lemma {:induction false} UpsertIdempotent(rows: seq<MetricsRow>, m: MetricsInput)
    ensures Upsert(Upsert(rows, m), m) == Upsert(rows, m)
  {
    if rows != [] && rows[0].date != m.date {
      UpsertIdempotent(rows[1..], m);
      var r := [rows[0]] + Upsert(rows[1..], m);
      assert r[1..] == Upsert(rows[1..], m);
    }
  }

  /** Saving a list of days one after another, as `saveUserMetricsBatch`
      does. */
  function UpsertAll(rows: seq<MetricsRow>, ms: seq<MetricsInput>): (r: seq<MetricsRow>)
    ensures UniqueDates(rows) ==> UniqueDates(r)
  {
    if ms == [] then rows else Upsert(UpsertAll(rows, ms[..|ms| - 1]), ms[|ms| - 1])
  }

  lemma UpsertAllSnoc(rows: seq<MetricsRow>, ms: seq<MetricsInput>, i: nat)
    requires i < |ms|
    ensures UpsertAll(rows, ms[..i + 1]) == Upsert(UpsertAll(rows, ms[..i]), ms[i])
  {
    assert ms[..i + 1][..i] == ms[..i];
  }

  /** The last of the inputs for a date. */
  function LastFor(ms: seq<MetricsInput>, date: string): (r: Option<MetricsInput>)
    ensures r.Some? ==> r.value in ms && r.value.date == date
    ensures r.None? <==> forall i :: 0 <= i < |ms| ==> ms[i].date != date
  {
    if ms == [] then None
    else if ms[|ms| - 1].date == date then Some(ms[|ms| - 1])
    else LastFor(ms[..|ms| - 1], date)
  }

  /** After a batch, each date holds the last row saved for it, and a date
      the batch does not name holds what it held. */
  lemma {:induction false} UpsertAllLastWins(rows: seq<MetricsRow>, ms: seq<MetricsInput>, date: string)
    ensures FindDate(UpsertAll(rows, ms), date) ==
            match LastFor(ms, date)
            case Some(m) => Some(NewRow(m))
            case None => FindDate(rows, date)
  {
    if ms != [] {
      UpsertAllLastWins(rows, ms[..|ms| - 1], date);
    }
  }

  /** The first save of a batch that fails, if any does, where faults(i)
      is the error the i-th save calls back with. */
  function FirstFault(faults: nat -> Option<string>, n: nat): (r: Option<nat>)
    ensures r.Some? ==> r.value < n && faults(r.value).Some?
  {
    if n == 0 then None
    else match FirstFault(faults, n - 1)
      case Some(k) => Some(k)
      case None => if faults(n - 1).Some? then Some(n - 1) else None
  }

  /** FirstFault finds the least failing index below n, or none when no
      index below n fails. */
  lemma {:induction false} FirstFaultLeast(faults: nat -> Option<string>, n: nat)
    ensures FirstFault(faults, n).None? <==> forall j :: 0 <= j < n ==> faults(j).None?
    ensures FirstFault(faults, n).Some? ==>
              var k := FirstFault(faults, n).value;
              k < n && faults(k).Some? && forall j :: 0 <= j < k ==> faults(j).None?
  {
    if n > 0 {
      FirstFaultLeast(faults, n - 1);
    }
  }

  /** The date filter `getUserMetrics` builds: BETWEEN when both bounds are
      given, one comparison when one is, none otherwise; an empty bound
      counts as not given. */
  predicate InRange(date: string, startDate: Option<string>, endDate: Option<string>)
  {
    var lo := startDate.Some? && startDate.value != "";
    var hi := endDate.Some? && endDate.value != "";
    if lo && hi then LexLe(startDate.value, date) && LexLe(date, endDate.value)
    else if lo then LexLe(startDate.value, date)
    else if hi then LexLe(date, endDate.value)
    else true
  }

  function Within(startDate: Option<string>, endDate: Option<string>): MetricsRow -> bool
  {
    (m: MetricsRow) => InRange(m.date, startDate, endDate)
  }

  /** `ORDER BY date ASC`. */
  predicate EarlierFirst(a: MetricsRow, b: MetricsRow)
  {
    LexLe(a.date, b.date)
  }

  lemma EarlierFirstIsPreorder()
    ensures TotalPreorder(EarlierFirst)
  {
    forall a: MetricsRow, b: MetricsRow ensures EarlierFirst(a, b) || EarlierFirst(b, a) {
      LexLeTotal(a.date, b.date);
    }
    forall a: MetricsRow, b: MetricsRow, c: MetricsRow | EarlierFirst(a, b) && EarlierFirst(b, c)
      ensures EarlierFirst(a, c)
    {
      LexLeTransitive(a.date, b.date, c.date);
    }
  }

  lemma {:induction false} UniqueDatesAt(rows: seq<MetricsRow>, i: nat, j: nat)
    requires UniqueDates(rows) && i < j < |rows|
    ensures rows[i].date != rows[j].date
  {
    if i > 0 {
      UniqueDatesAt(rows[1..], i - 1, j - 1);
    } else {
      assert rows[j] == rows[1..][j - 1];
      DatesHas(rows[1..], j - 1);
    }
  }

  lemma {:induction false} DatesHas(rows: seq<MetricsRow>, i: nat)
    requires i < |rows|
    ensures rows[i].date in Dates(rows)
  {
    if i > 0 {
      DatesHas(rows[1..], i - 1);
    }
  }

  /** With dates unique, no row is stored twice. */
  lemma {:induction false} UniqueRowsOnce(rows: seq<MetricsRow>, x: MetricsRow)
    requires UniqueDates(rows)
    ensures multiset(rows)[x] <= 1
  {
    if rows != [] {
      UniqueRowsOnce(rows[1..], x);
      assert rows == [rows[0]] + rows[1..];
      if x == rows[0] && x in rows[1..] {
        var k :| 0 <= k < |rows[1..]| && rows[1..][k] == x;
        DatesHas(rows[1..], k);
      }
    }
  }

  /** Rows taken from a table with unique dates, each at most as often as
      the table holds it, have pairwise different dates. */
  lemma DistinctIn(rows: seq<MetricsRow>, r: seq<MetricsRow>)
    requires UniqueDates(rows) && multiset(r) <= multiset(rows)
    ensures forall i, j :: 0 <= i < j < |r| ==> r[i].date != r[j].date
  {
    forall i, j | 0 <= i < j < |r| ensures r[i].date != r[j].date {
      if r[i].date == r[j].date {
        assert r[i] in multiset(rows) && r[j] in multiset(rows);
        var a :| 0 <= a < |rows| && rows[a] == r[i];
        var b :| 0 <= b < |rows| && rows[b] == r[j];
        if a < b {
          UniqueDatesAt(rows, a, b);
        } else if b < a {
          UniqueDatesAt(rows, b, a);
        } else {
          assert r == r[..j] + r[j..];
          assert r[i] in r[..j] && r[j] in r[j..];
          assert multiset(r)[r[i]] == multiset(r[..j])[r[i]] + multiset(r[j..])[r[i]];
          UniqueRowsOnce(rows, r[i]);
          assert false;
        }
      }
    }
  }

  // ----- the service ------------------------------------------------------

  class DatabaseService {
    var snapshots: seq<Snapshot>
    var locationRows: seq<LocationRow>
    var userMetrics: seq<MetricsRow>
    /** The next id AUTOINCREMENT hands out in `active_users`. */
    var nextId: nat

    /** Dates are unique, and snapshot ids increase in insertion order
        and stay below the next id. */
    ghost predicate Valid()
      reads this
    {
      && UniqueDates(userMetrics)
      && 1 <= nextId
      && (forall i :: 0 <= i < |snapshots| ==> snapshots[i].id < nextId)
      && (forall i, j :: 0 <= i < j < |snapshots| ==> snapshots[i].id < snapshots[j].id)
    }

    /** A fresh database with the three tables created and empty. */
    constructor()
      ensures Valid()
      ensures snapshots == [] && locationRows == [] && userMetrics == [] && nextId == 1
    {
      snapshots := [];
      locationRows := [];
      userMetrics := [];
      nextId := 1;
    }

    /** `saveActiveUsers(data)`: nothing for missing data; otherwise one
        insert, which either adds the snapshot under the next id, without
        location details, or rejects with the driver's error and changes
        nothing. */
    method SaveActiveUsers(data: Option<SnapshotInput>, now: int, fault: Option<string>) returns (r: Outcome)
      requires Valid()
      modifies this
      ensures Valid()
      ensures data.None? ==> r == Pass && unchanged(this)
      ensures data.Some? && fault.Some? ==> r == Fail(fault.value) && unchanged(this)
      ensures data.Some? && fault.None? ==>
                && r == Pass
                && snapshots == old(snapshots) + [NewSnapshot(old(nextId), now, data.value, false)]
                && nextId == old(nextId) + 1
                && locationRows == old(locationRows) && userMetrics == old(userMetrics)
    {
      if data.None? {
        return Pass;
      }
      if fault.Some? {
        return Fail(fault.value);
      }
      snapshots := snapshots + [NewSnapshot(nextId, now, data.value, false)];
      nextId := nextId + 1;
      return Pass;
    }

    /** `saveCompleteData(data)`: like `saveActiveUsers`, with the location
        details stored in the snapshot and, when there are any, one
        `location_history` row per location under the new snapshot's id.
        A failing location insert is only counted, so the call still
        resolves once the snapshot is in. */
    method SaveCompleteData(data: Option<SnapshotInput>, now: int, fault: Option<string>, locationFails: set<nat>)
      returns (r: Outcome)
      requires Valid()
      modifies this
      ensures Valid()
      ensures data.None? ==> r == Pass && unchanged(this)
      ensures data.Some? && fault.Some? ==> r == Fail(fault.value) && unchanged(this)
      ensures data.Some? && fault.None? ==>
                && r == Pass
                && snapshots == old(snapshots) + [NewSnapshot(old(nextId), now, data.value, true)]
                && nextId == old(nextId) + 1
                && locationRows == old(locationRows)
                     + LocationRecords(data.value.locationDetails.GetOr([]), old(nextId), now, locationFails)
                && userMetrics == old(userMetrics)
    {
      if data.None? {
        return Pass;
      }
      if fault.Some? {
        return Fail(fault.value);
      }
      var collectionId := nextId;
      snapshots := snapshots + [NewSnapshot(collectionId, now, data.value, true)];
      nextId := nextId + 1;
      var locations := data.value.locationDetails.GetOr([]);
      if |locations| > 0 {
        var _ := SaveLocationHistory(locations, collectionId, now, locationFails);
      }
      return Pass;
    }

    /** `saveLocationHistory(locations, collectionId)`: one insert per
        location, in order; the failing ones add nothing and are counted. */
    method SaveLocationHistory(locations: seq<Location>, collectionId: nat, now: int, fails: set<nat>)
      returns (errors: nat)
      modifies this
      ensures locationRows == old(locationRows) + LocationRecords(locations, collectionId, now, fails)
      ensures errors == |locations| - |LocationRecords(locations, collectionId, now, fails)|
      ensures snapshots == old(snapshots) && userMetrics == old(userMetrics) && nextId == old(nextId)
    {
      errors := 0;
      if |locations| == 0 {
        return;
      }
      var i := 0;
      while i < |locations|
        invariant 0 <= i <= |locations|
        invariant locationRows == old(locationRows) + LocationRecords(locations[..i], collectionId, now, fails)
        invariant errors == i - |LocationRecords(locations[..i], collectionId, now, fails)|
        invariant snapshots == old(snapshots) && userMetrics == old(userMetrics) && nextId == old(nextId)
      {
        assert locations[..i + 1][..i] == locations[..i];
        if i in fails {
          errors := errors + 1;
        } else {
          locationRows := locationRows + [LocationRecord(locations[i], collectionId, now)];
        }
        i := i + 1;
      }
      assert locations[..i] == locations;
    }

    /** `saveUserMetrics(metrics)`: the upsert, or the driver's error with
        the table unchanged. */
    method SaveUserMetrics(m: MetricsInput, fault: Option<string>) returns (r: Outcome)
      requires Valid()
      modifies this
      ensures Valid()
      ensures fault.Some? ==> r == Fail(fault.value) && unchanged(this)
      ensures fault.None? ==> r == Pass && userMetrics == Upsert(old(userMetrics), m)
      ensures snapshots == old(snapshots) && locationRows == old(locationRows) && nextId == old(nextId)
    {
      if fault.Some? {
        return Fail(fault.value);
      }
      userMetrics := Upsert(userMetrics, m);
      return Pass;
    }

    /** `saveUserMetricsBatch(list)`: saves the days one after another and
        stops at the first that fails, with the days before it saved;
        faults(i) is the driver's answer to the i-th save. */
    method SaveUserMetricsBatch(ms: seq<MetricsInput>, faults: nat -> Option<string>) returns (r: Outcome)
      requires Valid()
      modifies this
      ensures Valid()
      ensures FirstFault(faults, |ms|).None? ==> r == Pass && userMetrics == UpsertAll(old(userMetrics), ms)
      ensures FirstFault(faults, |ms|).Some? ==>
                var k := FirstFault(faults, |ms|).value;
                r == Fail(faults(k).value) && userMetrics == UpsertAll(old(userMetrics), ms[..k])
      ensures snapshots == old(snapshots) && locationRows == old(locationRows) && nextId == old(nextId)
    {
      var i := 0;
      while i < |ms|
        invariant 0 <= i <= |ms|
        invariant Valid()
        invariant FirstFault(faults, i).None?
        invariant userMetrics == UpsertAll(old(userMetrics), ms[..i])
        invariant snapshots == old(snapshots) && locationRows == old(locationRows) && nextId == old(nextId)
      {
        r := SaveUserMetrics(ms[i], faults(i));
        if r.Fail? {
          FirstFaultAt(faults, i, |ms|);
          return;
        }
        UpsertAllSnoc(old(userMetrics), ms, i);
        i := i + 1;
      }
      assert ms[..i] == ms;
      return Pass;
    }

    /** `getLatestEntry()`: the snapshot with the latest timestamp, its
        location column read as a list, or null on an empty table. */
    function GetLatestEntry(): (r: Option<Snapshot>)
      reads this
      ensures r.None? <==> snapshots == []
      ensures r.Some? ==>
                && r.value.locationDetails.Some?
                && (exists i :: 0 <= i < |snapshots| && r.value == Parsed(snapshots[i]))
                && forall j :: 0 <= j < |snapshots| ==> snapshots[j].timestamp <= r.value.timestamp
    {
      match Latest(snapshots)
      case None => None
      case Some(s) => Some(Parsed(s))
    }

    /** `getRecentHistory(hours = 24)`: the snapshots of the last hours,
        newest first. */
    function GetRecentHistory(hours: Option<int>, now: int): (r: seq<Snapshot>)
      reads this
      ensures multiset(r) == multiset(Filter(snapshots, Since(Cutoff(hours.GetOr(24), now))))
      ensures forall s :: s in r <==> s in snapshots && s.timestamp > now - hours.GetOr(24) * 3600
      ensures SortedBy(NewerFirst, r)
    {
      var kept := Filter(snapshots, Since(Cutoff(hours.GetOr(24), now)));
      var r := Sort(kept, NewerFirst);
      assert SortedBy(NewerFirst, r) by {
        NewerFirstIsPreorder();
        SortSorted(kept, NewerFirst);
      }
      assert forall s :: s in r <==> s in snapshots && s.timestamp > now - hours.GetOr(24) * 3600 by {
        forall s ensures s in r <==> s in snapshots && s.timestamp > now - hours.GetOr(24) * 3600 {
          SortMembers(kept, NewerFirst, s);
          FilterMembers(snapshots, Since(Cutoff(hours.GetOr(24), now)), s);
        }
      }
      r
    }

    /** `getLocationHistory(hours = 24)`: the location rows of the last
        hours, newest first and the busiest first within a collection. */
    function GetLocationHistory(hours: Option<int>, now: int): (r: seq<LocationRow>)
      reads this
      ensures multiset(r) == multiset(Filter(locationRows, RowSince(Cutoff(hours.GetOr(24), now))))
      ensures forall l :: l in r <==> l in locationRows && l.timestamp > now - hours.GetOr(24) * 3600
      ensures SortedBy(NewerThenBusier, r)
    {
      var kept := Filter(locationRows, RowSince(Cutoff(hours.GetOr(24), now)));
      var r := Sort(kept, NewerThenBusier);
      assert SortedBy(NewerThenBusier, r) by {
        NewerThenBusierIsPreorder();
        SortSorted(kept, NewerThenBusier);
      }
      assert forall l :: l in r <==> l in locationRows && l.timestamp > now - hours.GetOr(24) * 3600 by {
        forall l ensures l in r <==> l in locationRows && l.timestamp > now - hours.GetOr(24) * 3600 {
          SortMembers(kept, NewerThenBusier, l);
          FilterMembers(locationRows, RowSince(Cutoff(hours.GetOr(24), now)), l);
        }
      }
      r
    }

    /** `getUserMetrics(startDate?, endDate?)`: the days in range, by
        ascending date; with dates unique, strictly ascending. */
    function GetUserMetrics(startDate: Option<string>, endDate: Option<string>): (r: seq<MetricsRow>)
      reads this
      ensures multiset(r) == multiset(Filter(userMetrics, Within(startDate, endDate)))
      ensures forall m :: m in r <==> m in userMetrics && InRange(m.date, startDate, endDate)
      ensures SortedBy(EarlierFirst, r)
      ensures UniqueDates(userMetrics) ==>
                forall i, j :: 0 <= i < j < |r| ==> LexLe(r[i].date, r[j].date) && r[i].date != r[j].date
    {
      var kept := Filter(userMetrics, Within(startDate, endDate));
      var r := Sort(kept, EarlierFirst);
      assert SortedBy(EarlierFirst, r) by {
        EarlierFirstIsPreorder();
        SortSorted(kept, EarlierFirst);
      }
      assert forall m :: m in r <==> m in userMetrics && InRange(m.date, startDate, endDate) by {
        forall m ensures m in r <==> m in userMetrics && InRange(m.date, startDate, endDate) {
          SortMembers(kept, EarlierFirst, m);
          FilterMembers(userMetrics, Within(startDate, endDate), m);
        }
      }
      assert UniqueDates(userMetrics) ==> forall i, j :: 0 <= i < j < |r| ==> r[i].date != r[j].date by {
        if UniqueDates(userMetrics) {
          DistinctIn(userMetrics, r);
        }
      }
      r
    }
  }

  /** The first failing index of a batch is the first index in the map. */
  lemma FirstFaultAt(faults: nat -> Option<string>, i: nat, n: nat)
    requires i < n && faults(i).Some? && FirstFault(faults, i).None?
    ensures FirstFault(faults, n) == Some(i)
  {
    assert FirstFault(faults, i + 1) == Some(i);
    FirstFaultStays(faults, i + 1, n);
  }

  /** A batch's first failure stays the first as the batch grows. */
  lemma {:induction false} FirstFaultStays(faults: nat -> Option<string>, n: nat, m: nat)
    requires n <= m && FirstFault(faults, n).Some?
    ensures FirstFault(faults, m) == FirstFault(faults, n)
    decreases m - n
  {
    if n < m {
      FirstFaultStays(faults, n, m - 1);
    }
  }
}
