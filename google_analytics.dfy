/** The analytics provider client: the realtime report folded into a
    summary of active users by country, device and platform; the realtime
    location report merged into one entry per (country, city) and sorted by
    users; and the daily report mapped into per-day user metrics over a
    date range counted back from today.

    The provider's answers are parameters: a realtime response is the
    report's rows (absent when the report has none) or the message of the
    error the call raised; the daily report is a function from the date
    range asked for to such a response. */
module Analytics {
  import opened Wrappers
  import opened Seqs
  import opened Breakdown
  import opened Text
  import opened Calendar

  /** The message raised when no property id is configured. */
  const NotConfigured := "GA4 Property ID is not configured"

  // ----- realtime rows ---------------------------------------------------

  /** One row of a realtime report: its dimension values, any of which may
      be missing, and its active-users metric read as a number (None when
      the value is missing or empty, which `|| '0'` turns into 0). */
  datatype RealtimeRow = RealtimeRow(dimensions: seq<Option<string>>, activeUsers: Option<int>)

  /** `row.dimensionValues?.[i]?.value || 'Unknown'`. */
  function Dimension(row: RealtimeRow, i: nat): (r: string)
    ensures r != ""
    ensures i < |row.dimensions| && row.dimensions[i].Some? && row.dimensions[i].value != ""
            ==> r == row.dimensions[i].value
    ensures i >= |row.dimensions| || row.dimensions[i].None? || row.dimensions[i].value == ""
            ==> r == "Unknown"
  {
    if i < |row.dimensions| && row.dimensions[i].Some? && row.dimensions[i].value != ""
    then row.dimensions[i].value
    else "Unknown"
  }

  /** `parseInt(row.metricValues?.[0]?.value || '0')`. */
  function RowUsers(row: RealtimeRow): int
  {
    row.activeUsers.GetOr(0)
  }

  function CountryOf(row: RealtimeRow): string { Dimension(row, 0) }
  function DeviceOf(row: RealtimeRow): string { Dimension(row, 1) }
  function PlatformOf(row: RealtimeRow): string { Dimension(row, 2) }

  // ----- getRealtimeUsers ------------------------------------------------

  datatype RealtimeSummary = RealtimeSummary(
    totalActiveUsers: int,
    byCountry: Counts<string>,
    byDevice: Counts<string>,
    byPlatform: Counts<string>,
    timestamp: string)

  /** A successful realtime call: the summary and the raw rows. */
  datatype RealtimeReport = RealtimeReport(data: RealtimeSummary, rawData: seq<RealtimeRow>)

  /** The summary the realtime rows fold into. */
  function Summarize(rows: seq<RealtimeRow>, timestamp: string): RealtimeSummary
  {
    RealtimeSummary(
      SumBy(rows, RowUsers),
      Tally(rows, CountryOf, RowUsers),
      Tally(rows, DeviceOf, RowUsers),
      Tally(rows, PlatformOf, RowUsers),
      timestamp)
  }

  /** What `getRealtimeUsers` resolves with: a report, or the error message
      with no data. */
  function RealtimeUsers(propertyId: string, response: Result<Option<seq<RealtimeRow>>>, now: string)
    : (r: Result<RealtimeReport>)
    ensures r.Ok? <==> propertyId != "" && response.Ok?
    ensures propertyId == "" ==> r == Err(NotConfigured)
    ensures propertyId != "" && response.Err? ==> r == Err(response.error)
  {
    if propertyId == "" then Err(NotConfigured)
    else match response
      case Err(e) => Err(e)
      case Ok(rows) => Ok(RealtimeReport(Summarize(rows.GetOr([]), now), rows.GetOr([])))
  }

  /** `getRealtimeUsers`: one pass over the rows that adds each row's users
      to the total and to its country, device and platform. */
  method GetRealtimeUsers(propertyId: string, response: Result<Option<seq<RealtimeRow>>>, now: string)
    returns (r: Result<RealtimeReport>)
    ensures r == RealtimeUsers(propertyId, response, now)
  {
    if propertyId == "" {
      return Err(NotConfigured);
    }
    if response.Err? {
      return Err(response.error);
    }
    var rows := response.value.GetOr([]);
    var total := 0;
    var byCountry: Counts<string> := [];
    var byDevice: Counts<string> := [];
    var byPlatform: Counts<string> := [];
    var i := 0;
    while i < |rows|
      invariant 0 <= i <= |rows|
      invariant total == SumBy(rows[..i], RowUsers)
      invariant byCountry == Tally(rows[..i], CountryOf, RowUsers)
      invariant byDevice == Tally(rows[..i], DeviceOf, RowUsers)
      invariant byPlatform == Tally(rows[..i], PlatformOf, RowUsers)
    {
      var row := rows[i];
      var users := RowUsers(row);
      SumBySnoc(rows, i, RowUsers);
      TallySnoc(rows, i, CountryOf, RowUsers);
      TallySnoc(rows, i, DeviceOf, RowUsers);
      TallySnoc(rows, i, PlatformOf, RowUsers);
      total := total + users;
      byCountry := Bump(byCountry, Dimension(row, 0), users);
      byDevice := Bump(byDevice, Dimension(row, 1), users);
      byPlatform := Bump(byPlatform, Dimension(row, 2), users);
      i := i + 1;
    }
    assert rows[..i] == rows;
    return Ok(RealtimeReport(RealtimeSummary(total, byCountry, byDevice, byPlatform, now), rows));
  }

  /** Every breakdown of the realtime summary sums to the total, holds each
      key once, and holds exactly the keys the rows carry, each with the sum
      of that key's rows. */
  lemma SummaryBreakdowns(rows: seq<RealtimeRow>, now: string)
    ensures var s := Summarize(rows, now);
      && s.totalActiveUsers == SumBy(rows, RowUsers)
      && Total(s.byCountry) == s.totalActiveUsers
      && Total(s.byDevice) == s.totalActiveUsers
      && Total(s.byPlatform) == s.totalActiveUsers
      && DistinctKeys(s.byCountry) && DistinctKeys(s.byDevice) && DistinctKeys(s.byPlatform)
      && KeySet(s.byCountry) == RowKeys(rows, CountryOf)
      && KeySet(s.byDevice) == RowKeys(rows, DeviceOf)
      && KeySet(s.byPlatform) == RowKeys(rows, PlatformOf)
      && (forall c :: c in RowKeys(rows, CountryOf) ==>
            Lookup(s.byCountry, c) == Some(SumWhere(rows, CountryOf, RowUsers, c)))
      && (forall d :: d in RowKeys(rows, DeviceOf) ==>
            Lookup(s.byDevice, d) == Some(SumWhere(rows, DeviceOf, RowUsers, d)))
      && (forall p :: p in RowKeys(rows, PlatformOf) ==>
            Lookup(s.byPlatform, p) == Some(SumWhere(rows, PlatformOf, RowUsers, p)))
  {
    TallyCorrect(rows, CountryOf, RowUsers);
    TallyCorrect(rows, DeviceOf, RowUsers);
    TallyCorrect(rows, PlatformOf, RowUsers);
  }

  // ----- getDetailedLocationData -----------------------------------------

  datatype Location = Location(country: string, region: string, city: string, activeUsers: int)

  datatype LocationSummary = LocationSummary(
    totalActiveUsers: int,
    byCountry: Counts<string>,
    byRegion: Counts<string>,
    byCity: Counts<string>,
    locationDetails: seq<Location>)

  /** A successful location call: the summary, and the clock's ISO text
      beside it. */
  datatype LocationReport = LocationReport(data: LocationSummary, timestamp: string)

  /** Dimension 1 of a location row is the city. */
  function CityOf(row: RealtimeRow): string { Dimension(row, 1) }

  /** The `byCity` key, `${city}, ${country}`. */
  function CityKeyOf(row: RealtimeRow): string { CityOf(row) + ", " + CountryOf(row) }

  /** The place a location row counts towards; the region is always ''. */
  function PlaceOf(row: RealtimeRow): (string, string) { (CountryOf(row), CityOf(row)) }

  function PlaceKey(l: Location): (string, string) { (l.country, l.city) }

  /** The `locations` array for a counter of places. */
  function ToLocations(t: Counts<(string, string)>): (r: seq<Location>)
    ensures |r| == |t|
    ensures forall i :: 0 <= i < |t| ==> r[i] == Location(t[i].0.0, "", t[i].0.1, t[i].1)
  {
    if t == [] then [] else [Location(t[0].0.0, "", t[0].0.1, t[0].1)] + ToLocations(t[1..])
  }

  /** `locations.find(...)` on (country, region, city): the users go to the
      first matching entry, or a new entry is pushed at the end. */
  function AddVisit(locs: seq<Location>, country: string, city: string, users: int): seq<Location>
  {
    if locs == [] then [Location(country, "", city, users)]
    else if locs[0].country == country && locs[0].region == "" && locs[0].city == city
    then [locs[0].(activeUsers := locs[0].activeUsers + users)] + locs[1..]
    else [locs[0]] + AddVisit(locs[1..], country, city, users)
  }

  /** Find-or-push on the array does to it what Bump does to the counter of
      places. */
  lemma {:induction false} AddVisitIsBump(t: Counts<(string, string)>, country: string, city: string, users: int)
    ensures AddVisit(ToLocations(t), country, city, users) == ToLocations(Bump(t, (country, city), users))
  {
    if t != [] {
      assert ToLocations(t)[1..] == ToLocations(t[1..]);
      if t[0].0 != (country, city) {
        AddVisitIsBump(t[1..], country, city, users);
        var b := Bump(t, (country, city), users);
        assert b == [t[0]] + Bump(t[1..], (country, city), users);
        assert b[1..] == Bump(t[1..], (country, city), users);
      } else {
        var b := Bump(t, (country, city), users);
        assert b[1..] == t[1..];
      }
    }
  }

  /** `(a, b) => b.activeUsers - a.activeUsers`: larger counts first. */
  predicate ByUsersDesc(a: Location, b: Location)
  {
    a.activeUsers >= b.activeUsers
  }

  lemma ByUsersDescIsPreorder()
    ensures TotalPreorder(ByUsersDesc)
  {
  }

  /** The summary the location rows fold into; with no rows the details
      stay empty and unsorted. */
  function SummarizeLocations(rows: Option<seq<RealtimeRow>>): LocationSummary
  {
    var rs := rows.GetOr([]);
    LocationSummary(
      SumBy(rs, RowUsers),
      Tally(rs, CountryOf, RowUsers),
      [],
      Tally(rs, CityKeyOf, RowUsers),
      if rows.Some? then Sort(ToLocations(Tally(rs, PlaceOf, RowUsers)), ByUsersDesc) else [])
  }

  /** What `getDetailedLocationData` resolves with. */
  function DetailedLocationData(propertyId: string, response: Result<Option<seq<RealtimeRow>>>, now: string)
    : (r: Result<LocationReport>)
    ensures r.Ok? <==> propertyId != "" && response.Ok?
    ensures propertyId == "" ==> r == Err(NotConfigured)
    ensures propertyId != "" && response.Err? ==> r == Err(response.error)
  {
    if propertyId == "" then Err(NotConfigured)
    else match response
      case Err(e) => Err(e)
      case Ok(rows) => Ok(LocationReport(SummarizeLocations(rows), now))
  }

  /** `getDetailedLocationData`: one pass over the rows that adds each
      row's users to the total, its country, its "city, country" key and
      its place, then sorts the places by users. */
  method GetDetailedLocationData(propertyId: string, response: Result<Option<seq<RealtimeRow>>>, now: string)
    returns (r: Result<LocationReport>)
    ensures r == DetailedLocationData(propertyId, response, now)
  {
    if propertyId == "" {
      return Err(NotConfigured);
    }
    if response.Err? {
      return Err(response.error);
    }
    var rows := response.value.GetOr([]);
    var total := 0;
    var byCountry: Counts<string> := [];
    var byCity: Counts<string> := [];
    var locations: seq<Location> := [];
    var details: seq<Location> := [];
    var i := 0;
    while i < |rows|
      invariant 0 <= i <= |rows|
      invariant total == SumBy(rows[..i], RowUsers)
      invariant byCountry == Tally(rows[..i], CountryOf, RowUsers)
      invariant byCity == Tally(rows[..i], CityKeyOf, RowUsers)
      invariant locations == ToLocations(Tally(rows[..i], PlaceOf, RowUsers))
    {
      var row := rows[i];
      var country := Dimension(row, 0);
      var city := Dimension(row, 1);
      var users := RowUsers(row);
      SumBySnoc(rows, i, RowUsers);
      TallySnoc(rows, i, CountryOf, RowUsers);
      TallySnoc(rows, i, CityKeyOf, RowUsers);
      TallySnoc(rows, i, PlaceOf, RowUsers);
      total := total + users;
      byCountry := Bump(byCountry, country, users);
      byCity := Bump(byCity, city + ", " + country, users);
      AddVisitIsBump(Tally(rows[..i], PlaceOf, RowUsers), country, city, users);
      locations := AddVisit(locations, country, city, users);
      i := i + 1;
    }
    assert rows[..i] == rows;
    if response.value.Some? {
      details := Sort(locations, ByUsersDesc);
    }
    return Ok(LocationReport(LocationSummary(total, byCountry, [], byCity, details), now));
  }

  /** The location breakdowns sum to the total, and there is never a
      region breakdown. */
  lemma LocationTotals(rows: seq<RealtimeRow>)
    ensures var s := SummarizeLocations(Some(rows));
      && s.totalActiveUsers == SumBy(rows, RowUsers)
      && Total(s.byCountry) == s.totalActiveUsers
      && Total(s.byCity) == s.totalActiveUsers
      && s.byRegion == []
  {
    TallyCorrect(rows, CountryOf, RowUsers);
    TallyCorrect(rows, CityKeyOf, RowUsers);
  }

  /** The places before sorting hold each (country, city) once. */
  lemma PlacesDistinct(rows: seq<RealtimeRow>)
    ensures KeysDistinct(ToLocations(Tally(rows, PlaceOf, RowUsers)), PlaceKey)
  {
    var t := Tally(rows, PlaceOf, RowUsers);
    var locs := ToLocations(t);
    TallyCorrect(rows, PlaceOf, RowUsers);
    forall i, j | 0 <= i < j < |locs| ensures PlaceKey(locs[i]) != PlaceKey(locs[j]) {
      DistinctAt(t, i, j);
    }
  }

  /** locationDetails lists each (country, city) at most once, larger
      counts first. */
  lemma LocationDetailsOrdered(rows: seq<RealtimeRow>)
    ensures var s := SummarizeLocations(Some(rows));
      && KeysDistinct(s.locationDetails, PlaceKey)
      && SortedBy(ByUsersDesc, s.locationDetails)
  {
    var locs := ToLocations(Tally(rows, PlaceOf, RowUsers));
    ByUsersDescIsPreorder();
    SortSorted(locs, ByUsersDesc);
    PlacesDistinct(rows);
    SortKeepsDistinct(locs, ByUsersDesc, PlaceKey);
  }

  /** Each entry of locationDetails has no region, is a place some row
      names, and holds the sum of the users of the rows for that place. */
  lemma LocationDetailsSums(rows: seq<RealtimeRow>)
    ensures forall l :: l in SummarizeLocations(Some(rows)).locationDetails ==>
      && l.region == ""
      && PlaceKey(l) in RowKeys(rows, PlaceOf)
      && l.activeUsers == SumWhere(rows, PlaceOf, RowUsers, PlaceKey(l))
  {
    var t := Tally(rows, PlaceOf, RowUsers);
    var locs := ToLocations(t);
    TallyCorrect(rows, PlaceOf, RowUsers);
    forall l | l in Sort(locs, ByUsersDesc)
      ensures l.region == "" && PlaceKey(l) in RowKeys(rows, PlaceOf)
      ensures l.activeUsers == SumWhere(rows, PlaceOf, RowUsers, PlaceKey(l))
    {
      SortMembers(locs, ByUsersDesc, l);
      var i :| 0 <= i < |locs| && locs[i] == l;
      LookupAt(t, i);
    }
  }

  /** Every row's place has an entry in locationDetails. */
  lemma LocationDetailsComplete(rows: seq<RealtimeRow>)
    ensures forall k :: 0 <= k < |rows| ==>
      exists l :: l in SummarizeLocations(Some(rows)).locationDetails && PlaceKey(l) == PlaceOf(rows[k])
  {
    var t := Tally(rows, PlaceOf, RowUsers);
    var locs := ToLocations(t);
    TallyCorrect(rows, PlaceOf, RowUsers);
    forall k | 0 <= k < |rows|
      ensures exists l :: l in Sort(locs, ByUsersDesc) && PlaceKey(l) == PlaceOf(rows[k])
    {
      var p := PlaceOf(rows[k]);
      assert p in RowKeys(rows, PlaceOf);
      var i := KeyIndex(t, p);
      SortMembers(locs, ByUsersDesc, locs[i]);
      assert PlaceKey(locs[i]) == p;
    }
  }

  lemma {:induction false} DistinctAt<K>(t: Counts<K>, i: nat, j: nat)
    requires DistinctKeys(t) && i < j < |t|
    ensures t[i].0 != t[j].0
  {
    if i == 0 {
      LookupAt(t[1..], j - 1);
    } else {
      DistinctAt(t[1..], i - 1, j - 1);
    }
  }

  // ----- getUserMetrics --------------------------------------------------

  /** One row of the daily report: its date dimension and its four metric
      values read with `parseInt` (None where that gives NaN, which `|| 0`
      turns into 0). */
  datatype ReportRow = ReportRow(
    date: string,
    totalUsers: Option<int>,
    newUsers: Option<int>,
    activeUsers: Option<int>,
    sessions: Option<int>)

  /** One day of user metrics, as the store takes it. */
  datatype UserMetric = UserMetric(
    date: string,
    totalUsers: int,
    newUsers: int,
    returningUsers: int,
    activeUsers: int,
    sessions: int)

  /** `${d.substring(0, 4)}-${d.substring(4, 6)}-${d.substring(6, 8)}`:
      YYYYMMDD into YYYY-MM-DD by fixed positions. */
  function FormatDate(d: string): (r: string)
    ensures |d| >= 8 ==> r == d[..4] + "-" + d[4..6] + "-" + d[6..8]
  {
    Substring(d, 0, 4) + "-" + Substring(d, 4, 6) + "-" + Substring(d, 6, 8)
  }

  /** The basic form of a date reformats to its extended form. */
  lemma FormatBasicText(d: Date)
    requires Valid(d) && 0 <= d.year <= 9999
    ensures FormatDate(BasicText(d)) == IsoText(d)
  {
    var y := YearText(d.year);
    var m := PadNat(d.month, 2);
    var dd := PadNat(d.day, 2);
    var b := BasicText(d);
    assert b == y + m + dd;
    assert b[..4] == y && b[4..6] == m && b[6..8] == dd;
  }

  /** Reformatting an eight-character date only inserts the two dashes. */
  lemma FormatDateDashes(d: string)
    requires |d| == 8 && '-' !in d
    ensures RemoveChar(FormatDate(d), '-') == d
  {
    var a, b, c := d[..4], d[4..6], d[6..8];
    assert '-' !in a && '-' !in b && '-' !in c by {
      assert forall i :: 0 <= i < |a| ==> a[i] == d[i];
      assert forall i :: 0 <= i < |b| ==> b[i] == d[i + 4];
      assert forall i :: 0 <= i < |c| ==> c[i] == d[i + 6];
    }
    DropDash(a + "-" + b, c);
    DropDash(a, b);
    RemoveCharAbsent(a, '-');
    RemoveCharAbsent(b, '-');
    RemoveCharAbsent(c, '-');
    assert a + b + c == d;
  }

  /** The per-row mapping of `getUserMetrics`. */
  function ToUserMetric(row: ReportRow): (m: UserMetric)
    ensures m.date == FormatDate(row.date)
    ensures m.totalUsers == row.totalUsers.GetOr(0) && m.newUsers == row.newUsers.GetOr(0)
    ensures m.activeUsers == row.activeUsers.GetOr(0) && m.sessions == row.sessions.GetOr(0)
    ensures m.returningUsers >= 0
    ensures m.returningUsers >= m.totalUsers - m.newUsers
    ensures m.returningUsers == 0 || m.returningUsers == m.totalUsers - m.newUsers
  {
    var total := row.totalUsers.GetOr(0);
    var newUsers := row.newUsers.GetOr(0);
    var returning := total - newUsers;
    UserMetric(
      FormatDate(row.date), total, newUsers,
      if returning > 0 then returning else 0,
      row.activeUsers.GetOr(0), row.sessions.GetOr(0))
  }

  /** `getUserMetrics`: one metric per report row, in the report's order
      (ascending by date, as the request asks); it raises instead when no
      property id is configured or the report call fails. */
  function UserMetrics(propertyId: string, response: Result<Option<seq<ReportRow>>>)
    : (r: Result<seq<UserMetric>>)
    ensures r.Ok? <==> propertyId != "" && response.Ok?
    ensures propertyId == "" ==> r == Err(NotConfigured)
    ensures r.Ok? ==>
      var rows := response.value.GetOr([]);
      |r.value| == |rows| && forall i :: 0 <= i < |rows| ==> r.value[i] == ToUserMetric(rows[i])
  {
    if propertyId == "" then Err(NotConfigured)
    else match response
      case Err(e) => Err(e)
      case Ok(rows) => Ok(Map(rows.GetOr([]), ToUserMetric))
  }

  /** The daily report, asked for a range of YYYYMMDD dates. */
  type DailyReport = (string, string) -> Result<Option<seq<ReportRow>>>

  /** The first day of `getHistoricalUserMetrics(days)`: days days before
      today. */
  function HistoricalStart(today: Date, days: int): (start: Date)
    requires Valid(today)
    ensures Valid(start)
    ensures AddDays(start, days) == today
  {
    AddDaysInverse(today, -days);
    AddDays(today, -days)
  }

  /** The first day of `getRecentUserMetrics(days)`: days - 1 days before
      today, so that the range holds days days with today the last. */
  function RecentStart(today: Date, days: int): (start: Date)
    requires Valid(today)
    ensures Valid(start)
    ensures AddDays(start, days - 1) == today
  {
    AddDaysInverse(today, -days + 1);
    AddDays(today, -days + 1)
  }

  /** `getHistoricalUserMetrics(days = 730)`: the report asked for the
      range from the day `days` days (730 by default) before today up to
      today, mapped row by row. */
  function HistoricalUserMetrics(propertyId: string, today: Date, days: Option<int>, report: DailyReport)
    : Result<seq<UserMetric>>
    requires Valid(today)
  {
    var start := HistoricalStart(today, days.GetOr(730));
    UserMetrics(propertyId, report(BasicText(start), BasicText(today)))
  }

  /** `getRecentUserMetrics(days = 3)`: the report asked for the `days`
      days (3 by default) that end with today, mapped row by row. */
  function RecentUserMetrics(propertyId: string, today: Date, days: Option<int>, report: DailyReport)
    : Result<seq<UserMetric>>
    requires Valid(today)
  {
    var start := RecentStart(today, days.GetOr(3));
    UserMetrics(propertyId, report(BasicText(start), BasicText(today)))
  }

  /** The historical fetch asks the report for the range from a day that
      lies `days` days (730 by default) before today up to today. */
  lemma HistoricalWindow(propertyId: string, today: Date, days: Option<int>, report: DailyReport)
    requires Valid(today)
    ensures exists start :: Valid(start) && AddDays(start, days.GetOr(730)) == today
              && HistoricalUserMetrics(propertyId, today, days, report)
                 == UserMetrics(propertyId, report(BasicText(start), BasicText(today)))
  {
    var start := HistoricalStart(today, days.GetOr(730));
    assert AddDays(start, days.GetOr(730)) == today;
  }

  /** The recent fetch asks the report for the `days` days (3 by default)
      that end with today. */
  lemma RecentWindow(propertyId: string, today: Date, days: Option<int>, report: DailyReport)
    requires Valid(today)
    ensures exists start :: Valid(start) && AddDays(start, days.GetOr(3) - 1) == today
              && RecentUserMetrics(propertyId, today, days, report)
                 == UserMetrics(propertyId, report(BasicText(start), BasicText(today)))
  {
    var start := RecentStart(today, days.GetOr(3));
    assert AddDays(start, days.GetOr(3) - 1) == today;
  }
}
