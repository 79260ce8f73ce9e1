/** `GET /api/analytics/dashboard`: the latest stored snapshot, renamed
    into the shape the dashboard reads, or an all-empty answer stamped
    with the current time while the store has none. The clock and the
    store's failure are inputs; timestamps are seconds. */
module DashboardRoute {
  import opened Wrappers
  import opened Breakdown
  import opened Analytics
  import opened Store

  datatype DashboardData = DashboardData(
    totalActiveUsers: int,
    byCountry: Counts<string>,
    byDevice: Counts<string>,
    byPlatform: Counts<string>,
    locationDetails: seq<Location>,
    timestamp: int)

  datatype Response = Dashboard(data: DashboardData) | Failed(error: string, message: string)

  const DashboardFailed := "Failed to fetch dashboard data"

  /** A stored row with its columns renamed, values unchanged, and a
      missing location list read as empty. */
  function Reshape(s: Snapshot): (d: DashboardData)
    ensures d.totalActiveUsers == s.totalActiveUsers && d.timestamp == s.timestamp
    ensures d.byCountry == s.byCountry && d.byDevice == s.byDevice && d.byPlatform == s.byPlatform
    ensures d.locationDetails == s.locationDetails.GetOr([])
  {
    DashboardData(
      s.totalActiveUsers, s.byCountry, s.byDevice, s.byPlatform,
      s.locationDetails.GetOr([]), s.timestamp)
  }

  /** The answer while nothing has been collected. */
  function Empty(now: int): (d: DashboardData)
    ensures d.totalActiveUsers == 0 && d.timestamp == now
    ensures d.byCountry == [] && d.byDevice == [] && d.byPlatform == [] && d.locationDetails == []
  {
    DashboardData(0, [], [], [], [], now)
  }

  /** `GET`: the latest snapshot reshaped, the empty answer on an empty
      store, or the store's message when the read fails. */
  function Get(db: DatabaseService, now: int, fault: Option<string>): (r: Response)
    reads db
    ensures fault.Some? ==> r == Failed(DashboardFailed, fault.value)
    ensures fault.None? && db.snapshots == [] ==> r == Dashboard(Empty(now))
    ensures fault.None? && db.snapshots != [] ==>
              && r.Dashboard?
              && (exists i :: 0 <= i < |db.snapshots| && r.data == Reshape(db.snapshots[i]))
              && forall j :: 0 <= j < |db.snapshots| ==> db.snapshots[j].timestamp <= r.data.timestamp
  {
    if fault.Some? then Failed(DashboardFailed, fault.value)
    else match db.GetLatestEntry()
      case None => Dashboard(Empty(now))
      case Some(s) => Dashboard(Reshape(s))
  }
}
