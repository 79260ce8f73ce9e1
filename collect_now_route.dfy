/** `POST /api/analytics/scheduler/collect-now`: fetches the realtime
    summary and the location details, and when both arrive stores them
    together, as one firing of the collector does, answering with the
    total and the number of places. The two fetch results, the clock and
    the store's answers are inputs. */
module CollectNowRoute {
  import opened Wrappers
  import opened Analytics
  import opened Store
  import opened Scheduler

  datatype Response =
    | Collected(message: string, totalUsers: int, locations: nat)
    | Failed(error: string, message: string)

  const CollectedMessage := "Data collection completed successfully"
  const CollectFailed := "Failed to collect data"
  const FetchFailedMessage := "Failed to fetch data"

  /** `usersResult.error || locationsResult.error || 'Failed to fetch
      data'`: a successful result carries no error. */
  function FetchError(users: Result<RealtimeReport>, locations: Result<LocationReport>): (e: string)
    ensures users.Err? && users.error != "" ==> e == users.error
    ensures (users.Ok? || users.error == "") && locations.Err? && locations.error != "" ==> e == locations.error
    ensures e != ""
  {
    if users.Err? && users.error != "" then users.error
    else ErrorOr(locations, FetchFailedMessage)
  }

  /** `POST`: both fetches must succeed, then the combined record is saved;
      any failure, of a fetch or of the store, is answered with its
      message and nothing written. */
  method Post(db: DatabaseService, users: Result<RealtimeReport>, locations: Result<LocationReport>,
              now: int, fault: Option<string>, locationFails: set<nat>)
    returns (r: Response)
    requires db.Valid()
    modifies db
    ensures db.Valid()
    ensures !(users.Ok? && locations.Ok?) ==> r == Failed(CollectFailed, FetchError(users, locations)) && unchanged(db)
    ensures users.Ok? && locations.Ok? && fault.Some? ==> r == Failed(CollectFailed, fault.value) && unchanged(db)
    ensures users.Ok? && locations.Ok? && fault.None? ==>
              var data := Combined(users.value.data, locations.value.data);
              && r == Collected(CollectedMessage, users.value.data.totalActiveUsers,
                                |locations.value.data.locationDetails|)
              && db.snapshots == old(db.snapshots) + [NewSnapshot(old(db.nextId), now, data, true)]
              && db.nextId == old(db.nextId) + 1
              && db.locationRows == old(db.locationRows)
                   + LocationRecords(locations.value.data.locationDetails, old(db.nextId), now, locationFails)
              && db.userMetrics == old(db.userMetrics)
  {
    if !(users.Ok? && locations.Ok?) {
      return Failed(CollectFailed, FetchError(users, locations));
    }
    var data := Combined(users.value.data, locations.value.data);
    var saved := db.SaveCompleteData(Some(data), now, fault, locationFails);
    if saved.Fail? {
      return Failed(CollectFailed, saved.error);
    }
    return Collected(CollectedMessage, users.value.data.totalActiveUsers, |locations.value.data.locationDetails|);
  }
}
