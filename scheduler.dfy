/** The collector: a cron task, set by start and cleared by stop, that
    every three minutes fetches the realtime summary and the location
    details and stores them together; and a manual collection that stores
    the realtime summary alone.

    A firing is one step whose inputs are the two fetch results (as the
    analytics client returns them), the clock, and the store's answer. */
module Scheduler {
  import opened Wrappers
  import opened Seqs
  import opened Breakdown
  import opened Analytics
  import opened Store

  /** The cron expression of the collector: every third minute. */
  const Schedule := "*/3 * * * *"

  /** A scheduled cron task. */
  datatype Task = Task(expression: string)

  /** What `getStatus` reports. */
  datatype Status = Status(isRunning: bool, schedule: string, nextRun: string)

  const ScheduleText := "*/3 * * * * (every 3 minutes)"
  const NextRunText := "In less than 3 minutes"

  /** The message a failed manual collection raises when the fetch gave no
      message of its own. */
  const FetchFailed := "Failed to fetch analytics data"

  /** `{ ...usersResult.data, locationDetails }`: the realtime summary with
      the location list beside it. The raw rows travel outside the
      summary, so the stored raw data is empty. */
  function Combined(users: RealtimeSummary, locations: LocationSummary): (d: SnapshotInput)
    ensures d.totalActiveUsers == Some(users.totalActiveUsers)
    ensures d.byCountry == Some(users.byCountry) && d.byDevice == Some(users.byDevice)
    ensures d.byPlatform == Some(users.byPlatform)
    ensures d.locationDetails == Some(locations.locationDetails)
    ensures d.rawData.None?
  {
    SnapshotInput(
      Some(users.totalActiveUsers),
      Some(users.byCountry), Some(users.byDevice), Some(users.byPlatform),
      Some(locations.locationDetails),
      None)
  }

  /** The realtime summary as `saveActiveUsers` is handed it. */
  function SummaryOnly(users: RealtimeSummary): (d: SnapshotInput)
    ensures d.totalActiveUsers == Some(users.totalActiveUsers)
    ensures d.byCountry == Some(users.byCountry) && d.byDevice == Some(users.byDevice)
    ensures d.byPlatform == Some(users.byPlatform)
    ensures d.locationDetails.None? && d.rawData.None?
  {
    SnapshotInput(
      Some(users.totalActiveUsers),
      Some(users.byCountry), Some(users.byDevice), Some(users.byPlatform),
      None, None)
  }

  /** `result.error || fallback`. */
  function ErrorOr<T>(r: Result<T>, fallback: string): (e: string)
    ensures r.Err? && r.error != "" ==> e == r.error
    ensures r.Ok? || r.error == "" ==> e == fallback
  {
    if r.Err? && r.error != "" then r.error else fallback
  }

  class SchedulerService {
    var task: Option<Task>

    constructor()
      ensures task.None?
    {
      task := None;
    }

    /** `startDataCollection`: schedules the collector unless it already
        runs, in which case nothing changes. */
    method StartDataCollection()
      modifies this
      ensures old(task).Some? ==> task == old(task)
      ensures old(task).None? ==> task == Some(Task(Schedule))
    {
      if task.Some? {
        return;
      }
      task := Some(Task(Schedule));
    }

    /** `stopDataCollection`: stops and forgets the task; with no task
        nothing changes. */
    method StopDataCollection()
      modifies this
      ensures task.None?
      ensures old(task).None? ==> task == old(task)
    {
      if task.Some? {
        task := None;
      }
    }

    /** `getStatus`: running exactly while a task is set. */
    function GetStatus(): (s: Status)
      reads this
      ensures s.isRunning <==> task.Some?
      ensures s.schedule == ScheduleText && s.nextRun == NextRunText
    {
      Status(task.Some?, ScheduleText, NextRunText)
    }

    /** One firing of the scheduled task: when both fetches succeed, the
        combined record is saved with `saveCompleteData`; otherwise
        nothing is written. A store error is caught and logged, so the
        firing itself never fails. */
    method Fire(db: DatabaseService, users: Result<RealtimeReport>, locations: Result<LocationReport>,
                now: int, fault: Option<string>, locationFails: set<nat>)
      requires task.Some? && db.Valid()
      modifies db
      ensures db.Valid()
      ensures !(users.Ok? && locations.Ok?) || fault.Some? ==> unchanged(db)
      ensures users.Ok? && locations.Ok? && fault.None? ==>
                var data := Combined(users.value.data, locations.value.data);
                && db.snapshots == old(db.snapshots) + [NewSnapshot(old(db.nextId), now, data, true)]
                && db.nextId == old(db.nextId) + 1
                && db.locationRows == old(db.locationRows)
                     + LocationRecords(locations.value.data.locationDetails, old(db.nextId), now, locationFails)
                && db.userMetrics == old(db.userMetrics)
    {
      if users.Ok? && locations.Ok? {
        var data := Combined(users.value.data, locations.value.data);
        var _ := db.SaveCompleteData(Some(data), now, fault, locationFails);
      }
    }

    /** `collectDataNow`: fetches the realtime summary and saves it with
        `saveActiveUsers`, so no location rows are written; a failed fetch
        raises its message, or a default one. */
    method CollectDataNow(db: DatabaseService, users: Result<RealtimeReport>, now: int, fault: Option<string>)
      returns (r: Outcome)
      requires db.Valid()
      modifies db
      ensures db.Valid()
      ensures users.Err? ==> r == Fail(ErrorOr(users, FetchFailed)) && unchanged(db)
      ensures users.Ok? && fault.Some? ==> r == Fail(fault.value) && unchanged(db)
      ensures users.Ok? && fault.None? ==>
                && r == Pass
                && db.snapshots == old(db.snapshots) + [NewSnapshot(old(db.nextId), now, SummaryOnly(users.value.data), false)]
                && db.nextId == old(db.nextId) + 1
                && db.locationRows == old(db.locationRows) && db.userMetrics == old(db.userMetrics)
    {
      if users.Ok? {
        r := db.SaveActiveUsers(Some(SummaryOnly(users.value.data)), now, fault);
      } else {
        r := Fail(ErrorOr(users, FetchFailed));
      }
    }
  }

  /** A snapshot the collector stores from a realtime report keeps the
      report's invariant: each breakdown sums to the stored total. */
  lemma CollectedSnapshotConsistent(rows: seq<RealtimeRow>, ts: string, locations: LocationSummary, id: nat, now: int)
    ensures var s := NewSnapshot(id, now, Combined(Summarize(rows, ts), locations), true);
      && s.totalActiveUsers == SumBy(rows, RowUsers)
      && Total(s.byCountry) == s.totalActiveUsers
      && Total(s.byDevice) == s.totalActiveUsers
      && Total(s.byPlatform) == s.totalActiveUsers
      && s.locationDetails == Some(locations.locationDetails)
  {
    SummaryBreakdowns(rows, ts);
  }
}
