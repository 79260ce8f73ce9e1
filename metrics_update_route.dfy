/** `/api/analytics/user-metrics/update`: POST fetches the last few days
    from the analytics provider and saves them over the stored days; GET
    reads back the last week. Today's date, the clock, the provider's
    report and the store's answers are inputs. */
module MetricsUpdateRoute {
  import opened Wrappers
  import opened Seqs
  import opened Text
  import opened Calendar
  import opened Analytics
  import opened Store

  datatype PostResponse =
    | Updated(message: string, daysUpdated: nat, dates: seq<string>, timestamp: int)
    | NoData(message: string)
    | Failed(error: string)

  datatype GetResponse = Rows(data: seq<MetricsRow>, count: nat) | GetFailed(error: string)

  const NoRecentData := "No recent data available"

  /** `Successfully updated ${n} days of data`. */
  function UpdatedMessage(n: nat): string
  {
    "Successfully updated " + NatToString(n) + " days of data"
  }

  function DateOf(m: UserMetric): string { m.date }

  /** `POST { days = 3 }`: an empty fetch writes nothing; otherwise every
      fetched day goes through the batch upsert, which stops at the first
      failing save. */
  method Post(db: DatabaseService, propertyId: string, today: Date, days: Option<int>, report: DailyReport,
              faults: nat -> Option<string>, now: int)
    returns (r: PostResponse)
    requires Valid(today) && db.Valid()
    modifies db
    ensures db.Valid()
    ensures db.snapshots == old(db.snapshots) && db.locationRows == old(db.locationRows)
    ensures var fetched := RecentUserMetrics(propertyId, today, days, report);
      && (fetched.Err? ==> r == Failed(fetched.error) && db.userMetrics == old(db.userMetrics))
      && (fetched.Ok? && fetched.value == [] ==> r == NoData(NoRecentData) && db.userMetrics == old(db.userMetrics))
      && (fetched.Ok? && fetched.value != [] ==>
            var ms := Map(fetched.value, FromUserMetric);
            match FirstFault(faults, |ms|)
            case None =>
              && r == Updated(UpdatedMessage(|ms|), |ms|, Map(fetched.value, DateOf), now)
              && db.userMetrics == UpsertAll(old(db.userMetrics), ms)
            case Some(k) =>
              r == Failed(faults(k).value) && db.userMetrics == UpsertAll(old(db.userMetrics), ms[..k]))
  {
    var fetched := RecentUserMetrics(propertyId, today, days, report);
    if fetched.Err? {
      return Failed(fetched.error);
    }
    var metrics := fetched.value;
    if |metrics| == 0 {
      return NoData(NoRecentData);
    }
    var ms := Map(metrics, FromUserMetric);
    var saved := db.SaveUserMetricsBatch(ms, faults);
    if saved.Fail? {
      return Failed(saved.error);
    }
    return Updated(UpdatedMessage(|metrics|), |metrics|, Map(metrics, DateOf), now);
  }

  /** The first day GET reads: a week before today. */
  function WeekStart(today: Date): (start: Date)
    requires Valid(today)
    ensures Valid(start) && AddDays(start, 7) == today
  {
    AddDaysInverse(today, -7);
    AddDays(today, -7)
  }

  /** `GET`: the stored days from a week ago to today, ascending. */
  function Get(db: DatabaseService, today: Date, fault: Option<string>): (r: GetResponse)
    reads db
    requires Valid(today)
    ensures fault.Some? ==> r == GetFailed(fault.value)
    ensures fault.None? ==>
              && r.Rows? && r.count == |r.data|
              && (forall m :: m in r.data <==>
                    m in db.userMetrics && LexLe(IsoText(WeekStart(today)), m.date) && LexLe(m.date, IsoText(today)))
              && SortedBy(EarlierFirst, r.data)
  {
    if fault.Some? then GetFailed(fault.value)
    else
      var rows := db.GetUserMetrics(Some(IsoText(WeekStart(today))), Some(IsoText(today)));
      Rows(rows, |rows|)
  }

  /** A successful update reports one date per saved day, in order, and
      each saved day is then stored under its date. */
  lemma UpdatedDays(metrics: seq<UserMetric>, rows: seq<MetricsRow>)
    ensures var ms := Map(metrics, FromUserMetric);
      |Map(metrics, DateOf)| == |ms|
      && forall i :: 0 <= i < |ms| ==>
           Map(metrics, DateOf)[i] == ms[i].date && FindDate(UpsertAll(rows, ms), ms[i].date).Some?
  {
    var ms := Map(metrics, FromUserMetric);
    forall i | 0 <= i < |ms| ensures FindDate(UpsertAll(rows, ms), ms[i].date).Some? {
      UpsertAllLastWins(rows, ms, ms[i].date);
    }
  }
}
