/** `/api/analytics/user-metrics/historical`: POST backfills up to two
    years of daily metrics from the analytics provider into the store; GET
    reads the stored days between optional bounds. Today's date, the
    provider's report and the store's answers are inputs. */
module MetricsHistoricalRoute {
  import opened Wrappers
  import opened Seqs
  import opened Text
  import opened Calendar
  import opened Analytics
  import opened Store

  datatype PostResponse =
    | Imported(message: string, daysImported: nat, startDate: string, endDate: string)
    | NoData(message: string)
    | Failed(error: string)

  datatype GetResponse = Rows(data: seq<MetricsRow>, count: nat) | GetFailed(error: string)

  const NoHistoricalData := "No historical data available"

  /** `Successfully imported ${n} days of historical data`. */
  function ImportedMessage(n: nat): string
  {
    "Successfully imported " + NatToString(n) + " days of historical data"
  }

  /** `POST { days = 730 }`: an empty fetch writes nothing; otherwise every
      fetched day goes through the batch upsert, and the answer names the
      first and the last day. */
  method Post(db: DatabaseService, propertyId: string, today: Date, days: Option<int>, report: DailyReport,
              faults: nat -> Option<string>)
    returns (r: PostResponse)
    requires Valid(today) && db.Valid()
    modifies db
    ensures db.Valid()
    ensures db.snapshots == old(db.snapshots) && db.locationRows == old(db.locationRows)
    ensures var fetched := HistoricalUserMetrics(propertyId, today, days, report);
      && (fetched.Err? ==> r == Failed(fetched.error) && db.userMetrics == old(db.userMetrics))
      && (fetched.Ok? && fetched.value == [] ==> r == NoData(NoHistoricalData) && db.userMetrics == old(db.userMetrics))
      && (fetched.Ok? && fetched.value != [] ==>
            var ms := Map(fetched.value, FromUserMetric);
            match FirstFault(faults, |ms|)
            case None =>
              && r == Imported(ImportedMessage(|ms|), |ms|, fetched.value[0].date, fetched.value[|ms| - 1].date)
              && db.userMetrics == UpsertAll(old(db.userMetrics), ms)
            case Some(k) =>
              r == Failed(faults(k).value) && db.userMetrics == UpsertAll(old(db.userMetrics), ms[..k]))
  {
    var fetched := HistoricalUserMetrics(propertyId, today, days, report);
    if fetched.Err? {
      return Failed(fetched.error);
    }
    var metrics := fetched.value;
    if |metrics| == 0 {
      return NoData(NoHistoricalData);
    }
    var saved := db.SaveUserMetricsBatch(Map(metrics, FromUserMetric), faults);
    if saved.Fail? {
      return Failed(saved.error);
    }
    return Imported(ImportedMessage(|metrics|), |metrics|, metrics[0].date, metrics[|metrics| - 1].date);
  }

  /** `searchParams.get(name) || undefined`: an absent or empty parameter
      is no bound. */
  function Bound(param: Option<string>): (b: Option<string>)
    ensures b.Some? <==> param.Some? && param.value != ""
    ensures b.Some? ==> b == param
  {
    if param.Some? && param.value != "" then param else None
  }

  /** Dropping empty bounds does not change which dates are in range. */
  lemma BoundKeepsRange(date: string, startDate: Option<string>, endDate: Option<string>)
    ensures InRange(date, Bound(startDate), Bound(endDate)) == InRange(date, startDate, endDate)
  {
  }

  /** `GET ?startDate=&endDate=`: the stored days within the given bounds,
      ascending. */
  function Get(db: DatabaseService, startDate: Option<string>, endDate: Option<string>, fault: Option<string>)
    : (r: GetResponse)
    reads db
    ensures fault.Some? ==> r == GetFailed(fault.value)
    ensures fault.None? ==>
              && r.Rows? && r.count == |r.data|
              && r.data == db.GetUserMetrics(Bound(startDate), Bound(endDate))
              && (forall m :: m in r.data <==> m in db.userMetrics && InRange(m.date, startDate, endDate))
              && SortedBy(EarlierFirst, r.data)
  {
    if fault.Some? then GetFailed(fault.value)
    else
      var rows := db.GetUserMetrics(Bound(startDate), Bound(endDate));
      assert forall m :: m in rows <==> m in db.userMetrics && InRange(m.date, startDate, endDate) by {
        forall m ensures m in rows <==> m in db.userMetrics && InRange(m.date, startDate, endDate) {
          BoundKeepsRange(m.date, startDate, endDate);
        }
      }
      Rows(rows, |rows|)
  }
}
