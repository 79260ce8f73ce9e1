/** `GET /api/analytics/user-metrics/chart-data`: a year of daily user
    metrics, up to two days ago, as a line chart: one label per day and
    three series index-aligned with the labels. The store's read and its
    failure, and today's date, are inputs. */
module ChartDataRoute {
  import opened Wrappers
  import opened Seqs
  import opened Text
  import opened Calendar
  import opened Store

  /** A series, `label` and `data`. */
  datatype Dataset = Dataset(name: string, data: seq<int>)
  datatype ChartData = ChartData(labels: seq<string>, datasets: seq<Dataset>)
  datatype DateRange = DateRange(start: Option<string>, end: Option<string>)

  datatype Response =
    | Chart(data: ChartData, count: nat, dateRange: DateRange)
    | Failed(error: string)

  const TotalLabel := "전체 사용자"
  const ReturningLabel := "재방문 사용자"
  const NewLabel := "신규 사용자"

  /** The first and last day asked for: the same day a year ago, and two
      days ago. */
  function ChartWindow(today: Date): (w: (Date, Date))
    requires Valid(today)
    ensures Valid(w.0) && Valid(w.1)
    ensures w.0 == YearBack(today)
    ensures AddDays(w.1, 2) == today
  {
    AddDaysInverse(today, -2);
    (YearBack(today), AddDays(today, -2))
  }

  /** `${date.getMonth() + 1}/${date.getDate()}` of `new Date(m.date)`;
      a date that does not parse prints as NaN. */
  function Label(date: string): string
  {
    match ParseIso(date)
    case Some(d) => NatToString(d.month) + "/" + NatToString(d.day)
    case None => "NaN/NaN"
  }

  /** A stored date labels as its month and day, without padding. */
  lemma LabelOfDay(d: Date)
    requires Valid(d) && 0 <= d.year <= 9999
    ensures Label(IsoText(d)) == NatToString(d.month) + "/" + NatToString(d.day)
  {
    ParseIsoText(d);
  }

  /** The chart: the labels and the three series, all as long as the rows
      and each read at the same index; total users first, then returning,
      then new. */
  function ChartOf(metrics: seq<MetricsRow>): (c: ChartData)
    ensures |c.labels| == |metrics| && |c.datasets| == 3
    ensures c.datasets[0].name == TotalLabel
    ensures c.datasets[1].name == ReturningLabel
    ensures c.datasets[2].name == NewLabel
    ensures forall k :: 0 <= k < 3 ==> |c.datasets[k].data| == |metrics|
    ensures forall i :: 0 <= i < |metrics| ==>
              && c.labels[i] == Label(metrics[i].date)
              && c.datasets[0].data[i] == metrics[i].totalUsers
              && c.datasets[1].data[i] == metrics[i].returningUsers
              && c.datasets[2].data[i] == metrics[i].newUsers
  {
    ChartData(
      Map(metrics, (m: MetricsRow) => Label(m.date)),
      [ Dataset(TotalLabel, Map(metrics, (m: MetricsRow) => m.totalUsers)),
        Dataset(ReturningLabel, Map(metrics, (m: MetricsRow) => m.returningUsers)),
        Dataset(NewLabel, Map(metrics, (m: MetricsRow) => m.newUsers)) ])
  }

  /** The answer for the rows read: the chart, their number and the first
      and last date, both undefined when there are no rows. */
  function View(metrics: seq<MetricsRow>): (r: Response)
    ensures r.Chart? && r.count == |metrics| && r.data == ChartOf(metrics)
    ensures metrics == [] ==> r.dateRange == DateRange(None, None)
    ensures metrics != [] ==>
              r.dateRange == DateRange(Some(metrics[0].date), Some(metrics[|metrics| - 1].date))
  {
    var range :=
      if metrics == [] then DateRange(None, None)
      else DateRange(Some(metrics[0].date), Some(metrics[|metrics| - 1].date));
    Chart(ChartOf(metrics), |metrics|, range)
  }

  /** The rows of the chart window, ascending. */
  function WindowRows(db: DatabaseService, today: Date): seq<MetricsRow>
    reads db
    requires Valid(today)
  {
    var w := ChartWindow(today);
    db.GetUserMetrics(Some(IsoText(w.0)), Some(IsoText(w.1)))
  }

  /** `GET`: a failing read answers with the store's message. */
  function Get(db: DatabaseService, today: Date, fault: Option<string>): (r: Response)
    reads db
    requires Valid(today)
    ensures fault.Some? ==> r == Failed(fault.value)
    ensures fault.None? ==> r == View(WindowRows(db, today))
  {
    if fault.Some? then Failed(fault.value) else View(WindowRows(db, today))
  }

  /** The chart shows exactly the stored days of the window, each within
      the year-ago and two-days-ago bounds, in ascending date order. */
  lemma WindowRowsInRange(db: DatabaseService, today: Date)
    requires Valid(today)
    ensures var w := ChartWindow(today);
      var rows := WindowRows(db, today);
      && (forall m :: m in rows <==>
            m in db.userMetrics && LexLe(IsoText(w.0), m.date) && LexLe(m.date, IsoText(w.1)))
      && (forall i, j :: 0 <= i < j < |rows| ==> LexLe(rows[i].date, rows[j].date))
  {
  }
}
