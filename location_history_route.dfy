/** `GET /api/analytics/location-history?hours=`: the location rows of the
    trailing window grouped by collection time, each group summarised by
    its size, its user total and its ten busiest places, latest group
    first. The store's read and its failure are inputs. */
module LocationHistoryRoute {
  import opened Wrappers
  import opened Seqs
  import opened Breakdown
  import opened Store

  /** A location as a group lists it. */
  datatype Visit = Visit(country: string, city: string, activeUsers: int, collectionId: nat)

  /** The locations stored under one timestamp key. */
  datatype Bucket = Bucket(timestamp: int, visits: seq<Visit>)

  /** One entry of `timeSeries`. */
  datatype Point = Point(timestamp: int, totalLocations: nat, totalUsers: int, topLocations: seq<Visit>)

  datatype Response =
    | History(hours: int, totalRecords: nat, timeSeries: seq<Point>)
    | Failed(error: string, message: string)

  const HistoryFailed := "Failed to fetch location history"
  const TopPlaces := 10

  function VisitOf(l: LocationRow): Visit
  {
    Visit(l.country, l.city, l.activeUsers, l.collectionId)
  }

  function TimeOf(l: LocationRow): int { l.timestamp }
  function UsersOf(v: Visit): int { v.activeUsers }
  function SizeOf(b: Bucket): int { |b.visits| }
  function PointTime(p: Point): int { p.timestamp }
  function PointSize(p: Point): int { p.totalLocations }

  /** The rows collected at time k. */
  function AtTime(k: int): LocationRow -> bool
  {
    (l: LocationRow) => l.timestamp == k
  }

  // ----- the grouping ------------------------------------------------------

  /** The keys of the grouping object. */
  function Times(buckets: seq<Bucket>): set<int>
  {
    if buckets == [] then {} else {buckets[0].timestamp} + Times(buckets[1..])
  }

  /** Each key holds one list. */
  ghost predicate DistinctTimes(buckets: seq<Bucket>)
  {
    buckets == [] || (buckets[0].timestamp !in Times(buckets[1..]) && DistinctTimes(buckets[1..]))
  }

  /** `groupedByTime[k] || []`. */
  function VisitsAt(buckets: seq<Bucket>, k: int): seq<Visit>
  {
    if buckets == [] then []
    else if buckets[0].timestamp == k then buckets[0].visits
    else VisitsAt(buckets[1..], k)
  }

  /** `if (!grouped[t]) grouped[t] = []; grouped[t].push(v)`: a new key goes
      last, as string keys do in a JS object. */
  function Push(buckets: seq<Bucket>, t: int, v: Visit): (r: seq<Bucket>)
    ensures Times(r) == Times(buckets) + {t}
    ensures DistinctTimes(buckets) ==> DistinctTimes(r)
    ensures forall k :: VisitsAt(r, k) == VisitsAt(buckets, k) + (if k == t then [v] else [])
    ensures SumBy(r, SizeOf) == SumBy(buckets, SizeOf) + 1
  {
    if buckets == [] then
      assert [Bucket(t, [v])][1..] == [];
      assert SumBy([Bucket(t, [v])], SizeOf) == 1 by {
        assert [Bucket(t, [v])][..0] == [];
      }
      [Bucket(t, [v])]
    else if buckets[0].timestamp == t then
      var b := buckets[0].(visits := buckets[0].visits + [v]);
      assert ([b] + buckets[1..])[1..] == buckets[1..];
      assert SumBy([b] + buckets[1..], SizeOf) == SumBy(buckets, SizeOf) + 1 by {
        SumByCons(b, buckets[1..], SizeOf);
        SumByCons(buckets[0], buckets[1..], SizeOf);
        assert buckets == [buckets[0]] + buckets[1..];
      }
      [b] + buckets[1..]
    else
      var rest := Push(buckets[1..], t, v);
      assert ([buckets[0]] + rest)[1..] == rest;
      assert SumBy([buckets[0]] + rest, SizeOf) == SumBy(buckets, SizeOf) + 1 by {
        SumByCons(buckets[0], rest, SizeOf);
        SumByCons(buckets[0], buckets[1..], SizeOf);
        assert buckets == [buckets[0]] + buckets[1..];
      }
      [buckets[0]] + rest
  }

  /** The `forEach` over the rows, folded from the left. */
  function Grouped(rows: seq<LocationRow>): seq<Bucket>
  {
    if rows == [] then []
    else
      var last := rows[|rows| - 1];
      Push(Grouped(rows[..|rows| - 1]), last.timestamp, VisitOf(last))
  }

  /** The `forEach` loop that fills the grouping object. */
  method GroupByTime(rows: seq<LocationRow>) returns (buckets: seq<Bucket>)
    ensures buckets == Grouped(rows)
  {
    buckets := [];
    var i := 0;
    while i < |rows|
      invariant 0 <= i <= |rows|
      invariant buckets == Grouped(rows[..i])
    {
      assert rows[..i + 1][..i] == rows[..i];
      buckets := Push(buckets, rows[i].timestamp, VisitOf(rows[i]));
      i := i + 1;
    }
    assert rows[..i] == rows;
  }

  /** There is one group per distinct timestamp of the rows. */
  lemma {:induction false} GroupedKeys(rows: seq<LocationRow>)
    ensures DistinctTimes(Grouped(rows))
    ensures Times(Grouped(rows)) == RowKeys(rows, TimeOf)
  {
    if rows != [] {
      GroupedKeys(rows[..|rows| - 1]);
      RowKeysSnoc(rows, TimeOf);
    }
  }

  /** The group of time k lists exactly the rows collected at k, in order. */
  lemma {:induction false} GroupedVisits(rows: seq<LocationRow>, k: int)
    ensures VisitsAt(Grouped(rows), k) == Map(Filter(rows, AtTime(k)), VisitOf)
  {
    if rows != [] {
      var init := rows[..|rows| - 1];
      var last := rows[|rows| - 1];
      var before := Filter(init, AtTime(k));
      var added := if last.timestamp == k then [last] else [];
      GroupedVisits(init, k);
      assert VisitsAt(Grouped(rows), k) == Map(before, VisitOf) + Map(added, VisitOf) by {
        assert Grouped(rows) == Push(Grouped(init), last.timestamp, VisitOf(last));
      }
      assert Filter(rows, AtTime(k)) == before + added by {
        FilterSnoc(rows, AtTime(k));
      }
      MapAppend(before, added, VisitOf);
    }
  }

  /** The groups hold every row once between them. */
  lemma {:induction false} GroupedTotal(rows: seq<LocationRow>)
    ensures SumBy(Grouped(rows), SizeOf) == |rows|
  {
    if rows != [] {
      GroupedTotal(rows[..|rows| - 1]);
    }
  }

  lemma {:induction false} TimesHas(buckets: seq<Bucket>, i: nat)
    requires i < |buckets|
    ensures buckets[i].timestamp in Times(buckets)
  {
    if i > 0 {
      TimesHas(buckets[1..], i - 1);
    }
  }

  /** With one list per key, looking a bucket's key up finds that bucket. */
  lemma {:induction false} VisitsAtBucket(buckets: seq<Bucket>, i: nat)
    requires DistinctTimes(buckets) && i < |buckets|
    ensures VisitsAt(buckets, buckets[i].timestamp) == buckets[i].visits
  {
    if i > 0 {
      TimesHas(buckets[1..], i - 1);
      VisitsAtBucket(buckets[1..], i - 1);
    }
  }

  lemma {:induction false} DistinctTimesAt(buckets: seq<Bucket>, i: nat, j: nat)
    requires DistinctTimes(buckets) && i < j < |buckets|
    ensures buckets[i].timestamp != buckets[j].timestamp
  {
    if i == 0 {
      TimesHas(buckets[1..], j - 1);
    } else {
      DistinctTimesAt(buckets[1..], i - 1, j - 1);
    }
  }

  /** Every group is the list of the rows of its timestamp. */
  lemma BucketContents(rows: seq<LocationRow>, i: nat)
    requires i < |Grouped(rows)|
    ensures var b := Grouped(rows)[i];
      b.visits == Map(Filter(rows, AtTime(b.timestamp)), VisitOf) && b.timestamp in RowKeys(rows, TimeOf)
  {
    var buckets := Grouped(rows);
    GroupedKeys(rows);
    VisitsAtBucket(buckets, i);
    GroupedVisits(rows, buckets[i].timestamp);
    TimesHas(buckets, i);
  }

  // ----- the summaries -----------------------------------------------------

  /** `b.activeUsers - a.activeUsers`. */
  predicate BusierFirst(a: Visit, b: Visit)
  {
    a.activeUsers >= b.activeUsers
  }

  lemma BusierFirstIsPreorder()
    ensures TotalPreorder(BusierFirst)
  {
  }

  /** The summary of one group. */
  function PointOf(b: Bucket): (p: Point)
    ensures p.timestamp == b.timestamp && p.totalLocations == |b.visits|
    ensures p.totalUsers == SumBy(b.visits, UsersOf)
    ensures |p.topLocations| <= TopPlaces && |p.topLocations| <= |b.visits|
    ensures |b.visits| >= TopPlaces ==> |p.topLocations| == TopPlaces
    ensures SortedBy(BusierFirst, p.topLocations)
    ensures multiset(p.topLocations) <= multiset(b.visits)
  {
    BusierFirstIsPreorder();
    Point(b.timestamp, |b.visits|, SumBy(b.visits, UsersOf), TopBy(b.visits, BusierFirst, TopPlaces))
  }

  /** The top list holds the group's busiest rows: a row left out of it
      has no more users than any row kept, and only a full list leaves
      one out. */
  lemma PointTopIsTop(b: Bucket, v: Visit)
    requires v in b.visits && v !in PointOf(b).topLocations
    ensures |PointOf(b).topLocations| == TopPlaces
    ensures forall i :: 0 <= i < TopPlaces ==> PointOf(b).topLocations[i].activeUsers >= v.activeUsers
  {
    var top := PointOf(b).topLocations;
    BusierFirstIsPreorder();
    TopByOmitted(b.visits, BusierFirst, TopPlaces, v);
    forall i | 0 <= i < TopPlaces ensures top[i].activeUsers >= v.activeUsers {
      assert i < TopPlaces - 1 ==> BusierFirst(top[i], top[TopPlaces - 1]);
    }
  }

  /** `new Date(b.timestamp) - new Date(a.timestamp)`: latest first. */
  predicate LaterFirst(a: Point, b: Point)
  {
    a.timestamp >= b.timestamp
  }

  lemma LaterFirstIsPreorder()
    ensures TotalPreorder(LaterFirst)
  {
  }

  /** `timeSeries`: one summary per group, latest first. */
  function TimeSeries(buckets: seq<Bucket>): (r: seq<Point>)
    ensures multiset(r) == multiset(Map(buckets, PointOf))
    ensures SortedBy(LaterFirst, r)
  {
    var points := Map(buckets, PointOf);
    assert SortedBy(LaterFirst, Sort(points, LaterFirst)) by {
      LaterFirstIsPreorder();
      SortSorted(points, LaterFirst);
    }
    Sort(points, LaterFirst)
  }

  /** The answer for the rows the store returned. */
  function Summary(rows: seq<LocationRow>, hours: int): (r: Response)
    ensures r.History? && r.hours == hours && r.totalRecords == |rows|
  {
    History(hours, |rows|, TimeSeries(Grouped(rows)))
  }

  /** The series is strictly latest first, and its group sizes add up to
      the number of rows. */
  lemma SeriesOrdered(rows: seq<LocationRow>, hours: int)
    ensures var ts := Summary(rows, hours).timeSeries;
      && (forall i, j :: 0 <= i < j < |ts| ==> ts[i].timestamp > ts[j].timestamp)
      && SumBy(ts, PointSize) == |rows|
  {
    var buckets := Grouped(rows);
    var points := Map(buckets, PointOf);
    var ts := Sort(points, LaterFirst);
    GroupedKeys(rows);
    assert KeysDistinct(points, PointTime) by {
      forall i, j | 0 <= i < j < |points| ensures PointTime(points[i]) != PointTime(points[j]) {
        DistinctTimesAt(buckets, i, j);
      }
    }
    SortKeepsDistinct(points, LaterFirst, PointTime);
    assert SortedBy(LaterFirst, ts) by {
      LaterFirstIsPreorder();
      SortSorted(points, LaterFirst);
    }
    assert forall i, j :: 0 <= i < j < |ts| ==> ts[i].timestamp > ts[j].timestamp by {
      forall i, j | 0 <= i < j < |ts| ensures ts[i].timestamp > ts[j].timestamp {
        assert LaterFirst(ts[i], ts[j]) && PointTime(ts[i]) != PointTime(ts[j]);
      }
    }
    SumBySort(points, LaterFirst, PointSize);
    SizesOfPoints(buckets);
    GroupedTotal(rows);
  }

  lemma {:induction false} SizesOfPoints(buckets: seq<Bucket>)
    ensures SumBy(Map(buckets, PointOf), PointSize) == SumBy(buckets, SizeOf)
  {
    if buckets != [] {
      var init := buckets[..|buckets| - 1];
      var last := buckets[|buckets| - 1];
      SizesOfPoints(init);
      MapSnoc(buckets, PointOf);
      SumBySnoc(Map(buckets, PointOf), |buckets| - 1, PointSize);
      assert Map(buckets, PointOf)[..|buckets| - 1] == Map(init, PointOf);
      assert Map(buckets, PointOf)[..|buckets|] == Map(buckets, PointOf);
    }
  }

  /** A point of the series is the summary of the group of its own
      timestamp. */
  lemma SeriesBucket(rows: seq<LocationRow>, hours: int, i: nat) returns (b: Bucket)
    requires i < |Summary(rows, hours).timeSeries|
    ensures var p := Summary(rows, hours).timeSeries[i];
      && PointOf(b) == p
      && b.visits == Map(Filter(rows, AtTime(p.timestamp)), VisitOf)
      && p.timestamp in RowKeys(rows, TimeOf)
  {
    var buckets := Grouped(rows);
    assert Summary(rows, hours).timeSeries == TimeSeries(buckets);
    var k := InSeries(buckets, i);
    BucketContents(rows, k);
    b := buckets[k];
  }

  /** Each point of the series is the summary of one of the groups. */
  lemma InSeries(buckets: seq<Bucket>, i: nat) returns (k: nat)
    requires i < |TimeSeries(buckets)|
    ensures k < |buckets| && PointOf(buckets[k]) == TimeSeries(buckets)[i]
  {
    var points := Map(buckets, PointOf);
    var p := TimeSeries(buckets)[i];
    assert p in multiset(TimeSeries(buckets));
    assert p in multiset(points);
    k :| 0 <= k < |points| && points[k] == p;
  }

  /** Every point of the series summarises the rows of its own timestamp:
      their number, their user total and at most ten of them, busiest
      first. */
  lemma SeriesPoints(rows: seq<LocationRow>, hours: int, i: nat)
    requires i < |Summary(rows, hours).timeSeries|
    ensures var p := Summary(rows, hours).timeSeries[i];
      var at := Map(Filter(rows, AtTime(p.timestamp)), VisitOf);
      && p.timestamp in RowKeys(rows, TimeOf)
      && p.totalLocations == |at|
      && p.totalUsers == SumBy(at, UsersOf)
      && |p.topLocations| <= TopPlaces
      && SortedBy(BusierFirst, p.topLocations)
      && multiset(p.topLocations) <= multiset(at)
  {
    var b := SeriesBucket(rows, hours, i);
  }

  /** The top list of a point holds the busiest rows of its timestamp: a
      row of that time left out of it has no more users than any row kept. */
  lemma SeriesTopIsTop(rows: seq<LocationRow>, hours: int, i: nat, v: Visit)
    requires i < |Summary(rows, hours).timeSeries|
    requires var p := Summary(rows, hours).timeSeries[i];
      v in Map(Filter(rows, AtTime(p.timestamp)), VisitOf) && v !in p.topLocations
    ensures var p := Summary(rows, hours).timeSeries[i];
      |p.topLocations| == TopPlaces
      && forall j :: 0 <= j < TopPlaces ==> p.topLocations[j].activeUsers >= v.activeUsers
  {
    var b := SeriesBucket(rows, hours, i);
    PointTopIsTop(b, v);
  }

  // ----- the handler -------------------------------------------------------

  /** `GET`: `hours` defaults to 24; a failing read answers with the
      store's message. */
  method Get(db: DatabaseService, hours: Option<int>, now: int, fault: Option<string>) returns (r: Response)
    ensures fault.Some? ==> r == Failed(HistoryFailed, fault.value)
    ensures fault.None? ==> r == Summary(db.GetLocationHistory(Some(hours.GetOr(24)), now), hours.GetOr(24))
  {
    var h := hours.GetOr(24);
    if fault.Some? {
      return Failed(HistoryFailed, fault.value);
    }
    var rows := db.GetLocationHistory(Some(h), now);
    var buckets := GroupByTime(rows);
    return History(h, |rows|, TimeSeries(buckets));
  }
}
