/** The dashboard page: the state the component keeps (night and lunch
    flags, the page in the four-page loop, the latest data), the timers'
    steps that change it, and what it shows from it.

    The clock is an input (the local hour and minute); each timer firing
    is one call. The response of `/api/analytics/dashboard` is an input as
    well, None when the request itself fails. */
module DashboardPage {
  import opened Wrappers
  import opened Seqs
  import opened Breakdown
  import opened Analytics
  import opened KoreanNames
  import DashboardRoute

  /** The pages of the scrolling loop. */
  const TotalPages := 4
  /** The height of one page in pixels. */
  const PageHeight := 1080
  /** 11:45 and 13:00 as minutes of the day. */
  const LunchStart := 705
  const LunchEnd := 780
  /** How many countries, platforms and city cards are shown. */
  const CountryLimit := 4
  const PlatformLimit := 3
  const CityLimit := 20
  /** The message shown while a refresh fails. */
  const LoadingMessage := "데이터 로딩 중..."
  const Korea := "대한민국"

  /** A clock reading as `Date.getHours()` and `getMinutes()` give it. */
  predicate ClockTime(hour: int, minute: int)
  {
    0 <= hour < 24 && 0 <= minute < 60
  }

  /** Night mode: 22:00 to 09:00. */
  predicate IsNight(hour: int)
  {
    hour >= 22 || hour < 9
  }

  /** Lunch: from minute 705 of the day up to, not including, 780. */
  predicate IsLunch(hour: int, minute: int)
  {
    LunchStart <= hour * 60 + minute < LunchEnd
  }

  /** Lunch (11:45 to 13:00) lies inside the day part (09:00 to 22:00). */
  lemma NightAndLunchDisjoint(hour: int, minute: int)
    requires ClockTime(hour, minute)
    ensures !(IsNight(hour) && IsLunch(hour, minute))
    ensures IsLunch(hour, minute) <==> (hour == 11 && minute >= 45) || hour == 12
  {
  }

  /** The next page of the loop. */
  function NextPage(p: int): (q: int)
    requires 0 <= p < TotalPages
    ensures 0 <= q < TotalPages
    ensures q == if p == TotalPages - 1 then 0 else p + 1
  {
    (p + 1) % TotalPages
  }

  /** Four steps bring the loop back where it started, through every page. */
  lemma PageLoop(p: int)
    requires 0 <= p < TotalPages
    ensures NextPage(NextPage(NextPage(NextPage(p)))) == p
    ensures {p, NextPage(p), NextPage(NextPage(p)), NextPage(NextPage(NextPage(p)))} == {0, 1, 2, 3}
  {
  }

  /** Which screen the page renders. */
  datatype View = BlackScreen | LunchPlayer | Pages

  /** The render order: the black screen at night unless `noblack` was
      given; then the lunch player; else the pages. */
  function ViewOf(night: bool, lunch: bool, noBlack: bool): (v: View)
    ensures v == BlackScreen <==> night && !noBlack
    ensures v == LunchPlayer <==> (!night || noBlack) && lunch
    ensures v == Pages <==> (!night || noBlack) && !lunch
  {
    if night && !noBlack then BlackScreen
    else if lunch then LunchPlayer
    else Pages
  }

  /** With the flags the clock sets, the lunch player shows through lunch
      whatever `noblack` says, and the black screen shows exactly at night
      without it. */
  lemma ViewByClock(hour: int, minute: int, noBlack: bool)
    requires ClockTime(hour, minute)
    ensures var v := ViewOf(IsNight(hour), IsLunch(hour, minute), noBlack);
      && (v == LunchPlayer <==> IsLunch(hour, minute))
      && (v == BlackScreen <==> IsNight(hour) && !noBlack)
  {
    NightAndLunchDisjoint(hour, minute);
  }

  /** The vertical scroll position of a page. */
  function ScrollTarget(page: int): (y: int)
    requires 0 <= page < TotalPages
    ensures 0 <= y <= (TotalPages - 1) * PageHeight
    ensures y % PageHeight == 0 && y / PageHeight == page
  {
    page * PageHeight
  }

  /** `data`: the total and the location list. */
  datatype AnalyticsData = AnalyticsData(totalActiveUsers: int, locationDetails: seq<Location>)

  /** `realtimeData`: the total and the three breakdowns. */
  datatype RealtimeData = RealtimeData(
    totalActiveUsers: int,
    byCountry: Counts<string>,
    byDevice: Counts<string>,
    byPlatform: Counts<string>)

  /** `topCountries`: the four largest country counts, largest first. */
  function TopCountries(byCountry: Counts<string>): (r: Counts<string>)
    ensures |r| == if |byCountry| < CountryLimit then |byCountry| else CountryLimit
    ensures multiset(r) <= multiset(byCountry)
    ensures forall i, j :: 0 <= i < j < |r| ==> r[i].1 >= r[j].1
  {
    ByCountDescIsPreorder<string>();
    TopBy(byCountry, ByCountDesc, CountryLimit)
  }

  /** `platforms`: the three largest platform counts, largest first. */
  function Platforms(byPlatform: Counts<string>): (r: Counts<string>)
    ensures |r| == if |byPlatform| < PlatformLimit then |byPlatform| else PlatformLimit
    ensures multiset(r) <= multiset(byPlatform)
    ensures forall i, j :: 0 <= i < j < |r| ==> r[i].1 >= r[j].1
  {
    ByCountDescIsPreorder<string>();
    TopBy(byPlatform, ByCountDesc, PlatformLimit)
  }

  /** `devices`: every device count, largest first. */
  function Devices(byDevice: Counts<string>): (r: Counts<string>)
    ensures multiset(r) == multiset(byDevice)
    ensures forall i, j :: 0 <= i < j < |r| ==> r[i].1 >= r[j].1
  {
    ByCountDescIsPreorder<string>();
    SortSorted(byDevice, ByCountDesc);
    Sort(byDevice, ByCountDesc)
  }

  /** A count left out of a top list is no larger than any count kept,
      and it is left out only when the list is full. */
  lemma TopListsAreTop(counts: Counts<string>, n: nat, e: (string, int))
    requires e in counts && e !in TopBy(counts, ByCountDesc, n)
    ensures |TopBy(counts, ByCountDesc, n)| == n
    ensures forall i :: 0 <= i < n ==> TopBy(counts, ByCountDesc, n)[i].1 >= e.1
  {
    ByCountDescIsPreorder<string>();
    TopByOmitted(counts, ByCountDesc, n, e);
  }

  /** A row of the countries card. */
  datatype CountryRow = CountryRow(countryKo: string, flag: Option<string>, count: int)

  predicate CountryListed(e: (string, int))
  {
    e.0 != "(other)" && e.0 != "other"
  }

  /** `getKoreanLocationName('', country)`, of which the card reads the
      country half only. */
  function CountryRowOf(e: (string, int)): CountryRow
  {
    var country := KoreanCountry(e.0);
    CountryRow(country.0, country.1, e.1)
  }

  predicate RowShown(row: CountryRow)
  {
    row.countryKo != Other && row.countryKo != "(기타)"
  }

  /** The countries card: the top countries without the catch-all row,
      each named in Korean, and without any whose Korean name is a
      catch-all one. */
  function CountryRows(top: Counts<string>): (r: seq<CountryRow>)
    ensures |r| <= |top|
    ensures forall i :: 0 <= i < |r| ==> RowShown(r[i])
    ensures forall i :: 0 <= i < |r| ==>
              exists e :: e in top && CountryListed(e) && r[i] == CountryRowOf(e)
  {
    var r := Filter(Map(Filter(top, CountryListed), CountryRowOf), RowShown);
    forall i | 0 <= i < |r|
      ensures exists e :: e in top && CountryListed(e) && r[i] == CountryRowOf(e)
    {
      ShownRowFromTop(top, r[i]);
    }
    r
  }

  /** Every listed top country whose Korean row is not a catch-all one is
      shown. */
  lemma EveryCountryShown(top: Counts<string>, e: (string, int))
    requires e in top && CountryListed(e) && RowShown(CountryRowOf(e))
    ensures CountryRowOf(e) in CountryRows(top)
  {
    var listed := Filter(top, CountryListed);
    FilterMembers(top, CountryListed, e);
    var k :| 0 <= k < |listed| && listed[k] == e;
    var rows := Map(listed, CountryRowOf);
    assert rows[k] == CountryRowOf(e);
    FilterMembers(rows, RowShown, CountryRowOf(e));
  }

  /** The rows keep the order of the top list: the rows of two lists one
      after the other are the rows of the first followed by those of the
      second, and one entry gives its own row or none. */
  lemma CountryRowsInOrder(a: Counts<string>, b: Counts<string>, e: (string, int))
    ensures CountryRows(a + b) == CountryRows(a) + CountryRows(b)
    ensures CountryRows([e]) == if CountryListed(e) && RowShown(CountryRowOf(e)) then [CountryRowOf(e)] else []
  {
    FilterAppend(a, b, CountryListed);
    MapAppend(Filter(a, CountryListed), Filter(b, CountryListed), CountryRowOf);
    FilterAppend(Map(Filter(a, CountryListed), CountryRowOf), Map(Filter(b, CountryListed), CountryRowOf), RowShown);
    assert [e][1..] == [];
  }

  lemma ShownRowFromTop(top: Counts<string>, row: CountryRow)
    requires row in Filter(Map(Filter(top, CountryListed), CountryRowOf), RowShown)
    ensures exists e :: e in top && CountryListed(e) && row == CountryRowOf(e)
  {
    var listed := Filter(top, CountryListed);
    var rows := Map(listed, CountryRowOf);
    FilterMembers(rows, RowShown, row);
    var k :| 0 <= k < |rows| && rows[k] == row;
    FilterMembers(top, CountryListed, listed[k]);
  }

  /** A city card: the Korean names, the flag, the count, and whether the
      country line is shown (it is not for Korean cities). */
  datatype CityCard = CityCard(cityKo: string, countryKo: string, flag: Option<string>,
                               activeUsers: int, countryShown: bool)

  predicate CityListed(loc: Location)
  {
    loc.city != "(other)"
  }

  function CardOf(loc: Location): (c: CityCard)
    ensures var names := GetKoreanLocationName(loc.city, loc.country);
      c.cityKo == names.cityKo && c.countryKo == names.countryKo && c.flag == names.flag
    ensures c.activeUsers == loc.activeUsers
    ensures c.countryShown <==> c.countryKo != Korea
  {
    var names := GetKoreanLocationName(loc.city, loc.country);
    CityCard(names.cityKo, names.countryKo, names.flag, loc.activeUsers, names.countryKo != Korea)
  }

  /** The cities card: the first twenty locations that are not the
      catch-all city, in the order the store keeps them. */
  function CityCards(locs: seq<Location>): (r: seq<CityCard>)
    ensures |r| <= CityLimit
    ensures var listed := Filter(locs, CityListed);
      && |r| == (if |listed| < CityLimit then |listed| else CityLimit)
      && forall i :: 0 <= i < |r| ==> r[i] == CardOf(listed[i])
    ensures forall i :: 0 <= i < |r| ==> exists loc :: loc in locs && CityListed(loc) && r[i] == CardOf(loc)
  {
    var listed := Filter(locs, CityListed);
    var shown := Take(listed, CityLimit);
    assert forall i :: 0 <= i < |shown| ==> shown[i] in locs && CityListed(shown[i]) by {
      forall i | 0 <= i < |shown| ensures shown[i] in locs && CityListed(shown[i]) {
        assert shown[i] == listed[i];
        FilterMembers(locs, CityListed, listed[i]);
      }
    }
    Map(shown, CardOf)
  }

  /** With at most twenty listed locations every one of them has a card. */
  lemma EveryCityShown(locs: seq<Location>, loc: Location)
    requires loc in locs && CityListed(loc) && |Filter(locs, CityListed)| <= CityLimit
    ensures CardOf(loc) in CityCards(locs)
  {
    var listed := Filter(locs, CityListed);
    FilterMembers(locs, CityListed, loc);
    var k :| 0 <= k < |listed| && listed[k] == loc;
    assert CityCards(locs)[k] == CardOf(loc);
  }

  class Dashboard {
    var data: Option<AnalyticsData>
    var realtimeData: Option<RealtimeData>
    var error: Option<string>
    var lastUpdate: Option<int>
    var backendTimestamp: Option<int>
    var isNightMode: bool
    var isLunchTime: bool
    var testMode: bool
    var currentPage: int
    var noBlackMode: bool

    /** The page is always one of the loop's. */
    predicate Valid()
      reads this
    {
      0 <= currentPage < TotalPages
    }

    /** The initial state; `noblack` is whether the URL carries the
        `noblack` parameter or the session remembers it. */
    constructor(testMode: bool, noBlack: bool)
      ensures Valid() && currentPage == 0
      ensures !isNightMode && !isLunchTime
      ensures this.testMode == testMode && noBlackMode == noBlack
      ensures data.None? && realtimeData.None? && error.None?
      ensures lastUpdate.None? && backendTimestamp.None?
    {
      data := None;
      realtimeData := None;
      error := None;
      lastUpdate := None;
      backendTimestamp := None;
      isNightMode := false;
      isLunchTime := false;
      this.testMode := testMode;
      currentPage := 0;
      noBlackMode := noBlack;
    }

    /** `checkTimeMode`: in test mode night flips and lunch stays; else
        both flags follow the clock. */
    method CheckTimeMode(hour: int, minute: int)
      requires ClockTime(hour, minute)
      modifies this
      ensures testMode ==> isNightMode == !old(isNightMode) && isLunchTime == old(isLunchTime)
      ensures !testMode ==> isNightMode == IsNight(hour) && isLunchTime == IsLunch(hour, minute)
      ensures currentPage == old(currentPage) && testMode == old(testMode) && noBlackMode == old(noBlackMode)
      ensures data == old(data) && realtimeData == old(realtimeData) && error == old(error)
      ensures lastUpdate == old(lastUpdate) && backendTimestamp == old(backendTimestamp)
    {
      if testMode {
        isNightMode := !isNightMode;
      } else {
        var currentMinutes := hour * 60 + minute;
        isNightMode := hour >= 22 || hour < 9;
        isLunchTime := currentMinutes >= LunchStart && currentMinutes < LunchEnd;
      }
    }

    /** The mount effect: back to the first page, and in normal mode the
        flags set from the clock at once. */
    method Mount(hour: int, minute: int)
      requires ClockTime(hour, minute)
      modifies this
      ensures Valid() && currentPage == 0
      ensures testMode ==> isNightMode == old(isNightMode) && isLunchTime == old(isLunchTime)
      ensures !testMode ==> isNightMode == IsNight(hour) && isLunchTime == IsLunch(hour, minute)
      ensures testMode == old(testMode) && noBlackMode == old(noBlackMode)
      ensures data == old(data) && realtimeData == old(realtimeData) && error == old(error)
      ensures lastUpdate == old(lastUpdate) && backendTimestamp == old(backendTimestamp)
    {
      currentPage := 0;
      if !testMode {
        CheckTimeMode(hour, minute);
      }
    }

    /** One tick of the ten-minute page timer. The timer runs only while
        it is neither night nor lunch, so otherwise the page stays. */
    method AdvancePage()
      requires Valid()
      modifies this
      ensures Valid()
      ensures !isNightMode && !isLunchTime ==> currentPage == NextPage(old(currentPage))
      ensures isNightMode || isLunchTime ==> currentPage == old(currentPage)
      ensures isNightMode == old(isNightMode) && isLunchTime == old(isLunchTime)
      ensures testMode == old(testMode) && noBlackMode == old(noBlackMode)
      ensures data == old(data) && realtimeData == old(realtimeData) && error == old(error)
      ensures lastUpdate == old(lastUpdate) && backendTimestamp == old(backendTimestamp)
    {
      if !isNightMode && !isLunchTime {
        currentPage := (currentPage + 1) % TotalPages;
      }
    }

    /** The scroll effect: the current page's position, while the pages
        are on screen. */
    function Scroll(): (y: Option<int>)
      requires Valid()
      reads this
      ensures y.Some? <==> !isNightMode && !isLunchTime
      ensures y.Some? ==> y.value / PageHeight == currentPage
    {
      if !isNightMode && !isLunchTime then Some(ScrollTarget(currentPage)) else None
    }

    /** `fetchAnalyticsData`: a dashboard answer replaces both data sets
        and the timestamps and clears the error; a failed answer or a
        failed request sets the error and keeps the last data. */
    method Refresh(response: Option<DashboardRoute.Response>, now: int)
      modifies this
      ensures response.Some? && response.value.Dashboard? ==>
                var d := response.value.data;
                && data == Some(AnalyticsData(d.totalActiveUsers, d.locationDetails))
                && realtimeData == Some(RealtimeData(d.totalActiveUsers, d.byCountry, d.byDevice, d.byPlatform))
                && backendTimestamp == Some(d.timestamp)
                && error.None? && lastUpdate == Some(now)
      ensures response.None? || response.value.Failed? ==>
                && error == Some(LoadingMessage)
                && data == old(data) && realtimeData == old(realtimeData)
                && backendTimestamp == old(backendTimestamp) && lastUpdate == old(lastUpdate)
      ensures currentPage == old(currentPage) && isNightMode == old(isNightMode)
      ensures isLunchTime == old(isLunchTime) && testMode == old(testMode) && noBlackMode == old(noBlackMode)
    {
      match response
      case Some(Dashboard(d)) =>
        data := Some(AnalyticsData(d.totalActiveUsers, d.locationDetails));
        realtimeData := Some(RealtimeData(d.totalActiveUsers, d.byCountry, d.byDevice, d.byPlatform));
        backendTimestamp := Some(d.timestamp);
        error := None;
        lastUpdate := Some(now);
      case _ =>
        error := Some(LoadingMessage);
    }

    /** What the page renders now. */
    function Screen(): (v: View)
      reads this
      ensures v == ViewOf(isNightMode, isLunchTime, noBlackMode)
    {
      ViewOf(isNightMode, isLunchTime, noBlackMode)
    }

    /** The countries card of the current realtime data (empty without any). */
    function CountriesCard(): (r: seq<CountryRow>)
      reads this
      ensures realtimeData.None? ==> r == []
      ensures realtimeData.Some? ==> r == CountryRows(TopCountries(realtimeData.value.byCountry))
      ensures |r| <= CountryLimit
    {
      match realtimeData
      case None => []
      case Some(rt) => CountryRows(TopCountries(rt.byCountry))
    }

    /** The cities card of the current data (empty without any). */
    function CitiesCard(): (r: seq<CityCard>)
      reads this
      ensures data.None? ==> r == []
      ensures data.Some? ==> r == CityCards(data.value.locationDetails)
      ensures |r| <= CityLimit
    {
      match data
      case None => []
      case Some(d) => CityCards(d.locationDetails)
    }
  }

  /** In normal mode the flags a check leaves give the view the clock
      asks for. */
  lemma ScreenAfterCheck(d: Dashboard, hour: int, minute: int)
    requires ClockTime(hour, minute) && !d.testMode
    requires d.isNightMode == IsNight(hour) && d.isLunchTime == IsLunch(hour, minute)
    ensures d.Screen() == LunchPlayer <==> IsLunch(hour, minute)
    ensures d.Screen() == BlackScreen <==> IsNight(hour) && !d.noBlackMode
  {
    ViewByClock(hour, minute, d.noBlackMode);
  }
}
