# Analytics display dashboard — a Dafny model

This project models the core of a wall-display analytics dashboard. The
dashboard is a Next.js application with these parts:

- A scheduled collector reads realtime active users from Google Analytics 4 and stores snapshots in SQLite.
- API routes serve the latest snapshot, a location time series, daily user metrics, a character ranking and a review feed; the ranking and reviews come from Supabase.
- The browser pages rotate through the data on a 1920×1080 screen. They go black at night and hand over to a lunch-time music player.

Each source file of the core is one Dafny module:

| module | source file |
|---|---|
| `Store` | lib/database.ts |
| `Analytics` | lib/googleAnalytics.ts |
| `Scheduler` | lib/scheduler.ts |
| `RankingsRoute` | app/api/analytics/character-rankings/route.ts |
| `LocationHistoryRoute` | app/api/analytics/location-history/route.ts |
| `ChartDataRoute` | app/api/analytics/user-metrics/chart-data/route.ts |
| `DashboardRoute` | app/api/analytics/dashboard/route.ts |
| `CollectNowRoute` | app/api/analytics/scheduler/collect-now/route.ts |
| `MetricsUpdateRoute` | app/api/analytics/user-metrics/update/route.ts |
| `MetricsHistoricalRoute` | app/api/analytics/user-metrics/historical/route.ts |
| `ReviewsRoute` | app/api/analytics/character-reviews/route.ts |
| `ImportScript` | importUserMetrics.js |
| `KoreanNames` | lib/locationKoreanNames.ts |
| `DashboardPage` | app/dashboard/page.tsx |
| `LunchPlayer` | components/YouTubeAutoPlayer.tsx |
| `ReviewsPage` | components/CharacterReviewsPage.tsx |
| `MetricsChart` | components/UserMetricsChart.tsx |

Shared modules:

- `Wrappers`: Option, Result and Outcome, standing for null, thrown errors and rejected promises.
- `Seqs`: take, filter, map, sum, an insertion sort, top-N and lexicographic order.
- `Breakdown`: a JavaScript object used as a counter, as a list of (key, count) entries in insertion order.
- `Text`: decimal text, padding, repeat, substring and dash removal.
- `Calendar`: civil dates, day arithmetic and ISO date text.

Stateful parts are classes whose methods change fields:

- the SQLite tables: `Store.DatabaseService`;
- the cron task: `Scheduler.SchedulerService`;
- the React state of the dashboard: `DashboardPage.Dashboard`;
- the React state of the music player: `LunchPlayer.Player`.

Everything the system reads from outside is a parameter:

- the clock;
- the answers of Google Analytics, Supabase and the SQLite driver;
- the random draw;
- a driver's error.

## Model

| member | source | states |
|---|---|---|
| Store.Latest | lib/database.ts:198-202 | None exactly for an empty table; otherwise a stored row whose timestamp is not below any other |
| Store.Parsed | lib/database.ts:213-220 | a missing location_details column reads back as the empty list; every other column is unchanged |
| Store.NewSnapshot | lib/database.ts:138-149 | the new row carries the next id and the insertion time; a missing total reads 0, missing breakdowns and raw data read empty; location details, empty when missing, are stored exactly when saved through saveCompleteData |
| Store.LocationRecord | lib/database.ts:295-300 | an empty country or city becomes 'Unknown'; the users are copied; the row carries the collection id and the insertion time |
| Store.LocationRecords | lib/database.ts:294-310 | at most one row per location; every row carries the collection id and time, and a non-empty country and city |
| Store.AllLocationsRecorded | lib/database.ts:294-310 | when no insert fails there is one row per location, in the order of the locations |
| Store.FindDate | lib/database.ts:357-363 | finds a row for the date exactly when the table has that date |
| Store.NewRow | lib/database.ts:357-375 | the inserted metrics row copies date and counts; missing active users and sessions become 0 |
| Store.Updated | lib/database.ts:360-375 | on a date conflict the row takes every column of the new input, as the zero defaults of the parameters make the COALESCE inert |
| Store.Upsert | lib/database.ts:357-376 | dates stay unique; the date's row becomes the new input; other dates are untouched; the date set gains the date |
| Store.UpsertIdempotent | lib/database.ts:357-376 | saving the same metrics twice equals saving them once |
| Store.UpsertAllLastWins | lib/database.ts:423-436 | after a batch each date holds the last input for it, and a date the batch does not name is untouched |
| Store.FirstFaultLeast | lib/database.ts:433-435 | the batch's failing save is the first one that fails |
| Store.DatabaseService.constructor | lib/database.ts:8-10 | the tables start empty |
| Store.DatabaseService.SaveActiveUsers | lib/database.ts:128-162 | missing data resolves and changes nothing; a driver error rejects and changes nothing; otherwise exactly one snapshot is appended under the next id |
| Store.DatabaseService.SaveCompleteData | lib/database.ts:228-275 | like SaveActiveUsers, storing the location details; also appends the location rows under the new snapshot's id, and resolves whatever the location inserts do |
| Store.DatabaseService.SaveLocationHistory | lib/database.ts:277-317 | appends one row per location whose insert succeeds, in order; counts the failures; changes no other table |
| Store.DatabaseService.SaveUserMetrics | lib/database.ts:346-388 | a driver error rejects and changes nothing; otherwise the metrics table becomes the upsert of the input |
| Store.DatabaseService.SaveUserMetricsBatch | lib/database.ts:423-436 | saves in order; stops at the first failing save with its error, keeping the saves before it |
| Store.DatabaseService.GetLatestEntry | lib/database.ts:194-226 | null exactly for an empty table; otherwise the latest snapshot with its JSON columns parsed |
| Store.DatabaseService.GetRecentHistory | lib/database.ts:164-192 | exactly the snapshots newer than the cutoff (24 hours by default), as a permutation of them, newest first |
| Store.DatabaseService.GetLocationHistory | lib/database.ts:319-344 | exactly the location rows newer than the cutoff, newest first and busiest first within a timestamp |
| Store.DatabaseService.GetUserMetrics | lib/database.ts:390-421 | exactly the rows between the optional bounds, ascending by date, each date once |
| Analytics.Dimension | lib/googleAnalytics.ts:61-64 | a missing or empty dimension reads as 'Unknown'; a present one is kept |
| Analytics.RealtimeUsers | lib/googleAnalytics.ts:33-98 | fails exactly when no property id is configured or the report call fails, with that error |
| Analytics.GetRealtimeUsers | lib/googleAnalytics.ts:59-80 | the row loop computes the fold the summary is defined by |
| Analytics.SummaryBreakdowns | lib/googleAnalytics.ts:60-80 | the total is the sum of the row users; each breakdown sums to the total, holds each key once, holds exactly the keys of the rows, and gives each key the sum of its rows |
| Analytics.DetailedLocationData | lib/googleAnalytics.ts:100-180 | fails exactly when no property id is configured or the report call fails |
| Analytics.GetDetailedLocationData | lib/googleAnalytics.ts:128-165 | the row loop computes the fold the location summary is defined by |
| Analytics.AddVisitIsBump | lib/googleAnalytics.ts:148-161 | the find-or-push on the location list is the counter update on (country, city) |
| Analytics.LocationTotals | lib/googleAnalytics.ts:134-146 | the country and "city, country" breakdowns sum to the total; the region breakdown stays empty |
| Analytics.LocationDetailsOrdered | lib/googleAnalytics.ts:148-164 | each (country, city) appears at most once, larger counts first |
| Analytics.LocationDetailsSums | lib/googleAnalytics.ts:129-161 | each entry has an empty region, names a place of some row, and holds the sum of that place's users |
| Analytics.LocationDetailsComplete | lib/googleAnalytics.ts:148-161 | every row's place has an entry |
| Analytics.FormatDate | lib/googleAnalytics.ts:225 | YYYYMMDD becomes YYYY-MM-DD |
| Analytics.FormatBasicText | lib/googleAnalytics.ts:225 | formatting the basic text of a date gives its ISO text |
| Analytics.FormatDateDashes | lib/googleAnalytics.ts:225 | removing the dashes again gives back the eight-character date |
| Analytics.ToUserMetric | lib/googleAnalytics.ts:216-234 | counts default to 0; returning users is total minus new, clamped at 0 |
| Analytics.UserMetrics | lib/googleAnalytics.ts:182-242 | one metric per report row, in order; raises when no property id is configured or the call fails |
| Analytics.HistoricalStart | lib/googleAnalytics.ts:246-248 | the first day lies `days` days before today |
| Analytics.RecentStart | lib/googleAnalytics.ts:263-265 | the first day lies `days - 1` days before today, so the range holds `days` days ending today |
| Analytics.HistoricalWindow | lib/googleAnalytics.ts:244-259 | the report is asked for the range from a valid day `days` days (730 by default) before today up to today, and its answer is mapped row by row |
| Analytics.RecentWindow | lib/googleAnalytics.ts:261-276 | the report is asked for the `days` days (3 by default) that end with today, and its answer is mapped row by row |
| Scheduler.Combined | lib/scheduler.ts:27-30 | the stored record is the realtime summary with the location list of the location report |
| Scheduler.SummaryOnly | lib/scheduler.ts:58-59 | the manual collection stores the realtime summary without location details |
| Scheduler.ErrorOr | lib/scheduler.ts:62 | a failed fetch raises its own message, or the default when that is empty |
| Scheduler.SchedulerService.constructor | lib/scheduler.ts:6 | no task is scheduled at first |
| Scheduler.SchedulerService.StartDataCollection | lib/scheduler.ts:8-43 | starting twice keeps the running task; otherwise the three-minute task is scheduled |
| Scheduler.SchedulerService.StopDataCollection | lib/scheduler.ts:45-51 | afterwards no task is scheduled |
| Scheduler.SchedulerService.GetStatus | lib/scheduler.ts:66-72 | running exactly when a task is scheduled; fixed schedule and next-run texts |
| Scheduler.SchedulerService.Fire | lib/scheduler.ts:15-40 | when both fetches succeed the combined record and its location rows are saved; otherwise, or on a store error, nothing changes |
| Scheduler.SchedulerService.CollectDataNow | lib/scheduler.ts:53-64 | a failed fetch raises and writes nothing; otherwise one snapshot without location rows is saved |
| Scheduler.CollectedSnapshotConsistent | lib/scheduler.ts:25-32 | a collected snapshot's breakdowns each sum to its stored total |
| CollectNowRoute.FetchError | app/api/analytics/scheduler/collect-now/route.ts:33 | the users error, else the locations error, else the default message; never empty |
| CollectNowRoute.Post | app/api/analytics/scheduler/collect-now/route.ts:5-43 | both fetches must succeed; then the combined record and its location rows are saved and the answer reports the total users and the number of locations; any failure answers 500 and writes nothing |
| DashboardRoute.Reshape | app/api/analytics/dashboard/route.ts:11-21 | the latest row's columns in the dashboard's shape, a missing location list as [] |
| DashboardRoute.Empty | app/api/analytics/dashboard/route.ts:26-36 | an empty store answers zero users, empty breakdowns and the current time |
| DashboardRoute.Get | app/api/analytics/dashboard/route.ts:4-46 | a store error answers 500; an empty store the empty data; otherwise a stored row whose timestamp is the latest |
| ChartDataRoute.ChartWindow | app/api/analytics/user-metrics/chart-data/route.ts:7-11 | the window runs from the same day a year ago to two days before today |
| ChartDataRoute.LabelOfDay | app/api/analytics/user-metrics/chart-data/route.ts:20-23 | a stored date labels as month/day without padding |
| ChartDataRoute.ChartOf | app/api/analytics/user-metrics/chart-data/route.ts:19-74 | the labels and the three series are as long as the rows and index-aligned: total, returning, new |
| ChartDataRoute.View | app/api/analytics/user-metrics/chart-data/route.ts:76-84 | count is the number of rows; the date range is the first and last date, both undefined without rows |
| ChartDataRoute.Get | app/api/analytics/user-metrics/chart-data/route.ts:4-95 | a store error answers with its message; otherwise the view of the window's rows |
| MetricsUpdateRoute.Post | app/api/analytics/user-metrics/update/route.ts:5-48 | fetches the last `days` days (3 by default); an empty fetch writes nothing; otherwise the batch upsert of every fetched day, answering the count and the dates in order, or the first failing save's error |
| MetricsUpdateRoute.WeekStart | app/api/analytics/user-metrics/update/route.ts:53-55 | the preview starts seven days before today |
| MetricsUpdateRoute.Get | app/api/analytics/user-metrics/update/route.ts:50-77 | exactly the stored days from a week ago to today, ascending, with their count |
| MetricsUpdateRoute.UpdatedDays | app/api/analytics/user-metrics/update/route.ts:24-34 | each reported date is the date of a saved day, and that date is stored afterwards |
| MetricsHistoricalRoute.Post | app/api/analytics/user-metrics/historical/route.ts:5-45 | fetches `days` days (730 by default); an empty fetch writes nothing; otherwise the batch upsert, answering the count and the first and last date, or the first failing save's error |
| MetricsHistoricalRoute.Bound | app/api/analytics/user-metrics/historical/route.ts:50-51 | an absent or empty parameter is no bound; a non-empty one is forwarded |
| MetricsHistoricalRoute.BoundKeepsRange | app/api/analytics/user-metrics/historical/route.ts:50-53 | dropping empty bounds does not change which dates are in range |
| MetricsHistoricalRoute.Get | app/api/analytics/user-metrics/historical/route.ts:47-70 | exactly the stored days within the given bounds, ascending, with their count |
| RankingsRoute.FindFor | app/api/analytics/character-rankings/route.ts:125 | finds a record exactly when the character has one, and it is that character's first record |
| RankingsRoute.LatestPerCharacter | app/api/analytics/character-rankings/route.ts:110-117 | the loop keeps the first record of each character, in first-seen order |
| RankingsRoute.FirstPerCharacterKeys | app/api/analytics/character-rankings/route.ts:110-117 | one record per character, and exactly the characters of the history |
| RankingsRoute.FirstPerCharacterFinds | app/api/analytics/character-rankings/route.ts:110-125 | looking a character up after the reduction finds what it finds in the whole history |
| RankingsRoute.NewestKept | app/api/analytics/character-rankings/route.ts:93-117 | with the history newest first, the record kept for a character is as recent as any of its records |
| RankingsRoute.MetricsOf | app/api/analytics/character-rankings/route.ts:128-134 | a character without a record counts 0 everywhere; with a record each of the seven metrics is its value, or 0 when missing |
| RankingsRoute.Joined | app/api/analytics/character-rankings/route.ts:123-136 | one entry per roster character, in roster order, with its own metrics |
| RankingsRoute.Paid | app/api/analytics/character-rankings/route.ts:137-138 | exactly the entries with a positive payment ratio, as a permutation of them, highest ratio first |
| RankingsRoute.Top | app/api/analytics/character-rankings/route.ts:137-139 | at most ten paying entries of the roster, highest ratio first |
| RankingsRoute.TopIsTop | app/api/analytics/character-rankings/route.ts:137-139 | a paying entry is left out only when ten others are in, none with a lower ratio |
| RankingsRoute.Numbered | app/api/analytics/character-rankings/route.ts:142-145 | ranks run 1, 2, 3, … in order, and stripping them gives the entries back |
| RankingsRoute.Ranking | app/api/analytics/character-rankings/route.ts:123-145 | at most ten, ranked from 1 |
| RankingsRoute.RankingOrdered | app/api/analytics/character-rankings/route.ts:137-145 | every ranked character has a positive ratio, ratios do not increase, and the entries are the top entries |
| RankingsRoute.RankingFromRoster | app/api/analytics/character-rankings/route.ts:123-139 | every ranked character is a roster character with its own metrics, none twice |
| RankingsRoute.RankingIsTop | app/api/analytics/character-rankings/route.ts:137-139 | a paying roster character is left out only by ten others with a ratio at least as high |
| RankingsRoute.RankingsResponse | app/api/analytics/character-rankings/route.ts:25-155 | missing credentials or a failed roster read answer 500; an empty roster answers no rankings; with a non-empty roster the answer is a ranking exactly when the query or the history read succeeds, from the query's records or else the latest history record per character, and 500 when both fail |
| RankingsRoute.Get | app/api/analytics/character-rankings/route.ts:25-155 | the handler, with the fallback loop, answers as RankingsResponse |
| LocationHistoryRoute.Push | app/api/analytics/location-history/route.ts:15-23 | appending a row to its timestamp's group: the group set gains the timestamp, groups stay distinct, only that group grows, by exactly this row |
| LocationHistoryRoute.GroupByTime | app/api/analytics/location-history/route.ts:12-24 | the loop builds the grouping the series is defined by |
| LocationHistoryRoute.GroupedKeys | app/api/analytics/location-history/route.ts:12-24 | one group per distinct timestamp of the rows, and no other |
| LocationHistoryRoute.GroupedVisits | app/api/analytics/location-history/route.ts:14-24 | a timestamp's group holds that timestamp's rows, in the order read |
| LocationHistoryRoute.GroupedTotal | app/api/analytics/location-history/route.ts:12-24 | the group sizes add up to the number of rows |
| LocationHistoryRoute.BucketContents | app/api/analytics/location-history/route.ts:14-24 | every group is the list of the rows of its own timestamp |
| LocationHistoryRoute.PointOf | app/api/analytics/location-history/route.ts:27-34 | a group's point carries its timestamp, its size, its user sum and at most ten of its rows, busiest first, ten whenever the group has ten |
| LocationHistoryRoute.PointTopIsTop | app/api/analytics/location-history/route.ts:31-33 | a row of the group left out of the top list has no more users than any row kept, and only a full list leaves one out |
| LocationHistoryRoute.TimeSeries | app/api/analytics/location-history/route.ts:41-43 | the points, as a permutation of them, latest first |
| LocationHistoryRoute.Summary | app/api/analytics/location-history/route.ts:36-45 | the answer echoes the hours and counts every row read |
| LocationHistoryRoute.SeriesOrdered | app/api/analytics/location-history/route.ts:27-43 | timestamps strictly decrease along the series, and the point sizes add up to the rows read |
| LocationHistoryRoute.SeriesPoints | app/api/analytics/location-history/route.ts:27-34 | every point summarises exactly the rows of its timestamp |
| LocationHistoryRoute.SeriesTopIsTop | app/api/analytics/location-history/route.ts:27-34 | a point's top list holds the busiest rows of its timestamp: a row of that time left out has no more users than any kept |
| LocationHistoryRoute.Get | app/api/analytics/location-history/route.ts:4-54 | hours defaults to 24; a store error answers 500; otherwise the summary of the rows of the last hours |
| ReviewsRoute.NewestFirstIsPreorder | app/api/analytics/character-reviews/route.ts:27 | newest-first on ISO timestamps is a total preorder |
| ReviewsRoute.Feed | app/api/analytics/character-reviews/route.ts:26-28 | at most eight stored reviews, each with non-empty text, newest first, none twice |
| ReviewsRoute.FeedIsNewest | app/api/analytics/character-reviews/route.ts:26-28 | a review with text is left out only when eight reviews at least as new are in |
| ReviewsRoute.Formatted | app/api/analytics/character-reviews/route.ts:65-75 | every review column copied; the name defaults to 'Unknown' and the image to '' |
| ReviewsRoute.Get | app/api/analytics/character-reviews/route.ts:3-90 | missing credentials or two refused endpoints answer 500; the SQL answer is the joined feed; the fallback is the feed with the defaults filled, same length and order |
| ReviewsRoute.FallbackFillsJoin | app/api/analytics/character-reviews/route.ts:13-81 | both paths list the same reviews in the same order; the fallback only fills what the join leaves empty |
| ImportScript.FetchMetrics | importUserMetrics.js:46-85 | fails exactly when the report call fails, with its error; otherwise one metric per row, in order, with counts defaulting to 0 and returning users clamped at 0 |
| ImportScript.FetchMatchesClient | importUserMetrics.js:61-80 | the script's row mapping is the analytics client's one |
| ImportScript.Overwrite | importUserMetrics.js:89-99 | on a date conflict every column takes the new value |
| ImportScript.SaveOneIsServiceUpsert | importUserMetrics.js:89-110 | the script's upsert is the service's upsert of the same metric |
| ImportScript.SaveOneUpserts | importUserMetrics.js:89-110 | dates stay unique; the date now holds the metric; other dates are untouched |
| ImportScript.SavedCountAll | importUserMetrics.js:101-115 | every write is counted exactly when none fails |
| ImportScript.SaveAllUnique | importUserMetrics.js:102-121 | a run of writes keeps dates unique |
| ImportScript.SaveAllIsServiceBatch | importUserMetrics.js:102-121 | with no failing write the script stores what the service's batch stores |
| ImportScript.SaveMetrics | importUserMetrics.js:87-123 | one write per metric, failures only logged; resolves with the count of successful writes, and never resolves for an empty list |
| ImportScript.CommandOf | importUserMetrics.js:178-189 | `--help` prints the usage; no argument means 30 days; a number is capped at 730; a non-number is NaN |
| ImportScript.ImportRange | importUserMetrics.js:142-147 | the range holds `days` days ending today |
| ImportScript.Run | importUserMetrics.js:125-190 | a missing property id stops the run; NaN days fail on the invalid date; otherwise the range is fetched and, when it holds any day, saved, the count reported |
| KoreanNames.Lookup | lib/locationKoreanNames.ts:182-186 | finds a name exactly when the table has the key, and the name is one the table pairs with it |
| KoreanNames.LookupConcat | lib/locationKoreanNames.ts:27-154 | a table written as two parts looks a key up in the later part first |
| KoreanNames.NameOr | lib/locationKoreanNames.ts:182-184 | a listed key gives its Korean name; an unlisted one passes through unchanged |
| KoreanNames.CountryNameNonEmpty | lib/locationKoreanNames.ts:2-25 | no country name is empty, so the fallback never replaces a listed name |
| KoreanNames.CityNameNonEmpty | lib/locationKoreanNames.ts:27-154 | no city name is empty |
| KoreanNames.KoreanCountry | lib/locationKoreanNames.ts:182-186 | the country name is mapped or passed through; the flag is present exactly when the Korean name has one |
| KoreanNames.GetKoreanLocationName | lib/locationKoreanNames.ts:181-188 | cityKo and countryKo are the mapped names of listed keys and the inputs otherwise; flag is the flag table's entry for countryKo, present exactly when it has one |
| KoreanNames.FlagsFollowCountries | lib/locationKoreanNames.ts:157-178 | the flag table lists the Korean names of the twenty named countries |
| KoreanNames.CountryHasFlag | lib/locationKoreanNames.ts:2-178 | every Korean country name except 기타 and 미확인 has a flag |
| KoreanNames.KnownCountryShowsFlag | lib/locationKoreanNames.ts:181-188 | a location in a named country other than the catch-alls always shows a flag |
| KoreanNames.CatchAllCountries | lib/locationKoreanNames.ts:23-24 | '(other)' reads as 기타 and '(not set)' as 미확인 among countries |
| KoreanNames.CatchAllCities | lib/locationKoreanNames.ts:152-153 | the same two rows among cities |
| KoreanNames.CatchAllFlags | lib/locationKoreanNames.ts:157-178 | neither catch-all name has a flag |
| KoreanNames.CatchAllRows | lib/locationKoreanNames.ts:181-188 | a catch-all location reads as 기타 or 미확인 in both names, with no flag |
| KoreanNames.NamesAreNotKeys | lib/locationKoreanNames.ts:2-154 | no returned Korean name is itself a key of its table |
| KoreanNames.LookupIdempotent | lib/locationKoreanNames.ts:181-188 | translating the returned names again gives them back |
| DashboardPage.NightAndLunchDisjoint | app/dashboard/page.tsx:108-117 | the night hours and the lunch window never overlap; lunch is 11:45 to 12:59 |
| DashboardPage.NextPage | app/dashboard/page.tsx:127 | the next page stays among the four and wraps from the last to the first |
| DashboardPage.PageLoop | app/dashboard/page.tsx:122-138 | four ticks bring the loop back to the same page, visiting every page once |
| DashboardPage.ViewOf | app/dashboard/page.tsx:252-271 | the black screen exactly at night without `noblack`; the lunch player exactly at lunch otherwise; the pages in every other case |
| DashboardPage.ViewByClock | app/dashboard/page.tsx:102-271 | under the clock's flags the lunch player shows exactly at lunch and the black screen exactly at night without `noblack` |
| DashboardPage.ScrollTarget | app/dashboard/page.tsx:141-150 | the scroll position is a whole number of 1080-pixel pages, the current one |
| DashboardPage.TopCountries | app/dashboard/page.tsx:238-241 | at most four entries, all taken from the counts, largest first |
| DashboardPage.Platforms | app/dashboard/page.tsx:247-250 | at most three entries, all taken from the counts, largest first |
| DashboardPage.Devices | app/dashboard/page.tsx:243-245 | a reordering of all device counts, largest first |
| DashboardPage.TopListsAreTop | app/dashboard/page.tsx:238-250 | a count left out of a top list is no larger than every count kept, and only a full list leaves one out |
| DashboardPage.CountryRows | app/dashboard/page.tsx:370-374 | every row shown comes from a listed top country, named in Korean, and is not a catch-all row |
| DashboardPage.EveryCountryShown | app/dashboard/page.tsx:370-374 | every listed top country whose Korean row is not a catch-all one is shown |
| DashboardPage.CountryRowsInOrder | app/dashboard/page.tsx:370-374 | the rows follow the order of the top list: the rows of two lists in turn are the rows of each, and one entry gives its own row or none |
| DashboardPage.ShownRowFromTop | app/dashboard/page.tsx:370-374 | a shown country row is the Korean reading of some listed top country |
| DashboardPage.CardOf | app/dashboard/page.tsx:440-441 | a city card carries the Korean city and country names and the flag that getKoreanLocationName gives the location, keeps its count, and shows the country line exactly for cities outside Korea |
| DashboardPage.CityCards | app/dashboard/page.tsx:437-440 | the cards of the first twenty locations that are not the catch-all city, in their order |
| DashboardPage.EveryCityShown | app/dashboard/page.tsx:437-440 | with twenty or fewer listed locations every one of them gets a card |
| DashboardPage.Dashboard.constructor | app/dashboard/page.tsx:47-57 | the page starts at the first page with no data, no error and neither night nor lunch |
| DashboardPage.Dashboard.CheckTimeMode | app/dashboard/page.tsx:102-118 | test mode flips night and keeps lunch; normal mode sets both flags from the clock; nothing else changes |
| DashboardPage.Dashboard.Mount | app/dashboard/page.tsx:194-236 | the mount goes back to the first page and, in normal mode, sets the flags from the clock at once; data, error and timestamps are kept |
| DashboardPage.Dashboard.AdvancePage | app/dashboard/page.tsx:122-138 | a timer tick moves to the next page only while neither night nor lunch holds; the flags and data are kept |
| DashboardPage.Dashboard.Scroll | app/dashboard/page.tsx:141-150 | a scroll happens exactly while the pages are on screen, and it lands on the current page |
| DashboardPage.Dashboard.Refresh | app/dashboard/page.tsx:62-99 | a dashboard answer replaces both data sets and the timestamps and clears the error; a failure sets the loading message and keeps the last data |
| DashboardPage.Dashboard.Screen | app/dashboard/page.tsx:252-271 | the view is the one the flags and `noblack` choose |
| DashboardPage.Dashboard.CountriesCard | app/dashboard/page.tsx:370-374 | the rows of the top four countries of the realtime data, none without data, at most four |
| DashboardPage.Dashboard.CitiesCard | app/dashboard/page.tsx:437-439 | the city cards of the data's locations, none without data, at most twenty |
| DashboardPage.ScreenAfterCheck | app/dashboard/page.tsx:102-271 | after a normal-mode check the lunch player shows exactly at lunch and the black screen exactly at night without `noblack` |
| LunchPlayer.MinutesUntilLunch | components/YouTubeAutoPlayer.tsx:138-145 | the countdown is under a day and is zero exactly during lunch |
| LunchPlayer.CountdownReachesLunch | components/YouTubeAutoPlayer.tsx:138-145 | outside lunch the countdown ends exactly at the next 11:45 and passes no lunch minute before it |
| LunchPlayer.HoursAndMinutes | components/YouTubeAutoPlayer.tsx:147-148 | hours and minutes put back together give the countdown, the minutes under 60 |
| LunchPlayer.CountdownBelowADay | components/YouTubeAutoPlayer.tsx:138-148 | the hours shown are fewer than 24 |
| LunchPlayer.Player.constructor | components/YouTubeAutoPlayer.tsx:6-9 | the first video, paused, not lunch, last changed at mount |
| LunchPlayer.Player.CheckLunchTime | components/YouTubeAutoPlayer.tsx:44-93 | the lunch flag follows the clock; playing starts only at 11:45 and stops after lunch; after twelve hours another video of the list is picked and the change time reset, otherwise both are kept |
| LunchPlayer.PlaysExactlyAtLunch | components/YouTubeAutoPlayer.tsx:52-109 | checked every minute from midnight, the player plays exactly during the lunch minutes |
| LunchPlayer.CheckedTwiceInAMinute | components/YouTubeAutoPlayer.tsx:95-109 | a second check in the same minute changes nothing |
| LunchPlayer.MissedStartStaysPaused | components/YouTubeAutoPlayer.tsx:57 | a paused player checked at a lunch minute other than 11:45 stays paused |
| ReviewsPage.RenderStars | components/CharacterReviewsPage.tsx:41-43 | five characters, filled stars before empty ones, as many filled as the count; a count outside 0..5 throws the repeat error |
| ReviewsPage.StarsReadBack | components/CharacterReviewsPage.tsx:41-43 | the number of filled stars is the rating |
| ReviewsPage.RepeatCount | components/CharacterReviewsPage.tsx:42 | n repeats of a character hold it n times and nothing else |
| ReviewsPage.KstStamp | components/CharacterReviewsPage.tsx:46-52 | month, day, hour and minute of the instant in Korea, each in its range |
| ReviewsPage.KstHour | components/CharacterReviewsPage.tsx:47-52 | the Korean hour is the UTC hour plus nine modulo a day; the minute is the UTC minute |
| ReviewsPage.LayoutFields | components/CharacterReviewsPage.tsx:54 | the four fields and three separators sit at fixed positions |
| ReviewsPage.FormatDate | components/CharacterReviewsPage.tsx:45-55 | "MM/DD HH:mm" with each field two digits reading back as the Korean month, day, hour and minute; an unparsed date shows NaN in every field |
| ReviewsPage.Grid | components/CharacterReviewsPage.tsx:70 | the first eight reviews, in the feed's order |
| ReviewsPage.GridIdempotent | components/CharacterReviewsPage.tsx:70 | laying out again changes nothing |
| MetricsChart.DayCount | components/UserMetricsChart.tsx:45-46 | the span in whole days, a started day counting as one |
| MetricsChart.DayCountSymmetric | components/UserMetricsChart.tsx:45 | the day count does not depend on the order of the ends |
| MetricsChart.Split | components/UserMetricsChart.tsx:48-65 | below a year the months and days add back to the span exactly; from a year on the days are dropped and the parts fall short of the span by less than a month |
| MetricsChart.SplitYears | components/UserMetricsChart.tsx:48-49 | the years are the whole 365-day years of the span |
| MetricsChart.Caption | components/UserMetricsChart.tsx:52-64 | a caption is never empty |
| MetricsChart.CaptionUnambiguous | components/UserMetricsChart.tsx:48-65 | two splits of the shape the caption is made from have the same caption only when they are equal: every kept part is shown |
| MetricsChart.SameCaptionSameSplit | components/UserMetricsChart.tsx:46-65 | spans with the same caption split into the same years, months and days |
| MetricsChart.CaptionNotNaN | components/UserMetricsChart.tsx:52-64 | a caption starts with a digit, so it is never the NaN caption |
| MetricsChart.CalculateDuration | components/UserMetricsChart.tsx:42-66 | an unparsed end gives "NaN일"; otherwise the caption of the split day count, which is never "NaN일" |
| MetricsChart.DurationSymmetric | components/UserMetricsChart.tsx:44-46 | swapping the ends gives the same caption |

## Left out

- The sqlite3 driver: SQL text, schema creation, `ALTER TABLE`, the initialisation promise and the callbacks (lib/database.ts:12-126). The tables are sequences held in `Store.DatabaseService`, and initialisation is assumed done.
- SQL built by string interpolation (lib/database.ts:170, 331; app/api/analytics/character-rankings/route.ts:71). This is a security concern; the model passes the values as numbers and ids.
- The time-zone mismatch: rows are stamped in local time (lib/database.ts:140, 239, 288) but filtered against UTC (lib/database.ts:170, 331). The model counts both on one clock, which is a parameter.
- The Google Analytics SDK calls, the Supabase `fetch` calls and the HTTP layer of the routes. Their answers are inputs: row lists, error messages, success or failure.
- Timing and concurrency:
  - node-cron timing and overlapping firings;
  - React effects and intervals;
  - `Promise.all`;
  - the reliance of importUserMetrics.js:117 on the last callback arriving last.
  The model takes one firing, one check or one batch as a sequential step, with the writes of the import script in order.
- `Date` parsing, local time and `toISOString` beyond civil-date arithmetic. Parsed instants and today's date are inputs in days or milliseconds.
- Floating point. Ratios, rates and ratings are compared only, so they are modelled as integers. Percentages, `toFixed` and threshold styling are not modelled.
- Property keys that JavaScript objects inherit (such as `constructor` in the name tables) are not modelled. A lookup finds only the listed keys.
- LunchPlayer.Player.CheckLunchTime: the random re-pick loop is modelled only by its postcondition, another index of the list. The distribution of the draw is not modelled.
- The YouTube iframe plumbing: the `postMessage` play and pause commands, the embed URL, and the undeclared `nextPlayIn`/`nextChangeIn` (components/YouTubeAutoPlayer.tsx:227, 263).
- What the pages render beyond the choices modelled here: device labels (app/dashboard/page.tsx:399), the loading flag, the entry animation, the animated dots and the other decorative screens.
- Seqs.Sort: permutation and order are proved, but stability (which JavaScript's sort guarantees) is not.
- The diagnostic scripts and the pass-through routes (history/latest, realtime/locations, scheduler/start, scheduler/status, sqlite-data, test-supabase) are console output or raw reads, so they are not modelled.
- Store.LocationRecords: every row of one `saveLocationHistory` call carries the same time `now`. In lib/database.ts:288 each insert reads `datetime('now','localtime')` on its own, so rows of one call can differ by the clock ticking between inserts.
- LocationHistoryRoute.Get: `hours` is an optional integer. A non-numeric `hours` parameter, which `parseInt` turns into NaN (app/api/analytics/location-history/route.ts:7), is not represented.
