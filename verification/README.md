# Course site analytics, modelled in Dafny

This project models the client-side analytics of a course-marketing web application, plus its
authentication flag:

- **Metric aggregation** (`AnalyticsDashboard.jsx`, `getMetrics` and the `calculate*` helpers).
  The stored events are filtered to a time window: 1, 7, 30 or 90 days before `now`, compared
  strictly. The dashboard then reports the number of events, the number of distinct user ids, the
  average session length in minutes, and three percentage rates. Each rate has a divide-by-zero
  guard. Rates are exact `real`s computed from integer counts.
- **Daily bucketing** (`EngagementChart.jsx`, the `chartData` computation). One zeroed bucket is
  created for each of the last `daysBack` UTC calendar days. The windowed events are counted into
  them as a total and one counter for each of four engagement event types. The days are sorted
  ascending, and the result is either one total series or one series per type.
- **Event store and session id** (`analytics.js`). `trackEvent` appends one record to the stored
  list. Its reserved properties override the caller's. `getSessionId` returns the stored session
  id, or else stores and returns a fresh one. `getAnalyticsData` and `clearAnalyticsData` read and
  empty the list. The three `track*` wrappers call `trackEvent`.
- **Authentication flag** (`AuthContext.jsx`): the provider's mount effect, `login` and `logout`,
  over the `authToken` and `userId` entries of `localStorage`.

The modules follow that split:

- `Wrappers` defines `Option`.
- `Seqs` holds generic sequence facts: filter, sum, an insertion sort and its uniqueness.
- `Events` defines the event record, the time ranges and the window filter.
- `Metrics`, `Chart`, `Store` and `Auth` model the four parts above.

Events carry:

- a name;
- a timestamp in epoch milliseconds, `None` when `new Date` of the stored value is an invalid date;
- a user id, `None` for a null, missing or non-string one;
- a session id.

A UTC calendar day is the day number `ts / 86400000`, where division rounds down. This is exactly
the `YYYY-MM-DD` key `toISOString().split('T')[0]` produces.

The browser is an explicit value, `Store.Browser`, holding `localStorage` entries, the decoded
event list and `sessionStorage`. The clock, the page URL, the user agent and the random part of a
new session id are inputs, `Store.Env`. Date parsing is a parameter of `Store.ToEvent`.

Some behaviour of the code is easy to misread:

- Conversion divides the number of `course_enrollment` events, not distinct enrolled users, by
  the number of distinct users, so it can exceed 100; see `Metrics.ConversionAboveHundred`.
- A session's start is its first stored event's timestamp, not the smallest one, and only its end
  is ever raised. An out-of-order session can therefore measure shorter, down to 0; see
  `Metrics.OutOfOrderSession`.
- Chart days are UTC days, not the observer's local dates.
- Not every day the window touches gets a bucket. The partial day at the cutoff gets none, and its
  events are dropped; see `Chart.PartialDayDropped`.

## Model

| member | source | states |
|---|---|---|
| Events.Key | src/components/analytics/AnalyticsDashboard.jsx:26-31 | the key of every range is one of the `rangeMap` keys `1d`, `7d`, `30d`, `90d` |
| Events.FromKey | src/components/analytics/AnalyticsDashboard.jsx:26-31 | a range key is recognised exactly when it is one of `1d`, `7d`, `30d`, `90d` |
| Events.KeyRoundTrip | src/components/analytics/AnalyticsDashboard.jsx:26-33 | each range's key maps back to that range, and `1d`, `7d`, `30d`, `90d` look back 1, 7, 30 and 90 days |
| Events.DaysBack | src/components/analytics/AnalyticsDashboard.jsx:33 | every range looks back between 1 and 90 days |
| Events.Cutoff | src/components/analytics/AnalyticsDashboard.jsx:34 | the cutoff lies exactly `daysBack · 86 400 000` ms before `now` |
| Events.Window | src/components/analytics/AnalyticsDashboard.jsx:36-38 | an event is kept exactly when its timestamp parses and is strictly after the cutoff |
| Events.WindowConcat | src/components/analytics/AnalyticsDashboard.jsx:36-38 | filtering distributes over concatenation, so kept events stay in their relative order, and one more event is appended exactly when it is in the window |
| Events.WindowBoundary | src/components/analytics/AnalyticsDashboard.jsx:36-38 | an event exactly at the cutoff, or with an unparsable timestamp, is never kept |
| Events.WindowPermutation | src/components/analytics/AnalyticsDashboard.jsx:36-38 | reordering the input reorders the kept events and keeps the same multiset |
| Metrics.UserIds | src/components/analytics/AnalyticsDashboard.jsx:41 | the id set holds exactly the user ids that occur, null as one value; it is no larger than the list, and empty exactly when the list is |
| Metrics.UserIdsPermutation | src/components/analytics/AnalyticsDashboard.jsx:41 | the distinct user ids depend only on the multiset of events |
| Metrics.CountNamed | src/components/analytics/AnalyticsDashboard.jsx:81-83 | the number of events with a listed name is at most the length; it is 0 exactly when none match and the full length exactly when all match |
| Metrics.CountNamedPermutation | src/components/analytics/AnalyticsDashboard.jsx:88-89 | name counts depend only on the multiset of events |
| Metrics.CountNamedSnoc | src/components/analytics/AnalyticsDashboard.jsx:76 | appending an event raises a name count by one exactly when its name is listed |
| Metrics.Percent | src/components/analytics/AnalyticsDashboard.jsx:77 | the guarded percentage is 0 for a zero denominator, otherwise exactly `100 · part / whole`; it is 0 exactly when the part or the whole is 0, at most 100 exactly when part ≤ whole, and 100 exactly when they are equal |
| Metrics.ConversionRate | src/components/analytics/AnalyticsDashboard.jsx:74-77 | 0 for no events; otherwise `100 · #course_enrollment events / #distinct users`; 0 exactly when there are no enrollments |
| Metrics.EngagementRate | src/components/analytics/AnalyticsDashboard.jsx:80-85 | `100 · #engagement-type events / length`, 0 for the empty list, always within [0, 100]; 0 exactly when no event is of an engagement type and 100 exactly when all are |
| Metrics.CompletionRate | src/components/analytics/AnalyticsDashboard.jsx:87-91 | 0 when there is no enrollment event; otherwise `100 · #course_completion / #course_enrollment` |
| Metrics.VisitSpans | src/components/analytics/AnalyticsDashboard.jsx:57-64 | one event opens a new session at its own time, or raises only the end of a known session to its time when later; other sessions are untouched |
| Metrics.VisitKeepsTable | src/components/analytics/AnalyticsDashboard.jsx:57-64 | one step adds the event's session to the table, keeps every key listed exactly once, and keeps every span's start at most its end |
| Metrics.Visit | src/components/analytics/AnalyticsDashboard.jsx:57-64 | visiting an event adds its session to the table, and the insertion order gains that session at the end exactly when it was not there yet (the enumeration order of `Object.values` does not affect the result, by `Metrics.SumDurationsReorder`) |
| Metrics.TrackSessions | src/components/analytics/AnalyticsDashboard.jsx:56-65 | the session table has exactly the sessions of the data, its enumeration lists each once, and every session's start is at most its end |
| Metrics.FirstIndex | src/components/analytics/AnalyticsDashboard.jsx:59-60 | the position of a session's first event: it names that session, and no earlier event does |
| Metrics.Latest | src/components/analytics/AnalyticsDashboard.jsx:63 | the latest timestamp of a session: at least every one of its events' times, and attained by one |
| Metrics.TrackSessionsSpans | src/components/analytics/AnalyticsDashboard.jsx:56-65 | the fold's span of every session starts at its first-seen time and ends at its latest time |
| Metrics.Duration | src/components/analytics/AnalyticsDashboard.jsx:67-69 | a session's length in minutes, from first-seen to latest, is never negative |
| Metrics.TotalMinutes | src/components/analytics/AnalyticsDashboard.jsx:67-71 | the summed session lengths in minutes are never negative when every session starts no later than it ends |
| Metrics.SumDurationsReorder | src/components/analytics/AnalyticsDashboard.jsx:67-71 | the summed session lengths do not depend on the order in which the sessions are enumerated |
| Metrics.TotalMinutesIsSumDurations | src/components/analytics/AnalyticsDashboard.jsx:67-71 | the sum taken over the fold's table equals the sum of the reference durations |
| Metrics.Mean | src/components/analytics/AnalyticsDashboard.jsx:71 | the guarded mean is 0 for no terms, otherwise total / count, and not negative for a non-negative total |
| Metrics.AvgSessionDuration | src/components/analytics/AnalyticsDashboard.jsx:55-72 | the average session length is never negative and is 0 for no events |
| Metrics.AvgSessionDurationIsMean | src/components/analytics/AnalyticsDashboard.jsx:55-72 | for any enumeration of the sessions, each listed once, the average is the mean of their first-seen-to-latest lengths, or 0 when there are none |
| Metrics.ChronologicalDuration | src/components/analytics/AnalyticsDashboard.jsx:55-69 | when the session's events arrive in non-decreasing time, whatever the other sessions do, its length is (last − first) / 60000 |
| Metrics.GetMetrics | src/components/analytics/AnalyticsDashboard.jsx:24-53 | totalEvents is the windowed length; uniqueUsers ≤ totalEvents and is 0 exactly when it is; no metric is negative; engagement is within [0, 100]; every metric is 0 for an empty window |
| Metrics.MetricsPermutation | src/components/analytics/AnalyticsDashboard.jsx:40-53 | every metric except the average session length depends only on the multiset of stored events |
| Metrics.MetricsAppend | src/components/analytics/AnalyticsDashboard.jsx:36-40 | storing one more event raises totalEvents by one exactly when that event is in the window |
| Metrics.TenMinuteSession | src/components/analytics/AnalyticsDashboard.jsx:55-72 | one session with events ten minutes apart averages 10.0 minutes |
| Metrics.OutOfOrderSession | src/components/analytics/AnalyticsDashboard.jsx:59-63 | a session whose later event is stored first measures 0.0 minutes |
| Metrics.HalfConversion | src/components/analytics/AnalyticsDashboard.jsx:74-77 | one enrollment among two distinct users converts at 50.0 |
| Metrics.ConversionAboveHundred | src/components/analytics/AnalyticsDashboard.jsx:74-77 | two enrollment events by one user convert at 200.0 |
| Metrics.FortyPercentCompletion | src/components/analytics/AnalyticsDashboard.jsx:87-91 | five enrollments and two completions complete at 40.0 |
| Chart.InitDays | src/components/analytics/EngagementChart.jsx:21-23 | the i-th created key is the day `i` days before today |
| Chart.InitBuckets | src/components/analytics/EngagementChart.jsx:20-25 | exactly `daysBack` buckets, for the days from `day(now) − daysBack + 1` through `day(now)`, each zeroed |
| Chart.Bump | src/components/analytics/EngagementChart.jsx:31-34 | counting an event raises the total by one, raises only its own type's counter and only when the name is listed, and so raises the type sum by one exactly then |
| Chart.Add | src/components/analytics/EngagementChart.jsx:29-35 | counting one event never creates or removes a bucket |
| Chart.Day | src/components/analytics/EngagementChart.jsx:29 | the UTC day of a timestamp is the day whose 86400000 ms span contains it, as the date part of `toISOString` |
| Chart.Tally | src/components/analytics/EngagementChart.jsx:28-36 | counting a list of events keeps the bucket keys |
| Chart.TallyCounts | src/components/analytics/EngagementChart.jsx:28-36 | after counting, a bucket's total and each type counter grew by exactly the number of events of that day, and of that day and name |
| Chart.TallyTypesWithinTotal | src/components/analytics/EngagementChart.jsx:31-34 | counting keeps the per-type sum of a bucket at most its total |
| Chart.Totals | src/components/analytics/EngagementChart.jsx:39 | the total series has one entry per date, the total of that date's bucket |
| Chart.TypeCounts | src/components/analytics/EngagementChart.jsx:44 | a type's series has one entry per date, that type's counter in the date's bucket |
| Chart.TallyTotals | src/components/analytics/EngagementChart.jsx:28-39 | over all bucket dates, the totals grow by exactly the number of counted events whose day has a bucket |
| Chart.ChartBuckets | src/components/analytics/EngagementChart.jsx:12-36 | after counting, the buckets are still exactly the last `daysBack` days |
| Chart.ChartBucketCounts | src/components/analytics/EngagementChart.jsx:28-36 | each bucket holds exactly the windowed events of its day, each type counter those of its day and type, and the type counters sum to at most the total |
| Chart.DetailedSeriesCounts | src/components/analytics/EngagementChart.jsx:41-47 | in detailed mode there are four series, each with one value per date, counting the windowed events of that type and day |
| Chart.TotalSeriesCounts | src/components/analytics/EngagementChart.jsx:39-61 | otherwise there is one series, one value per date, counting the windowed events of the day and summing to at most the windowed length |
| Chart.ChartCountsAll | src/components/analytics/EngagementChart.jsx:28-36 | every bucket's total and type counters count exactly the windowed events of its day and type |
| Chart.ChartAppend | src/components/analytics/EngagementChart.jsx:28-31 | one more stored event bumps its own day's bucket exactly when it is inside the window and that day has a bucket, and changes nothing otherwise |
| Chart.PartialDayDropped | src/components/analytics/EngagementChart.jsx:12-14 | unless `now` is the last millisecond of its day, an event one millisecond after the cutoff is in the window but has no bucket and is dropped |
| Chart.SortedDays | src/components/analytics/EngagementChart.jsx:38 | the sorted keys are the last `daysBack` days, oldest first, consecutive and each once |
| Chart.ChartTotalsSum | src/components/analytics/EngagementChart.jsx:28-39 | the summed totals equal the number of windowed events on bucketed days; this is at most the windowed length, and equal to it exactly when every windowed event has a bucket |
| Chart.DetailedSeries | src/components/analytics/EngagementChart.jsx:41-47 | one series per event type, in order, each the type's counts over the dates |
| Chart.EngagementChartData | src/components/analytics/EngagementChart.jsx:6-67 | `daysBack` ascending dates, all bucketed; detailed mode has the four per-type series, otherwise the single total series |
| Chart.ChartSeriesCounts | src/components/analytics/EngagementChart.jsx:39-61 | every series has one value per date; each detailed value counts the windowed events of that type and day; each total value counts the windowed events of the day; the totals sum to at most the windowed length |
| Store.FreshSessionId | src/utils/analytics.js:27 | a fresh session id begins with `session_` and is longer than it |
| Store.GetSessionId | src/utils/analytics.js:24-31 | a stored non-empty id is returned and nothing changes; otherwise a fresh `session_` id is created and stored; only `session_id` in `sessionStorage` changes, and the returned id is stored and non-empty |
| Store.SessionIdStable | src/utils/analytics.js:24-31 | a second call returns the same id and changes nothing, whatever the clock and random source |
| Store.GetAnalyticsData | src/utils/analytics.js:33-35 | the stored list, or the empty list when nothing is stored |
| Store.ClearAnalyticsData | src/utils/analytics.js:37-39 | afterwards the list reads as empty, and the other storage entries are unchanged |
| Store.ClearIdempotent | src/utils/analytics.js:37-39 | clearing twice is clearing once |
| Store.GetItem | src/utils/analytics.js:9 | a stored entry reads as its string, a missing one as null |
| Store.ReservedProps | src/utils/analytics.js:8-12 | the reserved properties are exactly timestamp, userId, sessionId, url and userAgent |
| Store.TrackEvent | src/utils/analytics.js:2-19 | the stored list grows by exactly one at the end, earlier records unchanged and in order; `localStorage` entries are unchanged |
| Store.TrackedRecord | src/utils/analytics.js:4-13 | the new record has the given name and the caller's keys plus the reserved ones; the reserved values are the clock, the stored userId, the session id, the URL and the user agent, overriding the caller's; other caller values are kept |
| Store.TrackCourseProgress | src/utils/analytics.js:42-49 | one record is appended after the unchanged earlier ones: named `course_progress`, keys exactly moduleId, lessonId, progress, category and the reserved ones, category `learning`, and the given module, lesson and progress |
| Store.TrackEngagement | src/utils/analytics.js:52-59 | one record is appended after the unchanged earlier ones: named `user_engagement`, keys exactly action, element, duration, category and the reserved ones, category `engagement`, and the given action, element and duration |
| Store.TrackPerformance | src/utils/analytics.js:62-69 | one record is appended after the unchanged earlier ones: named `performance`, keys exactly metric, value, context, category and the reserved ones, category `performance`, and the given metric, value and context |
| Store.ClearThenTrack | src/utils/analytics.js:17-19 | tracking after clearing leaves exactly one stored record |
| Store.ToEvent | src/components/analytics/AnalyticsDashboard.jsx:36-41 | a stored record reads as an event of the same name |
| Store.ToEvents | src/components/analytics/AnalyticsDashboard.jsx:19-20 | the stored list reads as events one for one, in order |
| Store.TrackedEvent | src/utils/analytics.js:4-13 | a tracked record reads back with its name, the parsed clock, the stored user id and the session id |
| Store.TrackAppendsEvent | src/utils/analytics.js:17-19 | what the dashboard reads after tracking is what it read before, followed by the new event |
| Auth.Truthy | src/context/AuthContext.jsx:22 | a stored entry tests true exactly when `getItem` returns neither null nor the empty string |
| Auth.Mount | src/context/AuthContext.jsx:18-27 | the mount effect authenticates exactly when `authToken` and `userId` are both stored and non-empty, then with user `{id, token}`; loading ends in every case and storage is unchanged |
| Auth.Login | src/context/AuthContext.jsx:29-34 | both entries are written and the others are kept; the user is the given `{userId, token}` record, authenticated; loading is unchanged |
| Auth.Logout | src/context/AuthContext.jsx:36-41 | both entries are removed and the others are kept; the user is null and the flag false |
| Auth.LoginThenMount | src/context/AuthContext.jsx:18-34 | after a login with a non-empty id and token, a fresh mount is authenticated as the same id and token |
| Auth.EmptyTokenLostOnReload | src/context/AuthContext.jsx:22-33 | a login with an empty token authenticates the page, but a fresh mount from that storage does not |
| Auth.LogoutThenMount | src/context/AuthContext.jsx:18-41 | after a logout a fresh mount is signed out, and logging out twice is logging out once |
| Auth.LoginTagsEvents | src/utils/analytics.js:9 | events tracked after a login carry the logged-in user's id |
| Auth.LogoutUntagsEvents | src/utils/analytics.js:9 | events tracked after a logout carry a null user id |

## Left out

- Rendering is left out as presentation: JSX, animation, the ECharts option object, icons and
  display formatting (`toFixed`, `toLocaleString`, `toLocaleDateString`). Chart dates stay as day
  numbers. Series names stay as the event type keys, without the capitalised display form.
- Floating point: rates and minutes are exact reals.
- The date range of JavaScript (±8.64·10^15 ms) is not modelled. Timestamps and cutoffs are
  unbounded integers.
- Date parsing is a parameter of `Store.ToEvent`, and the ISO clock string is an input.
- Sorting the day keys as strings agrees with numeric day order only for four-digit years. The
  model sorts day numbers.
- JSON serialisation of the stored list is taken to be the identity on `Store.Value`. Values that
  JSON drops or alters (`undefined`, functions, non-integer numbers) and booleans and arrays are not modelled.
- A non-string stored `userId` reads as null. A missing `userId` (JavaScript `undefined`, which a
  `Set` counts apart from `null`) also reads as null, so such records merge with null ids in
  `uniqueUsers` and in the conversion rate's denominator. A `sessionId` is grouped by its text as an object key
  (a missing one as `undefined`); numbers are written by `Store.IntToString`, without fractions.
- A session id that is a special object key such as `__proto__` is treated like any other.
- Unknown time-range keys: `Events.TimeRange` has only the four ranges. `Events.FromKey` shows
  which keys are recognised; the dashboard's behaviour on other keys is not modelled.
- The text of a fresh session id is not modelled beyond its `session_` prefix. The random suffix
  is an input, and the digits of the clock come from `Store.NatToString`.
- `console.log` in `trackEvent` is left out, as output only.
- React plumbing is left out: the dashboard effect that loads the data and tracks a view,
  `useMemo`, `useAuth` throwing outside a provider, and re-rendering.
- Auth.Mount: modelled from the initial provider state only, because the effect runs once, at
  mount.
- Auth.Login: the token and user id are strings. A missing field, which `setItem` would store as
  the text `undefined`, is not modelled.
- Metrics.AvgSessionDuration: its own contract gives only the sign and the empty case. The exact
  value is stated through `Metrics.AvgSessionDurationIsMean` and `Metrics.TrackSessionsSpans`.
- Metrics.Duration: its own contract gives only the sign. The value, first-seen to latest, is
  stated through `Metrics.TrackSessionsSpans` and `Metrics.ChronologicalDuration`.
- Events.DaysBack: its own contract gives only the bounds 1 to 90. The exact day count of each
  range is stated by `Events.KeyRoundTrip`.
- Chart.Add: its own contract says only that the bucket keys are kept. What a step counts is
  stated by `Chart.Bump` and `Chart.ChartAppend`.
- Chart.Tally: its own contract says only that the bucket keys are kept. The counts are stated by
  `Chart.TallyCounts` and `Chart.TallyTotals`.
- Store.TrackEvent: storage writes and reads are assumed to succeed. A `localStorage.setItem` of
  the list that throws (storage quota exceeded) and a `JSON.parse` of a corrupt `analytics_events`
  entry are not modelled; in both cases the code throws instead of appending, and
  `getAnalyticsData` throws on the corrupt entry too. The same holds for `getSessionId`'s
  `sessionStorage.setItem`, which `Store.GetSessionId` always takes to store its id. The
  read–extend–write of the list is not atomic across tabs sharing `localStorage`; the model is
  single-threaded.
- Store.ToEvent: its own contract gives only the name. Its body follows `new Date` on each kind of
  stored timestamp (string parsed, number kept, null as 0, object or missing invalid). How a
  tracked record reads back is stated by `Store.TrackedEvent`.
