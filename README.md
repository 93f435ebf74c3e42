# php-dash dashboard and health check, modelled in Dafny

This project models the decision logic behind the php-dash admin
dashboard and its health endpoint:

- **Statistics helpers** (`react/src/utils/dashboardUtils.js`): user-record
  validation, the three time-window boundaries (today, a week back, a month
  back), per-window counting of new users, ordered error-message extraction,
  the staleness test and the response-shape check. These are pure functions
  (module `DashboardUtils`).
- **Health endpoint** (`app/Http/Controllers/Api/HealthController.php`):
  `check()` folds a database probe and a cache probe into a report and an
  HTTP status code. It is a method that builds the services map and the
  status step by step (`HealthController.Check`), proved against
  specification functions (`DatabaseCheck`, `CacheCheck`, `OverallOf`,
  `StatusCode`).
- **Revised dashboard component** (`react/src/DashboardNew.jsx`): the date
  ranges fixed at mount, the component's own `calculateStats`, the
  recent-users slice-then-filter, the total clamp, and the fetch. The fetch
  is split into a start, a resolution with the response body and a rejection
  with the error, plus the refresh guard. The state is the class
  `DashboardNew.DashboardState`.
- **Original dashboard component** (`react/src/Dashboard.jsx`): the
  `.then`/`.catch` handlers, the same-calendar-day count with week and month
  figures made up from it, the unvalidated recent list, the
  snapshot-preserving failure, and the refresh guard. The state is the class
  `Dashboard.DashboardState`.

Supporting modules:

- `Js`: the fragment of JavaScript values the code inspects. It covers
  `undefined`, `null`, booleans, integer numbers, strings, arrays and objects
  as property lists in JavaScript's enumeration order. It defines truthiness, `typeof … === 'object'`,
  optional-chaining property reads, `||`, `Object.values(x)[0]` and
  `new Date(x)`.
- `Calendar`: ECMAScript's day arithmetic (`DayFromYear`, `MakeDay` with
  month normalisation). It proves that `setMonth(m - 1)` goes back exactly
  one previous-month length.
- `Snapshot`: the `dashboardData` record that both components share.
- `Scenarios`: worked examples, proved as lemmas. Eight records against 2024-03-15 12:00 give
  2/4/6, and March 31st maps its month boundary to March 2nd.

The current time, the probe outcomes, the application configuration and the
host's date-string parser are parameters. Nothing is read from a clock, the
network, a database or a cache.

## Model

| member | source | states |
|---|---|---|
| Js.Get | react/src/utils/dashboardUtils.js:115-121 | optional chaining: reading a property of anything but an object gives undefined |
| Js.Or | react/src/DashboardNew.jsx:112-114 | `a \|\| b` is `a` when `a` is truthy and `b` otherwise |
| Js.FirstValue | react/src/utils/dashboardUtils.js:122 | `Object.values(x)[0]`: the first property value of an object in enumeration order, the first element of an array, the first character of a string, and undefined when there is none |
| Js.ToDate | react/src/utils/dashboardUtils.js:91 | `new Date(v)`: a number is its own time value when it lies within ±8.64e15 ms and an Invalid Date otherwise, undefined is an Invalid Date, null is the epoch, a string goes to the host parser and its result through the same range check; every valid result lies in that range |
| Calendar.DaysInMonth | react/src/utils/dashboardUtils.js:65-66 | every month has 28 to 31 days; February has 29 exactly in leap years |
| Calendar.DaysBeforeMonth | react/src/utils/dashboardUtils.js:62 | no days precede January; all of a year's days precede the month after December |
| Calendar.PreviousMonth | react/src/utils/dashboardUtils.js:66 | the month before January is December of the year before; any other month's predecessor is in the same year |
| Calendar.DayFromYearStep | react/src/utils/dashboardUtils.js:65-66 | consecutive New Year's days are exactly one year's length (365 or 366 days) apart |
| Calendar.MakeDayPreviousMonth | react/src/utils/dashboardUtils.js:65-66 | `setMonth(getMonth() - 1)` lands exactly one previous-month length earlier, including the overflow when the day does not exist in that month |
| Calendar.MakeDayAcrossYear | react/src/utils/dashboardUtils.js:65-66 | one month back from a January date is 31 days back, across the year boundary |
| Calendar.MakeDayInYear | react/src/utils/dashboardUtils.js:62 | a month inside the year needs no carry: the day is the year's start plus the days before the month plus the day-of-month |
| Calendar.MonthStep | react/src/utils/dashboardUtils.js:65-66 | the first of the next month is one month's length after the first of this month |
| Calendar.DayOfInstant | react/src/Dashboard.jsx:51-54 | the day containing a clock reading is that reading's calendar day |
| DashboardUtils.IsValidUser | react/src/utils/dashboardUtils.js:45-54 | a record is valid iff it is a non-null, non-array object whose id, name, email and created_at are all truthy |
| DashboardUtils.FalsyFieldMakesUserInvalid | react/src/utils/dashboardUtils.js:45-54 | an id of 0, or an empty or null field, makes a record invalid |
| DashboardUtils.CountValid | react/src/utils/dashboardUtils.js:88-90 | the number of valid records is at most the list length, and equals it iff every record is valid |
| DashboardUtils.GetDateRanges | react/src/utils/dashboardUtils.js:60-69 | today is the local midnight of now (today ≤ now < today + 1 day); weekAgo is 7 days earlier; monthAgo is one previous-month length earlier, so 28 to 31 days back; monthAgo ≤ weekAgo ≤ today |
| DashboardUtils.MakeDayEarlierDate | react/src/utils/dashboardUtils.js:63-64 | `setDate(getDate() - 7)` moves back exactly seven days |
| DashboardUtils.CountSince | react/src/utils/dashboardUtils.js:87-97 | a window count never exceeds the list length |
| DashboardUtils.CountSinceAntitone | react/src/utils/dashboardUtils.js:87-97 | a later boundary never counts more records |
| DashboardUtils.CountsNested | react/src/utils/dashboardUtils.js:99-103 | nested boundaries give nested counts |
| DashboardUtils.CountSinceAtMostStamped | react/src/utils/dashboardUtils.js:88-96 | only records with a readable creation instant are ever counted |
| DashboardUtils.CountSinceAllStamped | react/src/utils/dashboardUtils.js:88-96 | a boundary no later than every creation instant counts every dated record |
| DashboardUtils.ValidStampMeans | react/src/utils/dashboardUtils.js:88-96 | the counter's filter accepts a record iff it is valid and its created_at converts to a date, and then compares that date |
| DashboardUtils.ValidStampedAtMostValid | react/src/utils/dashboardUtils.js:88-96 | invalid records are never counted, so a count is at most the number of valid records |
| DashboardUtils.CalculateUserStats | react/src/utils/dashboardUtils.js:76-104 | zeros for a non-array or empty input; otherwise each bucket counts the valid records created at or after its boundary; today ≤ week ≤ month ≤ valid records ≤ list length |
| DashboardUtils.ExtractErrorMessage | react/src/utils/dashboardUtils.js:111-133 | the first that applies of: the unknown-error text for a falsy error, the server message, the first validation error (or its first element if it is an array), the exception's message, the unexpected-error text |
| DashboardUtils.ExtractErrorMessageFalsyOnlyFromErrors | react/src/utils/dashboardUtils.js:120-124 | a falsy result can only come from the validation-errors branch |
| DashboardUtils.ExtractErrorMessageEmptyErrors | react/src/utils/dashboardUtils.js:120-124 | an empty `errors` object makes the helper return undefined |
| DashboardUtils.IsDataStale | react/src/utils/dashboardUtils.js:159-163 | with no last update the data is stale; otherwise it is stale iff its age is strictly greater than maxAge (default 300000 ms) |
| DashboardUtils.StaleStaysStale | react/src/utils/dashboardUtils.js:159-163 | data that is stale stays stale as time advances |
| DashboardUtils.StalenessBoundary | react/src/utils/dashboardUtils.js:159-163 | an age of exactly five minutes is fresh and one millisecond more is stale; six minutes is stale and one minute is not |
| DashboardUtils.IsValidApiResponse | react/src/utils/dashboardUtils.js:184-190 | the response is valid iff it is a non-null, non-array object whose data or success is not undefined |
| DashboardUtils.ApiResponseShapes | react/src/utils/dashboardUtils.js:184-190 | null, undefined, arrays, strings and `{}` are rejected; `{success: false}`, `{data: null}` and any defined data are accepted |
| HealthController.OverallWord | app/Http/Controllers/Api/HealthController.php:18 | the report says "healthy" exactly for a healthy status |
| HealthController.StatusWord | app/Http/Controllers/Api/HealthController.php:27-33 | a service says "up" exactly when it is up |
| HealthController.DatabaseCheck | app/Http/Controllers/Api/HealthController.php:24-36 | the database is up iff the probe did not throw, and then reads "Database connection successful"; a throw reports its message after "Database connection failed: " |
| HealthController.CacheCheck | app/Http/Controllers/Api/HealthController.php:39-53 | the cache is up iff the read-back value is exactly "ok"; a completed read says "Cache is working" on a match and "Cache check failed" on a mismatch; a throw reports its message after "Cache check failed: " |
| HealthController.OverallOf | app/Http/Controllers/Api/HealthController.php:17-53 | the status is healthy iff neither probe threw |
| HealthController.StatusCode | app/Http/Controllers/Api/HealthController.php:63 | 200 iff healthy, 503 iff unhealthy |
| HealthController.UnhealthyMeansServiceDown | app/Http/Controllers/Api/HealthController.php:30-53 | an unhealthy report always has a service that is down |
| HealthController.CacheMismatchStaysHealthy | app/Http/Controllers/Api/HealthController.php:43-46 | a wrong or missing cache read-back reports the cache down while the status stays healthy with code 200 |
| HealthController.CacheThrowsScenario | app/Http/Controllers/Api/HealthController.php:47-53 | a database that is up and a cache that throws give unhealthy, 503 and a cache reported down |
| HealthController.Check | app/Http/Controllers/Api/HealthController.php:15-66 | the services map has exactly the keys database and cache, each holding its probe's entry; the status is healthy iff no probe threw and the code is 200 iff healthy; the timestamp and the configuration are echoed, with version "1.0.0" |
| Snapshot.FirstFive | react/src/Dashboard.jsx:47 | `slice(0, 5)` is the prefix of length min(5, n) |
| DashboardNew.HasUserFieldsIsValidUser | react/src/DashboardNew.jsx:95-97 | the inline recent-users filter accepts exactly the records isValidUser accepts |
| DashboardNew.KeepUserRecords | react/src/DashboardNew.jsx:95-97 | filtering keeps exactly the valid records, in input order: the result is a subsequence of valid records whose length is the number of valid inputs |
| DashboardNew.KeepUserRecordsMembers | react/src/DashboardNew.jsx:95-97 | a record survives the filter iff it was in the list and is valid |
| DashboardNew.KeepDropsInvalidHead | react/src/DashboardNew.jsx:95-97 | an invalid record at the head is dropped and the rest is filtered unchanged |
| DashboardNew.KeepAllValid | react/src/DashboardNew.jsx:95-97 | a list of valid records passes the filter whole |
| DashboardNew.RecentUsers | react/src/DashboardNew.jsx:95-97 | the recent list is exactly the valid records among the first five, in their order: at most five entries, as many as there are valid records in the first five |
| DashboardNew.RecentUsersOfValidPrefix | react/src/DashboardNew.jsx:95-97 | when the first five records are valid, the recent list is exactly those five |
| DashboardNew.RecentUsersMayMissLaterValid | react/src/DashboardNew.jsx:95-97 | one invalid record at the head leaves four recent users although later valid records exist |
| DashboardNew.TotalUsers | react/src/DashboardNew.jsx:92-103 | the total is never negative: a non-zero numeric server total is used, clamped at 0; an absent or falsy total falls back to the list length |
| DashboardNew.RecordStampMeans | react/src/DashboardNew.jsx:45-52 | the counters' filter reads a record's time exactly when the record is not nullish and its created_at converts to a valid Date; a nullish record is skipped, as the catch returns false |
| DashboardNew.CalculateStats | react/src/DashboardNew.jsx:34-77 | zeros for a non-array or empty input; otherwise each bucket counts the records (unvalidated) created at or after its boundary; month ≤ list length; nested boundaries give today ≤ week ≤ month |
| DashboardNew.FailureMessage | react/src/DashboardNew.jsx:112-114 | the error shown is the server message, else the exception's message, else "Failed to load dashboard data", and is always truthy |
| DashboardNew.InvalidFormatMessage | react/src/DashboardNew.jsx:87-89 | the error thrown for a bad body is shown as "Invalid response format" |
| DashboardNew.DashboardState.constructor | react/src/DashboardNew.jsx:8-31 | at mount: loading, no error, the zero snapshot, no last update, and date ranges fixed from the mount time |
| DashboardNew.DashboardState.BeginFetch | react/src/DashboardNew.jsx:81-82 | a fetch starts by setting loading and clearing the error, leaving the snapshot and last update alone |
| DashboardNew.DashboardState.HandleRefresh | react/src/DashboardNew.jsx:167-170 | a refresh while loading changes nothing; otherwise it starts a fetch |
| DashboardNew.DashboardState.Fail | react/src/DashboardNew.jsx:109-131 | a failure shows and notifies the failure message, resets the snapshot to zeros, stops loading and keeps the last update |
| DashboardNew.DashboardState.Install | react/src/DashboardNew.jsx:91-108 | a success installs the clamped total, the filtered recent list and the counts, and records the load time |
| DashboardNew.DashboardState.Resolve | react/src/DashboardNew.jsx:79-132 | a falsy or non-object body fails with "Invalid response format"; any other body, with data.data read as [] unless it is an array, becomes the new snapshot; loading is off after both paths; the snapshot invariant is kept |
| DashboardNew.DashboardState.Reject | react/src/DashboardNew.jsx:109-131 | a rejected request takes the failure path with its error |
| Dashboard.MissingDataFails | react/src/Dashboard.jsx:43-47 | a body without a data array makes the success handler throw |
| Dashboard.TotalUsers | react/src/Dashboard.jsx:44 | a non-zero numeric server total is used as is; an absent or falsy total falls back to the list length |
| Dashboard.NegativeTotalKept | react/src/Dashboard.jsx:44-57 | a negative server total reaches the display unclamped |
| Dashboard.SameDayStampMeans | react/src/Dashboard.jsx:51-54 | the filter accepts a record iff its created_at converts to an instant on the current calendar day |
| Dashboard.SameDayOfReadings | react/src/Dashboard.jsx:51-54 | for a record created at one local reading and a current local reading, the filter accepts it iff both readings have the same calendar day number |
| Dashboard.TodayJoined | react/src/Dashboard.jsx:51-54 | today's count never exceeds the list length |
| Dashboard.AllCreatedTodayCounted | react/src/Dashboard.jsx:51-54 | a list made only of records created today counts in full |
| Dashboard.TodayJoinedSkips | react/src/Dashboard.jsx:51-54 | a record with an unreadable creation date, or created on another day, adds nothing |
| Dashboard.NoneStampedToday | react/src/Dashboard.jsx:51-54 | records without created_at count zero |
| Dashboard.SynthesisedStats | react/src/Dashboard.jsx:59-63 | week and month are today + 3 and today + 8, capped at the list length; nested whenever today ≤ list length |
| Dashboard.SynthesisedFromNothing | react/src/Dashboard.jsx:49-63 | ten records none of which was created today are shown as 0 today, 3 this week and 8 this month |
| Dashboard.FailureMessage | react/src/Dashboard.jsx:70 | the error shown is the server message, else "Failed to load dashboard data"; the exception's own message is never used |
| Dashboard.LocalErrorShowsFixedMessage | react/src/Dashboard.jsx:69-72 | an error without a server response shows the fixed message |
| Dashboard.TypeErrorShowsFixedMessage | react/src/Dashboard.jsx:69-72 | the TypeError from a failing success handler shows the fixed message |
| Dashboard.DashboardState.constructor | react/src/Dashboard.jsx:24-36 | at mount: not loading, no error, the mount time as last update, the zero snapshot |
| Dashboard.DashboardState.BeginFetch | react/src/Dashboard.jsx:39-40 | a fetch starts by setting loading and clearing the error |
| Dashboard.DashboardState.HandleRefresh | react/src/Dashboard.jsx:108-111 | a refresh while loading changes nothing; otherwise it starts a fetch |
| Dashboard.DashboardState.Reject | react/src/Dashboard.jsx:69-72 | a failure sets the message and stops loading; the snapshot and the last update are kept |
| Dashboard.DashboardState.Install | react/src/Dashboard.jsx:43-67 | a success installs the unclamped total, the first five records and the synthesised stats, clears the error, stops loading and records the load time |
| Dashboard.DashboardState.Resolve | react/src/Dashboard.jsx:38-73 | a body the handler can process becomes the new snapshot; any other body takes the failure path with the fixed message and keeps the old snapshot |
| Scenarios.RecordValid | react/src/utils/dashboardUtils.js:45-54 | a record with a non-zero id and timestamp is valid iff its email is non-empty |
| Scenarios.RecordStamped | react/src/utils/dashboardUtils.js:88-96 | such a record is counted at its timestamp exactly when it has an email |
| Scenarios.InstantsAreCalendarTimes | react/src/utils/dashboardUtils.js:60-69 | the eight sample millisecond timestamps are 2024-03-15 11:00, 09:00, 03-13, 03-10, 03-01, 02-20 and 01-01 at 08:00, and 03-15 10:00 |
| Scenarios.ReferenceRanges | react/src/utils/dashboardUtils.js:60-69 | at 2024-03-15 12:00 the boundaries are that midnight, 2024-03-08 and 2024-02-15 |
| Scenarios.BucketCounts | react/src/utils/dashboardUtils.js:87-103 | the eight sample records count 2, 4 and 6 at the three boundaries |
| Scenarios.EightRecordStats | react/src/utils/dashboardUtils.js:76-104 | at 2024-03-15 12:00 the eight sample records give 2 today, 4 this week and 6 this month; the record without an email counts nowhere |
| Scenarios.EightRecordRecentAndTotal | react/src/DashboardNew.jsx:91-97 | with five valid leading records the recent list is those five, and with no server total the total is 8 |
| Scenarios.MonthOverflow | react/src/utils/dashboardUtils.js:65-66 | on 2024-03-31 the month boundary is March 2nd (February 31st normalised), not a clamp to February 29th |

## Behaviour worth knowing

- **Recent users.** The revised component slices to five and then filters
  (`react/src/DashboardNew.jsx:95-97`). With an invalid record among the
  first five, the list has fewer than five entries even when later valid
  records exist (`DashboardNew.RecentUsersMayMissLaterValid`).
- **Snapshot after a failure.** The revised component resets the snapshot to
  zeros on failure (`react/src/DashboardNew.jsx:120-128`); the original one
  keeps the previous snapshot (`react/src/Dashboard.jsx:69-72`).
- **Malformed payloads.** In the revised component a `data.data` that is not
  an array is read as an empty list, and the fetch succeeds
  (`react/src/DashboardNew.jsx:91`). In the original one it makes the
  handler throw (`Dashboard.MissingDataFails`).
- **Negative totals.** The revised component clamps a negative server total
  to 0 (`react/src/DashboardNew.jsx:103`); the original one shows it as is
  (`Dashboard.NegativeTotalKept`).
- **Month boundary.** It is `setMonth` normalisation
  (`react/src/utils/dashboardUtils.js:65-66`): on March 31st of a leap year
  it is March 2nd, not the end of February (`Scenarios.MonthOverflow`).
- **Cache mismatch.** A cache read-back mismatch reports the cache down but
  leaves the overall status healthy with code 200
  (`app/Http/Controllers/Api/HealthController.php:43-46`,
  `HealthController.CacheMismatchStaysHealthy`). Only a probe that throws
  makes the report unhealthy and the code 503.
- **Initial last update.** The original component starts with the mount time
  as its last update (`react/src/Dashboard.jsx:27`), not with none.

## Left out

- Rendering, routing, icons and styling in both components.
- The HTTP request (`axiosClient.get`) and `useEffect`. Each fetch is the
  `BeginFetch` method followed by `Resolve` (response body) or `Reject`
  (error), with the request's outcome as an argument. Interleaving of two
  fetches in flight is not modelled.
- Logging (`console.error`). `setNotification` appears only as the value
  that `Fail`, `Resolve` and `Reject` return.
- The PHP facades (`DB::connection()->getPdo()`, `cache()->put/get`,
  `config()`, `now()->toIso8601String()`, `response()->json`). Their outcomes,
  the timestamp string and the configuration record are inputs. The JSON
  rendering and key order of the report are not modelled: the services are a
  map.
- Locale formatting (`formatDate`, `formatNumber`, `formatTime`,
  `toLocaleString`), `debounce` (timers), `safeJsonParse` (a thin wrapper over
  `JSON.parse`): foreign or timer-based code.
- `react/src/config/dashboard.config.js` is not part of this model, except for
  the recent-users limit 5 and the 300000 ms staleness threshold, which are
  constants here. `MAX_RETRY_ATTEMPTS` and `ENABLE_AUTO_REFRESH` have no
  consumer in the modelled code.
- Time zones and daylight saving: local time is taken to coincide with UTC,
  so a day is always 86400000 ms.
- Numbers are integers: NaN, infinities and fractional values are not
  modelled.
- The host's date-string parser is a parameter (`DateParser`) rather than a
  model of the ECMAScript date-string formats.
- Js.FirstValue: relies on objects being stored in enumeration order with
  distinct keys; turning a JSON text into that form (moving integer-like keys
  first, keeping a repeated key at its first position with its last value) is
  not modelled. A string's first
  element is a Unicode character here, where JavaScript takes a UTF-16 code
  unit.
- Js.ToDate: an array or object argument is an Invalid Date here, where
  JavaScript first converts it to a primitive.
- DashboardUtils.GetDateRanges: `new Date(y, m, d)` maps years 0 to 99 to
  1900 to 1999 (also `react/src/DashboardNew.jsx:24`); the model builds the
  midnight on the year as read. `setDate` and `setMonth` results beyond the
  ±8.64e15 ms range of Dates, only possible for a clock within a month of that
  limit, are not made Invalid Dates.
- DashboardUtils.IsValidUser: returns a boolean, where the source returns
  the first falsy operand of its `&&` chain, or `created_at` when all are
  truthy. The callers only test its truthiness.
- DashboardUtils.IsValidApiResponse: returns a boolean, where the source
  returns a falsy `response` itself (null, undefined, 0, "" or false) and a
  boolean otherwise. Only its truthiness matters.
- DashboardNew.TotalUsers: a truthy `meta.total` that is not a number (a
  numeric string, say) falls back to the list length, where `Math.max` would
  convert it.
- Dashboard.TotalUsers: the same simplification. A non-number truthy total
  is treated as the list length instead of being stored as is.
- Dashboard.DashboardState.Install: one instant `now` stands for both
  `new Date()` calls in the success handler, both the day compared and the
  time recorded.
- Dashboard.DashboardState.Resolve: the success handler is taken to throw
  exactly when the body is nullish, when `data.data` is not an array, or
  when a record is null or undefined. Other host exceptions are not modelled.
- DashboardNew.FailureMessage: a null or undefined rejection value gets the
  fixed message here. In the source, `err.response` throws inside the catch,
  so the error and the snapshot stay as they were and only the `finally`
  clause clears loading.
- Dashboard.FailureMessage: the same case. In the source the throw inside the
  catch skips `setLoading(false)`, so loading stays true.
- HealthController.Check: only a probe that throws an `\Exception` is
  caught. A PHP `\Error` (a missing PDO or cache extension class, say)
  propagates out of `check()` and no report is produced; that path is not
  modelled.
