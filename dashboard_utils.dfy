/**
 * The dashboard's statistics helpers: user-record validation, the three
 * time-window boundaries, bucket counting, error-message extraction, the
 * staleness test and the response-shape check. The current time is a
 * parameter instead of a call to `new Date()`.
 */
module DashboardUtils {
  import opened Wrappers
  import opened Js
  import opened Calendar

  /** Default staleness threshold: five minutes in milliseconds. */
  const DefaultMaxAge: int := 300_000

  /** How many users the recent-users table shows. */
  const RecentUsersLimit: nat := 5

  // ---------------------------------------------------------------- validation

  /** `isValidUser`: a non-null object whose id, name, email and created_at are all truthy. */
  function IsValidUser(u: JsValue): (r: bool)
    ensures r <==> u.Obj? && Truthy(Get(u, "id")) && Truthy(Get(u, "name")) &&
                   Truthy(Get(u, "email")) && Truthy(Get(u, "created_at"))
  {
    Truthy(u) && IsObjectType(u) &&
    Truthy(Get(u, "id")) && Truthy(Get(u, "name")) && Truthy(Get(u, "email")) && Truthy(Get(u, "created_at"))
  }

  /** Zero and the empty string are falsy, so a user with id 0 or an empty field is invalid. */
  lemma FalsyFieldMakesUserInvalid(u: JsValue, key: string)
    requires key in {"id", "name", "email", "created_at"}
    requires Get(u, key) == Num(0) || Get(u, key) == Str("") || Get(u, key) == Null
    ensures !IsValidUser(u)
  {
  }

  /** Number of valid records in a list. */
  function CountValid(users: seq<JsValue>): (r: nat)
    ensures r <= |users|
    ensures r == |users| <==> forall i :: 0 <= i < |users| ==> IsValidUser(users[i])
  {
    if users == [] then 0
    else
      var rest := CountValid(users[1..]);
      assert forall i :: 1 <= i < |users| ==> users[i] == users[1..][i - 1];
      (if IsValidUser(users[0]) then 1 else 0) + rest
  }

  // ---------------------------------------------------------------- date ranges

  /** The boundaries of the three buckets, as instants in milliseconds. */
  datatype DateRanges = DateRanges(today: int, weekAgo: int, monthAgo: int, now: int)

  /**
   * `getDateRanges`: local midnight of `now`, seven days before it, and the
   * same day-of-month one month before, normalised by `setMonth` when that
   * day does not exist (March 31st goes back to March 2nd or 3rd).
   */
  function GetDateRanges(now: LocalDateTime): (r: DateRanges)
    requires ValidDateTime(now)
    ensures r.now == InstantOf(now)
    ensures r.today <= r.now < r.today + MsPerDay && r.today % MsPerDay == 0
    ensures r.weekAgo == r.today - 7 * MsPerDay
    ensures var (py, pm) := PreviousMonth(now.year, now.month);
            r.monthAgo == r.today - DaysInMonth(py, pm) * MsPerDay
    ensures r.today - 31 * MsPerDay <= r.monthAgo <= r.today - 28 * MsPerDay
    ensures r.monthAgo <= r.weekAgo <= r.today
  {
    var day := MakeDay(now.year, now.month, now.date);
    var (py, pm) := PreviousMonth(now.year, now.month);
    MakeDayPreviousMonth(now.year, now.month, now.date);
    MakeDayEarlierDate(now.year, now.month, now.date, 7);
    DaysToInstants(day, DaysInMonth(py, pm), now.msOfDay);
    DateRanges(
      day * MsPerDay,
      MakeDay(now.year, now.month, now.date - 7) * MsPerDay,
      MakeDay(now.year, now.month - 1, now.date) * MsPerDay,
      InstantOf(now))
  }

  /** `setDate(getDate() - k)` moves back exactly k days. */
  lemma MakeDayEarlierDate(y: int, m: int, d: int, k: int)
    ensures MakeDay(y, m, d - k) == MakeDay(y, m, d) - k
  {
  }

  /** Day numbers scaled to milliseconds: midnights are multiples of a day and a time of day stays within its day. */
  lemma DaysToInstants(day: int, back: int, msOfDay: int)
    requires 0 <= msOfDay < MsPerDay
    ensures (day - 7) * MsPerDay == day * MsPerDay - 7 * MsPerDay
    ensures (day - back) * MsPerDay == day * MsPerDay - back * MsPerDay
    ensures (day * MsPerDay) % MsPerDay == 0
    ensures day * MsPerDay <= day * MsPerDay + msOfDay < day * MsPerDay + MsPerDay
  {
  }

  // ---------------------------------------------------------------- counting

  /**
   * How many records carry a creation instant at or after `bound`; `stamp`
   * gives a record's creation instant, None when the filter rejects it.
   */
  function CountSince(users: seq<JsValue>, bound: int, stamp: JsValue -> Option<int>): (r: nat)
    ensures r <= |users|
  {
    if users == [] then 0
    else
      (if stamp(users[0]).Some? && stamp(users[0]).value >= bound then 1 else 0) +
      CountSince(users[1..], bound, stamp)
  }

  /** How many records carry a creation instant at all. */
  function CountStamped(users: seq<JsValue>, stamp: JsValue -> Option<int>): (r: nat)
    ensures r <= |users|
  {
    if users == [] then 0
    else (if stamp(users[0]).Some? then 1 else 0) + CountStamped(users[1..], stamp)
  }

  /** A later boundary never counts more records: the windows are nested. */
  lemma {:induction false} CountSinceAntitone(users: seq<JsValue>, early: int, late: int, stamp: JsValue -> Option<int>)
    requires early <= late
    ensures CountSince(users, late, stamp) <= CountSince(users, early, stamp)
  {
    if users != [] {
      CountSinceAntitone(users[1..], early, late, stamp);
    }
  }

  /** Nested boundaries give nested counts. */
  lemma CountsNested(users: seq<JsValue>, ranges: DateRanges, stamp: JsValue -> Option<int>)
    ensures ranges.monthAgo <= ranges.weekAgo <= ranges.today ==>
              CountSince(users, ranges.today, stamp) <= CountSince(users, ranges.weekAgo, stamp) <=
              CountSince(users, ranges.monthAgo, stamp)
  {
    if ranges.monthAgo <= ranges.weekAgo <= ranges.today {
      CountSinceAntitone(users, ranges.weekAgo, ranges.today, stamp);
      CountSinceAntitone(users, ranges.monthAgo, ranges.weekAgo, stamp);
    }
  }

  /** Only records with a creation instant are ever counted. */
  lemma {:induction false} CountSinceAtMostStamped(users: seq<JsValue>, bound: int, stamp: JsValue -> Option<int>)
    ensures CountSince(users, bound, stamp) <= CountStamped(users, stamp)
  {
    if users != [] {
      CountSinceAtMostStamped(users[1..], bound, stamp);
    }
  }

  /** A boundary no later than every creation instant counts every stamped record. */
  lemma {:induction false} CountSinceAllStamped(users: seq<JsValue>, bound: int, stamp: JsValue -> Option<int>)
    requires forall i :: 0 <= i < |users| && stamp(users[i]).Some? ==> stamp(users[i]).value >= bound
    ensures CountSince(users, bound, stamp) == CountStamped(users, stamp)
  {
    if users != [] {
      assert forall i :: 0 <= i < |users| - 1 ==> users[1..][i] == users[i + 1];
      CountSinceAllStamped(users[1..], bound, stamp);
    }
  }

  /** The creation instant `countUsersByDate` compares: defined only for valid records. */
  function ValidStamp(parse: DateParser): JsValue -> Option<int>
  {
    (u: JsValue) => if IsValidUser(u) then ToDate(Get(u, "created_at"), parse) else None
  }

  /** A record is stamped exactly when it is valid and its `created_at` converts to a date. */
  lemma ValidStampMeans(parse: DateParser, u: JsValue)
    ensures ValidStamp(parse)(u).Some? <==> IsValidUser(u) && ToDate(Get(u, "created_at"), parse).Some?
    ensures ValidStamp(parse)(u).Some? ==> ValidStamp(parse)(u) == ToDate(Get(u, "created_at"), parse)
  {
  }

  /** Invalid records are never stamped, so the stamped count is at most the valid count. */
  lemma {:induction false} ValidStampedAtMostValid(users: seq<JsValue>, parse: DateParser)
    ensures CountStamped(users, ValidStamp(parse)) <= CountValid(users)
  {
    if users != [] {
      ValidStampMeans(parse, users[0]);
      ValidStampedAtMostValid(users[1..], parse);
    }
  }

  /** The three bucket counts. */
  datatype UserStats = UserStats(todayJoined: nat, thisWeekJoined: nat, thisMonthJoined: nat)

  const ZeroStats: UserStats := UserStats(0, 0, 0)

  /**
   * `calculateUserStats`: zeros for a non-array or an empty array; otherwise
   * each bucket counts the valid users created at or after its boundary.
   */
  function CalculateUserStats(users: JsValue, now: LocalDateTime, parse: DateParser): (r: UserStats)
    requires ValidDateTime(now)
    ensures !users.Arr? || users.items == [] ==> r == ZeroStats
    ensures users.Arr? && users.items != [] ==>
              var ranges := GetDateRanges(now);
              r.todayJoined == CountSince(users.items, ranges.today, ValidStamp(parse)) &&
              r.thisWeekJoined == CountSince(users.items, ranges.weekAgo, ValidStamp(parse)) &&
              r.thisMonthJoined == CountSince(users.items, ranges.monthAgo, ValidStamp(parse))
    ensures users.Arr? ==>
              r.todayJoined <= r.thisWeekJoined <= r.thisMonthJoined <= CountValid(users.items) <= |users.items|
  {
    if !users.Arr? || users.items == [] then ZeroStats
    else
      var ranges := GetDateRanges(now);
      var stamp := ValidStamp(parse);
      CountsNested(users.items, ranges, stamp);
      CountSinceAtMostStamped(users.items, ranges.monthAgo, stamp);
      ValidStampedAtMostValid(users.items, parse);
      UserStats(
        CountSince(users.items, ranges.today, stamp),
        CountSince(users.items, ranges.weekAgo, stamp),
        CountSince(users.items, ranges.monthAgo, stamp))
  }

  // ---------------------------------------------------------------- messages

  const UnknownErrorMessage: string := "An unknown error occurred"
  const UnexpectedErrorMessage: string := "An unexpected error occurred"

  /** `error.response?.data`. */
  function ResponseData(error: JsValue): JsValue
  {
    Get(Get(error, "response"), "data")
  }

  /**
   * `extractErrorMessage`: the first of the server's message, the first
   * field-level validation error, the exception's message and a fixed fallback.
   */
  function ExtractErrorMessage(error: JsValue): (r: JsValue)
    ensures !Truthy(error) ==> r == Str(UnknownErrorMessage)
    ensures Truthy(error) && Truthy(Get(ResponseData(error), "message")) ==>
              r == Get(ResponseData(error), "message")
    ensures Truthy(error) && !Truthy(Get(ResponseData(error), "message")) &&
            Truthy(Get(ResponseData(error), "errors")) ==>
              var first := FirstValue(Get(ResponseData(error), "errors"));
              r == if first.Arr? then (if first.items == [] then Undefined else first.items[0]) else first
    ensures Truthy(error) && !Truthy(Get(ResponseData(error), "message")) &&
            !Truthy(Get(ResponseData(error), "errors")) && Truthy(Get(error, "message")) ==>
              r == Get(error, "message")
    ensures Truthy(error) && !Truthy(Get(ResponseData(error), "message")) &&
            !Truthy(Get(ResponseData(error), "errors")) && !Truthy(Get(error, "message")) ==>
              r == Str(UnexpectedErrorMessage)
  {
    if !Truthy(error) then Str(UnknownErrorMessage)
    else
      var data := ResponseData(error);
      if Truthy(Get(data, "message")) then Get(data, "message")
      else if Truthy(Get(data, "errors")) then
        var first := FirstValue(Get(data, "errors"));
        if first.Arr? then (if first.items == [] then Undefined else first.items[0]) else first
      else if Truthy(Get(error, "message")) then Get(error, "message")
      else Str(UnexpectedErrorMessage)
  }

  /** The result is a truthy value except on the validation-errors path, which may yield anything. */
  lemma ExtractErrorMessageFalsyOnlyFromErrors(error: JsValue)
    ensures !Truthy(ExtractErrorMessage(error)) ==>
              Truthy(error) && !Truthy(Get(ResponseData(error), "message")) && Truthy(Get(ResponseData(error), "errors"))
  {
  }

  /** An empty `errors` object makes the helper return `undefined`, not a string. */
  lemma ExtractErrorMessageEmptyErrors()
    ensures ExtractErrorMessage(Obj([("response", Obj([("data", Obj([("errors", Obj([]))]))]))])) == Undefined
  {
  }

  // ---------------------------------------------------------------- staleness, shape

  /** `isDataStale`: no timestamp is stale; otherwise stale when strictly older than `maxAge`. */
  function IsDataStale(lastUpdate: Option<int>, now: int, maxAge: int := DefaultMaxAge): (r: bool)
    ensures lastUpdate.None? ==> r
    ensures lastUpdate.Some? ==> (r <==> now - lastUpdate.value > maxAge)
  {
    if lastUpdate.None? then true else now - lastUpdate.value > maxAge
  }

  /** Staleness only grows with time: data stale now stays stale later. */
  lemma StaleStaysStale(lastUpdate: Option<int>, now: int, later: int, maxAge: int)
    requires now <= later && IsDataStale(lastUpdate, now, maxAge)
    ensures IsDataStale(lastUpdate, later, maxAge)
  {
  }

  /** At exactly `maxAge` the data is still fresh; six minutes is stale and one minute is not. */
  lemma StalenessBoundary(t: int)
    ensures !IsDataStale(Some(t), t + DefaultMaxAge)
    ensures IsDataStale(Some(t), t + DefaultMaxAge + 1)
    ensures IsDataStale(Some(t - 360_000), t) && !IsDataStale(Some(t - 60_000), t)
  {
  }

  /** `isValidApiResponse`: a non-null, non-array object with a defined `data` or `success`. */
  function IsValidApiResponse(response: JsValue): (r: bool)
    ensures r <==> response.Obj? && (Get(response, "data") != Undefined || Get(response, "success") != Undefined)
  {
    Truthy(response) && IsObjectType(response) &&
    (Get(response, "data") != Undefined || Get(response, "success") != Undefined)
  }

  /**
   * Null, arrays and primitives are never valid responses; an object is valid
   * as soon as it carries `success`, even `false`, or a `data` that is `null`.
   */
  lemma ApiResponseShapes(items: seq<JsValue>, v: JsValue)
    ensures !IsValidApiResponse(Null) && !IsValidApiResponse(Undefined)
    ensures !IsValidApiResponse(Arr(items)) && !IsValidApiResponse(Str("data"))
    ensures !IsValidApiResponse(Obj([]))
    ensures IsValidApiResponse(Obj([("success", Bool(false))]))
    ensures IsValidApiResponse(Obj([("data", Null)]))
    ensures v != Undefined ==> IsValidApiResponse(Obj([("data", v)]))
  {
  }
}
