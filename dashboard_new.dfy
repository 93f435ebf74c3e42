/**
 * The revised dashboard component: its four pieces of state, the fetch split
 * into a start, a resolution with the response body and a rejection with the
 * error, and the refresh guard. The request itself and the rendering are left
 * out; the response or error arrives as an argument.
 */
module DashboardNew {
  import opened Wrappers
  import opened Js
  import opened Calendar
  import opened DashboardUtils
  import opened Snapshot

  const FailedToLoad: string := "Failed to load dashboard data"
  const InvalidResponseFormat: string := "Invalid response format"

  // ------------------------------------------------------------ pure parts

  /** The inline filter on recent users: `u && u.id && u.name && u.email && u.created_at`. */
  predicate HasUserFields(u: JsValue)
  {
    Truthy(u) && Truthy(Get(u, "id")) && Truthy(Get(u, "name")) && Truthy(Get(u, "email")) &&
    Truthy(Get(u, "created_at"))
  }

  /** The inline filter accepts exactly the records `isValidUser` accepts. */
  lemma HasUserFieldsIsValidUser(u: JsValue)
    ensures HasUserFields(u) <==> IsValidUser(u)
  {
  }

  /** `s` is `t` with some elements removed, order kept. */
  predicate IsSubsequence(s: seq<JsValue>, t: seq<JsValue>)
    decreases |t|
  {
    if s == [] then true
    else if t == [] then false
    else if s[0] == t[0] then IsSubsequence(s[1..], t[1..])
    else IsSubsequence(s, t[1..])
  }

  /** `filter(HasUserFields)`: the records that pass, in their original order. */
  function KeepUserRecords(users: seq<JsValue>): (r: seq<JsValue>)
    ensures |r| <= |users|
    ensures |r| == CountValid(users)
    ensures forall i :: 0 <= i < |r| ==> IsValidUser(r[i])
    ensures IsSubsequence(r, users)
  {
    if users == [] then []
    else
      var rest := KeepUserRecords(users[1..]);
      HasUserFieldsIsValidUser(users[0]);
      if HasUserFields(users[0]) then [users[0]] + rest else rest
  }

  /**
   * Recent users: the first five records, then only those that pass the
   * filter. At most five, in input order, all valid.
   */
  function RecentUsers(users: seq<JsValue>): (r: seq<JsValue>)
    ensures |r| <= RecentUsersLimit
    ensures |r| == CountValid(FirstFive(users))
    ensures forall i :: 0 <= i < |r| ==> IsValidUser(r[i])
    ensures IsSubsequence(r, FirstFive(users))
  {
    KeepUserRecords(FirstFive(users))
  }

  /** The filter keeps every valid record and nothing else. */
  lemma {:induction false} KeepUserRecordsMembers(users: seq<JsValue>, u: JsValue)
    ensures u in KeepUserRecords(users) <==> u in users && IsValidUser(u)
  {
    if users != [] {
      HasUserFieldsIsValidUser(users[0]);
      KeepUserRecordsMembers(users[1..], u);
      assert users == [users[0]] + users[1..];
    }
  }

  /**
   * Validation after slicing can drop below five even though later valid
   * records exist: one invalid record at the head leaves four.
   */
  lemma RecentUsersMayMissLaterValid(x: JsValue, rest: seq<JsValue>)
    requires !IsValidUser(x) && |rest| >= RecentUsersLimit
    requires forall i :: 0 <= i < |rest| ==> IsValidUser(rest[i])
    ensures RecentUsers([x] + rest) == rest[..4]
    ensures |RecentUsers([x] + rest)| == 4 < RecentUsersLimit
  {
    var four := rest[..4];
    assert FirstFive([x] + rest) == [x] + four;
    KeepDropsInvalidHead(x, four);
    KeepAllValid(four);
  }

  /** When the first five records are all valid, the recent list is exactly those five. */
  lemma RecentUsersOfValidPrefix(users: seq<JsValue>)
    requires forall i :: 0 <= i < |users| && i < RecentUsersLimit ==> IsValidUser(users[i])
    ensures RecentUsers(users) == FirstFive(users)
  {
    KeepAllValid(FirstFive(users));
  }

  lemma KeepDropsInvalidHead(x: JsValue, users: seq<JsValue>)
    requires !IsValidUser(x)
    ensures KeepUserRecords([x] + users) == KeepUserRecords(users)
  {
    HasUserFieldsIsValidUser(x);
    assert ([x] + users)[1..] == users;
  }

  /** A list of valid records passes the filter whole. */
  lemma {:induction false} KeepAllValid(users: seq<JsValue>)
    requires forall i :: 0 <= i < |users| ==> IsValidUser(users[i])
    ensures KeepUserRecords(users) == users
  {
    if users != [] {
      HasUserFieldsIsValidUser(users[0]);
      assert forall i :: 0 <= i < |users| - 1 ==> users[1..][i] == users[i + 1];
      KeepAllValid(users[1..]);
      assert users == [users[0]] + users[1..];
    }
  }

  /** `Math.max(0, data.meta?.total || users.length)`. */
  function TotalUsers(metaTotal: JsValue, count: nat): (r: int)
    ensures r >= 0
    ensures metaTotal.Num? && metaTotal.n != 0 ==> r == if metaTotal.n < 0 then 0 else metaTotal.n
    ensures !Truthy(metaTotal) ==> r == count
  {
    var total := Or(metaTotal, Num(count));
    if total.Num? then (if total.n < 0 then 0 else total.n) else count
  }

  /** The creation instant the component's own counters compare, for any record. */
  function RecordStamp(parse: DateParser): JsValue -> Option<int>
  {
    // reading `created_at` of null or undefined throws, and the catch says false
    (u: JsValue) => if IsNullish(u) then None else ToDate(Get(u, "created_at"), parse)
  }

  /**
   * A record is stamped exactly when it is not null or undefined and its
   * `created_at` converts to a valid Date; the stamp is that Date's time value.
   */
  lemma RecordStampMeans(parse: DateParser, u: JsValue)
    ensures RecordStamp(parse)(u).Some? <==> !IsNullish(u) && ToDate(Get(u, "created_at"), parse).Some?
    ensures RecordStamp(parse)(u).Some? ==> RecordStamp(parse)(u) == ToDate(Get(u, "created_at"), parse)
    ensures IsNullish(u) ==> RecordStamp(parse)(u) == None
  {
  }

  /**
   * `calculateStats`: zeros for a non-array or empty list, otherwise the
   * number of records at or after each boundary, with no validity filter.
   */
  function CalculateStats(users: JsValue, ranges: DateRanges, parse: DateParser): (r: UserStats)
    ensures !users.Arr? || users.items == [] ==> r == ZeroStats
    ensures users.Arr? && users.items != [] ==>
              r.todayJoined == CountSince(users.items, ranges.today, RecordStamp(parse)) &&
              r.thisWeekJoined == CountSince(users.items, ranges.weekAgo, RecordStamp(parse)) &&
              r.thisMonthJoined == CountSince(users.items, ranges.monthAgo, RecordStamp(parse))
    ensures users.Arr? ==> r.thisMonthJoined <= |users.items|
    ensures ranges.monthAgo <= ranges.weekAgo <= ranges.today ==> NestedStats(r)
  {
    if !users.Arr? || users.items == [] then ZeroStats
    else
      var stamp := RecordStamp(parse);
      CountsNested(users.items, ranges, stamp);
      UserStats(
        CountSince(users.items, ranges.today, stamp),
        CountSince(users.items, ranges.weekAgo, stamp),
        CountSince(users.items, ranges.monthAgo, stamp))
  }

  /** `err.response?.data?.message || err.message || 'Failed to load dashboard data'`. */
  function FailureMessage(err: JsValue): (m: JsValue)
    ensures Truthy(m)
    ensures Truthy(Get(ResponseData(err), "message")) ==> m == Get(ResponseData(err), "message")
    ensures !Truthy(Get(ResponseData(err), "message")) && Truthy(Get(err, "message")) ==> m == Get(err, "message")
    ensures !Truthy(Get(ResponseData(err), "message")) && !Truthy(Get(err, "message")) ==> m == Str(FailedToLoad)
  {
    Or(Get(ResponseData(err), "message"), Or(Get(err, "message"), Str(FailedToLoad)))
  }

  /** The `Error` thrown for a body that is not an object. */
  const InvalidFormatError: JsValue := Obj([("message", Str(InvalidResponseFormat))])

  lemma InvalidFormatMessage()
    ensures FailureMessage(InvalidFormatError) == Str(InvalidResponseFormat)
  {
  }

  // ------------------------------------------------------------ the component

  class DashboardState {
    /** `dateRanges` is memoised with no dependencies: computed once, at mount. */
    const dateRanges: DateRanges
    var loading: bool
    /** null, or the message shown in the error banner. */
    var error: JsValue
    var dashboardData: DashboardData
    /** null, or the instant of the last successful load. */
    var lastUpdated: Option<int>

    /** What every snapshot the component installs satisfies. */
    ghost predicate Valid()
      reads this
    {
      dateRanges.monthAgo <= dateRanges.weekAgo <= dateRanges.today &&
      dashboardData.totalUsers >= 0 &&
      |dashboardData.recentUsers| <= RecentUsersLimit &&
      (forall i :: 0 <= i < |dashboardData.recentUsers| ==> IsValidUser(dashboardData.recentUsers[i])) &&
      NestedStats(dashboardData.userStats)
    }

    constructor(mountTime: LocalDateTime)
      requires ValidDateTime(mountTime)
      ensures Valid()
      ensures dateRanges == GetDateRanges(mountTime)
      ensures loading && error == Null && dashboardData == EmptyData && lastUpdated == None
    {
      dateRanges := GetDateRanges(mountTime);
      loading := true;
      error := Null;
      dashboardData := EmptyData;
      lastUpdated := None;
    }

    /** The first two statements of `fetchDashboardData`. */
    method BeginFetch()
      requires Valid()
      modifies this
      ensures Valid()
      ensures loading && error == Null
      ensures dashboardData == old(dashboardData) && lastUpdated == old(lastUpdated)
    {
      loading := true;
      error := Null;
    }

    /** `handleRefresh`: ignored while loading, otherwise starts a fetch. */
    method HandleRefresh() returns (started: bool)
      requires Valid()
      modifies this
      ensures Valid()
      ensures started == !old(loading)
      ensures started ==> loading && error == Null
      ensures !started ==> loading && error == old(error)
      ensures dashboardData == old(dashboardData) && lastUpdated == old(lastUpdated)
    {
      if loading {
        return false;
      }
      BeginFetch();
      started := true;
    }

    /** The catch block and the finally: message, notification, zeroed snapshot, loading off. */
    method Fail(err: JsValue) returns (notification: JsValue)
      requires Valid()
      modifies this
      ensures Valid()
      ensures notification == FailureMessage(err) && error == notification
      ensures dashboardData == EmptyData
      ensures !loading && lastUpdated == old(lastUpdated)
    {
      notification := FailureMessage(err);
      error := notification;
      dashboardData := EmptyData;
      loading := false;
    }

    /**
     * The request resolved with body `body` at instant `now`. A falsy or
     * non-object body is thrown as 'Invalid response format'; anything else
     * becomes the new snapshot. Returns the notification, if one was raised.
     */
    method Resolve(body: JsValue, now: int, parse: DateParser) returns (notification: Option<JsValue>)
      requires Valid()
      modifies this
      ensures Valid()
      ensures !loading
      ensures notification.Some? <==> !Truthy(body) || !IsObjectType(body)
      ensures notification.Some? ==>
                notification.value == Str(InvalidResponseFormat) && error == notification.value &&
                dashboardData == EmptyData && lastUpdated == old(lastUpdated)
      ensures notification.None? ==>
                var users := if Get(body, "data").Arr? then Get(body, "data").items else [];
                dashboardData == DashboardData(
                  TotalUsers(Get(Get(body, "meta"), "total"), |users|),
                  RecentUsers(users),
                  CalculateStats(Arr(users), dateRanges, parse)) &&
                lastUpdated == Some(now) && error == old(error)
    {
      if !Truthy(body) || !IsObjectType(body) {
        var message := Fail(InvalidFormatError);
        return Some(message);
      }
      var data := Get(body, "data");
      Install(if data.Arr? then data.items else [], Get(Get(body, "meta"), "total"), now, parse);
      notification := None;
    }

    /**
     * The rest of the try block and the finally once the body passed the
     * format check and `users` is known: install the new snapshot.
     */
    method Install(users: seq<JsValue>, metaTotal: JsValue, now: int, parse: DateParser)
      requires Valid()
      modifies this
      ensures Valid()
      ensures dashboardData == DashboardData(
                TotalUsers(metaTotal, |users|),
                RecentUsers(users),
                CalculateStats(Arr(users), dateRanges, parse))
      ensures lastUpdated == Some(now) && error == old(error) && !loading
    {
      var total := TotalUsers(metaTotal, |users|);
      var recent := RecentUsers(users);
      var userStats := CalculateStats(Arr(users), dateRanges, parse);
      dashboardData := DashboardData(total, recent, userStats);
      lastUpdated := Some(now);
      loading := false;
    }

    /** The request was rejected with `err`. Returns the notification. */
    method Reject(err: JsValue) returns (notification: JsValue)
      requires Valid()
      modifies this
      ensures Valid()
      ensures notification == FailureMessage(err) && error == notification
      ensures dashboardData == EmptyData
      ensures !loading && lastUpdated == old(lastUpdated)
    {
      notification := Fail(err);
    }
  }
}
