/**
 * The original dashboard component: the same four pieces of state as the
 * revised one, but `.then`/`.catch` handlers with different rules: today is
 * counted by calendar day, the week and month counts are synthesised from it,
 * recent users are not validated, and a failure keeps the previous snapshot.
 */
module Dashboard {
  import opened Wrappers
  import opened Js
  import opened Calendar
  import opened DashboardUtils
  import opened Snapshot

  const FailedToLoad: string := "Failed to load dashboard data"

  // ------------------------------------------------------------ pure parts

  /**
   * Whether the `.then` handler runs to the end: reading `data.data` throws
   * on a null body, `slice` and `filter` throw unless `data.data` is an
   * array, and reading `created_at` throws on a null element.
   */
  predicate HandlerSucceeds(body: JsValue)
  {
    !IsNullish(body) && Get(body, "data").Arr? &&
    forall i :: 0 <= i < |Get(body, "data").items| ==> !IsNullish(Get(body, "data").items[i])
  }

  /** A body without a `data` array always fails, whatever else it carries. */
  lemma MissingDataFails(body: JsValue)
    requires !Get(body, "data").Arr?
    ensures !HandlerSucceeds(body)
  {
  }

  /** `data.meta?.total || users.length`, not clamped. */
  function TotalUsers(metaTotal: JsValue, count: nat): (r: int)
    ensures metaTotal.Num? && metaTotal.n != 0 ==> r == metaTotal.n
    ensures !Truthy(metaTotal) ==> r == count
  {
    var total := Or(metaTotal, Num(count));
    if total.Num? then total.n else count
  }

  /** A negative server total goes through to the display unchanged. */
  lemma NegativeTotalKept()
    ensures TotalUsers(Num(-3), 10) == -3
  {
  }

  /** The creation instant of a record whose creation falls on day `day`, else None. */
  function SameDayStamp(day: int, parse: DateParser): JsValue -> Option<int>
  {
    // `toDateString()` of an Invalid Date is "Invalid Date", never equal to today's
    (u: JsValue) =>
      var t := ToDate(Get(u, "created_at"), parse);
      if t.Some? && DayOf(t.value) == day then t else None
  }

  /** A record is stamped exactly when its `created_at` converts to an instant on day `day`. */
  lemma SameDayStampMeans(day: int, parse: DateParser, u: JsValue)
    ensures SameDayStamp(day, parse)(u).Some? <==>
              ToDate(Get(u, "created_at"), parse).Some? && DayOf(ToDate(Get(u, "created_at"), parse).value) == day
    ensures SameDayStamp(day, parse)(u).Some? ==> DayOf(SameDayStamp(day, parse)(u).value) == day
  {
  }

  /**
   * `toDateString()` equality as the model reads it: a record created at the
   * local reading `created` falls on the day of the reading `now` exactly when
   * the two readings have the same calendar day number.
   */
  lemma SameDayOfReadings(created: LocalDateTime, now: LocalDateTime, parse: DateParser, u: JsValue)
    requires ValidDateTime(created) && ValidDateTime(now)
    requires ToDate(Get(u, "created_at"), parse) == Some(InstantOf(created))
    ensures SameDayStamp(DayOf(InstantOf(now)), parse)(u).Some? <==>
              MakeDay(created.year, created.month, created.date) == MakeDay(now.year, now.month, now.date)
  {
    DayOfInstant(created);
    DayOfInstant(now);
  }

  /** `users.filter(u => same calendar day as now).length`. */
  function TodayJoined(users: seq<JsValue>, now: int, parse: DateParser): (r: nat)
    ensures r <= |users|
  {
    CountStamped(users, SameDayStamp(DayOf(now), parse))
  }

  /** Every record created on the current calendar day is counted, so a list made only of them counts in full. */
  lemma {:induction false} AllCreatedTodayCounted(users: seq<JsValue>, now: int, parse: DateParser)
    requires forall i :: 0 <= i < |users| ==>
               ToDate(Get(users[i], "created_at"), parse).Some? &&
               DayOf(ToDate(Get(users[i], "created_at"), parse).value) == DayOf(now)
    ensures TodayJoined(users, now, parse) == |users|
  {
    if users != [] {
      assert forall i :: 0 <= i < |users| - 1 ==> users[1..][i] == users[i + 1];
      AllCreatedTodayCounted(users[1..], now, parse);
    }
  }

  /** A record whose creation cannot be read, or falls on another day, adds nothing to the count. */
  lemma TodayJoinedSkips(u: JsValue, rest: seq<JsValue>, now: int, parse: DateParser)
    requires ToDate(Get(u, "created_at"), parse).None? ||
             DayOf(ToDate(Get(u, "created_at"), parse).value) != DayOf(now)
    ensures TodayJoined([u] + rest, now, parse) == TodayJoined(rest, now, parse)
  {
    assert ([u] + rest)[1..] == rest;
  }

  /**
   * The stats the `.then` handler stores from today's count and the list
   * length: the week and month figures are made up from today's, capped at
   * the list length.
   */
  function SynthesisedStats(todayJoined: nat, count: nat): (r: UserStats)
    ensures r.todayJoined == todayJoined
    ensures r.thisWeekJoined == Min(todayJoined + 3, count) && r.thisMonthJoined == Min(todayJoined + 8, count)
    ensures r.thisWeekJoined <= count && r.thisMonthJoined <= count
    ensures todayJoined <= count ==> NestedStats(r)
    ensures todayJoined + 8 <= count ==> r.thisWeekJoined == todayJoined + 3 && r.thisMonthJoined == todayJoined + 8
  {
    UserStats(todayJoined, Min(todayJoined + 3, count), Min(todayJoined + 8, count))
  }

  /** With ten records and none created today the display claims three this week and eight this month. */
  lemma SynthesisedFromNothing(users: seq<JsValue>, now: int, parse: DateParser)
    requires |users| == 10
    requires forall i :: 0 <= i < |users| ==> Get(users[i], "created_at") == Undefined
    ensures SynthesisedStats(TodayJoined(users, now, parse), |users|) == UserStats(0, 3, 8)
  {
    NoneStampedToday(users, DayOf(now), parse);
  }

  lemma {:induction false} NoneStampedToday(users: seq<JsValue>, day: int, parse: DateParser)
    requires forall i :: 0 <= i < |users| ==> Get(users[i], "created_at") == Undefined
    ensures CountStamped(users, SameDayStamp(day, parse)) == 0
  {
    if users != [] {
      assert forall i :: 0 <= i < |users| - 1 ==> users[1..][i] == users[i + 1];
      NoneStampedToday(users[1..], day, parse);
    }
  }

  /** `err.response?.data?.message || 'Failed to load dashboard data'`: the exception's own message is never shown. */
  function FailureMessage(err: JsValue): (m: JsValue)
    ensures Truthy(m)
    ensures Truthy(Get(ResponseData(err), "message")) ==> m == Get(ResponseData(err), "message")
    ensures !Truthy(Get(ResponseData(err), "message")) ==> m == Str(FailedToLoad)
  {
    Or(Get(ResponseData(err), "message"), Str(FailedToLoad))
  }

  /** An error without a server response, such as the handler's own TypeError, shows the fixed message. */
  lemma LocalErrorShowsFixedMessage(message: string)
    ensures FailureMessage(Obj([("message", Str(message))])) == Str(FailedToLoad)
  {
  }

  // ------------------------------------------------------------ the component

  class DashboardState {
    var loading: bool
    /** null, or the message shown in the error banner. */
    var error: JsValue
    /** The instant of the last successful load; the mount time to begin with. */
    var lastUpdated: Option<int>
    var dashboardData: DashboardData

    /** What every snapshot the component installs satisfies. */
    ghost predicate Valid()
      reads this
    {
      |dashboardData.recentUsers| <= RecentUsersLimit &&
      NestedStats(dashboardData.userStats) &&
      lastUpdated.Some?
    }

    constructor(mountTime: int)
      ensures Valid()
      ensures !loading && error == Null && lastUpdated == Some(mountTime) && dashboardData == EmptyData
    {
      loading := false;
      error := Null;
      lastUpdated := Some(mountTime);
      dashboardData := EmptyData;
    }

    /** The two statements before the request in `fetchDashboardData`. */
    method BeginFetch()
      requires Valid()
      modifies this
      ensures Valid()
      ensures loading && error == Null
      ensures dashboardData == old(dashboardData) && lastUpdated == old(lastUpdated)
    {
      loading := true;
      error := Null;
    }

    /** `handleRefresh`: ignored while loading, otherwise starts a fetch. */
    method HandleRefresh() returns (started: bool)
      requires Valid()
      modifies this
      ensures Valid()
      ensures started == !old(loading)
      ensures started ==> loading && error == Null
      ensures !started ==> loading && error == old(error)
      ensures dashboardData == old(dashboardData) && lastUpdated == old(lastUpdated)
    {
      if loading {
        return false;
      }
      BeginFetch();
      started := true;
    }

    /** The `.catch` handler: set the message, stop loading, keep the snapshot. */
    method Reject(err: JsValue)
      requires Valid()
      modifies this
      ensures Valid()
      ensures error == FailureMessage(err) && !loading
      ensures dashboardData == old(dashboardData) && lastUpdated == old(lastUpdated)
    {
      error := FailureMessage(err);
      loading := false;
    }

    /**
     * The `.then` handler once `data.data` is known to be an array `users`
     * of non-null records: install the new snapshot and clear the error.
     */
    method Install(users: seq<JsValue>, metaTotal: JsValue, now: int, parse: DateParser)
      requires Valid()
      requires forall i :: 0 <= i < |users| ==> !IsNullish(users[i])
      modifies this
      ensures Valid()
      ensures dashboardData == DashboardData(
                TotalUsers(metaTotal, |users|),
                FirstFive(users),
                SynthesisedStats(TodayJoined(users, now, parse), |users|))
      ensures lastUpdated == Some(now) && error == Null && !loading
    {
      var total := TotalUsers(metaTotal, |users|);
      var recent := FirstFive(users);
      var todayJoined := TodayJoined(users, now, parse);
      var userStats := SynthesisedStats(todayJoined, |users|);
      dashboardData := DashboardData(total, recent, userStats);
      lastUpdated := Some(now);
      error := Null;
      loading := false;
    }

    /**
     * The request resolved with body `body` at instant `now`. When the
     * `.then` handler throws, the `.catch` handler runs with that TypeError.
     */
    method Resolve(body: JsValue, now: int, parse: DateParser)
      requires Valid()
      modifies this
      ensures Valid()
      ensures !loading
      ensures HandlerSucceeds(body) ==>
                var users := Get(body, "data").items;
                dashboardData == DashboardData(
                  TotalUsers(Get(Get(body, "meta"), "total"), |users|),
                  FirstFive(users),
                  SynthesisedStats(TodayJoined(users, now, parse), |users|)) &&
                lastUpdated == Some(now) && error == Null
      ensures !HandlerSucceeds(body) ==>
                error == Str(FailedToLoad) &&
                dashboardData == old(dashboardData) && lastUpdated == old(lastUpdated)
    {
      if !HandlerSucceeds(body) {
        TypeErrorShowsFixedMessage();
        Reject(TypeError);
      } else {
        Install(Get(body, "data").items, Get(Get(body, "meta"), "total"), now, parse);
      }
    }
  }

  /** The TypeError a throwing `.then` handler passes on: it has no `response`. */
  const TypeErrorMessage: string := "Cannot read properties of undefined"
  const TypeError: JsValue := Obj([("message", Str(TypeErrorMessage))])

  lemma TypeErrorShowsFixedMessage()
    ensures FailureMessage(TypeError) == Str(FailedToLoad)
  {
    LocalErrorShowsFixedMessage(TypeErrorMessage);
  }
}
