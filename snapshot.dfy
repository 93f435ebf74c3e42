/** The snapshot both dashboard components keep in their `dashboardData` state. */
module Snapshot {
  import opened Js
  import opened DashboardUtils

  datatype DashboardData = DashboardData(totalUsers: int, recentUsers: seq<JsValue>, userStats: UserStats)

  /** The initial snapshot, and the one the new component installs after a failure. */
  const EmptyData: DashboardData := DashboardData(0, [], ZeroStats)

  /** The three bucket counts are nested. */
  predicate NestedStats(s: UserStats)
  {
    s.todayJoined <= s.thisWeekJoined <= s.thisMonthJoined
  }

  function Min(a: int, b: int): (m: int)
    ensures m <= a && m <= b && (m == a || m == b)
  {
    if a <= b then a else b
  }

  /** `users.slice(0, 5)`. */
  function FirstFive(users: seq<JsValue>): (r: seq<JsValue>)
    ensures |r| <= RecentUsersLimit && |r| <= |users|
    ensures |r| == Min(RecentUsersLimit, |users|) && r == users[..|r|]
  {
    users[..Min(RecentUsersLimit, |users|)]
  }
}
