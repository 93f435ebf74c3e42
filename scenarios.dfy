/**
 * Worked examples of the statistics helpers: eight records against a reference
 * time of 2024-03-15 12:00, and the month boundary when the previous month is
 * shorter than the current day-of-month.
 */
module Scenarios {
  import opened Wrappers
  import opened Js
  import opened Calendar
  import opened DashboardUtils
  import DashboardNew

  /** A user record whose `created_at` is a millisecond timestamp. */
  function Record(id: int, email: string, createdAt: int): JsValue
  {
    Obj([("id", Num(id)), ("name", Str("user")), ("email", Str(email)), ("created_at", Num(createdAt))])
  }

  /** Midnight plus `hour` hours on day `date` of month `month` (0 = January) of 2024. */
  function At2024(month: int, date: int, hour: int): int
  {
    MakeDay(2024, month, date) * MsPerDay + hour * 3_600_000
  }

  function Reference(): LocalDateTime
  {
    LocalDateTime(2024, 2, 15, 12 * 3_600_000)
  }

  /** A and B today, C and D this week, E and F this month, G earlier, H today but without an email. */
  function EightRecords(): seq<JsValue>
  {
    [ Record(1, "a@example.com", 1710500400000),   // 2024-03-15 11:00
      Record(2, "b@example.com", 1710493200000),   // 2024-03-15 09:00
      Record(3, "c@example.com", 1710316800000),   // 2024-03-13 08:00
      Record(4, "d@example.com", 1710057600000),   // 2024-03-10 08:00
      Record(5, "e@example.com", 1709280000000),   // 2024-03-01 08:00
      Record(6, "f@example.com", 1708416000000),   // 2024-02-20 08:00
      Record(7, "g@example.com", 1704096000000),   // 2024-01-01 08:00
      Record(8, "", 1710496800000) ]               // 2024-03-15 10:00
  }

  lemma NewYear2024()
    ensures DayFromYear(2024) == 19723
  {
  }

  /** An instant in 2024 from the day count before its month. */
  lemma At2024Is(month: int, date: int, hour: int)
    requires 0 <= month < 12
    ensures At2024(month, date, hour) == (19723 + DaysBeforeMonth(2024, month) + date - 1) * MsPerDay + hour * 3_600_000
  {
    NewYear2024();
    MakeDayInYear(2024, month, date);
  }

  /** The timestamps above are the calendar instants their comments name. */
  lemma TodayTimestamps()
    ensures At2024(2, 15, 11) == 1710500400000 && At2024(2, 15, 9) == 1710493200000
    ensures At2024(2, 15, 10) == 1710496800000
  {
    At2024Is(2, 15, 11);
    At2024Is(2, 15, 9);
    At2024Is(2, 15, 10);
  }

  lemma WeekTimestamps()
    ensures At2024(2, 13, 8) == 1710316800000 && At2024(2, 10, 8) == 1710057600000
  {
    At2024Is(2, 13, 8);
    At2024Is(2, 10, 8);
  }

  lemma MonthTimestamps()
    ensures At2024(2, 1, 8) == 1709280000000 && At2024(1, 20, 8) == 1708416000000
  {
    At2024Is(2, 1, 8);
    At2024Is(1, 20, 8);
  }

  lemma YearTimestamps()
    ensures At2024(0, 1, 8) == 1704096000000
  {
    At2024Is(0, 1, 8);
  }

  /** The creation instants of the eight records are the calendar times named beside them. */
  lemma InstantsAreCalendarTimes()
    ensures Instants() ==
              [At2024(2, 15, 11), At2024(2, 15, 9), At2024(2, 13, 8), At2024(2, 10, 8),
               At2024(2, 1, 8), At2024(1, 20, 8), At2024(0, 1, 8), At2024(2, 15, 10)]
  {
    TodayTimestamps();
    WeekTimestamps();
    MonthTimestamps();
    YearTimestamps();
  }

  /** The four fields of a record read back as written. */
  lemma RecordFields(id: int, email: string, t: int)
    ensures Get(Record(id, email, t), "id") == Num(id)
    ensures Get(Record(id, email, t), "name") == Str("user")
    ensures Get(Record(id, email, t), "email") == Str(email)
    ensures Get(Record(id, email, t), "created_at") == Num(t)
  {
    var f := Record(id, email, t).fields;
    assert "id" != "name" && "id" != "email" && "id" != "created_at";
    assert "name" != "email" && "name" != "created_at" && "email" != "created_at";
    assert f[1..] == [("name", Str("user")), ("email", Str(email)), ("created_at", Num(t))];
    assert f[1..][1..] == [("email", Str(email)), ("created_at", Num(t))];
    assert f[1..][1..][1..] == [("created_at", Num(t))];
    assert Lookup(f, "name") == Lookup(f[1..], "name");
    assert Lookup(f, "email") == Lookup(f[1..], "email") == Lookup(f[1..][1..], "email");
    assert Lookup(f, "created_at") == Lookup(f[1..], "created_at") == Lookup(f[1..][1..], "created_at")
        == Lookup(f[1..][1..][1..], "created_at");
  }

  /** A record with a non-zero id is valid exactly when it has an email. */
  lemma RecordValid(id: int, email: string, t: int)
    requires id != 0 && t != 0
    ensures IsValidUser(Record(id, email, t)) <==> email != ""
  {
    RecordFields(id, email, t);
  }

  /**
   * A record with a non-zero id and an email is stamped with its timestamp (a
   * valid Date time value); without an email it is not.
   */
  lemma RecordStamped(id: int, email: string, t: int, parse: DateParser)
    requires id != 0 && t != 0 && -MaxTimeValue <= t <= MaxTimeValue
    ensures email != "" ==> ValidStamp(parse)(Record(id, email, t)) == Some(t)
    ensures email == "" ==> ValidStamp(parse)(Record(id, email, t)) == None
  {
    RecordFields(id, email, t);
    RecordValid(id, email, t);
    ValidStampMeans(parse, Record(id, email, t));
  }

  /** The boundaries on 2024-03-15 12:00: that midnight, 2024-03-08 and 2024-02-15. */
  lemma ReferenceRanges()
    ensures ValidDateTime(Reference())
    ensures GetDateRanges(Reference()) == DateRanges(1710460800000, 1709856000000, 1707955200000, 1710504000000)
    ensures At2024(2, 15, 0) == 1710460800000 && At2024(2, 8, 0) == 1709856000000
    ensures At2024(1, 15, 0) == 1707955200000 && At2024(2, 15, 12) == 1710504000000
  {
    NewYear2024();
  }

  /** The creation instants of the eight records, in order. */
  function Instants(): seq<int>
  {
    [1710500400000, 1710493200000, 1710316800000, 1710057600000,
     1709280000000, 1708416000000, 1704096000000, 1710496800000]
  }

  function Emails(): seq<string>
  {
    ["a@example.com", "b@example.com", "c@example.com", "d@example.com",
     "e@example.com", "f@example.com", "g@example.com", ""]
  }

  lemma EightRecordsShape()
    ensures |EightRecords()| == 8
    ensures forall i :: 0 <= i < 8 ==> EightRecords()[i] == Record(i + 1, Emails()[i], Instants()[i])
  {
  }

  /** Each record's creation instant as `countUsersByDate` sees it: H has none. */
  lemma StampAt(parse: DateParser, i: nat)
    requires i < 8
    ensures ValidStamp(parse)(EightRecords()[i]) == if i == 7 then None else Some(Instants()[i])
  {
    EightRecordsShape();
    RecordStamped(i + 1, Emails()[i], Instants()[i], parse);
  }

  /** Two today, four this week, six this month; the invalid record counts nowhere. */
  lemma EightRecordStats(parse: DateParser)
    ensures CalculateUserStats(Arr(EightRecords()), Reference(), parse) == UserStats(2, 4, 6)
  {
    ReferenceRanges();
    BucketCounts(parse);
  }

  lemma BucketCounts(parse: DateParser)
    ensures CountSince(EightRecords(), 1710460800000, ValidStamp(parse)) == 2
    ensures CountSince(EightRecords(), 1709856000000, ValidStamp(parse)) == 4
    ensures CountSince(EightRecords(), 1707955200000, ValidStamp(parse)) == 6
  {
    CountAt(parse, 1710460800000);
    CountAt(parse, 1709856000000);
    CountAt(parse, 1707955200000);
  }

  /** The count at a boundary is the number of the first seven instants at or after it. */
  lemma CountAt(parse: DateParser, bound: int)
    ensures CountSince(EightRecords(), bound, ValidStamp(parse)) ==
              (if Instants()[0] >= bound then 1 else 0) + (if Instants()[1] >= bound then 1 else 0) +
              (if Instants()[2] >= bound then 1 else 0) + (if Instants()[3] >= bound then 1 else 0) +
              (if Instants()[4] >= bound then 1 else 0) + (if Instants()[5] >= bound then 1 else 0) +
              (if Instants()[6] >= bound then 1 else 0)
  {
    var users, stamp := EightRecords(), ValidStamp(parse);
    forall i | 0 <= i < 8
      ensures Hit(stamp, users[i], bound) == if i < 7 && Instants()[i] >= bound then 1 else 0
    {
      StampAt(parse, i);
    }
    CountEight(users, bound, stamp);
  }

  function Hit(stamp: JsValue -> Option<int>, u: JsValue, bound: int): nat
  {
    if stamp(u).Some? && stamp(u).value >= bound then 1 else 0
  }

  /** CountSince over eight records, unfolded. */
  lemma CountEight(users: seq<JsValue>, bound: int, stamp: JsValue -> Option<int>)
    requires |users| == 8
    ensures CountSince(users, bound, stamp) ==
              Hit(stamp, users[0], bound) + Hit(stamp, users[1], bound) + Hit(stamp, users[2], bound) +
              Hit(stamp, users[3], bound) + Hit(stamp, users[4], bound) + Hit(stamp, users[5], bound) +
              Hit(stamp, users[6], bound) + Hit(stamp, users[7], bound)
  {
    var s := users;
    assert CountSince(s[7..], bound, stamp) == Hit(stamp, s[7], bound) by { assert s[7..][1..] == []; }
    assert CountSince(s[6..], bound, stamp) == Hit(stamp, s[6], bound) + CountSince(s[7..], bound, stamp) by { assert s[6..][1..] == s[7..]; }
    assert CountSince(s[5..], bound, stamp) == Hit(stamp, s[5], bound) + CountSince(s[6..], bound, stamp) by { assert s[5..][1..] == s[6..]; }
    assert CountSince(s[4..], bound, stamp) == Hit(stamp, s[4], bound) + CountSince(s[5..], bound, stamp) by { assert s[4..][1..] == s[5..]; }
    assert CountSince(s[3..], bound, stamp) == Hit(stamp, s[3], bound) + CountSince(s[4..], bound, stamp) by { assert s[3..][1..] == s[4..]; }
    assert CountSince(s[2..], bound, stamp) == Hit(stamp, s[2], bound) + CountSince(s[3..], bound, stamp) by { assert s[2..][1..] == s[3..]; }
    assert CountSince(s[1..], bound, stamp) == Hit(stamp, s[1], bound) + CountSince(s[2..], bound, stamp) by { assert s[1..][1..] == s[2..]; }
  }

  /** The first five records are valid, so they are the recent list; no server total means eight. */
  lemma EightRecordRecentAndTotal()
    ensures DashboardNew.RecentUsers(EightRecords()) == EightRecords()[..5]
    ensures DashboardNew.TotalUsers(Undefined, |EightRecords()|) == 8
  {
    EightRecordsShape();
    forall i | 0 <= i < 5
      ensures IsValidUser(EightRecords()[i])
    {
      RecordValid(i + 1, Emails()[i], Instants()[i]);
    }
    DashboardNew.RecentUsersOfValidPrefix(EightRecords());
  }

  /**
   * On 2024-03-31 the month boundary is "February 31st", which normalises to
   * March 2nd: 29 days back, not a clamp to February 29th.
   */
  lemma MonthOverflow()
    ensures ValidDateTime(LocalDateTime(2024, 2, 31, 0))
    ensures GetDateRanges(LocalDateTime(2024, 2, 31, 0)).monthAgo == At2024(2, 2, 0)
  {
  }
}
