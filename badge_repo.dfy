/** internal/repository/badge.go: the badges table.  `now` stands for the
    clock: the time the badge is stamped with, and the day whose calendar
    month the current-month lookup covers. */
module BadgeRepo {
  import opened AppErrors
  import opened Tables
  import opened Base
  import opened Ordering

  function EarnedAt(b: Badge): Timestamp { b.EarnedAt }

  function BadgeOfUser(userId: int): Badge -> bool
  {
    (b: Badge) => b.UserId == userId
  }

  /** A badge of the user earned in the calendar month of `now`, of any type. */
  function EarnedThisMonth(userId: int, now: Timestamp): Badge -> bool
  {
    (b: Badge) => b.UserId == userId && InMonthOf(b.EarnedAt, now)
  }

  predicate HasBadgeThisMonth(bs: seq<Badge>, userId: int, now: Timestamp)
  {
    exists i :: 0 <= i < |bs| && bs[i].UserId == userId && InMonthOf(bs[i].EarnedAt, now)
  }

  /** GetUserCurrentMonthBadge as written: every failure, the absence of a
      row included, is reported as ErrBadgeCreationFailed. */
  function GetUserCurrentMonthBadgeAsWritten(t: Tables, failing: set<Query>, userId: int, now: Timestamp): (r: Result<Badge>)
    ensures r.Err? ==> r.error == ErrBadgeCreationFailed
    ensures r.Err? <==> GetUserCurrentMonthBadgeQuery in failing || !HasBadgeThisMonth(t.badges, userId, now)
    ensures r.Ok? ==> r.value in t.badges && r.value.UserId == userId && InMonthOf(r.value.EarnedAt, now)
  {
    if GetUserCurrentMonthBadgeQuery in failing then Err(ErrBadgeCreationFailed)
    else
      match Find(t.badges, EarnedThisMonth(userId, now))
      case None => Err(ErrBadgeCreationFailed)
      case Some(b) => Ok(b)
  }

  /** GetUserCurrentMonthBadge as its caller expects it: the absence of a row
      is reported as sql.ErrNoRows and a driver failure as it is. */
  function GetUserCurrentMonthBadge(t: Tables, failing: set<Query>, userId: int, now: Timestamp): (r: Result<Badge>)
    ensures r.Err? ==> r.error in {NoRows, DbFailure}
    ensures r == Err(DbFailure) <==> GetUserCurrentMonthBadgeQuery in failing
    ensures r == Err(NoRows) <==> GetUserCurrentMonthBadgeQuery !in failing && !HasBadgeThisMonth(t.badges, userId, now)
    ensures r.Ok? ==> r.value in t.badges && r.value.UserId == userId && InMonthOf(r.value.EarnedAt, now)
  {
    if GetUserCurrentMonthBadgeQuery in failing then Err(DbFailure)
    else
      match Find(t.badges, EarnedThisMonth(userId, now))
      case None => Err(NoRows)
      case Some(b) => Ok(b)
  }

  /** The insert of CreateBadge: the user, the type and `now` as earned_at
      are stored under the next serial id; a failure is
      ErrBadgeCreationFailed with nothing stored. */
  function CreateBadgeOn(t: Tables, failing: set<Query>, userId: int, badgeType: string, now: Timestamp): (res: (Tables, Result<Badge>))
    ensures res.1.Err? <==> CreateBadgeQuery in failing
    ensures res.1.Err? ==> res.1.error == ErrBadgeCreationFailed && res.0 == t
    ensures res.1.Ok? ==> res.1.value == Badge(|t.badges| + 1, userId, badgeType, now)
                          && res.0 == t.(badges := t.badges + [res.1.value])
    ensures SerialIds(t) ==> SerialIds(res.0)
  {
    if CreateBadgeQuery in failing then (t, Err(ErrBadgeCreationFailed))
    else
      var b := Badge(|t.badges| + 1, userId, badgeType, now);
      (t.(badges := t.badges + [b]), Ok(b))
  }

  method CreateBadge(db: Executer, tx: Tx?, userId: int, badgeType: string, now: Timestamp) returns (r: Result<Badge>)
    modifies InitiateQueryExecuter(db, tx)
    ensures (InitiateQueryExecuter(db, tx).tables, r)
            == CreateBadgeOn(old(InitiateQueryExecuter(db, tx).tables), InitiateQueryExecuter(db, tx).failing, userId, badgeType, now)
  {
    var executer := InitiateQueryExecuter(db, tx);
    var res := CreateBadgeOn(executer.tables, executer.failing, userId, badgeType, now);
    executer.tables := res.0;
    r := res.1;
  }

  /** GetBadgeDetailsOfUser: the user's badges, latest first (none gives the
      empty list); a driver error is returned as it is. */
  function GetBadgeDetailsOfUser(t: Tables, failing: set<Query>, userId: int): (r: Result<seq<Badge>>)
    ensures r.Err? <==> GetBadgeDetailsOfUserQuery in failing
    ensures r.Err? ==> r.error == DbFailure
    ensures r.Ok? ==> SortedDesc(r.value, EarnedAt)
                      && multiset(r.value) == multiset(Filter(t.badges, BadgeOfUser(userId)))
    ensures r.Ok? && (forall i :: 0 <= i < |t.badges| ==> t.badges[i].UserId != userId) ==> r.value == []
  {
    if GetBadgeDetailsOfUserQuery in failing then Err(DbFailure)
    else
      var rows := Filter(t.badges, BadgeOfUser(userId));
      SortDescSortsAndPermutes(rows, EarnedAt);
      FilterMembers(t.badges, BadgeOfUser(userId));
      Ok(SortDesc(rows, EarnedAt))
  }

  // ---- at most one badge per user and calendar month ----

  /** Every badge is stamped with a valid month, and no user holds two badges
      earned in the same calendar month. */
  predicate OneBadgePerMonth(bs: seq<Badge>)
  {
    (forall i :: 0 <= i < |bs| ==> ValidTime(bs[i].EarnedAt))
    && forall i, j :: 0 <= i < j < |bs| && bs[i].UserId == bs[j].UserId ==>
         !(bs[i].EarnedAt.year == bs[j].EarnedAt.year && bs[i].EarnedAt.month == bs[j].EarnedAt.month)
  }

  /** A badge stamped `now` for a user with no badge in the month of `now`
      keeps at most one badge per user and month. */
  lemma {:induction false} AppendBadgeKeepsOnePerMonth(bs: seq<Badge>, b: Badge, now: Timestamp)
    requires OneBadgePerMonth(bs) && ValidTime(now)
    requires b.EarnedAt == now && !HasBadgeThisMonth(bs, b.UserId, now)
    ensures OneBadgePerMonth(bs + [b])
  {
    var s := bs + [b];
    forall i, j | 0 <= i < j < |s| && s[i].UserId == s[j].UserId
      ensures !(s[i].EarnedAt.year == s[j].EarnedAt.year && s[i].EarnedAt.month == s[j].EarnedAt.month)
    {
      if j == |bs| {
        InMonthOfSameMonth(bs[i].EarnedAt, now);
      }
    }
  }
}
