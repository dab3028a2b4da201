/** internal/app/badge/service.go: awarding a user's badge for the current
    month, and listing a user's badges. */
module BadgeService {
  import opened AppErrors
  import opened Tables
  import opened Base
  import BadgeRepo

  /** Badge{}: Go's zero value, stamped with the zero time (1 January of
      year 1). */
  const ZeroBadge := Badge(0, 0, "", Timestamp(1, 1, 0))

  /** HandleBadgeCreation once the current-month lookup has answered: a badge
      found is returned and nothing is written; sql.ErrNoRows leads to the
      insert, after whose success control falls through to the final return,
      so Badge{} comes back with no error; any other error comes back with
      nothing written. */
  function HandleBadgeCreationWith(t: Tables, failing: set<Query>, userId: int, badgeType: string, now: Timestamp,
                                   lookup: Result<Badge>): (res: (Tables, Result<Badge>))
    ensures lookup.Ok? ==> res == (t, lookup)
    ensures lookup.Err? && !Is(lookup.error, NoRows) ==> res == (t, Err(lookup.error))
    ensures lookup.Err? && Is(lookup.error, NoRows) && CreateBadgeQuery !in failing ==>
      res == (t.(badges := t.badges + [Badge(|t.badges| + 1, userId, badgeType, now)]), Ok(ZeroBadge))
    ensures lookup.Err? && Is(lookup.error, NoRows) && CreateBadgeQuery in failing ==> res == (t, Err(ErrBadgeCreationFailed))
  {
    match lookup
    case Ok(b) => (t, Ok(b))
    case Err(e) =>
      if Is(e, NoRows) then
        var (t1, created) := BadgeRepo.CreateBadgeOn(t, failing, userId, badgeType, now);
        if created.Err? then (t, Err(created.error)) else (t1, Ok(ZeroBadge))
      else (t, Err(e))
  }

  /** HandleBadgeCreation over the current-month lookup that reports a
      missing row as sql.ErrNoRows. */
  function HandleBadgeCreationOn(t: Tables, failing: set<Query>, userId: int, badgeType: string, now: Timestamp): (res: (Tables, Result<Badge>))
    ensures res.0 != t <==>
      GetUserCurrentMonthBadgeQuery !in failing && CreateBadgeQuery !in failing
      && !BadgeRepo.HasBadgeThisMonth(t.badges, userId, now)
    ensures res.0 != t ==> res.0 == t.(badges := t.badges + [Badge(|t.badges| + 1, userId, badgeType, now)])
  {
    HandleBadgeCreationWith(t, failing, userId, badgeType, now, BadgeRepo.GetUserCurrentMonthBadge(t, failing, userId, now))
  }

  /** HandleBadgeCreation over the lookup as written, which reports a missing
      row as ErrBadgeCreationFailed. */
  function HandleBadgeCreationAsWrittenOn(t: Tables, failing: set<Query>, userId: int, badgeType: string, now: Timestamp): (res: (Tables, Result<Badge>))
  {
    HandleBadgeCreationWith(t, failing, userId, badgeType, now, BadgeRepo.GetUserCurrentMonthBadgeAsWritten(t, failing, userId, now))
  }

  /** With the lookup as written, a user who has no badge this month never
      gets one: the call fails with ErrBadgeCreationFailed and writes
      nothing. */
  lemma BadgeNeverCreatedAsWritten(t: Tables, failing: set<Query>, userId: int, badgeType: string, now: Timestamp)
    ensures HandleBadgeCreationAsWrittenOn(t, failing, userId, badgeType, now).0 == t
    ensures !BadgeRepo.HasBadgeThisMonth(t.badges, userId, now) ==>
      HandleBadgeCreationAsWrittenOn(t, failing, userId, badgeType, now) == (t, Err(ErrBadgeCreationFailed))
  {
  }

  method HandleBadgeCreation(db: Executer, userId: int, badgeType: string, now: Timestamp) returns (r: Result<Badge>)
    modifies db
    ensures (db.tables, r) == HandleBadgeCreationOn(old(db.tables), db.failing, userId, badgeType, now)
  {
    r := BadgeRepo.GetUserCurrentMonthBadge(db.tables, db.failing, userId, now);
    if r.Err? {
      if Is(r.error, NoRows) {
        r := BadgeRepo.CreateBadge(db, null, userId, badgeType, now);
        if r.Err? {
          return;
        }
        r := Ok(ZeroBadge);
        return;
      }
      r := Err(r.error);
    }
  }

  /** Awarding keeps serial badge ids and at most one badge per user and
      calendar month. */
  lemma HandleBadgeCreationKeepsOnePerMonth(t: Tables, failing: set<Query>, userId: int, badgeType: string, now: Timestamp)
    requires BadgeRepo.OneBadgePerMonth(t.badges) && ValidTime(now)
    requires SerialIds(t)
    ensures BadgeRepo.OneBadgePerMonth(HandleBadgeCreationOn(t, failing, userId, badgeType, now).0.badges)
    ensures SerialIds(HandleBadgeCreationOn(t, failing, userId, badgeType, now).0)
  {
    var res := HandleBadgeCreationOn(t, failing, userId, badgeType, now);
    if res.0 != t {
      BadgeRepo.AppendBadgeKeepsOnePerMonth(t.badges, Badge(|t.badges| + 1, userId, badgeType, now), now);
    }
  }

  /** A second award in the same calendar month writes nothing and returns
      the badge the first one stored. */
  lemma HandleBadgeCreationOncePerMonth(t: Tables, failing: set<Query>, userId: int, badgeType: string, now: Timestamp,
                                        badgeType2: string, later: Timestamp)
    requires ValidTime(now) && ValidTime(later) && later.year == now.year && later.month == now.month
    requires HandleBadgeCreationOn(t, failing, userId, badgeType, now).0 != t
    ensures var t1 := HandleBadgeCreationOn(t, failing, userId, badgeType, now).0;
            HandleBadgeCreationOn(t1, failing, userId, badgeType2, later).0 == t1
            && HandleBadgeCreationOn(t1, failing, userId, badgeType2, later).1.Ok?
  {
    var t1 := HandleBadgeCreationOn(t, failing, userId, badgeType, now).0;
    var i := |t.badges|;
    InMonthOfSameMonth(now, later);
    assert t1.badges[i].UserId == userId && InMonthOf(t1.badges[i].EarnedAt, later);
  }

  /** GetBadgeDetailsOfUser: the repository's rows copied into the service's
      badge type, in the same order. */
  method GetBadgeDetailsOfUser(db: Executer, userId: int) returns (r: Result<seq<Badge>>)
    ensures r == BadgeRepo.GetBadgeDetailsOfUser(db.tables, db.failing, userId)
  {
    var badges := BadgeRepo.GetBadgeDetailsOfUser(db.tables, db.failing, userId);
    if badges.Err? {
      return Err(badges.error);
    }
    var rows := badges.value;
    var serviceBadges: seq<Badge> := [];
    for i := 0 to |rows|
      invariant serviceBadges == rows[..i]
    {
      serviceBadges := serviceBadges + [rows[i]];
    }
    assert rows[..|rows|] == rows;
    return Ok(serviceBadges);
  }
}
