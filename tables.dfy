/** The persisted state the repositories under internal/repository read and
    write: one sequence of rows per table, in insertion order.  Every table
    has a serial id column, so the row inserted into a table holding n rows
    gets id n + 1.  The created_at/updated_at columns the database fills in
    by default are not kept. */
module Tables {
  import opened AppErrors

  /** A point in time: its calendar year and month, and its position within
      that month.  Timestamps are ordered by year, then month, then position. */
  datatype Timestamp = Timestamp(year: int, month: int, offset: nat)

  predicate ValidTime(t: Timestamp) { 1 <= t.month <= 12 }

  predicate Before(a: Timestamp, b: Timestamp)
  {
    a.year < b.year
    || (a.year == b.year && a.month < b.month)
    || (a.year == b.year && a.month == b.month && a.offset < b.offset)
  }

  predicate AtOrBefore(a: Timestamp, b: Timestamp) { !Before(b, a) }

  /** DATE_TRUNC('month', t). */
  function MonthStart(t: Timestamp): Timestamp { Timestamp(t.year, t.month, 0) }

  /** DATE_TRUNC('month', t + INTERVAL '1 month'). */
  function NextMonthStart(t: Timestamp): Timestamp
  {
    if t.month == 12 then Timestamp(t.year + 1, 1, 0) else Timestamp(t.year, t.month + 1, 0)
  }

  /** t lies in [start of the month of `day`, start of the next month). */
  predicate InMonthOf(t: Timestamp, day: Timestamp)
  {
    AtOrBefore(MonthStart(day), t) && Before(t, NextMonthStart(day))
  }

  /** The half-open window of the current-month queries is exactly the
      calendar month. */
  lemma InMonthOfSameMonth(t: Timestamp, day: Timestamp)
    requires ValidTime(t) && ValidTime(day)
    ensures InMonthOf(t, day) <==> (t.year == day.year && t.month == day.month)
  {
  }

  datatype User = User(
    Id: int, GithubId: int, GithubUsername: string, Email: string, AvatarUrl: string,
    CurrentBalance: int, IsBlocked: bool, IsAdmin: bool, CreatedAt: Timestamp, UpdatedAt: Timestamp)

  datatype Repository = Repository(
    Id: int, GithubRepoId: int, RepoName: string, Description: string, LanguagesUrl: string,
    RepoUrl: string, OwnerName: string, UpdateDate: Timestamp, ContributorsUrl: string)

  datatype ContributionScore = ContributionScore(Id: int, AdminId: int, ContributionType: string, Score: int)

  datatype Contribution = Contribution(
    Id: int, UserId: int, RepositoryId: int, ContributionScoreId: int, ContributionType: string,
    BalanceChange: int, ContributedAt: Timestamp, GithubEventId: string)

  datatype Transaction = Transaction(
    Id: int, UserId: int, ContributionId: int, IsRedeemed: bool, IsGained: bool,
    TransactedBalance: int, TransactedAt: Timestamp)

  datatype Badge = Badge(Id: int, UserId: int, BadgeType: string, EarnedAt: Timestamp)

  datatype Goal = Goal(Id: int, Level: string)

  datatype GoalContribution = GoalContribution(
    Id: int, GoalId: int, ContributionScoreId: int, TargetCount: int, IsCustom: bool, SetByUserId: int)

  datatype Tables = Tables(
    users: seq<User>,
    repositories: seq<Repository>,
    scores: seq<ContributionScore>,
    contributions: seq<Contribution>,
    transactions: seq<Transaction>,
    badges: seq<Badge>,
    goals: seq<Goal>,
    goalTargets: seq<GoalContribution>)

  /** The statements the repositories run.  A database in the model is given
      the set of statements that fail on it with a driver error. */
  datatype Query =
    | Begin | Commit | Rollback
    | CreateContributionQuery | GetContributionScoreByTypeQuery | FetchUserContributionsQuery
    | GetContributionByGithubEventIdQuery | GetAllContributionTypesQuery | MonthlyContributionSummaryQuery
    | CreateTransactionQuery | GetTransactionByContributionIdQuery | UpdateUserBalanceQuery
    | GetUserCurrentMonthBadgeQuery | CreateBadgeQuery | GetBadgeDetailsOfUserQuery
    | GetUserByGithubIdQuery | GetUserByIdQuery | CreateUserQuery | UpdateEmailQuery
    | GetRepoByGithubIdQuery | GetRepoByIdQuery | CreateRepositoryQuery
    | UserRepoTotalCoinsQuery | UsersContributedReposQuery | UserContributionsInRepoQuery
    | CreateGoalTargetQuery

  // ---- generic first-match, filter and sum over a table ----

  /** The first row satisfying p, as `SELECT ... LIMIT 1` in table order. */
  function Find<T>(s: seq<T>, p: T -> bool): (r: Option<T>)
    ensures r.Some? ==> r.value in s && p(r.value)
    ensures r.None? <==> (forall i :: 0 <= i < |s| ==> !p(s[i]))
  {
    if |s| == 0 then None else if p(s[0]) then Some(s[0]) else Find(s[1..], p)
  }

  lemma {:induction false} FindAppend<T>(s: seq<T>, x: T, p: T -> bool)
    ensures Find(s + [x], p) == if Find(s, p).Some? then Find(s, p) else if p(x) then Some(x) else None
  {
    if |s| > 0 {
      assert (s + [x])[1..] == s[1..] + [x];
      FindAppend(s[1..], x, p);
    }
  }

  /** With at most one row satisfying p, Find returns that row. */
  lemma {:induction false} FindUnique<T>(s: seq<T>, p: T -> bool, i: int)
    requires 0 <= i < |s| && p(s[i])
    requires forall j :: 0 <= j < |s| && p(s[j]) ==> j == i
    ensures Find(s, p) == Some(s[i])
  {
    if i > 0 {
      FindUnique(s[1..], p, i - 1);
    }
  }

  /** The rows satisfying p, in table order. */
  function Filter<T>(s: seq<T>, p: T -> bool): (r: seq<T>)
    ensures |r| <= |s|
  {
    if |s| == 0 then [] else (if p(s[0]) then [s[0]] else []) + Filter(s[1..], p)
  }

  /** Filter keeps exactly the rows satisfying p, and nothing when no row
      does. */
  lemma {:induction false} FilterMembers<T(!new)>(s: seq<T>, p: T -> bool)
    ensures forall x :: x in Filter(s, p) <==> x in s && p(x)
    ensures (forall i :: 0 <= i < |s| ==> !p(s[i])) ==> Filter(s, p) == []
  {
    if |s| > 0 {
      FilterMembers(s[1..], p);
      assert s == [s[0]] + s[1..];
    }
  }

  lemma {:induction false} FilterAppend<T>(s: seq<T>, x: T, p: T -> bool)
    ensures Filter(s + [x], p) == Filter(s, p) + (if p(x) then [x] else [])
  {
    if |s| > 0 {
      assert (s + [x])[1..] == s[1..] + [x];
      FilterAppend(s[1..], x, p);
    }
  }

  // ---- ledger ----

  /** The sum of the balances of the transactions of one user. */
  function Credited(txs: seq<Transaction>, userId: int): int
  {
    if |txs| == 0 then 0
    else Credited(txs[..|txs| - 1], userId)
         + (if txs[|txs| - 1].UserId == userId then txs[|txs| - 1].TransactedBalance else 0)
  }

  /** Adds `amount` to the balance of the user whose id is `userId`, as the
      balance update does; other users are untouched. */
  function CreditUser(users: seq<User>, userId: int, amount: int): (r: seq<User>)
    ensures |r| == |users|
    ensures forall i :: 0 <= i < |users| ==>
      r[i] == if users[i].Id == userId then users[i].(CurrentBalance := users[i].CurrentBalance + amount) else users[i]
  {
    if |users| == 0 then []
    else
      [if users[0].Id == userId then users[0].(CurrentBalance := users[0].CurrentBalance + amount) else users[0]]
      + CreditUser(users[1..], userId, amount)
  }

  // ---- the invariant the pipeline keeps ----

  predicate SerialIds(t: Tables)
  {
    (forall i :: 0 <= i < |t.users| ==> t.users[i].Id == i + 1)
    && (forall i :: 0 <= i < |t.repositories| ==> t.repositories[i].Id == i + 1)
    && (forall i :: 0 <= i < |t.contributions| ==> t.contributions[i].Id == i + 1)
    && (forall i :: 0 <= i < |t.transactions| ==> t.transactions[i].Id == i + 1)
    && (forall i :: 0 <= i < |t.badges| ==> t.badges[i].Id == i + 1)
  }

  /** At most one contribution per GitHub event id. */
  predicate UniqueEventIds(cs: seq<Contribution>)
  {
    forall i, j :: 0 <= i < j < |cs| ==> cs[i].GithubEventId != cs[j].GithubEventId
  }

  /** At most one transaction per contribution. */
  predicate UniqueContributionIds(txs: seq<Transaction>)
  {
    forall i, j :: 0 <= i < j < |txs| ==> txs[i].ContributionId != txs[j].ContributionId
  }

  /** At most one repository per GitHub repository id. */
  predicate UniqueGithubRepoIds(rs: seq<Repository>)
  {
    forall i, j :: 0 <= i < j < |rs| ==> rs[i].GithubRepoId != rs[j].GithubRepoId
  }

  /** At most one user per GitHub id. */
  predicate UniqueGithubIds(us: seq<User>)
  {
    forall i, j :: 0 <= i < j < |us| ==> us[i].GithubId != us[j].GithubId
  }

  /** Every balance is the sum of that user's transactions. */
  predicate LedgerBalanced(t: Tables)
  {
    forall i :: 0 <= i < |t.users| ==> t.users[i].CurrentBalance == Credited(t.transactions, t.users[i].Id)
  }

  predicate Consistent(t: Tables)
  {
    SerialIds(t)
    && UniqueEventIds(t.contributions)
    && UniqueContributionIds(t.transactions)
    && UniqueGithubRepoIds(t.repositories)
    && UniqueGithubIds(t.users)
    && LedgerBalanced(t)
  }

  /** Appending a transaction and crediting its amount to its user keeps
      every balance equal to the sum of that user's transactions. */
  lemma CreditKeepsLedger(t: Tables, row: Transaction)
    requires LedgerBalanced(t)
    ensures LedgerBalanced(t.(transactions := t.transactions + [row],
                              users := CreditUser(t.users, row.UserId, row.TransactedBalance)))
  {
    var txs := t.transactions + [row];
    assert txs[..|txs| - 1] == t.transactions;
  }
}
