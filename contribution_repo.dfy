/** internal/repository/contribution.go: the contributions and
    contribution_score tables. */
module ContributionRepo {
  import opened AppErrors
  import opened Tables
  import opened Base
  import opened Ordering

  function WithEventId(githubEventId: string): Contribution -> bool
  {
    (c: Contribution) => c.GithubEventId == githubEventId
  }

  function WithType(contributionType: string): ContributionScore -> bool
  {
    (s: ContributionScore) => s.ContributionType == contributionType
  }

  function OfUser(userId: int): Contribution -> bool
  {
    (c: Contribution) => c.UserId == userId
  }

  function ContributedAt(c: Contribution): Timestamp { c.ContributedAt }

  predicate HasEvent(cs: seq<Contribution>, githubEventId: string)
  {
    exists i :: 0 <= i < |cs| && cs[i].GithubEventId == githubEventId
  }

  /** GetContributionByGithubEventId: no row is ErrContributionNotFound, any
      other failure ErrFetchingContribution. */
  function GetContributionByGithubEventId(t: Tables, failing: set<Query>, githubEventId: string): (r: Result<Contribution>)
    ensures r.Ok? ==> r.value in t.contributions && r.value.GithubEventId == githubEventId
    ensures r.Err? ==> r.error in {ErrContributionNotFound, ErrFetchingContribution}
    ensures r == Err(ErrFetchingContribution) <==> GetContributionByGithubEventIdQuery in failing
    ensures r == Err(ErrContributionNotFound) <==>
      GetContributionByGithubEventIdQuery !in failing && !HasEvent(t.contributions, githubEventId)
  {
    if GetContributionByGithubEventIdQuery in failing then Err(ErrFetchingContribution)
    else
      match Find(t.contributions, WithEventId(githubEventId))
      case None => Err(ErrContributionNotFound)
      case Some(c) => Ok(c)
  }

  /** GetContributionScoreDetailsByContributionType: no row is
      ErrContributionScoreNotFound; a driver error is returned as it is. */
  function GetContributionScoreDetailsByContributionType(t: Tables, failing: set<Query>, contributionType: string): (r: Result<ContributionScore>)
    ensures r.Ok? ==> r.value in t.scores && r.value.ContributionType == contributionType
    ensures r.Err? ==> r.error in {ErrContributionScoreNotFound, DbFailure}
    ensures r == Err(DbFailure) <==> GetContributionScoreByTypeQuery in failing
    ensures r == Err(ErrContributionScoreNotFound) <==>
      GetContributionScoreByTypeQuery !in failing
      && (forall i :: 0 <= i < |t.scores| ==> t.scores[i].ContributionType != contributionType)
  {
    if GetContributionScoreByTypeQuery in failing then Err(DbFailure)
    else
      match Find(t.scores, WithType(contributionType))
      case None => Err(ErrContributionScoreNotFound)
      case Some(s) => Ok(s)
  }

  /** The insert of CreateContribution on a table state: the seven given
      columns are stored under the next serial id and the stored row is
      returned.  A driver failure, or a second row for the same event id (the
      unique constraint), is ErrContributionCreationFailed with nothing
      stored. */
  function CreateContributionOn(t: Tables, failing: set<Query>, info: Contribution): (res: (Tables, Result<Contribution>))
    ensures res.1.Err? <==> CreateContributionQuery in failing || HasEvent(t.contributions, info.GithubEventId)
    ensures res.1.Err? ==> res.1.error == ErrContributionCreationFailed && res.0 == t
    ensures res.1.Ok? ==> res.1.value == info.(Id := |t.contributions| + 1)
                          && res.0 == t.(contributions := t.contributions + [res.1.value])
    ensures UniqueEventIds(t.contributions) ==> UniqueEventIds(res.0.contributions)
    ensures SerialIds(t) ==> SerialIds(res.0)
  {
    if CreateContributionQuery in failing || HasEvent(t.contributions, info.GithubEventId) then
      (t, Err(ErrContributionCreationFailed))
    else
      var row := info.(Id := |t.contributions| + 1);
      (t.(contributions := t.contributions + [row]), Ok(row))
  }

  method CreateContribution(db: Executer, tx: Tx?, info: Contribution) returns (r: Result<Contribution>)
    modifies InitiateQueryExecuter(db, tx)
    ensures (InitiateQueryExecuter(db, tx).tables, r)
            == CreateContributionOn(old(InitiateQueryExecuter(db, tx).tables), InitiateQueryExecuter(db, tx).failing, info)
  {
    var executer := InitiateQueryExecuter(db, tx);
    var res := CreateContributionOn(executer.tables, executer.failing, info);
    executer.tables := res.0;
    r := res.1;
  }

  /** FetchUserContributions: needs an int user id in the request context;
      returns that user's contributions, latest first. */
  function FetchUserContributions(t: Tables, failing: set<Query>, ctxUserId: Option<int>): (r: Result<seq<Contribution>>)
    ensures ctxUserId.None? ==> r == Err(ErrInternalServer)
    ensures ctxUserId.Some? ==> (r.Err? <==> FetchUserContributionsQuery in failing)
    ensures ctxUserId.Some? && r.Err? ==> r.error == ErrFetchingAllContributions
    ensures r.Ok? ==> SortedDesc(r.value, ContributedAt)
                      && multiset(r.value) == multiset(Filter(t.contributions, OfUser(ctxUserId.value)))
  {
    match ctxUserId
    case None => Err(ErrInternalServer)
    case Some(userId) =>
      if FetchUserContributionsQuery in failing then Err(ErrFetchingAllContributions)
      else
        var rows := Filter(t.contributions, OfUser(userId));
        SortDescSortsAndPermutes(rows, ContributedAt);
        Ok(SortDesc(rows, ContributedAt))
  }

  /** GetAllContributionTypes: every row of contribution_score. */
  function GetAllContributionTypes(t: Tables, failing: set<Query>): (r: Result<seq<ContributionScore>>)
    ensures r.Err? <==> GetAllContributionTypesQuery in failing
    ensures r.Err? ==> r.error == ErrFetchingContributionTypes
    ensures r.Ok? ==> r.value == t.scores
  {
    if GetAllContributionTypesQuery in failing then Err(ErrFetchingContributionTypes) else Ok(t.scores)
  }

  // ---- the monthly summary ----

  /** One row of getMonthlyContributionSummaryQuery. */
  datatype MonthlyContributionSummary = MonthlyContributionSummary(Month: Timestamp, Type: string, Count: int, TotalCoins: int)

  function InMonthOfUser(userId: int, year: int, month: int): Contribution -> bool
  {
    (c: Contribution) => c.UserId == userId && c.ContributedAt.year == year && c.ContributedAt.month == month
  }

  /** How many of cs have the type, and the sum of their balance changes. */
  function CountOfType(cs: seq<Contribution>, contributionType: string): nat
  {
    if |cs| == 0 then 0
    else CountOfType(cs[..|cs| - 1], contributionType) + (if cs[|cs| - 1].ContributionType == contributionType then 1 else 0)
  }

  function CoinsOfType(cs: seq<Contribution>, contributionType: string): int
  {
    if |cs| == 0 then 0
    else CoinsOfType(cs[..|cs| - 1], contributionType)
         + (if cs[|cs| - 1].ContributionType == contributionType then cs[|cs| - 1].BalanceChange else 0)
  }

  /** The summary row of a type, if there is one. */
  function RowOfType(rows: seq<MonthlyContributionSummary>, contributionType: string): Option<MonthlyContributionSummary>
  {
    if |rows| == 0 then None
    else if rows[0].Type == contributionType then Some(rows[0])
    else RowOfType(rows[1..], contributionType)
  }

  predicate DistinctTypes(rows: seq<MonthlyContributionSummary>)
  {
    forall i, j :: 0 <= i < j < |rows| ==> rows[i].Type != rows[j].Type
  }

  /** Counts one more contribution into the row of its type. */
  function AddToGroup(rows: seq<MonthlyContributionSummary>, monthStart: Timestamp, c: Contribution): seq<MonthlyContributionSummary>
  {
    if |rows| == 0 then [MonthlyContributionSummary(monthStart, c.ContributionType, 1, c.BalanceChange)]
    else if rows[0].Type == c.ContributionType then
      [rows[0].(Count := rows[0].Count + 1, TotalCoins := rows[0].TotalCoins + c.BalanceChange)] + rows[1..]
    else [rows[0]] + AddToGroup(rows[1..], monthStart, c)
  }

  /** GROUP BY contribution_type with COUNT(*) and SUM(balance_change). */
  function GroupByType(cs: seq<Contribution>, monthStart: Timestamp): seq<MonthlyContributionSummary>
  {
    if |cs| == 0 then [] else AddToGroup(GroupByType(cs[..|cs| - 1], monthStart), monthStart, cs[|cs| - 1])
  }

  /** The row of c's type after counting c into `row`. */
  function Bumped(row: Option<MonthlyContributionSummary>, monthStart: Timestamp, c: Contribution): MonthlyContributionSummary
  {
    if row.Some? then row.value.(Count := row.value.Count + 1, TotalCoins := row.value.TotalCoins + c.BalanceChange)
    else MonthlyContributionSummary(monthStart, c.ContributionType, 1, c.BalanceChange)
  }

  /** The row a type should have in the summary of cs: its count and its
      coins, or no row when no contribution has that type. */
  function ExpectedRow(cs: seq<Contribution>, monthStart: Timestamp, contributionType: string): Option<MonthlyContributionSummary>
  {
    if CountOfType(cs, contributionType) == 0 then None
    else Some(MonthlyContributionSummary(monthStart, contributionType, CountOfType(cs, contributionType), CoinsOfType(cs, contributionType)))
  }

  predicate HasType(rows: seq<MonthlyContributionSummary>, ty: string)
  {
    exists k :: 0 <= k < |rows| && rows[k].Type == ty
  }

  lemma {:induction false} AddToGroupSpec(rows: seq<MonthlyContributionSummary>, monthStart: Timestamp, c: Contribution)
    requires DistinctTypes(rows)
    ensures DistinctTypes(AddToGroup(rows, monthStart, c))
    ensures forall ty :: RowOfType(AddToGroup(rows, monthStart, c), ty) == (if ty != c.ContributionType then RowOfType(rows, ty) else Some(Bumped(RowOfType(rows, ty), monthStart, c)))
    ensures forall i :: 0 <= i < |AddToGroup(rows, monthStart, c)| ==>
      AddToGroup(rows, monthStart, c)[i].Type == c.ContributionType || HasType(rows, AddToGroup(rows, monthStart, c)[i].Type)
    decreases |rows|
  {
    if |rows| > 0 && rows[0].Type != c.ContributionType {
      AddToGroupSpec(rows[1..], monthStart, c);
      var r := AddToGroup(rows, monthStart, c);
      var rest := AddToGroup(rows[1..], monthStart, c);
      assert r == [rows[0]] + rest;
      forall ty
        ensures RowOfType(r, ty) == (if ty != c.ContributionType then RowOfType(rows, ty) else Some(Bumped(RowOfType(rows, ty), monthStart, c)))
      {
        assert r[1..] == rest;
        if rows[0].Type != ty {
          assert RowOfType(r, ty) == RowOfType(rest, ty);
          assert RowOfType(rows, ty) == RowOfType(rows[1..], ty);
        }
      }
      forall i | 0 <= i < |r|
        ensures r[i].Type == c.ContributionType || HasType(rows, r[i].Type)
      {
        if i == 0 {
          assert rows[0].Type == r[i].Type;
        } else {
          assert r[i] == rest[i - 1];
          if r[i].Type != c.ContributionType {
            assert HasType(rows[1..], rest[i - 1].Type);
            var k :| 0 <= k < |rows[1..]| && rows[1..][k].Type == r[i].Type;
            assert rows[k + 1].Type == r[i].Type;
          }
        }
      }
      forall i, j | 0 <= i < j < |r| ensures r[i].Type != r[j].Type {
        if i == 0 {
          assert r[j] == AddToGroup(rows[1..], monthStart, c)[j - 1];
          if r[j].Type != c.ContributionType {
            assert HasType(rows[1..], r[j].Type);
            var k :| 0 <= k < |rows[1..]| && rows[1..][k].Type == r[j].Type;
            assert rows[k + 1].Type == r[j].Type;
          }
        }
      }
    } else if |rows| > 0 {
      var r := AddToGroup(rows, monthStart, c);
      assert r[1..] == rows[1..];
      RowOfTypeAbsent(rows[1..], c.ContributionType);
    }
  }

  lemma {:induction false} RowOfTypeAbsent(rows: seq<MonthlyContributionSummary>, ty: string)
    requires forall i :: 0 <= i < |rows| ==> rows[i].Type != ty
    ensures RowOfType(rows, ty).None?
  {
    if |rows| > 0 {
      RowOfTypeAbsent(rows[1..], ty);
    }
  }

  /** A type nobody contributed has no coins. */
  lemma {:induction false} NoCountNoCoins(cs: seq<Contribution>, contributionType: string)
    ensures CountOfType(cs, contributionType) == 0 ==> CoinsOfType(cs, contributionType) == 0
    decreases |cs|
  {
    if |cs| > 0 {
      NoCountNoCoins(cs[..|cs| - 1], contributionType);
    }
  }

  /** The grouped rows have distinct types, and the row of each type counts
      exactly the contributions of that type and sums their balance changes;
      a type without contributions has no row. */
  lemma {:induction false} GroupByTypeCounts(cs: seq<Contribution>, monthStart: Timestamp)
    ensures DistinctTypes(GroupByType(cs, monthStart))
    ensures forall ty :: RowOfType(GroupByType(cs, monthStart), ty) == ExpectedRow(cs, monthStart, ty)
    decreases |cs|
  {
    if |cs| > 0 {
      var init, c := cs[..|cs| - 1], cs[|cs| - 1];
      GroupByTypeCounts(init, monthStart);
      var before := GroupByType(init, monthStart);
      AddToGroupSpec(before, monthStart, c);
      assert GroupByType(cs, monthStart) == AddToGroup(before, monthStart, c);
      forall ty ensures RowOfType(GroupByType(cs, monthStart), ty) == ExpectedRow(cs, monthStart, ty) {
        assert RowOfType(before, ty) == ExpectedRow(init, monthStart, ty);
        assert CountOfType(cs, ty) == CountOfType(init, ty) + (if c.ContributionType == ty then 1 else 0);
        assert CoinsOfType(cs, ty) == CoinsOfType(init, ty) + (if c.ContributionType == ty then c.BalanceChange else 0);
        NoCountNoCoins(init, ty);
      }
    }
  }

  const MonthlySummaryPlaceholders := 3

  /** ListMonthlyContributionSummary as written: the query has three
      placeholders ($1 user, $2 year, $3 month) and the call binds two values
      (the user id and the month).  The driver refuses a statement run with
      the wrong number of arguments, so the call always fails. */
  function ListMonthlyContributionSummaryAsWritten(t: Tables, failing: set<Query>, year: int, month: int, userId: int): Result<seq<MonthlyContributionSummary>>
  {
    var bound := [userId, month];
    if |bound| != MonthlySummaryPlaceholders then Err(ErrInternalServer)
    else ListMonthlyContributionSummary(t, failing, year, month, userId)
  }

  /** Whatever the tables hold, the summary as written is an error. */
  lemma MonthlySummaryAsWrittenAlwaysFails(t: Tables, failing: set<Query>, year: int, month: int, userId: int)
    ensures ListMonthlyContributionSummaryAsWritten(t, failing, year, month, userId) == Err(ErrInternalServer)
  {
  }

  /** ListMonthlyContributionSummary with the user id, year and month bound:
      for the user's contributions of that calendar month, one row per type
      with its count and its total coins. */
  function ListMonthlyContributionSummary(t: Tables, failing: set<Query>, year: int, month: int, userId: int): (r: Result<seq<MonthlyContributionSummary>>)
    ensures r.Err? <==> MonthlyContributionSummaryQuery in failing
    ensures r.Err? ==> r.error == ErrInternalServer
    ensures r.Ok? ==> DistinctTypes(r.value)
    ensures r.Ok? ==> forall ty :: RowOfType(r.value, ty) == ExpectedRow(Filter(t.contributions, InMonthOfUser(userId, year, month)), Timestamp(year, month, 0), ty)
  {
    var bound := [userId, year, month];
    if MonthlyContributionSummaryQuery in failing then Err(ErrInternalServer)
    else
      var cs := Filter(t.contributions, InMonthOfUser(bound[0], bound[1], bound[2]));
      GroupByTypeCounts(cs, Timestamp(year, month, 0));
      Ok(GroupByType(cs, Timestamp(bound[1], bound[2], 0)))
  }
}
