/** internal/repository/repository.go: the repositories table, and the
    per-user views over contributions grouped by repository.  The user id
    comes from the request context; `None` stands for a context without an
    int user id. */
module RepositoryRepo {
  import opened AppErrors
  import opened Tables
  import opened Base

  function WithGithubRepoId(githubRepoId: int): Repository -> bool
  {
    (r: Repository) => r.GithubRepoId == githubRepoId
  }

  function WithRepoId(repoId: int): Repository -> bool
  {
    (r: Repository) => r.Id == repoId
  }

  predicate HasGithubRepoId(rs: seq<Repository>, githubRepoId: int)
  {
    exists i :: 0 <= i < |rs| && rs[i].GithubRepoId == githubRepoId
  }

  /** GetRepoByGithubId: no row is ErrRepoNotFound, any other failure
      ErrInternalServer. */
  function GetRepoByGithubId(t: Tables, failing: set<Query>, githubRepoId: int): (r: Result<Repository>)
    ensures r.Ok? ==> r.value in t.repositories && r.value.GithubRepoId == githubRepoId
    ensures r.Err? ==> r.error in {ErrRepoNotFound, ErrInternalServer}
    ensures r == Err(ErrInternalServer) <==> GetRepoByGithubIdQuery in failing
    ensures r == Err(ErrRepoNotFound) <==> GetRepoByGithubIdQuery !in failing && !HasGithubRepoId(t.repositories, githubRepoId)
  {
    if GetRepoByGithubIdQuery in failing then Err(ErrInternalServer)
    else
      match Find(t.repositories, WithGithubRepoId(githubRepoId))
      case None => Err(ErrRepoNotFound)
      case Some(r) => Ok(r)
  }

  /** GetRepoByRepoId: the same, by the internal id. */
  function GetRepoByRepoId(t: Tables, failing: set<Query>, repoId: int): (r: Result<Repository>)
    ensures r.Ok? ==> r.value in t.repositories && r.value.Id == repoId
    ensures r.Err? ==> r.error in {ErrRepoNotFound, ErrInternalServer}
    ensures r == Err(ErrInternalServer) <==> GetRepoByIdQuery in failing
    ensures r == Err(ErrRepoNotFound) <==>
      GetRepoByIdQuery !in failing && (forall i :: 0 <= i < |t.repositories| ==> t.repositories[i].Id != repoId)
  {
    if GetRepoByIdQuery in failing then Err(ErrInternalServer)
    else
      match Find(t.repositories, WithRepoId(repoId))
      case None => Err(ErrRepoNotFound)
      case Some(r) => Ok(r)
  }

  /** The insert of CreateRepository: the eight given columns under the next
      serial id.  A driver failure, or a second row for the same GitHub
      repository id, is ErrInternalServer with nothing stored. */
  function CreateRepositoryOn(t: Tables, failing: set<Query>, info: Repository): (res: (Tables, Result<Repository>))
    ensures res.1.Err? <==> CreateRepositoryQuery in failing || HasGithubRepoId(t.repositories, info.GithubRepoId)
    ensures res.1.Err? ==> res.1.error == ErrInternalServer && res.0 == t
    ensures res.1.Ok? ==> res.1.value == info.(Id := |t.repositories| + 1)
                          && res.0 == t.(repositories := t.repositories + [res.1.value])
    ensures SerialIds(t) ==> SerialIds(res.0)
    ensures UniqueGithubRepoIds(t.repositories) ==> UniqueGithubRepoIds(res.0.repositories)
  {
    if CreateRepositoryQuery in failing || HasGithubRepoId(t.repositories, info.GithubRepoId) then
      (t, Err(ErrInternalServer))
    else
      var row := info.(Id := |t.repositories| + 1);
      (t.(repositories := t.repositories + [row]), Ok(row))
  }

  method CreateRepository(db: Executer, tx: Tx?, info: Repository) returns (r: Result<Repository>)
    modifies InitiateQueryExecuter(db, tx)
    ensures (InitiateQueryExecuter(db, tx).tables, r)
            == CreateRepositoryOn(old(InitiateQueryExecuter(db, tx).tables), InitiateQueryExecuter(db, tx).failing, info)
  {
    var executer := InitiateQueryExecuter(db, tx);
    var res := CreateRepositoryOn(executer.tables, executer.failing, info);
    executer.tables := res.0;
    r := res.1;
  }

  /** After a successful insert the GitHub-id lookup finds the new row. */
  lemma CreatedRepositoryIsFound(t: Tables, failing: set<Query>, info: Repository)
    requires GetRepoByGithubIdQuery !in failing
    requires CreateRepositoryOn(t, failing, info).1.Ok?
    ensures GetRepoByGithubId(CreateRepositoryOn(t, failing, info).0, failing, info.GithubRepoId)
            == CreateRepositoryOn(t, failing, info).1
  {
    FindAppend(t.repositories, info.(Id := |t.repositories| + 1), WithGithubRepoId(info.GithubRepoId));
  }

  // ---- coins per repository ----

  function InRepoOfUser(userId: int, repoId: int): Contribution -> bool
  {
    (c: Contribution) => c.UserId == userId && c.RepositoryId == repoId
  }

  function SumOfBalanceChanges(cs: seq<Contribution>): int
  {
    if |cs| == 0 then 0 else SumOfBalanceChanges(cs[..|cs| - 1]) + cs[|cs| - 1].BalanceChange
  }

  /** GetUserRepoTotalCoins: the sum of balance_change over the context
      user's contributions to the repository.  Over no rows SQL's sum is
      NULL, which cannot be scanned into an int, so a user without
      contributions there gets ErrCalculatingUserRepoTotalCoins as well. */
  function GetUserRepoTotalCoins(t: Tables, failing: set<Query>, ctxUserId: Option<int>, repoId: int): (r: Result<int>)
    ensures ctxUserId.None? ==> r == Err(ErrInternalServer)
    ensures ctxUserId.Some? ==>
      var rows := Filter(t.contributions, InRepoOfUser(ctxUserId.value, repoId));
      (r.Err? <==> UserRepoTotalCoinsQuery in failing || |rows| == 0)
      && (r.Err? ==> r.error == ErrCalculatingUserRepoTotalCoins)
      && (r.Ok? ==> r.value == SumOfBalanceChanges(rows))
  {
    match ctxUserId
    case None => Err(ErrInternalServer)
    case Some(userId) =>
      if UserRepoTotalCoinsQuery in failing then Err(ErrCalculatingUserRepoTotalCoins)
      else ScanSum(Filter(t.contributions, InRepoOfUser(userId, repoId)))
  }

  /** Scanning sum(balance_change) into an int: NULL over no rows fails. */
  function ScanSum(rows: seq<Contribution>): Result<int>
  {
    if |rows| == 0 then Err(ErrCalculatingUserRepoTotalCoins) else Ok(SumOfBalanceChanges(rows))
  }

  /** One more row makes the scanned sum defined and adds its balance change. */
  lemma ScanSumAppend(rows: seq<Contribution>, c: Contribution)
    ensures ScanSum(rows + [c]) == Ok((if ScanSum(rows).Ok? then ScanSum(rows).value else 0) + c.BalanceChange)
  {
    assert (rows + [c])[..|rows|] == rows;
  }

  /** A new contribution of the user to the repository makes the total
      defined, and raises a defined total by exactly its balance change. */
  lemma TotalCoinsGrowByContribution(t: Tables, failing: set<Query>, userId: int, c: Contribution)
    requires UserRepoTotalCoinsQuery !in failing
    requires c.UserId == userId
    ensures GetUserRepoTotalCoins(t.(contributions := t.contributions + [c]), failing, Some(userId), c.RepositoryId).Ok?
    ensures GetUserRepoTotalCoins(t, failing, Some(userId), c.RepositoryId).Err? ==>
            GetUserRepoTotalCoins(t.(contributions := t.contributions + [c]), failing, Some(userId), c.RepositoryId) == Ok(c.BalanceChange)
    ensures GetUserRepoTotalCoins(t, failing, Some(userId), c.RepositoryId).Ok? ==>
            GetUserRepoTotalCoins(t.(contributions := t.contributions + [c]), failing, Some(userId), c.RepositoryId)
            == Ok(GetUserRepoTotalCoins(t, failing, Some(userId), c.RepositoryId).value + c.BalanceChange)
  {
    var p := InRepoOfUser(userId, c.RepositoryId);
    var rows := Filter(t.contributions, p);
    FilterAppend(t.contributions, c, p);
    ScanSumAppend(rows, c);
    var before := GetUserRepoTotalCoins(t, failing, Some(userId), c.RepositoryId);
    var after := GetUserRepoTotalCoins(t.(contributions := t.contributions + [c]), failing, Some(userId), c.RepositoryId);
    assert before == ScanSum(rows);
    assert after == ScanSum(rows + [c]);
    if before.Ok? {
      var v := before.value;
      assert ScanSum(rows) == Ok(v);
      assert after == Ok(v + c.BalanceChange);
    }
  }

  // ---- repositories a user contributed to ----

  /** A repository holding at least one contribution of the user. */
  function ContributedBy(userId: int, cs: seq<Contribution>): Repository -> bool
  {
    (r: Repository) => exists i :: 0 <= i < |cs| && cs[i].UserId == userId && cs[i].RepositoryId == r.Id
  }

  /** The rows of fetchUsersContributedReposQuery, in table order. */
  function UsersContributedRepos(t: Tables, userId: int): (rs: seq<Repository>)
    ensures forall x :: x in rs <==>
      x in t.repositories && exists i :: 0 <= i < |t.contributions| && t.contributions[i].UserId == userId && t.contributions[i].RepositoryId == x.Id
  {
    FilterMembers(t.repositories, ContributedBy(userId, t.contributions));
    Filter(t.repositories, ContributedBy(userId, t.contributions))
  }

  /** FetchUsersContributedRepos: the rows are appended one by one as the
      cursor advances. */
  method FetchUsersContributedRepos(db: Executer, tx: Tx?, ctxUserId: Option<int>) returns (r: Result<seq<Repository>>)
    ensures ctxUserId.None? ==> r == Err(ErrInternalServer)
    ensures ctxUserId.Some? && UsersContributedReposQuery in InitiateQueryExecuter(db, tx).failing ==> r == Err(ErrFetchingUsersContributedRepos)
    ensures ctxUserId.Some? && UsersContributedReposQuery !in InitiateQueryExecuter(db, tx).failing ==>
      r == Ok(UsersContributedRepos(InitiateQueryExecuter(db, tx).tables, ctxUserId.value))
  {
    if ctxUserId.None? {
      return Err(ErrInternalServer);
    }
    var executer := InitiateQueryExecuter(db, tx);
    if UsersContributedReposQuery in executer.failing {
      return Err(ErrFetchingUsersContributedRepos);
    }
    var rows := UsersContributedRepos(executer.tables, ctxUserId.value);
    var repos: seq<Repository> := [];
    var i := 0;
    while i < |rows|
      invariant 0 <= i <= |rows|
      invariant repos == rows[..i]
    {
      repos := repos + [rows[i]];
      i := i + 1;
    }
    assert rows[..i] == rows;
    return Ok(repos);
  }

  // ---- a user's contributions in one repository ----

  /** A contributions row has ten columns: id, user_id, repository_id,
      contribution_score_id, contribution_type, balance_change,
      contributed_at, github_event_id, created_at and updated_at. */
  const ContributionColumns: nat := 10

  /** A contribution of the user to a repository with the given GitHub id. */
  function InRepoWithGithubId(t: Tables, userId: int, githubRepoId: int): Contribution -> bool
  {
    (c: Contribution) => c.UserId == userId && HasRepo(t.repositories, c.RepositoryId, githubRepoId)
  }

  /** The rows of fetchUserContributionsInRepoQuery: the user's contributions
      to any repository with the given GitHub id, in table order. */
  function ContributionsInRepo(t: Tables, userId: int, githubRepoId: int): (rows: seq<Contribution>)
    ensures forall c :: c in rows <==> c in t.contributions && c.UserId == userId && HasRepo(t.repositories, c.RepositoryId, githubRepoId)
  {
    FilterMembers(t.contributions, InRepoWithGithubId(t, userId, githubRepoId));
    Filter(t.contributions, InRepoWithGithubId(t, userId, githubRepoId))
  }

  /** rows.Next / rows.Scan over the rows with `destinations` targets: the
      first row whose column count differs from the targets' fails the loop,
      with the error returned as it is. */
  method ScanContributions(rows: seq<Contribution>, destinations: nat) returns (r: Result<seq<Contribution>>)
    ensures rows == [] || destinations == ContributionColumns ==> r == Ok(rows)
    ensures rows != [] && destinations != ContributionColumns ==> r == Err(ScanArgCount(ContributionColumns, destinations))
  {
    var out: seq<Contribution> := [];
    var i := 0;
    while i < |rows|
      invariant 0 <= i <= |rows|
      invariant out == rows[..i]
      invariant i > 0 ==> destinations == ContributionColumns
    {
      if destinations != ContributionColumns {
        return Err(ScanArgCount(ContributionColumns, destinations));
      }
      out := out + [rows[i]];
      i := i + 1;
    }
    assert rows[..i] == rows;
    return Ok(out);
  }

  /** FetchUserContributionsInRepo as written: the scan names nine targets,
      github_event_id being left out. */
  method FetchUserContributionsInRepoAsWritten(db: Executer, tx: Tx?, ctxUserId: Option<int>, githubRepoId: int) returns (r: Result<seq<Contribution>>)
    ensures ctxUserId.None? ==> r == Err(ErrInternalServer)
    ensures ctxUserId.Some? && UserContributionsInRepoQuery in InitiateQueryExecuter(db, tx).failing ==> r == Err(ErrFetchingUserContributionsInRepo)
    ensures ctxUserId.Some? && UserContributionsInRepoQuery !in InitiateQueryExecuter(db, tx).failing ==>
      var rows := ContributionsInRepo(InitiateQueryExecuter(db, tx).tables, ctxUserId.value, githubRepoId);
      r == if rows == [] then Ok([]) else Err(ScanArgCount(ContributionColumns, 9))
  {
    if ctxUserId.None? {
      return Err(ErrInternalServer);
    }
    var executer := InitiateQueryExecuter(db, tx);
    if UserContributionsInRepoQuery in executer.failing {
      return Err(ErrFetchingUserContributionsInRepo);
    }
    var rows := ContributionsInRepo(executer.tables, ctxUserId.value, githubRepoId);
    r := ScanContributions(rows, 9);
  }

  /** FetchUserContributionsInRepo with a target for every column: the
      context user's contributions to the repository with that GitHub id. */
  method FetchUserContributionsInRepo(db: Executer, tx: Tx?, ctxUserId: Option<int>, githubRepoId: int) returns (r: Result<seq<Contribution>>)
    ensures ctxUserId.None? ==> r == Err(ErrInternalServer)
    ensures ctxUserId.Some? && UserContributionsInRepoQuery in InitiateQueryExecuter(db, tx).failing ==> r == Err(ErrFetchingUserContributionsInRepo)
    ensures ctxUserId.Some? && UserContributionsInRepoQuery !in InitiateQueryExecuter(db, tx).failing ==>
      r.Ok? && forall c :: c in r.value <==>
        c in InitiateQueryExecuter(db, tx).tables.contributions && c.UserId == ctxUserId.value
        && HasRepo(InitiateQueryExecuter(db, tx).tables.repositories, c.RepositoryId, githubRepoId)
  {
    if ctxUserId.None? {
      return Err(ErrInternalServer);
    }
    var executer := InitiateQueryExecuter(db, tx);
    if UserContributionsInRepoQuery in executer.failing {
      return Err(ErrFetchingUserContributionsInRepo);
    }
    var rows := ContributionsInRepo(executer.tables, ctxUserId.value, githubRepoId);
    r := ScanContributions(rows, ContributionColumns);
  }

  predicate HasRepo(rs: seq<Repository>, repoId: int, githubRepoId: int)
  {
    exists i :: 0 <= i < |rs| && rs[i].Id == repoId && rs[i].GithubRepoId == githubRepoId
  }

  /** A stored contribution of the user to a registered repository makes the
      listing as written fail, whatever else the tables hold. */
  lemma ContributionsInRepoAsWrittenFails(t: Tables, userId: int, k: int, j: int)
    requires 0 <= k < |t.contributions| && 0 <= j < |t.repositories|
    requires t.contributions[k].UserId == userId && t.contributions[k].RepositoryId == t.repositories[j].Id
    ensures ContributionsInRepo(t, userId, t.repositories[j].GithubRepoId) != []
  {
    assert t.contributions[k] in ContributionsInRepo(t, userId, t.repositories[j].GithubRepoId);
  }
}
