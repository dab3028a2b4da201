/** internal/app/contribution/service.go: turning GitHub events into
    contributions, and the ledger entries that credit them.

    The event is classified with the intended classifier
    (Classifier.ClassifyEvent), which agrees with GetContributionType on
    every payload the latter handles without panicking.  The details of a
    new repository come from GitHub over HTTP; that call is the parameter
    `fetch`. */
module ContributionService {
  import opened AppErrors
  import opened Tables
  import opened Base
  import ContributionRepo
  import UserRepo
  import Classifier
  import RepositoryService
  import TransactionService
  import TransactionRepo

  /** One GitHub event as the daily query returns it. */
  datatype ContributionResponse = ContributionResponse(
    ID: string, Type: string, ActorID: int, ActorLogin: string, RepoID: int,
    RepoName: string, RepoUrl: string, Payload: Classifier.Payload, CreatedAt: Timestamp)

  /** The contribution CreateContribution asks the repository to store: the
      event's user, repository, type, time and id, with the score row's id
      and score snapshotted into it. */
  function ContributionFor(ev: ContributionResponse, contributionType: string, repositoryId: int, userId: int,
                           score: ContributionScore): (c: Contribution)
    ensures c.UserId == userId && c.RepositoryId == repositoryId && c.ContributionType == contributionType
    ensures c.ContributedAt == ev.CreatedAt && c.GithubEventId == ev.ID
    ensures c.ContributionScoreId == score.Id && c.BalanceChange == score.Score
  {
    Contribution(0, userId, repositoryId, score.Id, contributionType, score.Score, ev.CreatedAt, ev.ID)
  }

  /** CreateContribution: the score row of the type is looked up first; when
      that fails nothing is stored and its error is returned. */
  function CreateContributionOn(t: Tables, failing: set<Query>, contributionType: string, ev: ContributionResponse,
                                repositoryId: int, userId: int): (res: (Tables, Result<Contribution>))
    ensures res.1.Err? ==> res.0 == t
    ensures ContributionRepo.GetContributionScoreDetailsByContributionType(t, failing, contributionType).Err? ==>
      res == (t, Err(ContributionRepo.GetContributionScoreDetailsByContributionType(t, failing, contributionType).error))
    ensures res.1.Ok? ==>
      var score := ContributionRepo.GetContributionScoreDetailsByContributionType(t, failing, contributionType).value;
      score in t.scores && score.ContributionType == contributionType
      && res.1.value == ContributionFor(ev, contributionType, repositoryId, userId, score).(Id := |t.contributions| + 1)
      && res.0 == t.(contributions := t.contributions + [res.1.value])
  {
    match ContributionRepo.GetContributionScoreDetailsByContributionType(t, failing, contributionType)
    case Err(e) => (t, Err(e))
    case Ok(score) => ContributionRepo.CreateContributionOn(t, failing, ContributionFor(ev, contributionType, repositoryId, userId, score))
  }

  method CreateContribution(db: Executer, contributionType: string, ev: ContributionResponse, repositoryId: int, userId: int)
    returns (r: Result<Contribution>)
    modifies db
    ensures (db.tables, r) == CreateContributionOn(old(db.tables), db.failing, contributionType, ev, repositoryId, userId)
  {
    var score := ContributionRepo.GetContributionScoreDetailsByContributionType(db.tables, db.failing, contributionType);
    if score.Err? {
      return Err(score.error);
    }
    r := ContributionRepo.CreateContribution(db, null, ContributionFor(ev, contributionType, repositoryId, userId, score.value));
  }

  /** HandleContributionCreation: the actor must be a registered user and the
      payload must decode; the contribution is then created for that user. */
  function HandleContributionCreationOn(t: Tables, failing: set<Query>, repositoryId: int, ev: ContributionResponse)
    : (res: (Tables, Result<Contribution>))
    ensures res.1.Err? ==> res.0 == t
    ensures UserRepo.GetUserByGithubId(t, failing, ev.ActorID).Err? ==>
      res == (t, Err(UserRepo.GetUserByGithubId(t, failing, ev.ActorID).error))
    ensures Classifier.ClassifyEvent(ev.Type, ev.Payload).Err? ==> res.1.Err?
    ensures res.1.Ok? ==>
      var user := UserRepo.GetUserByGithubId(t, failing, ev.ActorID).value;
      user in t.users && user.GithubId == ev.ActorID
      && res.1.value.UserId == user.Id && res.1.value.RepositoryId == repositoryId
      && res.1.value.ContributionType == Classifier.ClassifyEvent(ev.Type, ev.Payload).value
      && res.1.value.GithubEventId == ev.ID && res.1.value.ContributedAt == ev.CreatedAt
      && res.0 == t.(contributions := t.contributions + [res.1.value])
  {
    match UserRepo.GetUserByGithubId(t, failing, ev.ActorID)
    case Err(e) => (t, Err(e))
    case Ok(user) =>
      match Classifier.ClassifyEvent(ev.Type, ev.Payload)
      case Err(e) => (t, Err(e))
      case Ok(ty) => CreateContributionOn(t, failing, ty, ev, repositoryId, user.Id)
  }

  method HandleContributionCreation(db: Executer, repositoryId: int, ev: ContributionResponse) returns (r: Result<Contribution>)
    modifies db
    ensures (db.tables, r) == HandleContributionCreationOn(old(db.tables), db.failing, repositoryId, ev)
  {
    var user := UserRepo.GetUserByGithubId(db.tables, db.failing, ev.ActorID);
    if user.Err? {
      return Err(user.error);
    }
    var contributionType := Classifier.ClassifyEvent(ev.Type, ev.Payload);
    if contributionType.Err? {
      return Err(contributionType.error);
    }
    r := CreateContribution(db, contributionType.value, ev, repositoryId, user.value.Id);
  }

  /** The last step of ProcessEachContribution: the ledger entry of the
      contribution, created if it is missing. */
  function SettleOn(t: Tables, failing: set<Query>, c: Contribution): (res: (Tables, Option<Error>))
  {
    var (t1, r) := TransactionService.HandleTransactionCreationOn(t, failing, c);
    (t1, if r.Err? then Some(r.error) else None)
  }

  /** ProcessEachContribution: the dedup gate on the GitHub event id.  An
      event already recorded creates no repository and no contribution and
      goes straight to the ledger; a new one first resolves its repository,
      then creates its contribution.  The steps are not wrapped in a database
      transaction, so a repository created before a later step fails stays. */
  function ProcessEachOn(t: Tables, failing: set<Query>, ev: ContributionResponse,
                         fetch: string -> Result<RepositoryService.RepositoryDetails>): (res: (Tables, Option<Error>))
    ensures GetContributionByGithubEventIdQuery in failing ==> res == (t, Some(ErrFetchingContribution))
    ensures ContributionRepo.HasEvent(t.contributions, ev.ID) ==>
      res.0.contributions == t.contributions && res.0.repositories == t.repositories
    ensures Grows(t, res.0)
  {
    match ContributionRepo.GetContributionByGithubEventId(t, failing, ev.ID)
    case Ok(c) => SettleOn(t, failing, c)
    case Err(e) =>
      if e != ErrContributionNotFound then (t, Some(e))
      else
        var (t1, repo) := RepositoryService.HandleRepositoryCreationOn(t, failing, ev.RepoID, ev.RepoUrl, fetch);
        if repo.Err? then (t1, Some(repo.error))
        else
          var (t2, c) := HandleContributionCreationOn(t1, failing, repo.value.Id, ev);
          if c.Err? then (t2, Some(c.error)) else SettleOn(t2, failing, c.value)
  }

  method ProcessEachContribution(db: Executer, ev: ContributionResponse, fetch: string -> Result<RepositoryService.RepositoryDetails>)
    returns (err: Option<Error>)
    modifies db
    ensures (db.tables, err) == ProcessEachOn(old(db.tables), db.failing, ev, fetch)
  {
    var obtained := ContributionRepo.GetContributionByGithubEventId(db.tables, db.failing, ev.ID);
    if obtained.Err? {
      if obtained.error != ErrContributionNotFound {
        return Some(obtained.error);
      }
      var repo := RepositoryService.HandleRepositoryCreation(db, ev.RepoID, ev.RepoUrl, fetch);
      if repo.Err? {
        return Some(repo.error);
      }
      obtained := HandleContributionCreation(db, repo.value.Id, ev);
      if obtained.Err? {
        return Some(obtained.error);
      }
    }
    var x := TransactionService.HandleTransactionCreation(db, obtained.value);
    if x.Err? {
      return Some(x.error);
    }
    return None;
  }

  // ---- what one event does to the tables ----

  /** The tables only grow: no contribution or transaction is removed or
      changed. */
  predicate Grows(t: Tables, t1: Tables)
  {
    t.contributions <= t1.contributions && t.transactions <= t1.transactions
  }

  /** The event is recorded as a contribution, and that contribution has its
      ledger entry. */
  predicate Settled(t: Tables, githubEventId: string)
  {
    exists i, j :: 0 <= i < |t.contributions| && 0 <= j < |t.transactions|
                   && t.contributions[i].GithubEventId == githubEventId
                   && t.transactions[j].ContributionId == t.contributions[i].Id
  }

  lemma SettledGrows(t: Tables, t1: Tables, githubEventId: string)
    requires Settled(t, githubEventId) && Grows(t, t1)
    ensures Settled(t1, githubEventId)
  {
    var i, j :| 0 <= i < |t.contributions| && 0 <= j < |t.transactions|
                && t.contributions[i].GithubEventId == githubEventId
                && t.transactions[j].ContributionId == t.contributions[i].Id;
    assert t1.contributions[i] == t.contributions[i] && t1.transactions[j] == t.transactions[j];
  }

  /** Creating a contribution keeps every invariant of the tables. */
  lemma HandleContributionCreationKeepsConsistent(t: Tables, failing: set<Query>, repositoryId: int, ev: ContributionResponse)
    requires Consistent(t)
    ensures Consistent(HandleContributionCreationOn(t, failing, repositoryId, ev).0)
  {
    var (t1, r) := HandleContributionCreationOn(t, failing, repositoryId, ev);
    if r.Ok? {
      var user := UserRepo.GetUserByGithubId(t, failing, ev.ActorID).value;
      var ty := Classifier.ClassifyEvent(ev.Type, ev.Payload).value;
      var score := ContributionRepo.GetContributionScoreDetailsByContributionType(t, failing, ty).value;
      var info := ContributionFor(ev, ty, repositoryId, user.Id, score);
      assert t1 == ContributionRepo.CreateContributionOn(t, failing, info).0;
    }
  }

  /** One event keeps every invariant of the tables, and only adds rows. */
  lemma ProcessEachKeepsConsistent(t: Tables, failing: set<Query>, ev: ContributionResponse,
                                   fetch: string -> Result<RepositoryService.RepositoryDetails>)
    requires Consistent(t)
    ensures Consistent(ProcessEachOn(t, failing, ev, fetch).0)
  {
    match ContributionRepo.GetContributionByGithubEventId(t, failing, ev.ID)
    case Ok(c) =>
      TransactionService.HandleTransactionCreationKeepsConsistent(t, failing, c);
    case Err(e) =>
      if e == ErrContributionNotFound {
        var (t1, repo) := RepositoryService.HandleRepositoryCreationOn(t, failing, ev.RepoID, ev.RepoUrl, fetch);
        if repo.Ok? {
          HandleContributionCreationKeepsConsistent(t1, failing, repo.value.Id, ev);
          var (t2, c) := HandleContributionCreationOn(t1, failing, repo.value.Id, ev);
          if c.Ok? {
            TransactionService.HandleTransactionCreationKeepsConsistent(t2, failing, c.value);
          }
        }
      }
  }

  /** An event processed without error is recorded and has its ledger
      entry. */
  lemma ProcessEachSettles(t: Tables, failing: set<Query>, ev: ContributionResponse,
                           fetch: string -> Result<RepositoryService.RepositoryDetails>)
    requires ProcessEachOn(t, failing, ev, fetch).1.None?
    ensures Settled(ProcessEachOn(t, failing, ev, fetch).0, ev.ID)
  {
    var (t3, _) := ProcessEachOn(t, failing, ev, fetch);
    var t2: Tables, c: Contribution;
    match ContributionRepo.GetContributionByGithubEventId(t, failing, ev.ID)
    case Ok(found) =>
      t2, c := t, found;
    case Err(_) =>
      var (t1, repo) := RepositoryService.HandleRepositoryCreationOn(t, failing, ev.RepoID, ev.RepoUrl, fetch);
      var created := HandleContributionCreationOn(t1, failing, repo.value.Id, ev);
      t2, c := created.0, created.1.value;
    assert t3 == TransactionService.HandleTransactionCreationOn(t2, failing, c).0;
    var x := TransactionService.HandleTransactionCreationOn(t2, failing, c).1.value;
    var i :| 0 <= i < |t2.contributions| && t2.contributions[i] == c;
    var j :| 0 <= j < |t3.transactions| && t3.transactions[j] == x;
    assert t3.contributions[i].GithubEventId == ev.ID && t3.transactions[j].ContributionId == t3.contributions[i].Id;
  }

  /** Replaying an event that is already settled changes nothing and
      succeeds. */
  lemma ProcessEachReplay(t: Tables, failing: set<Query>, ev: ContributionResponse,
                          fetch: string -> Result<RepositoryService.RepositoryDetails>)
    requires Consistent(t) && Settled(t, ev.ID)
    requires GetContributionByGithubEventIdQuery !in failing && GetTransactionByContributionIdQuery !in failing
    ensures ProcessEachOn(t, failing, ev, fetch) == (t, None)
  {
    var i, j :| 0 <= i < |t.contributions| && 0 <= j < |t.transactions|
                && t.contributions[i].GithubEventId == ev.ID
                && t.transactions[j].ContributionId == t.contributions[i].Id;
    FindUnique(t.contributions, ContributionRepo.WithEventId(ev.ID), i);
    assert TransactionRepo.HasTransactionFor(t.transactions, t.contributions[i].Id);
  }

  /** A new event whose actor is not a registered user fails with
      ErrUserNotFound, yet the repository row created for it stays. */
  lemma RepositoryKeptWhenActorUnknown(t: Tables, failing: set<Query>, ev: ContributionResponse,
                                       fetch: string -> Result<RepositoryService.RepositoryDetails>)
    requires failing == {}
    requires !ContributionRepo.HasEvent(t.contributions, ev.ID)
    requires !UserRepo.HasGithubId(t.users, ev.ActorID)
    requires forall i :: 0 <= i < |t.repositories| ==> t.repositories[i].GithubRepoId != ev.RepoID
    requires fetch(ev.RepoUrl).Ok?
    ensures ProcessEachOn(t, failing, ev, fetch).1 == Some(ErrUserNotFound)
    ensures |ProcessEachOn(t, failing, ev, fetch).0.repositories| == |t.repositories| + 1
  {
  }

  /** An event the classifier leaves unscored ("") is not skipped: unless a
      score row exists for the empty type, it fails with
      ErrContributionScoreNotFound and stores no contribution. */
  lemma UnscoredEventFails(t: Tables, failing: set<Query>, ev: ContributionResponse,
                           fetch: string -> Result<RepositoryService.RepositoryDetails>)
    requires failing == {}
    requires !ContributionRepo.HasEvent(t.contributions, ev.ID)
    requires UserRepo.HasGithubId(t.users, ev.ActorID)
    requires RepositoryService.HandleRepositoryCreationOn(t, failing, ev.RepoID, ev.RepoUrl, fetch).1.Ok?
    requires Classifier.ClassifyEvent(ev.Type, ev.Payload) == Ok("")
    requires forall i :: 0 <= i < |t.scores| ==> t.scores[i].ContributionType != ""
    ensures ProcessEachOn(t, failing, ev, fetch).1 == Some(ErrContributionScoreNotFound)
    ensures ProcessEachOn(t, failing, ev, fetch).0.contributions == t.contributions
  {
    var (t1, repo) := RepositoryService.HandleRepositoryCreationOn(t, failing, ev.RepoID, ev.RepoUrl, fetch);
    assert t1.scores == t.scores && t1.users == t.users && t1.contributions == t.contributions;
    assert ContributionRepo.GetContributionByGithubEventId(t, failing, ev.ID) == Err(ErrContributionNotFound);
    var user := UserRepo.GetUserByGithubId(t1, failing, ev.ActorID);
    assert user.Ok?;
    assert ContributionRepo.GetContributionScoreDetailsByContributionType(t1, failing, "") == Err(ErrContributionScoreNotFound);
    assert CreateContributionOn(t1, failing, "", ev, repo.value.Id, user.value.Id) == (t1, Err(ErrContributionScoreNotFound));
    assert HandleContributionCreationOn(t1, failing, repo.value.Id, ev) == (t1, Err(ErrContributionScoreNotFound));
  }

  // ---- the daily batch ----

  /** What the BigQuery row iterator yields on each call to Next, up to
      iterator.Done: an event, or an error. */
  datatype Next = Event(ev: ContributionResponse) | IterError

  /** The first loop of ProcessFetchedContributions: every event, in order,
      or ErrNextContribution as soon as the iterator fails. */
  function Drain(rows: seq<Next>): (r: Result<seq<ContributionResponse>>)
    ensures r.Err? <==> exists i :: 0 <= i < |rows| && rows[i].IterError?
    ensures r.Err? ==> r.error == ErrNextContribution
    ensures r.Ok? ==> |r.value| == |rows| && forall i :: 0 <= i < |rows| ==> rows[i] == Event(r.value[i])
  {
    if |rows| == 0 then Ok([])
    else
      match Drain(rows[..|rows| - 1])
      case Err(e) => Err(e)
      case Ok(evs) =>
        match rows[|rows| - 1]
        case IterError => Err(ErrNextContribution)
        case Event(ev) => Ok(evs + [ev])
  }

  /** The second loop: the events in order, stopping at the first error. */
  function ProcessAll(t: Tables, failing: set<Query>, evs: seq<ContributionResponse>,
                      fetch: string -> Result<RepositoryService.RepositoryDetails>): (res: (Tables, Option<Error>))
    ensures Grows(t, res.0)
  {
    if |evs| == 0 then (t, None)
    else
      var (t1, err) := ProcessAll(t, failing, evs[..|evs| - 1], fetch);
      if err.Some? then (t1, err) else ProcessEachOn(t1, failing, evs[|evs| - 1], fetch)
  }

  /** ProcessFetchedContributions: a failed fetch is ErrFetchingFromBigquery
      and an iterator failure ErrNextContribution, both before any event is
      processed. */
  function ProcessFetchedContributionsOn(t: Tables, failing: set<Query>, fetched: Result<seq<Next>>,
                                         fetch: string -> Result<RepositoryService.RepositoryDetails>): (res: (Tables, Option<Error>))
    ensures fetched.Err? ==> res == (t, Some(ErrFetchingFromBigquery))
    ensures fetched.Ok? && Drain(fetched.value).Err? ==> res == (t, Some(ErrNextContribution))
    ensures Grows(t, res.0)
  {
    match fetched
    case Err(_) => (t, Some(ErrFetchingFromBigquery))
    case Ok(rows) =>
      match Drain(rows)
      case Err(e) => (t, Some(e))
      case Ok(evs) => ProcessAll(t, failing, evs, fetch)
  }

  /** Once an event fails, the later ones are not looked at. */
  lemma {:induction false} ProcessAllStops(t: Tables, failing: set<Query>, evs: seq<ContributionResponse>, k: nat,
                                           fetch: string -> Result<RepositoryService.RepositoryDetails>)
    requires k <= |evs|
    requires ProcessAll(t, failing, evs[..k], fetch).1.Some?
    ensures ProcessAll(t, failing, evs, fetch) == ProcessAll(t, failing, evs[..k], fetch)
    decreases |evs|
  {
    if k < |evs| {
      var front := evs[..|evs| - 1];
      assert front[..k] == evs[..k];
      ProcessAllStops(t, failing, front, k, fetch);
    } else {
      assert evs[..k] == evs;
    }
  }

  method ProcessFetchedContributions(db: Executer, fetched: Result<seq<Next>>,
                                     fetch: string -> Result<RepositoryService.RepositoryDetails>) returns (err: Option<Error>)
    modifies db
    ensures (db.tables, err) == ProcessFetchedContributionsOn(old(db.tables), db.failing, fetched, fetch)
  {
    if fetched.Err? {
      return Some(ErrFetchingFromBigquery);
    }
    var rows := fetched.value;
    var fetchedContributions: seq<ContributionResponse> := [];
    for i := 0 to |rows|
      invariant Drain(rows[..i]) == Ok(fetchedContributions)
    {
      assert rows[..i + 1][..i] == rows[..i];
      if rows[i].IterError? {
        assert Drain(rows).Err?;
        return Some(ErrNextContribution);
      }
      fetchedContributions := fetchedContributions + [rows[i].ev];
    }
    assert rows[..|rows|] == rows;
    var evs := fetchedContributions;
    for i := 0 to |evs|
      invariant (db.tables, None) == ProcessAll(old(db.tables), db.failing, evs[..i], fetch)
    {
      assert evs[..i + 1][..i] == evs[..i];
      err := ProcessEachContribution(db, evs[i], fetch);
      if err.Some? {
        ProcessAllStops(old(db.tables), db.failing, evs, i + 1, fetch);
        return;
      }
    }
    assert evs[..|evs|] == evs;
    return None;
  }

  /** The batch keeps every invariant of the tables. */
  lemma {:induction false} ProcessAllKeepsConsistent(t: Tables, failing: set<Query>, evs: seq<ContributionResponse>,
                                                     fetch: string -> Result<RepositoryService.RepositoryDetails>)
    requires Consistent(t)
    ensures Consistent(ProcessAll(t, failing, evs, fetch).0)
    decreases |evs|
  {
    if |evs| > 0 {
      ProcessAllKeepsConsistent(t, failing, evs[..|evs| - 1], fetch);
      var (t1, err) := ProcessAll(t, failing, evs[..|evs| - 1], fetch);
      if err.None? {
        ProcessEachKeepsConsistent(t1, failing, evs[|evs| - 1], fetch);
      }
    }
  }

  /** After a batch that ends without error, every event of it is recorded
      and credited. */
  lemma {:induction false} ProcessAllSettles(t: Tables, failing: set<Query>, evs: seq<ContributionResponse>,
                                             fetch: string -> Result<RepositoryService.RepositoryDetails>)
    requires ProcessAll(t, failing, evs, fetch).1.None?
    ensures forall k :: 0 <= k < |evs| ==> Settled(ProcessAll(t, failing, evs, fetch).0, evs[k].ID)
    decreases |evs|
  {
    if |evs| > 0 {
      var front := evs[..|evs| - 1];
      var (t1, _) := ProcessAll(t, failing, front, fetch);
      var t2 := ProcessAll(t, failing, evs, fetch).0;
      ProcessAllSettles(t, failing, front, fetch);
      ProcessEachSettles(t1, failing, evs[|evs| - 1], fetch);
      forall k | 0 <= k < |evs|
        ensures Settled(t2, evs[k].ID)
      {
        if k < |evs| - 1 {
          assert front[k] == evs[k];
          SettledGrows(t1, t2, evs[k].ID);
        }
      }
    }
  }

  /** A batch of settled events changes nothing. */
  lemma {:induction false} ProcessAllReplay(t: Tables, failing: set<Query>, evs: seq<ContributionResponse>,
                                            fetch: string -> Result<RepositoryService.RepositoryDetails>)
    requires Consistent(t)
    requires forall k :: 0 <= k < |evs| ==> Settled(t, evs[k].ID)
    requires GetContributionByGithubEventIdQuery !in failing && GetTransactionByContributionIdQuery !in failing
    ensures ProcessAll(t, failing, evs, fetch) == (t, None)
    decreases |evs|
  {
    if |evs| > 0 {
      ProcessAllReplay(t, failing, evs[..|evs| - 1], fetch);
      ProcessEachReplay(t, failing, evs[|evs| - 1], fetch);
    }
  }

  /** Running the same daily batch again after it went through writes
      nothing: every event is found by its GitHub event id, and every
      contribution already has its transaction. */
  lemma ReprocessingIsNoOp(t: Tables, failing: set<Query>, fetched: Result<seq<Next>>,
                           fetch: string -> Result<RepositoryService.RepositoryDetails>)
    requires Consistent(t)
    requires GetContributionByGithubEventIdQuery !in failing && GetTransactionByContributionIdQuery !in failing
    requires ProcessFetchedContributionsOn(t, failing, fetched, fetch).1.None?
    ensures var t1 := ProcessFetchedContributionsOn(t, failing, fetched, fetch).0;
            Consistent(t1) && ProcessFetchedContributionsOn(t1, failing, fetched, fetch) == (t1, None)
  {
    var evs := Drain(fetched.value).value;
    ProcessAllKeepsConsistent(t, failing, evs, fetch);
    ProcessAllSettles(t, failing, evs, fetch);
    ProcessAllReplay(ProcessAll(t, failing, evs, fetch).0, failing, evs, fetch);
  }

  // ---- the per-type summary of one month ----

  /** One row of the summary: a contribution type with its number of
      contributions and coins in the month. */
  datatype ContributionTypeSummary = ContributionTypeSummary(
    ContributionType: string, ContributionCount: int, TotalCoins: int, Month: Timestamp)

  predicate IsDigitChar(c: char) { '0' <= c <= '9' }

  function DigitsValue(s: string): nat
  {
    if |s| == 0 then 0 else DigitsValue(s[..|s| - 1]) * 10 + (if IsDigitChar(s[|s| - 1]) then (s[|s| - 1] as int) - ('0' as int) else 0)
  }

  function Pow10(n: nat): nat { if n == 0 then 1 else 10 * Pow10(n - 1) }

  lemma {:induction false} DigitsValueBound(s: string)
    ensures DigitsValue(s) < Pow10(|s|)
  {
    if |s| > 0 {
      DigitsValueBound(s[..|s| - 1]);
    }
  }

  /** time.Parse("2006-01", s): exactly four digits of year, a '-', and two
      digits of month from 01 to 12, with nothing after them. */
  function ParseMonth(s: string): (r: Result<Timestamp>)
    ensures r.Err? ==> r.error == TimeParse(s)
    ensures r.Ok? ==> |s| == 7 && s[4] == '-' && ValidTime(r.value) && r.value.offset == 0
                      && 0 <= r.value.year <= 9999
  {
    if |s| == 7 && IsDigitChar(s[0]) && IsDigitChar(s[1]) && IsDigitChar(s[2]) && IsDigitChar(s[3])
       && s[4] == '-' && IsDigitChar(s[5]) && IsDigitChar(s[6])
       && 1 <= DigitsValue(s[5..7]) <= 12
    then
      DigitsValueBound(s[..4]);
      Ok(Timestamp(DigitsValue(s[..4]), DigitsValue(s[5..7]), 0))
    else Err(TimeParse(s))
  }

  function DigitOf(d: nat): (c: char)
    requires d < 10
    ensures IsDigitChar(c) && (c as int) - ('0' as int) == d
  {
    (('0' as int) + d) as char
  }

  /** A month written in the "2006-01" layout. */
  function FormatMonth(year: nat, month: nat): string
    requires year <= 9999 && 1 <= month <= 12
  {
    [DigitOf(year / 1000), DigitOf(year / 100 % 10), DigitOf(year / 10 % 10), DigitOf(year % 10),
     '-', DigitOf(month / 10), DigitOf(month % 10)]
  }

  /** The month parameter is read back as the month it writes. */
  lemma ParseFormatMonth(year: nat, month: nat)
    requires year <= 9999 && 1 <= month <= 12
    ensures ParseMonth(FormatMonth(year, month)) == Ok(Timestamp(year, month, 0))
  {
    var s := FormatMonth(year, month);
    assert s[..4][..3] == s[..3] && s[..3][..2] == s[..2] && s[..2][..1] == s[..1];
    assert DigitsValue(s[..1]) == year / 1000;
    assert DigitsValue(s[..2]) == year / 100;
    assert DigitsValue(s[..3]) == year / 10;
    assert DigitsValue(s[..4]) == year;
    assert s[5..7][..1] == [s[5]];
    assert DigitsValue(s[5..7]) == month;
  }

  /** Go's zero time.Time. */
  const ZeroTime := Timestamp(1, 1, 0)

  /** The answer for one type inside the loop: a type with no contribution
      in the month (ErrNoContributionForContributionType, however wrapped)
      gets a row holding only its name; any other error ends the loop. */
  function Tolerated(res: Result<ContributionTypeSummary>, contributionType: string): (r: Result<ContributionTypeSummary>)
    ensures res.Ok? ==> r == res
    ensures res.Err? && Is(res.error, ErrNoContributionForContributionType) ==>
      r == Ok(ContributionTypeSummary(contributionType, 0, 0, ZeroTime))
    ensures res.Err? && !Is(res.error, ErrNoContributionForContributionType) ==> r == res
  {
    match res
    case Ok(_) => res
    case Err(e) =>
      if Is(e, ErrNoContributionForContributionType) then Ok(ContributionTypeSummary(contributionType, 0, 0, ZeroTime))
      else res
  }

  /** GetContributionTypeSummaryForMonth.  The month parameter is parsed,
      every contribution type is listed, and each type's summary is asked
      of the repository-level query, which is not part of this model and is
      given as `summaryFor`.  The rows come one per type, in the order of
      the types; the first type whose summary fails with another error ends
      the call with that error. */
  method GetContributionTypeSummaryForMonth(db: Executer, monthParam: string,
                                            summaryFor: (string, Timestamp) -> Result<ContributionTypeSummary>)
    returns (r: Result<seq<ContributionTypeSummary>>)
    ensures ParseMonth(monthParam).Err? ==> r == Err(TimeParse(monthParam))
    ensures ParseMonth(monthParam).Ok? && ContributionRepo.GetAllContributionTypes(db.tables, db.failing).Err? ==>
      r == Err(ErrFetchingContributionTypes)
    ensures r.Ok? ==>
      var month := ParseMonth(monthParam).value;
      var types := db.tables.scores;
      GetAllContributionTypesQuery !in db.failing
      && |r.value| == |types|
      && forall i :: 0 <= i < |types| ==>
           Tolerated(summaryFor(types[i].ContributionType, month), types[i].ContributionType) == Ok(r.value[i])
    ensures r.Err? && ParseMonth(monthParam).Ok? && GetAllContributionTypesQuery !in db.failing ==>
      var month := ParseMonth(monthParam).value;
      var types := db.tables.scores;
      exists i :: 0 <= i < |types|
        && (forall k :: 0 <= k < i ==> Tolerated(summaryFor(types[k].ContributionType, month), types[k].ContributionType).Ok?)
        && Tolerated(summaryFor(types[i].ContributionType, month), types[i].ContributionType) == Err(r.error)
  {
    var month := ParseMonth(monthParam);
    if month.Err? {
      return Err(month.error);
    }
    var contributionTypes := ContributionRepo.GetAllContributionTypes(db.tables, db.failing);
    if contributionTypes.Err? {
      return Err(contributionTypes.error);
    }
    var types := contributionTypes.value;
    var summaries: seq<ContributionTypeSummary> := [];
    for i := 0 to |types|
      invariant |summaries| == i
      invariant forall k :: 0 <= k < i ==>
        Tolerated(summaryFor(types[k].ContributionType, month.value), types[k].ContributionType) == Ok(summaries[k])
    {
      var ty := types[i].ContributionType;
      var summary := summaryFor(ty, month.value);
      if summary.Err? {
        if Is(summary.error, ErrNoContributionForContributionType) {
          summaries := summaries + [ContributionTypeSummary(ty, 0, 0, ZeroTime)];
          continue;
        }
        return Err(summary.error);
      }
      summaries := summaries + [summary.value];
    }
    return Ok(summaries);
  }
}
