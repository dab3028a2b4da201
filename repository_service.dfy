/** internal/app/repository/service.go: the repository service over the
    repositories table.  Fetching a repository's details from GitHub is an
    HTTP call; it is given as a function from the details URL to its
    outcome. */
module RepositoryService {
  import opened AppErrors
  import opened Tables
  import opened Base
  import RepositoryRepo

  /** The GitHub repository details the service reads (FetchRepositoryDetailsResponse). */
  datatype RepositoryDetails = RepositoryDetails(
    Id: int, Name: string, Description: string, LanguagesURL: string, UpdateDate: Timestamp,
    OwnerLogin: string, ContributorsUrl: string, RepoUrl: string)

  /** GetRepoByRepoId: despite its name, the lookup is by GitHub repository
      id; the repository layer's errors come back unchanged. */
  method GetRepoByRepoId(db: Executer, repoGithubId: int) returns (r: Result<Repository>)
    ensures r == RepositoryRepo.GetRepoByGithubId(db.tables, db.failing, repoGithubId)
    ensures r.Ok? ==> r.value in db.tables.repositories && r.value.GithubRepoId == repoGithubId
    ensures r == Err(ErrInternalServer) <==> GetRepoByGithubIdQuery in db.failing
    ensures r == Err(ErrRepoNotFound) <==>
      GetRepoByGithubIdQuery !in db.failing && !RepositoryRepo.HasGithubRepoId(db.tables.repositories, repoGithubId)
    ensures r.Err? ==> r.error in {ErrRepoNotFound, ErrInternalServer}
  {
    r := RepositoryRepo.GetRepoByGithubId(db.tables, db.failing, repoGithubId);
  }

  /** The row CreateRepository asks for: the GitHub id it is given, and the
      name, URL, description, languages URL, owner login and update date of
      the details.  The contributors URL is not copied and stays empty. */
  function RepositoryFromDetails(repoGithubId: int, d: RepositoryDetails): (r: Repository)
    ensures r.GithubRepoId == repoGithubId && r.RepoName == d.Name && r.RepoUrl == d.RepoUrl
    ensures r.Description == d.Description && r.LanguagesUrl == d.LanguagesURL
    ensures r.OwnerName == d.OwnerLogin && r.UpdateDate == d.UpdateDate
    ensures r.ContributorsUrl == ""
  {
    Repository(0, repoGithubId, d.Name, d.Description, d.LanguagesURL, d.RepoUrl, d.OwnerLogin, d.UpdateDate, "")
  }

  /** CreateRepository on a table state: the insert of the mapped row; an
      insert failure comes back unchanged and stores nothing. */
  function CreateRepositoryOn(t: Tables, failing: set<Query>, repoGithubId: int, d: RepositoryDetails): (res: (Tables, Result<Repository>))
    ensures res.1.Err? ==> res.1.error == ErrInternalServer && res.0 == t
    ensures res.1.Err? <==> CreateRepositoryQuery in failing || RepositoryRepo.HasGithubRepoId(t.repositories, repoGithubId)
    ensures res.1.Ok? ==> res.1.value == RepositoryFromDetails(repoGithubId, d).(Id := |t.repositories| + 1)
                          && res.0 == t.(repositories := t.repositories + [res.1.value])
  {
    RepositoryRepo.CreateRepositoryOn(t, failing, RepositoryFromDetails(repoGithubId, d))
  }

  method CreateRepository(db: Executer, repoGithubId: int, d: RepositoryDetails) returns (r: Result<Repository>)
    modifies db
    ensures (db.tables, r) == CreateRepositoryOn(old(db.tables), db.failing, repoGithubId, d)
  {
    r := RepositoryRepo.CreateRepository(db, null, RepositoryFromDetails(repoGithubId, d));
  }

  /** HandleRepositoryCreation, whose code is not part of this model, as a
      get-or-create by GitHub repository id, the way its caller at
      internal/app/contribution/service.go:126-131 uses it: the repository
      with the event's GitHub id if there is one; otherwise its details are
      fetched and a row is created.  A
      lookup error other than ErrRepoNotFound, a fetch error and an insert
      error come back unchanged. */
  function HandleRepositoryCreationOn(t: Tables, failing: set<Query>, repoGithubId: int, repoUrl: string,
                                      fetch: string -> Result<RepositoryDetails>): (res: (Tables, Result<Repository>))
    ensures res.1.Ok? ==> res.1.value in res.0.repositories && res.1.value.GithubRepoId == repoGithubId
    ensures RepositoryRepo.HasGithubRepoId(t.repositories, repoGithubId) ==> res.0 == t
    ensures res.1.Err? ==> res.0 == t
    ensures res.0 == t || res.0 == t.(repositories := res.0.repositories)
    ensures |res.0.repositories| <= |t.repositories| + 1 && t.repositories <= res.0.repositories
    ensures Consistent(t) ==> Consistent(res.0)
  {
    match RepositoryRepo.GetRepoByGithubId(t, failing, repoGithubId)
    case Ok(r) => (t, Ok(r))
    case Err(e) =>
      if e != ErrRepoNotFound then (t, Err(e))
      else
        match fetch(repoUrl)
        case Err(fe) => (t, Err(fe))
        case Ok(d) => CreateRepositoryOn(t, failing, repoGithubId, d)
  }

  method HandleRepositoryCreation(db: Executer, repoGithubId: int, repoUrl: string, fetch: string -> Result<RepositoryDetails>)
    returns (r: Result<Repository>)
    modifies db
    ensures (db.tables, r) == HandleRepositoryCreationOn(old(db.tables), db.failing, repoGithubId, repoUrl, fetch)
  {
    r := GetRepoByRepoId(db, repoGithubId);
    if r.Err? && r.error == ErrRepoNotFound {
      var details := fetch(repoUrl);
      if details.Err? {
        return Err(details.error);
      }
      r := CreateRepository(db, repoGithubId, details.value);
    }
  }

  /** Resolving the same repository twice creates at most one row: the
      second call finds the row the first one created. */
  lemma HandleRepositoryCreationOnce(t: Tables, failing: set<Query>, repoGithubId: int, repoUrl: string,
                                     fetch: string -> Result<RepositoryDetails>)
    requires HandleRepositoryCreationOn(t, failing, repoGithubId, repoUrl, fetch).1.Ok?
    ensures var (t1, r1) := HandleRepositoryCreationOn(t, failing, repoGithubId, repoUrl, fetch);
            HandleRepositoryCreationOn(t1, failing, repoGithubId, repoUrl, fetch) == (t1, r1)
  {
    var (t1, r1) := HandleRepositoryCreationOn(t, failing, repoGithubId, repoUrl, fetch);
    if t1 != t {
      RepositoryRepo.CreatedRepositoryIsFound(t, failing, RepositoryFromDetails(repoGithubId, fetch(repoUrl).value));
    }
  }
}
