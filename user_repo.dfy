/** internal/repository/user.go: the users table.  The balance update the
    transaction service calls, UpdateUserCurrentBalance, is not part of the
    repository's code; it is modelled here as the assumed step "add the
    transaction's amount to its user's balance". */
module UserRepo {
  import opened AppErrors
  import opened Tables
  import opened Base

  function WithGithubId(githubId: int): User -> bool
  {
    (u: User) => u.GithubId == githubId
  }

  function WithId(userId: int): User -> bool
  {
    (u: User) => u.Id == userId
  }

  /** The columns CreateUser is given. */
  datatype CreateUserRequestBody = CreateUserRequestBody(
    GithubId: int, GithubUsername: string, AvatarUrl: string, Email: string, IsAdmin: bool)

  predicate HasGithubId(us: seq<User>, githubId: int)
  {
    exists i :: 0 <= i < |us| && us[i].GithubId == githubId
  }

  /** The insert of CreateUser, with `now` the time it runs: the GitHub id,
      user name, email and avatar are stored with both timestamps set to
      now; balance, blocked and admin take the column defaults (0, false,
      false), so the IsAdmin of the request is not stored.  A driver failure
      or a second user with the same GitHub id is ErrUserCreationFailed. */
  function CreateUserOn(t: Tables, failing: set<Query>, info: CreateUserRequestBody, now: Timestamp): (res: (Tables, Result<User>))
    ensures res.1.Err? <==> CreateUserQuery in failing || HasGithubId(t.users, info.GithubId)
    ensures res.1.Err? ==> res.1.error == ErrUserCreationFailed && res.0 == t
    ensures res.1.Ok? ==>
      var u := res.1.value;
      u.Id == |t.users| + 1 && u.GithubId == info.GithubId && u.GithubUsername == info.GithubUsername
      && u.Email == info.Email && u.AvatarUrl == info.AvatarUrl
      && u.CurrentBalance == 0 && !u.IsBlocked && !u.IsAdmin
      && u.CreatedAt == now && u.UpdatedAt == now
      && res.0 == t.(users := t.users + [u])
    ensures SerialIds(t) ==> SerialIds(res.0)
    ensures UniqueGithubIds(t.users) ==> UniqueGithubIds(res.0.users)
  {
    if CreateUserQuery in failing || HasGithubId(t.users, info.GithubId) then (t, Err(ErrUserCreationFailed))
    else
      var u := User(|t.users| + 1, info.GithubId, info.GithubUsername, info.Email, info.AvatarUrl, 0, false, false, now, now);
      (t.(users := t.users + [u]), Ok(u))
  }

  /** A new user keeps the tables consistent, provided no transaction is
      already booked to the id it receives. */
  lemma CreateUserKeepsConsistent(t: Tables, failing: set<Query>, info: CreateUserRequestBody, now: Timestamp)
    requires Consistent(t)
    requires Credited(t.transactions, |t.users| + 1) == 0
    ensures Consistent(CreateUserOn(t, failing, info, now).0)
  {
    var res := CreateUserOn(t, failing, info, now);
    if res.1.Ok? {
      assert res.0.users[|t.users|].CurrentBalance == 0;
    }
  }

  method CreateUser(db: Executer, tx: Tx?, info: CreateUserRequestBody, now: Timestamp) returns (r: Result<User>)
    modifies InitiateQueryExecuter(db, tx)
    ensures (InitiateQueryExecuter(db, tx).tables, r)
            == CreateUserOn(old(InitiateQueryExecuter(db, tx).tables), InitiateQueryExecuter(db, tx).failing, info, now)
  {
    var executer := InitiateQueryExecuter(db, tx);
    var res := CreateUserOn(executer.tables, executer.failing, info, now);
    executer.tables := res.0;
    r := res.1;
  }

  /** `SELECT *` and `RETURNING *` give every column of the users table, one
      per field of the User struct in internal/repository/domain.go:5-20;
      CreateUser and the two lookups scan them into 11 destinations. */
  const UserColumns: nat := 14
  const UserScanDestinations: nat := 11

  /** Row.Scan of a users row: one destination per column reads the row,
      any other count is a scan error that stores nothing. */
  function ScanUser(u: User, destinations: nat): (r: Result<User>)
    ensures r.Ok? <==> destinations == UserColumns
    ensures r.Ok? ==> r.value == u
    ensures r.Err? ==> r.error == ScanArgCount(UserColumns, destinations) && !Is(r.error, NoRows)
  {
    if destinations == UserColumns then Ok(u) else Err(ScanArgCount(UserColumns, destinations))
  }

  /** CreateUser as written: the insert runs and stores the row, then
      scanning the returned row fails, so ErrUserCreationFailed comes back
      although the user now exists. */
  function CreateUserAsWrittenOn(t: Tables, failing: set<Query>, info: CreateUserRequestBody, now: Timestamp): (res: (Tables, Result<User>))
    ensures res.1 == Err(ErrUserCreationFailed)
    ensures res.0 == CreateUserOn(t, failing, info, now).0
    ensures res.0 != t <==> CreateUserOn(t, failing, info, now).1.Ok?
  {
    var inserted := CreateUserOn(t, failing, info, now);
    match inserted.1
    case Err(e) => (inserted.0, Err(e))
    case Ok(u) =>
      match ScanUser(u, UserScanDestinations)
      case Ok(v) => (inserted.0, Ok(v))
      case Err(_) => (inserted.0, Err(ErrUserCreationFailed))
  }

  /** GetUserByGithubId as written: a matching row fails to scan, and that
      error is not sql.ErrNoRows, so a registered user is reported as
      ErrInternalServer; only a GitHub id with no row is ErrUserNotFound. */
  function GetUserByGithubIdAsWritten(t: Tables, failing: set<Query>, githubId: int): (r: Result<User>)
    ensures r.Err?
    ensures r == Err(ErrUserNotFound) <==> GetUserByGithubIdQuery !in failing && !HasGithubId(t.users, githubId)
    ensures r == Err(ErrInternalServer) <==> GetUserByGithubIdQuery in failing || HasGithubId(t.users, githubId)
  {
    if GetUserByGithubIdQuery in failing then Err(ErrInternalServer)
    else
      match Find(t.users, WithGithubId(githubId))
      case None => Err(ErrUserNotFound)
      case Some(u) =>
        match ScanUser(u, UserScanDestinations)
        case Ok(v) => Ok(v)
        case Err(e) => if Is(e, NoRows) then Err(ErrUserNotFound) else Err(ErrInternalServer)
  }

  /** The scan as written loses every stored user: where the corrected
      lookup returns the user, the lookup as written is ErrInternalServer,
      and where the corrected insert stores a user, the insert as written
      stores the same row yet fails. */
  lemma UserScanFailsAsWritten(t: Tables, failing: set<Query>, info: CreateUserRequestBody, now: Timestamp)
    requires GetUserByGithubIdQuery !in failing && CreateUserQuery !in failing
    requires !HasGithubId(t.users, info.GithubId)
    ensures var t1 := CreateUserOn(t, failing, info, now).0;
            GetUserByGithubId(t1, failing, info.GithubId).Ok?
            && GetUserByGithubIdAsWritten(t1, failing, info.GithubId) == Err(ErrInternalServer)
    ensures var res := CreateUserAsWrittenOn(t, failing, info, now);
            res.0.users == t.users + [CreateUserOn(t, failing, info, now).1.value]
            && res.1 == Err(ErrUserCreationFailed)
  {
    var t1 := CreateUserOn(t, failing, info, now).0;
    assert t1.users[|t.users|].GithubId == info.GithubId;
    assert HasGithubId(t1.users, info.GithubId);
  }

  /** GetUserByGithubId: no row is ErrUserNotFound, any other failure
      ErrInternalServer. */
  function GetUserByGithubId(t: Tables, failing: set<Query>, githubId: int): (r: Result<User>)
    ensures r.Ok? ==> r.value in t.users && r.value.GithubId == githubId
    ensures r.Err? ==> r.error in {ErrUserNotFound, ErrInternalServer}
    ensures r == Err(ErrInternalServer) <==> GetUserByGithubIdQuery in failing
    ensures r == Err(ErrUserNotFound) <==> GetUserByGithubIdQuery !in failing && !HasGithubId(t.users, githubId)
  {
    if GetUserByGithubIdQuery in failing then Err(ErrInternalServer)
    else
      match Find(t.users, WithGithubId(githubId))
      case None => Err(ErrUserNotFound)
      case Some(u) => Ok(u)
  }

  /** GetUserById as written: it runs the github_id query, so the internal id
      it is given is compared with the GitHub ids, and it scans the row into
      the same 11 destinations. */
  function GetUserByIdAsWritten(t: Tables, failing: set<Query>, userId: int): Result<User>
  {
    GetUserByGithubIdAsWritten(t, failing, userId)
  }

  /** GetUserById as intended: the user whose internal id is userId. */
  function GetUserById(t: Tables, failing: set<Query>, userId: int): (r: Result<User>)
    ensures r.Ok? ==> r.value in t.users && r.value.Id == userId
    ensures r.Err? ==> r.error in {ErrUserNotFound, ErrInternalServer}
    ensures r == Err(ErrInternalServer) <==> GetUserByIdQuery in failing
    ensures r == Err(ErrUserNotFound) <==>
      GetUserByIdQuery !in failing && (forall i :: 0 <= i < |t.users| ==> t.users[i].Id != userId)
  {
    if GetUserByIdQuery in failing then Err(ErrInternalServer)
    else
      match Find(t.users, WithId(userId))
      case None => Err(ErrUserNotFound)
      case Some(u) => Ok(u)
  }

  /** With serial ids, the intended lookup finds the user at position id - 1. */
  lemma GetUserByIdFindsSerial(t: Tables, failing: set<Query>, userId: int)
    requires SerialIds(t) && GetUserByIdQuery !in failing
    requires 1 <= userId <= |t.users|
    ensures GetUserById(t, failing, userId) == Ok(t.users[userId - 1])
  {
    FindUnique(t.users, WithId(userId), userId - 1);
  }

  /** A user whose GitHub id differs from its internal id is not found by
      the lookup as written, although it exists. */
  lemma GetUserByIdAsWrittenMisses()
    ensures var u := User(1, 42, "octocat", "", "", 0, false, false, Timestamp(2025, 1, 0), Timestamp(2025, 1, 0));
            var t := Tables([u], [], [], [], [], [], [], []);
            GetUserByIdAsWritten(t, {}, 1) == Err(ErrUserNotFound) && GetUserById(t, {}, 1) == Ok(u)
  {
    var u := User(1, 42, "octocat", "", "", 0, false, false, Timestamp(2025, 1, 0), Timestamp(2025, 1, 0));
    var t := Tables([u], [], [], [], [], [], [], []);
    assert t.users[0].GithubId != 1;
    assert !HasGithubId(t.users, 1);
  }

  /** Sets the email of the users whose id is userId. */
  function SetEmail(users: seq<User>, userId: int, email: string): (r: seq<User>)
    ensures |r| == |users|
    ensures forall i :: 0 <= i < |users| ==> r[i] == if users[i].Id == userId then users[i].(Email := email) else users[i]
  {
    if |users| == 0 then []
    else [if users[0].Id == userId then users[0].(Email := email) else users[0]] + SetEmail(users[1..], userId, email)
  }

  /** UpdateUserEmail on a table state: only the email of the matching user
      changes (an id that matches no row changes nothing and is no error); a
      driver failure is ErrInternalServer. */
  function UpdateUserEmailOn(t: Tables, failing: set<Query>, userId: int, email: string): (res: (Tables, Option<Error>))
    ensures res.1.Some? <==> UpdateEmailQuery in failing
    ensures res.1.Some? ==> res.1.value == ErrInternalServer && res.0 == t
    ensures res.1.None? ==> res.0 == t.(users := SetEmail(t.users, userId, email))
    ensures Consistent(t) ==> Consistent(res.0)
  {
    if UpdateEmailQuery in failing then (t, Some(ErrInternalServer))
    else (t.(users := SetEmail(t.users, userId, email)), None)
  }

  method UpdateUserEmail(db: Executer, tx: Tx?, userId: int, email: string) returns (err: Option<Error>)
    modifies InitiateQueryExecuter(db, tx)
    ensures (InitiateQueryExecuter(db, tx).tables, err)
            == UpdateUserEmailOn(old(InitiateQueryExecuter(db, tx).tables), InitiateQueryExecuter(db, tx).failing, userId, email)
  {
    var executer := InitiateQueryExecuter(db, tx);
    var res := UpdateUserEmailOn(executer.tables, executer.failing, userId, email);
    executer.tables := res.0;
    err := res.1;
  }

  /** UpdateUserCurrentBalance (assumed): the transaction's amount is added
      to the balance of its user; a driver failure is ErrInternalServer and
      changes nothing. */
  function UpdateUserCurrentBalanceOn(t: Tables, failing: set<Query>, transaction: Transaction): (res: (Tables, Option<Error>))
    ensures res.1.Some? <==> UpdateUserBalanceQuery in failing
    ensures res.1.Some? ==> res.1.value == ErrInternalServer && res.0 == t
    ensures res.1.None? ==> res.0 == t.(users := CreditUser(t.users, transaction.UserId, transaction.TransactedBalance))
  {
    if UpdateUserBalanceQuery in failing then (t, Some(ErrInternalServer))
    else (t.(users := CreditUser(t.users, transaction.UserId, transaction.TransactedBalance)), None)
  }

  method UpdateUserCurrentBalance(db: Executer, tx: Tx?, transaction: Transaction) returns (err: Option<Error>)
    modifies InitiateQueryExecuter(db, tx)
    ensures (InitiateQueryExecuter(db, tx).tables, err)
            == UpdateUserCurrentBalanceOn(old(InitiateQueryExecuter(db, tx).tables), InitiateQueryExecuter(db, tx).failing, transaction)
  {
    var executer := InitiateQueryExecuter(db, tx);
    var res := UpdateUserCurrentBalanceOn(executer.tables, executer.failing, transaction);
    executer.tables := res.0;
    err := res.1;
  }
}
