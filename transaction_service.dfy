/** internal/app/transaction/service.go: the ledger.  A transaction row and
    the matching balance update are written inside one database transaction;
    the deferred handler commits it when both succeed and rolls it back
    otherwise. */
module TransactionService {
  import opened AppErrors
  import opened Tables
  import opened Base
  import TransactionRepo
  import UserRepo

  /** The transaction CreateTransactionForContribution asks for: the
      contribution's user and id, not redeemed, gained, for the
      contribution's balance change, at the contribution's time. */
  function TransactionFor(c: Contribution): (x: Transaction)
    ensures x.UserId == c.UserId && x.ContributionId == c.Id
    ensures !x.IsRedeemed && x.IsGained
    ensures x.TransactedBalance == c.BalanceChange && x.TransactedAt == c.ContributedAt
  {
    Transaction(0, c.UserId, c.Id, false, true, c.BalanceChange, c.ContributedAt)
  }

  /** The statements run inside the database transaction, on its copy of the
      tables: the insert, then the balance update of the inserted row. */
  function InTransaction(work: Tables, failing: set<Query>, info: Transaction): (res: (Tables, Result<Transaction>))
  {
    var (w1, created) := TransactionRepo.CreateTransactionOn(work, failing, info);
    if created.Err? then (w1, created)
    else
      var (w2, err) := UserRepo.UpdateUserCurrentBalanceOn(w1, failing, created.value);
      if err.Some? then (w2, Err(err.value)) else (w2, created)
  }

  /** CreateTransaction with the outcome of the deferred commit or rollback
      reaching the caller: either the row is stored and its amount credited
      to its user, or nothing changes and an error is returned. */
  function CreateTransactionOn(t: Tables, failing: set<Query>, info: Transaction): (res: (Tables, Result<Transaction>))
    ensures res.1.Ok? ==>
      res.1.value == info.(Id := |t.transactions| + 1)
      && res.0 == t.(transactions := t.transactions + [res.1.value],
                     users := CreditUser(t.users, info.UserId, info.TransactedBalance))
    ensures res.1.Err? ==> res.0 == t
    ensures res.1.Ok? <==>
      Begin !in failing && CreateTransactionQuery !in failing && UpdateUserBalanceQuery !in failing && Commit !in failing
      && !TransactionRepo.HasTransactionFor(t.transactions, info.ContributionId)
  {
    if Begin in failing then (t, Err(ErrInternalServer))
    else
      var (work, r) := InTransaction(t, failing, info);
      if r.Err? then
        if Rollback in failing then (t, Err(ErrInternalServer)) else (t, r)
      else if Commit in failing then (t, Err(ErrInternalServer))
      else (work, r)
  }

  /** CreateTransaction as written: its results are unnamed, so the deferred
      handler's `err = txErr` does not reach the caller, and a failed commit
      is reported as the inserted row. */
  function CreateTransactionAsWrittenOn(t: Tables, failing: set<Query>, info: Transaction): (res: (Tables, Result<Transaction>))
    ensures res.1.Err? ==> res.0 == t
  {
    if Begin in failing then (t, Err(ErrInternalServer))
    else
      var (work, r) := InTransaction(t, failing, info);
      if r.Err? || Commit in failing then (t, r) else (work, r)
  }

  /** CreateTransaction, the deferred handler's error included. */
  method CreateTransaction(db: Executer, info: Transaction) returns (r: Result<Transaction>)
    modifies db
    ensures (db.tables, r) == CreateTransactionOn(old(db.tables), db.failing, info)
  {
    var begun := BeginTx(db);
    if begun.Err? {
      return Err(begun.error);
    }
    var tx := begun.value;
    var err: Option<Error>;
    r := TransactionRepo.CreateTransaction(db, tx, info);
    if r.Err? {
      err := Some(r.error);
    } else {
      err := UserRepo.UpdateUserCurrentBalance(db, tx, r.value);
      if err.Some? {
        r := Err(err.value);
      }
    }
    // deferred: commit or roll back according to err
    var txErr := HandleTransaction(tx, err);
    if txErr.Some? {
      r := Err(txErr.value);
    }
  }

  /** CreateTransaction as written: the deferred handler's error is dropped. */
  method CreateTransactionAsWritten(db: Executer, info: Transaction) returns (r: Result<Transaction>)
    modifies db
    ensures (db.tables, r) == CreateTransactionAsWrittenOn(old(db.tables), db.failing, info)
  {
    var begun := BeginTx(db);
    if begun.Err? {
      return Err(begun.error);
    }
    var tx := begun.value;
    var err: Option<Error>;
    r := TransactionRepo.CreateTransaction(db, tx, info);
    if r.Err? {
      err := Some(r.error);
    } else {
      err := UserRepo.UpdateUserCurrentBalance(db, tx, r.value);
      if err.Some? {
        r := Err(err.value);
      }
    }
    var _ := HandleTransaction(tx, err);
  }

  /** When the commit fails, the call as written reports the new row as
      created, yet nothing is stored: the contribution still has no
      transaction and its user was not credited. */
  lemma CommitFailureReportedAsSuccess(t: Tables, failing: set<Query>, info: Transaction)
    requires Commit in failing
    requires Begin !in failing && CreateTransactionQuery !in failing && UpdateUserBalanceQuery !in failing
    requires GetTransactionByContributionIdQuery !in failing
    requires !TransactionRepo.HasTransactionFor(t.transactions, info.ContributionId)
    ensures CreateTransactionAsWrittenOn(t, failing, info) == (t, Ok(info.(Id := |t.transactions| + 1)))
    ensures TransactionRepo.GetTransactionByContributionId(CreateTransactionAsWrittenOn(t, failing, info).0, failing, info.ContributionId)
            == Err(ErrTransactionNotFound)
    ensures CreateTransactionOn(t, failing, info) == (t, Err(ErrInternalServer))
  {
  }

  /** CreateTransactionForContribution. */
  method CreateTransactionForContribution(db: Executer, c: Contribution) returns (r: Result<Transaction>)
    modifies db
    ensures (db.tables, r) == CreateTransactionOn(old(db.tables), db.failing, TransactionFor(c))
  {
    r := CreateTransaction(db, TransactionFor(c));
  }

  /** HandleTransactionCreation: get-or-create keyed by contribution id.  An
      existing transaction is returned and nothing is written; only
      ErrTransactionNotFound leads to creation; any other lookup error comes
      back unchanged. */
  function HandleTransactionCreationOn(t: Tables, failing: set<Query>, c: Contribution): (res: (Tables, Result<Transaction>))
    ensures TransactionRepo.HasTransactionFor(t.transactions, c.Id) ==> res.0 == t
    ensures res.1.Ok? ==> res.1.value.ContributionId == c.Id && res.1.value in res.0.transactions
    ensures res.1.Err? ==> res.0 == t
    ensures GetTransactionByContributionIdQuery in failing ==> res == (t, Err(DbFailure))
    ensures res.0 == t.(transactions := res.0.transactions, users := res.0.users)
    ensures t.transactions <= res.0.transactions
  {
    match TransactionRepo.GetTransactionByContributionId(t, failing, c.Id)
    case Ok(x) => (t, Ok(x))
    case Err(e) =>
      if e == ErrTransactionNotFound then CreateTransactionOn(t, failing, TransactionFor(c))
      else (t, Err(e))
  }

  method HandleTransactionCreation(db: Executer, c: Contribution) returns (r: Result<Transaction>)
    modifies db
    ensures (db.tables, r) == HandleTransactionCreationOn(old(db.tables), db.failing, c)
  {
    r := TransactionRepo.GetTransactionByContributionId(db.tables, db.failing, c.Id);
    if r.Err? {
      if r.error == ErrTransactionNotFound {
        r := CreateTransactionForContribution(db, c);
      }
    }
  }

  /** The ledger credits a contribution once: a successful call leaves
      exactly the tables of the first success when repeated, and the user's
      balance grows by the contribution's balance change only when the row is
      new. */
  lemma HandleTransactionCreationIdempotent(t: Tables, failing: set<Query>, c: Contribution)
    requires UniqueContributionIds(t.transactions)
    requires HandleTransactionCreationOn(t, failing, c).1.Ok?
    ensures var (t1, r1) := HandleTransactionCreationOn(t, failing, c);
            HandleTransactionCreationOn(t1, failing, c) == (t1, r1)
  {
    var (t1, r1) := HandleTransactionCreationOn(t, failing, c);
    if t1 != t {
      TransactionRepo.LookupFindsStored(t, failing, TransactionFor(c));
    }
  }

  /** A successful call keeps every invariant of the tables, and books the
      contribution's balance change to its user exactly when the contribution
      had no transaction yet. */
  lemma HandleTransactionCreationKeepsConsistent(t: Tables, failing: set<Query>, c: Contribution)
    requires Consistent(t)
    ensures var (t1, r1) := HandleTransactionCreationOn(t, failing, c);
            Consistent(t1)
            && (r1.Ok? && !TransactionRepo.HasTransactionFor(t.transactions, c.Id) ==>
                 forall uid :: Credited(t1.transactions, uid)
                               == Credited(t.transactions, uid) + (if uid == c.UserId then c.BalanceChange else 0))
            && (TransactionRepo.HasTransactionFor(t.transactions, c.Id) ==> t1 == t)
  {
    var (t1, r1) := HandleTransactionCreationOn(t, failing, c);
    if t1 != t {
      var row := TransactionFor(c).(Id := |t.transactions| + 1);
      CreditKeepsLedger(t, row);
      var txs := t.transactions + [row];
      assert txs[..|txs| - 1] == t.transactions;
    }
  }
}
