/** internal/repository/transaction.go: the transactions table, keyed by
    contribution id. */
module TransactionRepo {
  import opened AppErrors
  import opened Tables
  import opened Base

  function ForContribution(contributionId: int): Transaction -> bool
  {
    (x: Transaction) => x.ContributionId == contributionId
  }

  predicate HasTransactionFor(txs: seq<Transaction>, contributionId: int)
  {
    exists i :: 0 <= i < |txs| && txs[i].ContributionId == contributionId
  }

  /** The insert of CreateTransaction on a table state: the six given columns
      are stored under the next serial id and the stored row is returned.  A
      driver failure, or a second transaction for the same contribution, is
      ErrTransactionCreationFailed with nothing stored. */
  function CreateTransactionOn(t: Tables, failing: set<Query>, info: Transaction): (res: (Tables, Result<Transaction>))
    ensures res.1.Err? <==> CreateTransactionQuery in failing || HasTransactionFor(t.transactions, info.ContributionId)
    ensures res.1.Err? ==> res.1.error == ErrTransactionCreationFailed && res.0 == t
    ensures res.1.Ok? ==> res.1.value == info.(Id := |t.transactions| + 1)
                          && res.0 == t.(transactions := t.transactions + [res.1.value])
    ensures UniqueContributionIds(t.transactions) ==> UniqueContributionIds(res.0.transactions)
    ensures SerialIds(t) ==> SerialIds(res.0)
  {
    if CreateTransactionQuery in failing || HasTransactionFor(t.transactions, info.ContributionId) then
      (t, Err(ErrTransactionCreationFailed))
    else
      var row := info.(Id := |t.transactions| + 1);
      (t.(transactions := t.transactions + [row]), Ok(row))
  }

  method CreateTransaction(db: Executer, tx: Tx?, info: Transaction) returns (r: Result<Transaction>)
    modifies InitiateQueryExecuter(db, tx)
    ensures (InitiateQueryExecuter(db, tx).tables, r)
            == CreateTransactionOn(old(InitiateQueryExecuter(db, tx).tables), InitiateQueryExecuter(db, tx).failing, info)
  {
    var executer := InitiateQueryExecuter(db, tx);
    var res := CreateTransactionOn(executer.tables, executer.failing, info);
    executer.tables := res.0;
    r := res.1;
  }

  /** GetTransactionByContributionId: no row is ErrTransactionNotFound; a
      driver error is returned as it is. */
  function GetTransactionByContributionId(t: Tables, failing: set<Query>, contributionId: int): (r: Result<Transaction>)
    ensures r.Ok? ==> r.value in t.transactions && r.value.ContributionId == contributionId
    ensures r.Err? ==> r.error in {ErrTransactionNotFound, DbFailure}
    ensures r == Err(DbFailure) <==> GetTransactionByContributionIdQuery in failing
    ensures r == Err(ErrTransactionNotFound) <==>
      GetTransactionByContributionIdQuery !in failing && !HasTransactionFor(t.transactions, contributionId)
  {
    if GetTransactionByContributionIdQuery in failing then Err(DbFailure)
    else
      match Find(t.transactions, ForContribution(contributionId))
      case None => Err(ErrTransactionNotFound)
      case Some(x) => Ok(x)
  }

  /** Once a transaction for a contribution is stored, the lookup finds that
      very row: with at most one row per contribution, it is the only match. */
  lemma LookupFindsStored(t: Tables, failing: set<Query>, info: Transaction)
    requires GetTransactionByContributionIdQuery !in failing
    requires CreateTransactionOn(t, failing, info).1.Ok?
    ensures GetTransactionByContributionId(CreateTransactionOn(t, failing, info).0, failing, info.ContributionId)
            == CreateTransactionOn(t, failing, info).1
  {
    var txs := t.transactions;
    FindAppend(txs, info.(Id := |txs| + 1), ForContribution(info.ContributionId));
  }
}
