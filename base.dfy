/** internal/repository/base.go: beginning, committing and rolling back a
    database transaction, and choosing where a statement runs.

    An `Executer` is anything statements run against (the QueryExecuter
    interface): the database itself, or an open transaction.  A transaction
    works on its own copy of the tables; committing makes that copy the
    database's state, rolling back drops it.  Which statements fail is fixed
    per database by its `failing` set. */
module Base {
  import opened AppErrors
  import opened Tables

  class Executer {
    var tables: Tables
    const failing: set<Query>

    constructor (tables: Tables, failing: set<Query>)
      ensures this.tables == tables && this.failing == failing
    {
      this.tables := tables;
      this.failing := failing;
    }
  }

  datatype TxStatus = Open | Committed | CommitFailed | RolledBack | RollbackFailed

  /** An sqlx.Tx: statements run through `work`; `db` is where it commits. */
  class Tx {
    const db: Executer
    const work: Executer
    var status: TxStatus

    constructor (db: Executer)
      ensures this.db == db && fresh(work)
      ensures work.tables == db.tables && work.failing == db.failing
      ensures status == Open
    {
      this.db := db;
      this.work := new Executer(db.tables, db.failing);
      this.status := Open;
    }
  }

  /** BeginTx: a driver failure is reported as ErrInternalServer. */
  method BeginTx(db: Executer) returns (r: Result<Tx>)
    ensures r.Err? <==> Begin in db.failing
    ensures r.Err? ==> r.error == ErrInternalServer
    ensures r.Ok? ==> fresh(r.value) && fresh(r.value.work) && r.value.db == db
                      && r.value.work.tables == db.tables && r.value.work.failing == db.failing
                      && r.value.status == Open
  {
    if Begin in db.failing {
      return Err(ErrInternalServer);
    }
    var tx := new Tx(db);
    return Ok(tx);
  }

  /** CommitTx: on success the transaction's tables become the database's. */
  method CommitTx(tx: Tx) returns (err: Option<Error>)
    requires tx.status == Open && tx.work != tx.db
    modifies tx, tx.db
    ensures err.Some? <==> Commit in tx.db.failing
    ensures err.Some? ==> err.value == ErrInternalServer && tx.status == CommitFailed
                          && tx.db.tables == old(tx.db.tables)
    ensures err.None? ==> tx.status == Committed && tx.db.tables == old(tx.work.tables)
  {
    if Commit in tx.db.failing {
      tx.status := CommitFailed;
      return Some(ErrInternalServer);
    }
    tx.db.tables := tx.work.tables;
    tx.status := Committed;
    return None;
  }

  /** RollbackTx: the database keeps its tables whatever happens. */
  method RollbackTx(tx: Tx) returns (err: Option<Error>)
    requires tx.status == Open
    modifies tx
    ensures err.Some? <==> Rollback in tx.db.failing
    ensures err.Some? ==> err.value == ErrInternalServer && tx.status == RollbackFailed
    ensures err.None? ==> tx.status == RolledBack
  {
    if Rollback in tx.db.failing {
      tx.status := RollbackFailed;
      return Some(ErrInternalServer);
    }
    tx.status := RolledBack;
    return None;
  }

  /** HandleTransaction: an incoming error rolls back, no error commits;
      exactly one of the two is attempted, and its failure is reported as
      ErrInternalServer. */
  method HandleTransaction(tx: Tx, incomingErr: Option<Error>) returns (err: Option<Error>)
    requires tx.status == Open && tx.work != tx.db
    modifies tx, tx.db
    ensures incomingErr.Some? ==> tx.status in {RolledBack, RollbackFailed}
    ensures incomingErr.None? ==> tx.status in {Committed, CommitFailed}
    ensures incomingErr.Some? ==> tx.db.tables == old(tx.db.tables)
                                  && (err.Some? <==> Rollback in tx.db.failing)
    ensures incomingErr.None? ==> (err.Some? <==> Commit in tx.db.failing)
    ensures incomingErr.None? && err.None? ==> tx.db.tables == old(tx.work.tables)
    ensures incomingErr.None? && err.Some? ==> tx.db.tables == old(tx.db.tables)
    ensures err.Some? ==> err.value == ErrInternalServer
  {
    if incomingErr.Some? {
      err := RollbackTx(tx);
      return;
    }
    err := CommitTx(tx);
  }

  /** initiateQueryExecuter: statements go through the transaction when one
      is given, and straight to the database otherwise. */
  function InitiateQueryExecuter(db: Executer, tx: Tx?): (ex: Executer)
    ensures tx != null ==> ex == tx.work
    ensures tx == null ==> ex == db
  {
    if tx != null then tx.work else db
  }
}
