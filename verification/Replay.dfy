/** The table of consumed approvals and its transactions (src/nightjar/replay.py, src/nightjar/authorization.py). */
module Replay {
  import opened Models
  import opened Vehicle
  import opened Approval
  import opened Options

  datatype Row = Row(missionSha: string, policySha: string, executor: string, expiresAt: int, consumedAt: int)

  type Table = map<string, Row>

  type Pid = nat

  /** An immediate transaction holds the write lock and works on its own view of the table. */
  datatype Txn = Idle | Open(owner: Pid, view: Table)

  datatype Db = Db(table: Table, txn: Txn)

  function Begin(db: Db, pid: Pid): Db {
    db.(txn := Open(pid, db.table))
  }

  function Insert(db: Db, nonce: string, row: Row): Db
    requires db.txn.Open?
  {
    db.(txn := db.txn.(view := db.txn.view[nonce := row]))
  }

  function Commit(db: Db): Db
    requires db.txn.Open?
  {
    Db(db.txn.view, Idle)
  }

  function Rollback(db: Db): Db {
    db.(txn := Idle)
  }

  function RowOf(p: Payload, now: int): Row {
    Row(p.missionSha, p.policySha, p.executor, p.expiresAt, now)
  }

  /**
   * Where the transaction may raise: at a statement that then has no effect, or once the commit has taken
   * effect and nobody has been told yet.
   */
  datatype Stage = AtBegin | AtInsert | AtCommit | AfterCommit

  type Faults = Stage -> Option<Exn>

  /** The transaction gets as far as its commit taking effect. */
  predicate Commits(db: Db, nonce: string, faults: Faults) {
    && db.txn.Idle? && nonce !in db.table
    && faults(AtBegin).None? && faults(AtInsert).None? && faults(AtCommit).None?
  }

  /** `consume` as one indivisible step. */
  function Consumed(db: Db, nonce: string, row: Row, faults: Faults): (Db, Outcome<()>) {
    if db.txn.Open? then (db, Raise(StoreError))
    else if faults(AtBegin).Some? then (db, Raise(faults(AtBegin).value))
    else if faults(AtInsert).Some? then (db, Raise(faults(AtInsert).value))
    else if nonce in db.table then (db, Raise(ReplayError))
    else if faults(AtCommit).Some? then (db, Raise(faults(AtCommit).value))
    else
      (Db(db.table[nonce := row], Idle),
       match faults(AfterCommit)
       case Some(exn) => Raise(exn)
       case None => Ok(()))
  }

  /** `verify_and_consume_approval`: the nonce is touched only once the approval has verified. */
  function Authorized(
    w: World, db: Db, e: Envelope, mission: Mission, limits: PolicyLimits, executor: string, now: int, faults: Faults)
    : (Db, Outcome<Payload>)
  {
    match Verify(w, e, mission, limits, executor, now)
    case Raise(exn) => (db, Raise(exn))
    case Ok(p) =>
      var (after, out) := Consumed(db, p.nonce, RowOf(p, now), faults);
      (after, if out.Ok? then Ok(p) else Raise(out.exn))
  }

  /** The store as one process sees it through its own connection `pid`. */
  class SqliteNonceStore {
    const pid: Pid
    var table: Table
    var txn: Txn

    constructor (pid: Pid, table: Table)
      ensures this.pid == pid && State() == Db(table, Idle)
    {
      this.pid, this.table, txn := pid, table, Idle;
    }

    function State(): Db
      reads this
    {
      Db(table, txn)
    }

    /** BEGIN IMMEDIATE: the lock is had, or after the timeout it is not. */
    method BeginImmediate() returns (begun: bool)
      modifies this`txn
      ensures begun <==> old(txn).Idle?
      ensures State() == if begun then Begin(old(State()), pid) else old(State())
    {
      begun := txn.Idle?;
      if begun {
        txn := Open(pid, table);
      }
    }

    /** The insert meets the primary key. */
    method InsertRow(nonce: string, row: Row) returns (unused: bool)
      requires txn.Open?
      modifies this`txn
      ensures unused <==> nonce !in old(txn).view
      ensures State() == if unused then Insert(old(State()), nonce, row) else old(State())
    {
      unused := nonce !in txn.view;
      if unused {
        txn := txn.(view := txn.view[nonce := row]);
      }
    }

    method CommitTransaction()
      requires txn.Open?
      modifies this
      ensures State() == Commit(old(State()))
    {
      table, txn := txn.view, Idle;
    }

    method RollbackTransaction()
      modifies this`txn
      ensures State() == Rollback(old(State()))
    {
      txn := Idle;
    }

    /**
     * `consume`: the row is added exactly when no statement fails and the nonce was unused; otherwise the
     * table is left as it was. No transaction stays open.
     */
    method Consume(nonce: string, row: Row, faults: Faults) returns (out: Outcome<()>)
      modifies this
      ensures (State(), out) == Consumed(old(State()), nonce, row, faults)
      ensures txn == old(txn)
      ensures table == if old(Commits(State(), nonce, faults)) then old(table)[nonce := row] else old(table)
      ensures out.Ok? <==> old(Commits(State(), nonce, faults)) && faults(AfterCommit).None?
      ensures old(txn).Open? ==> out == Raise(StoreError)
      ensures old(txn).Idle? && faults(AtBegin).Some? ==> out == Raise(faults(AtBegin).value)
      ensures old(txn).Idle? && faults(AtBegin).None? && faults(AtInsert).Some? ==>
                out == Raise(faults(AtInsert).value)
      ensures old(txn).Idle? && faults(AtBegin).None? && faults(AtInsert).None? && nonce in old(table) ==>
                out == Raise(ReplayError)
    {
      var begun := BeginImmediate();
      if !begun {
        return Raise(StoreError);
      }
      if faults(AtBegin).Some? {
        RollbackTransaction();
        return Raise(faults(AtBegin).value);
      }
      if faults(AtInsert).Some? {
        RollbackTransaction();
        return Raise(faults(AtInsert).value);
      }
      var inserted := InsertRow(nonce, row);
      if !inserted {
        RollbackTransaction();
        return Raise(ReplayError);
      }
      if faults(AtCommit).Some? {
        RollbackTransaction();
        return Raise(faults(AtCommit).value);
      }
      CommitTransaction();
      if faults(AfterCommit).Some? {
        return Raise(faults(AfterCommit).value);
      }
      return Ok(());
    }

    method VerifyAndConsume(
      w: World, e: Envelope, mission: Mission, limits: PolicyLimits, executor: string, now: int, faults: Faults)
      returns (out: Outcome<Payload>)
      modifies this
      ensures (State(), out) == Authorized(w, old(State()), e, mission, limits, executor, now, faults)
    {
      hide Verify;
      var verified := Verify(w, e, mission, limits, executor, now);
      var p :- verified;
      var consumed := Consume(p.nonce, RowOf(p, now), faults);
      out := if consumed.Ok? then Ok(p) else Raise(consumed.exn);
    }
  }
}
