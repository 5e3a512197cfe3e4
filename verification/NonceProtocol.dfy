/**
 * Any number of processes sharing one table of consumed approvals. Each verifies, takes the write lock,
 * inserts, commits, and only then creates the vehicle system; any of them may fail or crash between any
 * two steps, and the steps of different processes interleave freely.
 */
module NonceProtocol {
  import opened Models
  import opened Vehicle
  import opened Approval
  import opened Replay
  import opened Options

  datatype Job = Job(envelope: Envelope, mission: Mission, limits: PolicyLimits, executor: string)

  datatype Pc = Started | Verified | Holding | Inserted | Spent | Created | Refused

  /** `now` is the clock as verification read it. A crashed process keeps the place it had reached. */
  datatype Proc = Proc(job: Job, now: int, pc: Pc, alive: bool)

  datatype Sys = Sys(db: Db, procs: map<Pid, Proc>)

  datatype Label =
    | Spawn(pid: Pid, job: Job)
    | Check(pid: Pid, now: int)     // verify_approval
    | Lock(pid: Pid)                // BEGIN IMMEDIATE; waits while another process holds the lock
    | Add(pid: Pid)                 // INSERT
    | Finish(pid: Pid)              // commit
    | Fail(pid: Pid)                // a statement raises, or the wait for the lock times out
    | Crash(pid: Pid)
    | Create(pid: Pid)              // system creation, after consume has returned

  const START := Sys(Db(map[], Idle), map[])

  function Nonce(p: Proc): string { p.job.envelope.payload.nonce }

  function RowFor(p: Proc): Row { RowOf(p.job.envelope.payload, p.now) }

  predicate Passes(w: World, p: Proc) {
    Verify(w, p.job.envelope, p.job.mission, p.job.limits, p.job.executor, p.now).Ok?
  }

  /** The lock is released, and uncommitted work dropped, if it was this process that held it. */
  function Release(db: Db, pid: Pid): Db {
    if db.txn.Open? && db.txn.owner == pid then Rollback(db) else db
  }

  function Move(s: Sys, db: Db, p: Proc, pid: Pid): Sys {
    Sys(db, s.procs[pid := p])
  }

  /** One step of one process; a step that is not its turn changes nothing. */
  function Step(w: World, s: Sys, l: Label): Sys {
    if l.Spawn? then
      if l.pid in s.procs then s else Move(s, s.db, Proc(l.job, 0, Started, true), l.pid)
    else if l.pid !in s.procs || !s.procs[l.pid].alive then s
    else
      var p := s.procs[l.pid];
      match l
      case Spawn(_, _) => s
      case Check(_, now) =>
        if p.pc != Started then s
        else
          var q := p.(now := now);
          Move(s, s.db, q.(pc := if Passes(w, q) then Verified else Refused), l.pid)
      case Lock(_) =>
        if p.pc != Verified || s.db.txn.Open? then s
        else Move(s, Begin(s.db, l.pid), p.(pc := Holding), l.pid)
      case Add(_) =>
        if p.pc != Holding || s.db.txn.Idle? then s
        else if Nonce(p) in s.db.txn.view then Move(s, Release(s.db, l.pid), p.(pc := Refused), l.pid)
        else Move(s, Insert(s.db, Nonce(p), RowFor(p)), p.(pc := Inserted), l.pid)
      case Finish(_) =>
        if p.pc != Inserted || s.db.txn.Idle? then s
        else Move(s, Commit(s.db), p.(pc := Spent), l.pid)
      case Fail(_) =>
        if p.pc == Verified || p.pc == Holding || p.pc == Inserted then
          Move(s, Release(s.db, l.pid), p.(pc := Refused), l.pid)
        else s
      case Crash(_) => Move(s, Release(s.db, l.pid), p.(alive := false), l.pid)
      case Create(_) => if p.pc != Spent then s else Move(s, s.db, p.(pc := Created), l.pid)
  }

  /** Where a schedule leads. Every schedule is one interleaving. */
  function After(w: World, schedule: seq<Label>): Sys {
    if schedule == [] then START
    else Step(w, After(w, schedule[..|schedule| - 1]), schedule[|schedule| - 1])
  }

  // ----- the invariant

  predicate Past(p: Proc) {
    p.pc == Spent || p.pc == Created
  }

  /** A live process between lock and commit owns the open transaction. */
  predicate ProcOk(w: World, s: Sys, pid: Pid)
    requires pid in s.procs
  {
    var p := s.procs[pid];
    && (p.pc != Started && p.pc != Refused ==> Passes(w, p))
    && (p.alive && (p.pc == Holding || p.pc == Inserted) ==> s.db.txn.Open? && s.db.txn.owner == pid)
    && (Past(p) ==> Nonce(p) in s.db.table && s.db.table[Nonce(p)] == RowFor(p))
  }

  /** The owner is alive; its view is the table, with its own unused nonce added once it has inserted. */
  predicate TxnOk(s: Sys) {
    s.db.txn.Open? ==>
      && s.db.txn.owner in s.procs
      && var p := s.procs[s.db.txn.owner];
         && p.alive
         && (|| (p.pc == Holding && s.db.txn.view == s.db.table)
             || (p.pc == Inserted && Nonce(p) !in s.db.table && s.db.txn.view == s.db.table[Nonce(p) := RowFor(p)]))
  }

  predicate Spender(s: Sys, nonce: string, pid: Pid) {
    pid in s.procs && Past(s.procs[pid]) && Nonce(s.procs[pid]) == nonce
  }

  ghost predicate RowsOk(s: Sys) {
    forall nonce :: nonce in s.db.table ==> exists pid :: Spender(s, nonce, pid)
  }

  ghost predicate OneSpender(s: Sys) {
    forall nonce, p, q :: Spender(s, nonce, p) && Spender(s, nonce, q) ==> p == q
  }

  ghost predicate ProcsOk(w: World, s: Sys) {
    forall pid :: pid in s.procs ==> ProcOk(w, s, pid)
  }

  ghost predicate Inv(w: World, s: Sys) {
    ProcsOk(w, s) && TxnOk(s) && RowsOk(s) && OneSpender(s)
  }

  /** Steps that leave the table and everyone's spending alone. */
  predicate Quiet(s: Sys, s': Sys, pid: Pid) {
    && s'.db.table == s.db.table
    && pid in s'.procs
    && s'.procs == s.procs[pid := s'.procs[pid]]
    && (if pid in s.procs && Past(s.procs[pid]) then
          && Past(s'.procs[pid]) && s'.procs[pid].job == s.procs[pid].job && s'.procs[pid].now == s.procs[pid].now
        else !Past(s'.procs[pid]))
  }

  lemma QuietSpender(s: Sys, s': Sys, pid: Pid, nonce: string, q: Pid)
    requires Quiet(s, s', pid)
    ensures Spender(s', nonce, q) <==> Spender(s, nonce, q)
  {
  }

  lemma QuietRows(s: Sys, s': Sys, pid: Pid)
    requires Quiet(s, s', pid) && RowsOk(s) && OneSpender(s)
    ensures RowsOk(s') && OneSpender(s')
  {
    assert s'.db.table == s.db.table;
    hide Quiet, Spender;
    forall nonce, q ensures Spender(s', nonce, q) <==> Spender(s, nonce, q) {
      QuietSpender(s, s', pid, nonce, q);
    }
  }

  lemma StepQuiet(w: World, s: Sys, l: Label)
    requires !l.Finish?
    ensures Step(w, s, l) == s || Quiet(s, Step(w, s, l), l.pid)
  {
    hide Passes;
  }

  /** The process that steps is in order afterwards. */
  lemma StepSelf(w: World, s: Sys, l: Label)
    requires ProcsOk(w, s) && TxnOk(s) && !l.Finish?
    ensures Step(w, s, l) == s || (l.pid in Step(w, s, l).procs && ProcOk(w, Step(w, s, l), l.pid))
  {
    hide Verify;
    if l.pid in s.procs {
      assert ProcOk(w, s, l.pid);
    }
  }

  /** And so is every other: no step takes away a lock another live process holds. */
  lemma StepOther(w: World, s: Sys, l: Label, q: Pid)
    requires ProcsOk(w, s) && TxnOk(s) && !l.Finish?
    requires q != l.pid && q in s.procs
    ensures q in Step(w, s, l).procs && ProcOk(w, Step(w, s, l), q)
  {
    hide Passes, Verify;
    assert ProcOk(w, s, q);
    if l.pid in s.procs {
      assert ProcOk(w, s, l.pid);
    }
  }

  lemma StepProcs(w: World, s: Sys, l: Label)
    requires ProcsOk(w, s) && TxnOk(s) && !l.Finish?
    ensures ProcsOk(w, Step(w, s, l))
  {
    StepQuiet(w, s, l);
    var s' := Step(w, s, l);
    hide Step, ProcOk;
    if s' != s {
      forall q | q in s'.procs ensures ProcOk(w, s', q) {
        if q == l.pid { StepSelf(w, s, l); } else { StepOther(w, s, l, q); }
      }
    }
  }

  lemma StepTxn(w: World, s: Sys, l: Label)
    requires ProcsOk(w, s) && TxnOk(s)
    ensures TxnOk(Step(w, s, l))
  {
    hide Passes, Verify;
    if l.pid in s.procs {
      assert ProcOk(w, s, l.pid);
    }
  }

  // ----- the commit

  /** A commit that happens adds exactly the row of a nonce that was not in the table. */
  lemma FinishAdds(w: World, s: Sys, pid: Pid)
    requires ProcsOk(w, s) && TxnOk(s) && Step(w, s, Finish(pid)) != s
    ensures pid in s.procs && !Past(s.procs[pid])
    ensures var s', p := Step(w, s, Finish(pid)), s.procs[pid];
            && Nonce(p) !in s.db.table
            && s'.db == Db(s.db.table[Nonce(p) := RowFor(p)], Idle)
            && s'.procs == s.procs[pid := p.(pc := Spent)]
            && s.db.txn.Open? && s.db.txn.owner == pid
            && Passes(w, p)
  {
    hide Verify;
    assert ProcOk(w, s, pid);
  }

  /** Adding the row of an unused nonce takes nothing away from a process that is not in a transaction. */
  lemma RowAdded(w: World, s: Sys, s': Sys, q: Pid, nonce: string, row: Row)
    requires q in s.procs && q in s'.procs && s'.procs[q] == s.procs[q] && ProcOk(w, s, q)
    requires s'.db == Db(s.db.table[nonce := row], Idle) && nonce !in s.db.table
    requires s.db.txn.Open? && s.db.txn.owner != q
    ensures ProcOk(w, s', q)
  {
    hide Passes, Nonce, RowFor;
  }

  lemma FinishOther(w: World, s: Sys, pid: Pid, q: Pid)
    requires ProcsOk(w, s) && TxnOk(s) && Step(w, s, Finish(pid)) != s
    requires q in s.procs && q != pid
    ensures ProcOk(w, Step(w, s, Finish(pid)), q)
  {
    FinishAdds(w, s, pid);
    assert ProcOk(w, s, q) && ProcOk(w, s, pid);
    hide Step, Passes, TxnOk, ProcsOk, ProcOk, Nonce, RowFor;
    RowAdded(w, s, Step(w, s, Finish(pid)), q, Nonce(s.procs[pid]), RowFor(s.procs[pid]));
  }

  lemma FinishProcs(w: World, s: Sys, pid: Pid)
    requires ProcsOk(w, s) && TxnOk(s) && Step(w, s, Finish(pid)) != s
    ensures ProcsOk(w, Step(w, s, Finish(pid)))
  {
    FinishAdds(w, s, pid);
    var s' := Step(w, s, Finish(pid));
    hide Step, Passes, TxnOk;
    assert ProcOk(w, s', pid);
    hide ProcOk;
    forall q | q in s'.procs ensures ProcOk(w, s', q) {
      if q != pid { FinishOther(w, s, pid, q); }
    }
  }

  lemma FinishRows(w: World, s: Sys, pid: Pid)
    requires ProcsOk(w, s) && TxnOk(s) && RowsOk(s) && OneSpender(s) && Step(w, s, Finish(pid)) != s
    ensures RowsOk(Step(w, s, Finish(pid))) && OneSpender(Step(w, s, Finish(pid)))
  {
    FinishAdds(w, s, pid);
    var s', p := Step(w, s, Finish(pid)), s.procs[pid];
    hide Step, Passes;
    forall nonce, q ensures Spender(s', nonce, q) <==> Spender(s, nonce, q) || (nonce == Nonce(p) && q == pid) {
    }
    forall q ensures !Spender(s, Nonce(p), q) {
      assert q in s.procs ==> ProcOk(w, s, q);
    }
    hide Spender;
    assert Spender(s', Nonce(p), pid);
  }

  lemma StepInv(w: World, s: Sys, l: Label)
    requires Inv(w, s)
    ensures Inv(w, Step(w, s, l))
  {
    hide Step, TxnOk, RowsOk, OneSpender, ProcsOk;
    StepTxn(w, s, l);
    if Step(w, s, l) != s {
      if l.Finish? {
        FinishProcs(w, s, l.pid);
        FinishRows(w, s, l.pid);
      } else {
        StepProcs(w, s, l);
        StepQuiet(w, s, l);
        QuietRows(s, Step(w, s, l), l.pid);
      }
    }
  }

  lemma {:induction false} Reachable(w: World, schedule: seq<Label>)
    ensures Inv(w, After(w, schedule))
  {
    if schedule == [] {
    } else {
      Reachable(w, schedule[..|schedule| - 1]);
      StepInv(w, After(w, schedule[..|schedule| - 1]), schedule[|schedule| - 1]);
    }
  }

  // ----- the theorems

  /** Whatever the interleaving, at most one process creates a system under a nonce. */
  lemma AtMostOneCreation(w: World, schedule: seq<Label>, p: Pid, q: Pid)
    requires var s := After(w, schedule);
             && p in s.procs && s.procs[p].pc == Created
             && q in s.procs && s.procs[q].pc == Created
             && Nonce(s.procs[p]) == Nonce(s.procs[q])
    ensures p == q
  {
    Reachable(w, schedule);
    var s := After(w, schedule);
    assert Spender(s, Nonce(s.procs[p]), p) && Spender(s, Nonce(s.procs[q]), q);
  }

  /** A process that created a system verified its approval inside the window and has its row in the table. */
  lemma CreationIsRecorded(w: World, schedule: seq<Label>, p: Pid)
    requires p in After(w, schedule).procs && After(w, schedule).procs[p].pc == Created
    ensures var s := After(w, schedule); var proc := s.procs[p];
            && Nonce(proc) in s.db.table
            && s.db.table[Nonce(proc)] == RowFor(proc)
            && Passes(w, proc)
            && InWindow(w, proc.job.envelope.payload, proc.now)
  {
    hide Signed, MissionSha, PolicySha;
    Reachable(w, schedule);
    assert ProcOk(w, After(w, schedule), p);
  }

  /**
   * The process that put a row there: its approval verified while in force, and the row names the
   * mission, limits and executor it verified for, when the approval expires and when it was used.
   */
  ghost predicate Explains(w: World, s: Sys, nonce: string, pid: Pid) {
    && pid in s.procs
    && nonce in s.db.table
    && var p, row := s.procs[pid], s.db.table[nonce];
       && Past(p)
       && Nonce(p) == nonce
       && Passes(w, p)
       && row.missionSha == MissionSha(w, p.job.mission)
       && row.policySha == PolicySha(w, p.job.limits)
       && row.executor == p.job.executor
       && row.expiresAt == p.job.envelope.payload.expiresAt
       && row.consumedAt == p.now
       && InWindow(w, p.job.envelope.payload, row.consumedAt)
  }

  /** Every row belongs to exactly one spender, whose approval verified while it was in force. */
  lemma RowsAreAuthorized(w: World, schedule: seq<Label>, nonce: string)
    requires nonce in After(w, schedule).db.table
    ensures exists pid :: Explains(w, After(w, schedule), nonce, pid)
    ensures var s := After(w, schedule);
            forall p, q :: Explains(w, s, nonce, p) && Explains(w, s, nonce, q) ==> p == q
  {
    hide Signed, MissionSha, PolicySha;
    Reachable(w, schedule);
    var s := After(w, schedule);
    var pid :| Spender(s, nonce, pid);
    assert ProcOk(w, s, pid);
    assert Explains(w, s, nonce, pid);
    forall p, q | Explains(w, s, nonce, p) && Explains(w, s, nonce, q) ensures p == q {
      assert Spender(s, nonce, p) && Spender(s, nonce, q);
    }
  }

  predicate Grows(a: Table, b: Table) {
    forall nonce :: nonce in a ==> nonce in b && b[nonce] == a[nonce]
  }

  /**
   * Each step leaves the table alone or is one whole `consume`: the interleaved transactions are
   * equivalent to running them one at a time in the order of their commits.
   */
  lemma StepIsConsume(w: World, schedule: seq<Label>, l: Label)
    ensures var s, s' := After(w, schedule), Step(w, After(w, schedule), l);
            || s'.db.table == s.db.table
            || (&& l.Finish? && l.pid in s.procs && Passes(w, s.procs[l.pid])
                && var p := s.procs[l.pid];
                   (s'.db, Ok(())) == Consumed(Db(s.db.table, Idle), Nonce(p), RowFor(p), _ => None))
  {
    hide Passes, ProcsOk, TxnOk, Step;
    Reachable(w, schedule);
    var s := After(w, schedule);
    if Step(w, s, l) != s {
      if l.Finish? {
        FinishAdds(w, s, l.pid);
      } else {
        StepQuiet(w, s, l);
      }
    }
  }

  /** No row is ever lost or changed. */
  lemma {:induction false} RowsArePermanent(w: World, schedule: seq<Label>, more: seq<Label>)
    ensures Grows(After(w, schedule).db.table, After(w, schedule + more).db.table)
    decreases |more|
  {
    hide Step, Passes;
    if more == [] {
      assert schedule + more == schedule;
    } else {
      var all, n := schedule + more, |more| - 1;
      assert all[..|all| - 1] == schedule + more[..n];
      RowsArePermanent(w, schedule, more[..n]);
      StepIsConsume(w, schedule + more[..n], more[n]);
    }
  }
}
