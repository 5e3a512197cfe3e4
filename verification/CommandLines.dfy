/**
 * Whole command lines side by side: any number of invocations share the table of consumed approvals and
 * interleave statement by statement; each that gets through flies its own vehicle.
 */
module CommandLines {
  import opened Models
  import Policy
  import opened Vehicle
  import opened Executor
  import opened FlightTheorems
  import opened Approval
  import opened Replay
  import opened NonceProtocol
  import opened MavsdkExecutor
  import opened Options

  datatype Line = Line(g: Setting, i: Invocation)

  type Lines = Pid -> Line

  /** An invocation that has got past its files, policy and capability check: the next thing is its approval. */
  ghost predicate Admitted(w: World, line: Line) {
    && line.g.w == w && line.i.command == Mavsdk && Parsed(line.i)
    && line.i.mission.Loaded? && line.i.envelope.Loaded?
    && Accepted(line.g.h, line.g.limits, line.i.mission.value.actions)
  }

  function JobOf(line: Line): Job
    requires line.i.mission.Loaded? && line.i.envelope.Loaded?
  {
    Job(line.i.envelope.value, line.i.mission.value, line.g.limits, EXECUTOR_NAME)
  }

  /** Every process of the schedule runs its command line. */
  ghost predicate Follows(w: World, lines: Lines, schedule: seq<Label>) {
    forall k :: 0 <= k < |schedule| && schedule[k].Spawn? ==>
      Admitted(w, lines(schedule[k].pid)) && schedule[k].job == JobOf(lines(schedule[k].pid))
  }

  ghost predicate Runs(w: World, lines: Lines, s: Sys, pid: Pid)
    requires pid in s.procs
  {
    Admitted(w, lines(pid)) && s.procs[pid].job == JobOf(lines(pid))
  }

  lemma StepKeepsJobs(w: World, s: Sys, l: Label, pid: Pid)
    requires pid in Step(w, s, l).procs
    ensures if pid in s.procs then Step(w, s, l).procs[pid].job == s.procs[pid].job
            else l == Spawn(pid, Step(w, s, l).procs[pid].job)
  {
    hide Passes;
  }

  lemma {:induction false} ProcessesRunLines(w: World, lines: Lines, schedule: seq<Label>, pid: Pid)
    requires Follows(w, lines, schedule) && pid in After(w, schedule).procs
    ensures Runs(w, lines, After(w, schedule), pid)
  {
    hide Step, Admitted;
    if schedule == [] {
      assert false;
    } else {
      var front, l := schedule[..|schedule| - 1], schedule[|schedule| - 1];
      StepKeepsJobs(w, After(w, front), l, pid);
      if pid in After(w, front).procs {
        ProcessesRunLines(w, lines, front, pid);
      }
    }
  }

  /** The flight of a process that has created its system. */
  ghost function Flight(w: World, lines: Lines, s: Sys, pid: Pid): Option<Run> {
    if pid in s.procs && s.procs[pid].pc == Created && Admitted(w, lines(pid)) then
      var line := lines(pid);
      Some(Execute(line.g.env, line.g.cfg, BoundHome(w, line.i.envelope.value.payload), line.i.mission.value.actions,
                   INITIAL))
    else None
  }

  /** The command at event `k` of the flight of `pid` is takeoff, and flies under `nonce`. */
  ghost predicate TakesOff(w: World, lines: Lines, s: Sys, pid: Pid, k: nat, nonce: string) {
    var flight := Flight(w, lines, s, pid);
    && flight.Some? && k < |flight.value.st.trace| && flight.value.st.trace[k] == Issued(Takeoff)
    && Nonce(s.procs[pid]) == nonce
  }

  /**
   * In every interleaving of any number of command lines, crashes included, at most one takeoff command is ever
   * sent under a nonce: one process, one flight, one command.
   */
  lemma OneTakeoffPerNonce(
    w: World, lines: Lines, schedule: seq<Label>, nonce: string, p: Pid, a: nat, q: Pid, b: nat)
    requires Follows(w, lines, schedule)
    requires TakesOff(w, lines, After(w, schedule), p, a, nonce) && TakesOff(w, lines, After(w, schedule), q, b, nonce)
    ensures p == q && a == b
  {
    hide After, Accepted, Execute, BoundHome, Follows;
    AtMostOneCreation(w, schedule, p, q);
    var g, i := lines(p).g, lines(p).i;
    TakeoffOnce(g.h, g.limits, g.env, g.cfg, BoundHome(w, i.envelope.value.payload), i.mission.value.actions, a, b);
  }

  /** Such a takeoff has its approval verified in force, and recorded for this mission, these limits and executor. */
  lemma TakeoffIsRecorded(w: World, lines: Lines, schedule: seq<Label>, nonce: string, p: Pid, a: nat)
    requires Follows(w, lines, schedule) && TakesOff(w, lines, After(w, schedule), p, a, nonce)
    ensures Admitted(w, lines(p))
    ensures var g, i, s := lines(p).g, lines(p).i, After(w, schedule);
            var e, now := i.envelope.value, s.procs[p].now;
            && nonce in s.db.table
            && Verify(w, e, i.mission.value, g.limits, EXECUTOR_NAME, now) == Ok(e.payload)
            && s.db.table[nonce] == RowOf(e.payload, now)
  {
    hide After, Accepted, Execute, BoundHome, Follows, Signed, MissionSha, PolicySha;
    ProcessesRunLines(w, lines, schedule, p);
    CreationIsRecorded(w, schedule, p);
  }

  // ----- one command line left alone

  lemma AfterSnoc(w: World, schedule: seq<Label>, l: Label)
    ensures After(w, schedule + [l]) == Step(w, After(w, schedule), l)
  {
    assert (schedule + [l])[..|schedule|] == schedule;
  }

  function Undisturbed(w: World, s: Sys, pid: Pid, now: int): Sys {
    Step(w, Step(w, Step(w, Step(w, Step(w, s, Check(pid, now)), Lock(pid)), Add(pid)), Finish(pid)), Create(pid))
  }

  /** The schedule continued by all the steps of one process. */
  function Alone(schedule: seq<Label>, pid: Pid, now: int): seq<Label> {
    schedule + [Check(pid, now)] + [Lock(pid)] + [Add(pid)] + [Finish(pid)] + [Create(pid)]
  }

  lemma UndisturbedIsASchedule(w: World, schedule: seq<Label>, pid: Pid, now: int)
    ensures Undisturbed(w, After(w, schedule), pid, now) == After(w, Alone(schedule, pid, now))
  {
    hide Step, After;
    var s1 := schedule + [Check(pid, now)];
    var s2 := s1 + [Lock(pid)];
    var s3 := s2 + [Add(pid)];
    var s4 := s3 + [Finish(pid)];
    AfterSnoc(w, schedule, Check(pid, now));
    AfterSnoc(w, s1, Lock(pid));
    AfterSnoc(w, s2, Add(pid));
    AfterSnoc(w, s3, Finish(pid));
    AfterSnoc(w, s4, Create(pid));
  }

  /** What the undisturbed steps come to. */
  lemma UndisturbedSteps(w: World, s: Sys, pid: Pid, now: int)
    requires pid in s.procs && s.procs[pid].pc == Started && s.procs[pid].alive && s.db.txn.Idle?
    ensures var p, end := s.procs[pid].(now := now), Undisturbed(w, s, pid, now);
            if Passes(w, p) && Nonce(p) !in s.db.table then
              end.db == Db(s.db.table[Nonce(p) := RowFor(p)], Idle) && end.procs == s.procs[pid := p.(pc := Created)]
            else
              end.db == s.db && end.procs == s.procs[pid := p.(pc := Refused)]
  {
    hide Passes, Nonce, RowFor;
    var p := s.procs[pid].(now := now);
    var s1 := Step(w, s, Check(pid, now));
    assert s1 == Move(s, s.db, p.(pc := if Passes(w, p) then Verified else Refused), pid);
    var s2 := Step(w, s1, Lock(pid));
    var s3 := Step(w, s2, Add(pid));
    var s4 := Step(w, s3, Finish(pid));
    var s5 := Step(w, s4, Create(pid));
    if Passes(w, p) {
      assert s2 == Sys(Begin(s.db, pid), s.procs[pid := p.(pc := Holding)]);
      SameNonce(p);
      if Nonce(p) !in s.db.table {
        assert s3 == Sys(Insert(Begin(s.db, pid), Nonce(p), RowFor(p)), s.procs[pid := p.(pc := Inserted)]);
        assert s4 == Sys(Db(s.db.table[Nonce(p) := RowFor(p)], Idle), s.procs[pid := p.(pc := Spent)]);
        assert s5 == Sys(s4.db, s.procs[pid := p.(pc := Created)]);
      } else {
        assert s3 == Sys(s.db, s.procs[pid := p.(pc := Refused)]);
      }
    }
  }

  lemma SameNonce(p: Proc)
    ensures forall pc :: Nonce(p.(pc := pc)) == Nonce(p) && RowFor(p.(pc := pc)) == RowFor(p)
  {
  }

  /**
   * From wherever the others have got to, with no transaction open and a store that works: left alone, a
   * process does to the table and the vehicle what its command line does.
   */
  lemma AloneIsPipeline(w: World, lines: Lines, schedule: seq<Label>, pid: Pid)
    requires Follows(w, lines, schedule) && pid in After(w, schedule).procs
    requires var s := After(w, schedule);
             s.procs[pid].pc == Started && s.procs[pid].alive && s.db.txn.Idle?
    requires forall stage :: lines(pid).i.faults(stage).None?
    ensures Parsed(lines(pid).i)
    ensures var line, s := lines(pid), After(w, schedule);
            var end := After(w, Alone(schedule, pid, line.i.now));
            && end.db == Pipeline(line.g, line.i, s.db).db
            && Flight(w, lines, end, pid) == Pipeline(line.g, line.i, s.db).flight
  {
    hide Undisturbed, Alone, After, Follows, Verify, Execute, BoundHome, Policy.Approved;
    var g, i := lines(pid).g, lines(pid).i;
    ProcessesRunLines(w, lines, schedule, pid);
    UndisturbedIsASchedule(w, schedule, pid, i.now);
    UndisturbedSteps(w, After(w, schedule), pid, i.now);
    VerifyClass(w, i.envelope.value, i.mission.value, g.limits, EXECUTOR_NAME, i.now);
  }
}
