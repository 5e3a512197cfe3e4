/**
 * Whole runs: the handler, recovery and the terminal audit record, for every environment.
 */
module ExecutorRuns {
  import opened Models
  import opened Vehicle
  import opened Executor
  import opened Monitor
  import opened ExecutorSafety
  import opened Options

  lemma PreflightSeen(ok: Rules, env: Env, cfg: Config, home: Home, bound: Outcome<Home>, actions: seq<Action>, s: St)
    requires Flyable(actions) && Tests(ok, env, cfg, home) && (bound.Ok? ==> bound.value == home)
    requires Seen(ok, s) == Monitor.START.(records := [MissionStarted])
    ensures var r := Preflight(env, cfg, bound, s);
            if r.out.Ok? then bound.Ok? && Between(Seen(ok, r.st), GROUNDED, actions, 0)
            else Stopped(Seen(ok, r.st), GROUNDED, actions)
  {
    hide Watch, Send, WaitFor, CheckHome;
    FirstRecords(actions);
    SendSeen(ok, env.replies, s, Connect, Never);
    var c := Send(env.replies, s, Connect, Never);
    assert Seen(ok, c.st) == Seen(ok, s).(commands := [Connect]);
    if c.out.Ok? {
      WaitForSeen(ok, env.replies, c.st, ForConnection, c.st.clock + cfg.connectionTimeout);
      var w := WaitForConnection(env, cfg, c.st);
      if w.out.Ok? && bound.Ok? {
        CheckHomeSeen(ok, env, cfg, home, PreArm, w.st);
      }
    }
  }

  lemma FirstRecords(actions: seq<Action>)
    requires Flyable(actions)
    ensures var full := Script(actions, |actions|);
            && Cut([MissionStarted], full)
            && Cut([MissionStarted] + [HomeCheck(PreArm, true)], full)
            && Cut([MissionStarted] + [HomeCheck(PreArm, false)], full)
    ensures Script(actions, 0) == [MissionStarted] + [HomeCheck(PreArm, true)]
    ensures Durations(actions, 0) == []
  {
    ScriptGrows(actions, 0, |actions|);
    var r := [MissionStarted] + [HomeCheck(PreArm, false)];
    assert r[..1] + [r[1].(within := true)] == Script(actions, 0);
  }

  lemma TryBlockSeen(ok: Rules, env: Env, cfg: Config, home: Home, bound: Outcome<Home>, actions: seq<Action>, s: St)
    requires Flyable(actions) && ok.minimum == MinimumAltitude(cfg, actions[0].altitude)
    requires Flyable(actions) && Tests(ok, env, cfg, home) && (bound.Ok? ==> bound.value == home)
    requires Seen(ok, s) == Monitor.START.(records := [MissionStarted])
    ensures LegDone(ok, TryBlock(env, cfg, bound, actions, s), actions)
  {
    hide Watch, Preflight, RunActions, Between, Stopped;
    PreflightSeen(ok, env, cfg, home, bound, actions, s);
    var p := Preflight(env, cfg, bound, s);
    if p.out.Ok? {
      RunActionsSeen(ok, env, cfg, home, actions, 0, p.st, GROUNDED);
    }
  }

  // ----- recovery

  /** What recovery adds: at most one command, and never a disarm once takeoff was commanded. */
  predicate Recovered(m: Mon, m': Mon, attempted: bool, out: Outcome<RecoveryStatus>) {
    && m'.alarms == {}
    && m'.records == m.records
    && m'.slept == m.slept
    && (|| (m'.commands == m.commands && !attempted && out.Raise?)
        || (m'.commands == m.commands + [Land] && out != Ok(DisarmAccepted))
        || (m'.commands == m.commands + [Disarm] && !attempted && out != Ok(LandingConfirmed)))
    && (out.Ok? ==> out.value == DisarmAccepted || out.value == LandingConfirmed)
    && (out == Ok(DisarmAccepted) ==> m'.disarmed)
    && (out == Ok(LandingConfirmed) ==> m'.landed)
  }

  predicate Recoverable(m: Mon, attempted: bool) {
    && m.alarms == {}
    && (attempted <==> Takeoff in m.commands)
  }

  lemma LandAndConfirmSeen(ok: Rules, replies: Replies, s: St, deadline: nat, attempted: bool)
    requires Recoverable(Seen(ok, s), attempted)
    ensures var r := LandAndConfirm(replies, s, deadline);
            Recovered(Seen(ok, s), Seen(ok, r.st), attempted, r.out)
  {
    hide Watch, Send, WaitFor, Next;
    SendSeen(ok, replies, s, Land, At(deadline));
    ClosingCommandSeen(ok, Seen(ok, s), Land);
    var l := Send(replies, s, Land, At(deadline));
    if l.out.Ok? {
      WaitForSeen(ok, replies, l.st, ForLanding, deadline);
      var w := WaitFor(replies, l.st, ForLanding, deadline);
      if w.out.Ok? {
        LandingItemSeen(ok, Seen(ok, l.st), w.out.value);
      }
    }
  }

  lemma DecideSeen(ok: Rules, replies: Replies, s: St, inAir: Tri, deadline: nat)
    requires Recoverable(Seen(ok, s), false)
    ensures var r := Decide(replies, s, inAir, deadline);
            Recovered(Seen(ok, s), Seen(ok, r.st), false, r.out)
  {
    hide Watch, Send, LandAndConfirm, Next;
    if inAir == IsFalse {
      SendSeen(ok, replies, s, Disarm, At(deadline));
      ClosingCommandSeen(ok, Seen(ok, s), Disarm);
    } else if inAir == IsTrue {
      LandAndConfirmSeen(ok, replies, s, deadline, false);
    }
  }

  lemma RecoverSeen(ok: Rules, replies: Replies, cfg: Config, s: St, attempted: bool)
    requires Recoverable(Seen(ok, s), attempted)
    ensures var r := Recover(replies, cfg, s, attempted);
            Recovered(Seen(ok, s), Seen(ok, r.st), attempted, r.out)
  {
    hide Watch, WaitFor, LandAndConfirm, Decide;
    var deadline := s.clock + cfg.landingTimeout;
    if attempted {
      LandAndConfirmSeen(ok, replies, s, deadline, true);
    } else {
      WaitForSeen(ok, replies, s, ForInAir, deadline);
      var w := WaitFor(replies, s, ForInAir, deadline);
      if w.out.Ok? {
        DecideSeen(ok, replies, w.st, w.out.value.inAir, deadline);
      }
    }
  }

  // ----- the handler and the whole run

  /** The commands of a run: part of the plan, then at most one recovery command. */
  ghost predicate CommandWord(commands: seq<Command>, actions: seq<Action>)
    requires Flyable(actions)
  {
    exists n: nat, recovery: seq<Command> :: PlanThen(commands, actions, n, recovery)
  }

  predicate PlanThen(commands: seq<Command>, actions: seq<Action>, n: nat, recovery: seq<Command>)
    requires Flyable(actions)
  {
    && n <= 5
    && commands == Plan(actions)[..n] + recovery
    && (recovery == [] || (recovery == [Land] && n >= 3) || (recovery == [Disarm] && n == 3))
    && (n == 4 ==> recovery == [Land])
  }

  /** How a run may end once the vehicle has been commanded to arm. */
  predicate Cleaned(m: Mon, report: Report) {
    match report
    case NotEntered => m.landed
    case Reported(NotRequired) => m.landed
    case Reported(DisarmAccepted) => m.disarmed && Takeoff !in m.commands
    case Reported(LandingConfirmed) => m.landed
    case Reported(Failed) => true
    case Broken => true
  }

  /** The mission's own error leaves the handler, unless the last audit write was interrupted. */
  predicate ReRaised(out: Outcome<()>, exn: Exn) {
    out.Raise? && (out.exn == exn || !out.exn.IsException())
  }

  predicate Handled(m: Mon, run: Run, actions: seq<Action>, exn: Exn)
    requires Flyable(actions)
  {
    && m.alarms == {}
    && (Arm in m.commands ==> Cleaned(m, run.report))
    && (match run.report
        case NotEntered => false
        case Broken =>
          && run.out == Raise(Interrupt)
          && [MissionStarted] <= m.records
          && Cut(m.records, Script(actions, |actions|))
        case Reported(status) =>
          && ReRaised(run.out, exn)
          && [MissionStarted] <= m.records && |m.records| >= 2
          && m.records[|m.records| - 1] == MissionFailed(status)
          && Cut(m.records[..|m.records| - 1], Script(actions, |actions|)))
  }

  lemma FailSeen(ok: Rules, env: Env, s: St, status: RecoveryStatus, exn: Exn)
    requires Seen(ok, s).alarms == {}
    ensures var run, m := Fail(env, s, status, exn), Seen(ok, s);
            && run.report == Reported(status)
            && ReRaised(run.out, exn)
            && Seen(ok, run.st) == m.(records := m.records + [MissionFailed(status)])
  {
    hide Watch, Write;
    WriteSeen(ok, env.sink, s, MissionFailed(status), false);
    BestEffortRaises(env.sink, s, MissionFailed(status));
  }

  lemma BestEffortRaises(sink: Sink, s: St, record: Record)
    ensures var w := Write(sink, s, record, false);
            w.out.Raise? ==> !w.out.exn.IsException()
  {
  }

  /** Commands of a stopped try block, seen as the beginning of a command word. */
  lemma StoppedWord(m: Mon, flags: Flags, actions: seq<Action>, recovery: seq<Command>)
    requires Flyable(actions) && Stopped(m, flags, actions)
    requires if recovery == [] then !flags.attempted || !flags.recoveryRequired
             else flags.recoveryRequired && (recovery == [Land] || (recovery == [Disarm] && !flags.attempted))
    ensures PlanThen(m.commands + recovery, actions, |m.commands|, recovery)
  {
    var n := |m.commands|;
    assert m.commands == Plan(actions)[..n];
    if n >= 4 {
      assert m.commands[3] == Takeoff && m.commands[2] == Arm;
    } else {
      assert forall i :: 0 <= i < n ==> m.commands[i] != Takeoff;
    }
    if n < 3 {
      assert forall i :: 0 <= i < n ==> m.commands[i] != Arm;
    }
  }

  lemma RecoveredWord(m: Mon, flags: Flags, actions: seq<Action>, m': Mon, out: Outcome<RecoveryStatus>)
    requires Flyable(actions) && Stopped(m, flags, actions) && flags.recoveryRequired
    requires Recovered(m, m', flags.attempted, out)
    ensures CommandWord(m'.commands, actions)
  {
    hide PlanThen, Stopped;
    if m'.commands == m.commands {
      StoppedWord(m, flags, actions, []);
      assert m.commands + [] == m.commands;
    } else if m'.commands == m.commands + [Land] {
      StoppedWord(m, flags, actions, [Land]);
    } else {
      StoppedWord(m, flags, actions, [Disarm]);
    }
  }

  lemma HandleWithout(ok: Rules, env: Env, cfg: Config, actions: seq<Action>, s: St, flags: Flags, exn: Exn)
    requires Flyable(actions) && Stopped(Seen(ok, s), flags, actions) && !flags.recoveryRequired
    ensures var run := Handle(env, cfg, s, flags, exn);
            Handled(Seen(ok, run.st), run, actions, exn) && CommandWord(Seen(ok, run.st).commands, actions)
  {
    hide Watch, Fail, Cut, PlanThen;
    var m := Seen(ok, s);
    FailSeen(ok, env, s, NotRequired, exn);
    StoppedWord(m, flags, actions, []);
    assert m.commands + [] == m.commands;
  }

  lemma HandleWith(ok: Rules, env: Env, cfg: Config, actions: seq<Action>, s: St, flags: Flags, exn: Exn)
    requires Flyable(actions) && Stopped(Seen(ok, s), flags, actions) && flags.recoveryRequired
    ensures var run := Handle(env, cfg, s, flags, exn);
            Handled(Seen(ok, run.st), run, actions, exn) && CommandWord(Seen(ok, run.st).commands, actions)
  {
    hide Watch, Recover, Fail, Cut, CommandWord;
    var m := Seen(ok, s);
    RecoverSeen(ok, env.replies, cfg, s, flags.attempted);
    var r := Recover(env.replies, cfg, s, flags.attempted);
    RecoveredWord(m, flags, actions, Seen(ok, r.st), r.out);
    FailSeen(ok, env, r.st, if r.out.Ok? then r.out.value else Failed, exn);
  }

  /** Everything the monitor reports of a whole run. */
  ghost predicate Verdict(m: Mon, run: Run, actions: seq<Action>)
    requires Flyable(actions)
  {
    && m.alarms == {}
    && CommandWord(m.commands, actions)
    && (Arm in m.commands ==> Cleaned(m, run.report))
    && (run.out.Ok? ==> Completed(m, run, actions))
    && AuditWord(m.records, run, actions)
  }

  predicate Completed(m: Mon, run: Run, actions: seq<Action>)
    requires Flyable(actions)
  {
    && run.report == NotEntered
    && m.commands == Plan(actions)
    && m.slept == Durations(actions, |actions|)
    && m.landed
    && m.records == Script(actions, |actions|) + [MissionCompleted]
  }

  /**
   * The attempted records: mission_started alone, or a cut of the script that begins with it and then the
   * one terminal record that fits the report.
   */
  predicate AuditWord(records: seq<Record>, run: Run, actions: seq<Action>)
    requires Flyable(actions)
  {
    match run.report
    case NotEntered =>
      || (run.out.Raise? && records == [])
      || (run.out.Raise? && records == [MissionStarted])
      || records == Script(actions, |actions|) + [MissionCompleted]
    case Broken =>
      && run.out == Raise(Interrupt)
      && [MissionStarted] <= records
      && Cut(records, Script(actions, |actions|))
    case Reported(status) =>
      && run.out.Raise?
      && [MissionStarted] <= records && |records| >= 2
      && records[|records| - 1] == MissionFailed(status)
      && Cut(records[..|records| - 1], Script(actions, |actions|))
  }

  lemma FinishedVerdict(ok: Rules, env: Env, actions: seq<Action>, leg: Leg)
    requires Flyable(actions) && Between(Seen(ok, leg.st), leg.flags, actions, |actions|)
    ensures var w := Write(env.sink, leg.st, MissionCompleted, false);
            Verdict(Seen(ok, w.st), Run(w.st, w.out, NotEntered), actions)
  {
    hide Watch, Write, Script, Durations;
    MissionCompletedSeen(ok, env, leg.st);
    PlanFacts(actions);
    assert Plan(actions)[..5] + [] == Plan(actions);
    assert PlanThen(Plan(actions), actions, 5, []);
  }

  lemma HandledVerdict(m: Mon, run: Run, actions: seq<Action>, exn: Exn)
    requires Flyable(actions) && Handled(m, run, actions, exn) && CommandWord(m.commands, actions)
    ensures Verdict(m, run, actions)
  {
    hide CommandWord, Cut, Cleaned;
  }

  lemma EarlyVerdict(m: Mon, run: Run, actions: seq<Action>)
    requires Flyable(actions) && m.alarms == {} && m.commands == []
    requires run.out.Raise? && run.report == NotEntered && (m.records == [] || m.records == [MissionStarted])
    ensures Verdict(m, run, actions)
  {
    EmptyWord(actions);
  }

  lemma ExecuteSeen(ok: Rules, env: Env, cfg: Config, home: Home, bound: Outcome<Home>, actions: seq<Action>)
    requires Flyable(actions) && ok.minimum == MinimumAltitude(cfg, actions[0].altitude)
    requires Flyable(actions) && Tests(ok, env, cfg, home) && (bound.Ok? ==> bound.value == home)
    ensures var run := Execute(env, cfg, bound, actions, INITIAL);
            Verdict(Seen(ok, run.st), run, actions)
  {
    hide Watch, Write, TryBlock, Handle, Between, Stopped, Verdict;
    StartSeen(ok);
    if env.factory.Some? {
      EarlyVerdict(Monitor.START, Execute(env, cfg, bound, actions, INITIAL), actions);
    } else {
      MissionStartedSeen(ok, env);
      var started := Write(env.sink, INITIAL, MissionStarted, true);
      if started.out.Raise? {
        EarlyVerdict(Seen(ok, started.st), Execute(env, cfg, bound, actions, INITIAL), actions);
      } else {
        TryBlockSeen(ok, env, cfg, home, bound, actions, started.st);
        var leg := TryBlock(env, cfg, bound, actions, started.st);
        if leg.out.Ok? {
          FinishedVerdict(ok, env, actions, leg);
        } else {
          HandleSeen(ok, env, cfg, actions, leg.st, leg.flags, leg.out.exn);
        }
      }
    }
  }

  lemma HandleSeen(ok: Rules, env: Env, cfg: Config, actions: seq<Action>, s: St, flags: Flags, exn: Exn)
    requires Flyable(actions) && Stopped(Seen(ok, s), flags, actions)
    ensures var run := Handle(env, cfg, s, flags, exn);
            Verdict(Seen(ok, run.st), run, actions)
  {
    hide Watch, Handle, Handled, CommandWord, Verdict;
    if flags.recoveryRequired {
      HandleWith(ok, env, cfg, actions, s, flags, exn);
    } else {
      HandleWithout(ok, env, cfg, actions, s, flags, exn);
    }
    var run := Handle(env, cfg, s, flags, exn);
    HandledVerdict(Seen(ok, run.st), run, actions, exn);
  }

  lemma StartSeen(ok: Rules)
    ensures Seen(ok, INITIAL) == Monitor.START
  {
  }

  lemma EmptyWord(actions: seq<Action>)
    requires Flyable(actions)
    ensures CommandWord([], actions)
  {
    assert PlanThen([], actions, 0, []);
  }

  lemma MissionStartedSeen(ok: Rules, env: Env)
    requires ok.sink == env.sink
    ensures var w := Write(env.sink, INITIAL, MissionStarted, true);
            && Seen(ok, w.st) == Monitor.START.(records := [MissionStarted], failed := Seen(ok, w.st).failed)
            && (w.out.Ok? ==> !Seen(ok, w.st).failed)
  {
    WriteSeen(ok, env.sink, INITIAL, MissionStarted, true);
  }

  lemma MissionCompletedSeen(ok: Rules, env: Env, s: St)
    ensures var w := Write(env.sink, s, MissionCompleted, false);
            Seen(ok, w.st) == Seen(ok, s).(records := Seen(ok, s).records + [MissionCompleted])
  {
    hide Watch, Write;
    WriteSeen(ok, env.sink, s, MissionCompleted, false);
  }
}
