/**
 * Which exception classes a run can end with, when nothing outside Nightjar raises Nightjar's own, and
 * what a home error says about the commands that went before it.
 */
module ErrorClasses {
  import opened Models
  import opened Vehicle
  import opened Executor
  import opened Monitor
  import opened ExecutorSafety
  import opened ExecutorRuns
  import opened TraceMeaning
  import opened FlightTheorems
  import opened Options

  predicate HomeClass(exn: Exn) {
    exn == HomeUnavailable || exn == HomeMismatch
  }

  predicate AuthorizationClass(exn: Exn) {
    exn == PolicyRejected || exn == Unsupported || exn == ApprovalError || exn == ReplayError || exn == StoreError
  }

  /** A class that vehicle, audit sink and event loop may raise. */
  predicate Foreign(exn: Exn) {
    !HomeClass(exn) && !AuthorizationClass(exn)
  }

  predicate ForeignReply(r: Reply) {
    && (r.raised.Some? ==> Foreign(r.raised.value))
    && (r.telemetry.Broke? ==> Foreign(r.telemetry.exn))
  }

  ghost predicate ForeignEnv(env: Env) {
    && (forall i :: ForeignReply(env.replies(i)))
    && (forall i :: env.sink(i).Some? ==> Foreign(env.sink(i).value))
    && (env.factory.Some? ==> Foreign(env.factory.value))
  }

  /** Fails, if at all, with a foreign class or a home class. */
  predicate HomeOrForeign<T>(out: Outcome<T>) {
    out.Raise? ==> !AuthorizationClass(out.exn)
  }

  predicate OnlyForeign<T>(out: Outcome<T>) {
    out.Raise? ==> Foreign(out.exn)
  }

  lemma {:induction false} WaitForClass(env: Env, s: St, gate: Gate, deadline: nat)
    requires ForeignEnv(env)
    ensures HomeOrForeign(WaitFor(env.replies, s, gate, deadline).out)
    ensures !gate.ForHealth? && !gate.ForHome? ==> OnlyForeign(WaitFor(env.replies, s, gate, deadline).out)
    decreases deadline - s.clock
  {
    var item := NextItem(env.replies, s, gate, deadline);
    assert ForeignReply(env.replies(s.cursor));
    if item.out.Ok? && !gate.Passes(item.out.value) {
      WaitForClass(env, item.st, gate, deadline);
    }
  }

  lemma SendClass(env: Env, s: St, c: Command, deadline: Deadline)
    requires ForeignEnv(env)
    ensures OnlyForeign(Send(env.replies, s, c, deadline).out)
  {
    assert ForeignReply(env.replies(s.cursor));
  }

  lemma SleepClass(env: Env, s: St, seconds: int)
    requires ForeignEnv(env)
    ensures OnlyForeign(Sleep(env.replies, s, seconds).out)
  {
    assert ForeignReply(env.replies(s.cursor));
  }

  lemma WriteClass(env: Env, s: St, record: Record, strict: bool)
    requires ForeignEnv(env)
    ensures OnlyForeign(Write(env.sink, s, record, strict).out)
  {
  }

  lemma CheckHomeClass(env: Env, cfg: Config, bound: Home, phase: Phase, s: St)
    requires ForeignEnv(env)
    ensures HomeOrForeign(CheckHome(env, cfg, bound, phase, s).out)
  {
    hide WaitFor, Write, ForeignEnv;
    var deadline := s.clock + cfg.connectionTimeout;
    WaitForClass(env, s, ForHealth, deadline);
    var health := WaitFor(env.replies, s, ForHealth, deadline);
    WaitForClass(env, health.st, ForHome, deadline);
    var r := ReadHome(env, cfg, s);
    if r.out.Ok? {
      WriteClass(env, r.st, HomeCheck(phase, cfg.within(bound, r.out.value)), true);
    }
  }

  lemma PreflightClass(env: Env, cfg: Config, bound: Outcome<Home>, s: St)
    requires ForeignEnv(env) && HomeOrForeign(bound)
    ensures HomeOrForeign(Preflight(env, cfg, bound, s).out)
  {
    hide WaitFor, Send, CheckHome, ForeignEnv;
    SendClass(env, s, Connect, Never);
    var c := Send(env.replies, s, Connect, Never);
    WaitForClass(env, c.st, ForConnection, c.st.clock + cfg.connectionTimeout);
    if bound.Ok? {
      CheckHomeClass(env, cfg, bound.value, PreArm, WaitForConnection(env, cfg, c.st).st);
    }
  }

  lemma ArmAndCheckClass(env: Env, cfg: Config, bound: Home, s: St)
    requires ForeignEnv(env)
    ensures HomeOrForeign(ArmAndCheck(env, cfg, bound, s).out)
  {
    hide WaitFor, Send, CheckHome, ForeignEnv;
    SendClass(env, s, Arm, Never);
    var a := Send(env.replies, s, Arm, Never);
    WaitForClass(env, a.st, ForArmed, a.st.clock + cfg.takeoffTimeout);
    CheckHomeClass(env, cfg, bound, PostArm, WaitUntilArmed(env, cfg, a.st).st);
  }

  /** A leg that fails with a home class has not attempted takeoff since it last armed. */
  predicate LegClass(leg: Leg) {
    HomeOrForeign(leg.out) && (leg.out.Raise? && HomeClass(leg.out.exn) ==> !leg.flags.attempted)
  }

  lemma RunTakeoffClass(env: Env, cfg: Config, bound: Home, altitude: real, s: St, flags: Flags)
    requires ForeignEnv(env)
    ensures LegClass(RunTakeoff(env, cfg, bound, altitude, s, flags))
  {
    hide WaitFor, Send, ArmAndCheck, ForeignEnv;
    SendClass(env, s, SetTakeoffAltitude(altitude), Never);
    var c := Send(env.replies, s, SetTakeoffAltitude(altitude), Never);
    ArmAndCheckClass(env, cfg, bound, c.st);
    var a := ArmAndCheck(env, cfg, bound, c.st);
    SendClass(env, a.st, Takeoff, Never);
    var t := Send(env.replies, a.st, Takeoff, Never);
    WaitForClass(env, t.st, ForAltitude(MinimumAltitude(cfg, altitude)), t.st.clock + cfg.takeoffTimeout);
  }

  lemma RunLandClass(env: Env, cfg: Config, s: St, flags: Flags)
    requires ForeignEnv(env)
    ensures LegClass(RunLand(env, cfg, s, flags))
  {
    hide WaitFor, Send, ForeignEnv;
    SendClass(env, s, Land, Never);
    var l := Send(env.replies, s, Land, Never);
    WaitForClass(env, l.st, ForLanding, l.st.clock + cfg.landingTimeout);
  }

  lemma RunTurnClass(env: Env, cfg: Config, bound: Home, action: Action, sequence: nat, s: St, flags: Flags)
    requires ForeignEnv(env)
    ensures LegClass(RunTurn(env, cfg, bound, action, sequence, s, flags))
  {
    hide Write, RunTakeoff, RunLand, Sleep, ForeignEnv;
    WriteClass(env, s, ActionStarted(sequence), !flags.committed);
    var started := Write(env.sink, s, ActionStarted(sequence), !flags.committed);
    match action {
      case TakeoffAction(altitude) => RunTakeoffClass(env, cfg, bound, altitude, started.st, flags);
      case HoldAction(seconds) => SleepClass(env, started.st, seconds);
      case LandAction => RunLandClass(env, cfg, started.st, flags);
      case _ =>
    }
    var leg := RunAction(env, cfg, bound, action, started.st, flags);
    WriteClass(env, leg.st, ActionCompleted(sequence), !leg.flags.committed);
  }

  lemma {:induction false} RunActionsClass(
    env: Env, cfg: Config, bound: Home, actions: seq<Action>, k: nat, s: St, flags: Flags)
    requires ForeignEnv(env) && k <= |actions|
    ensures LegClass(RunActions(env, cfg, bound, actions, k, s, flags))
    decreases |actions| - k
  {
    hide RunTurn, ForeignEnv;
    if k == |actions| {
    } else {
      RunTurnClass(env, cfg, bound, actions[k], k + 1, s, flags);
      var leg := RunTurn(env, cfg, bound, actions[k], k + 1, s, flags);
      RunActionsClass(env, cfg, bound, actions, k + 1, leg.st, leg.flags);
    }
  }

  lemma TryBlockClass(env: Env, cfg: Config, bound: Outcome<Home>, actions: seq<Action>, s: St)
    requires ForeignEnv(env) && HomeOrForeign(bound)
    ensures LegClass(TryBlock(env, cfg, bound, actions, s))
  {
    hide Preflight, RunActions, ForeignEnv;
    PreflightClass(env, cfg, bound, s);
    var p := Preflight(env, cfg, bound, s);
    if bound.Ok? {
      RunActionsClass(env, cfg, bound.value, actions, 0, p.st, GROUNDED);
    }
  }

  /** The handler passes the original error on, and adds no takeoff. */
  lemma HandleKeeps(ok: Rules, env: Env, cfg: Config, actions: seq<Action>, s: St, flags: Flags, exn: Exn)
    requires Flyable(actions) && Stopped(Seen(ok, s), flags, actions) && !flags.attempted
    ensures Takeoff !in Seen(ok, Handle(env, cfg, s, flags, exn).st).commands
  {
    hide Watch, Recover, Fail, Cut;
    if flags.recoveryRequired {
      RecoverSeen(ok, env.replies, cfg, s, flags.attempted);
      var r := Recover(env.replies, cfg, s, flags.attempted);
      FailSeen(ok, env, r.st, if r.out.Ok? then r.out.value else Failed, exn);
    } else {
      FailSeen(ok, env, s, NotRequired, exn);
    }
  }

  lemma HandleReRaises(env: Env, cfg: Config, s: St, flags: Flags, exn: Exn)
    ensures var run := Handle(env, cfg, s, flags, exn); ReRaised(run.out, exn)
  {
    hide Recover, Write;
    if flags.recoveryRequired {
      var r := Recover(env.replies, cfg, s, flags.attempted);
      BestEffortRaises(env.sink, r.st, MissionFailed(if r.out.Ok? then r.out.value else Failed));
    } else {
      BestEffortRaises(env.sink, s, MissionFailed(NotRequired));
    }
  }

  /**
   * The error that stopped the mission is the one the run ends with, whatever recovery and the audit sink
   * do - unless an exception that is no `Exception` strikes in the last write, or an interrupt in recovery.
   */
  lemma OriginalErrorSurvives(env: Env, cfg: Config, bound: Outcome<Home>, actions: seq<Action>)
    requires env.factory.None? && Write(env.sink, INITIAL, MissionStarted, true).out.Ok?
    requires TryBlock(env, cfg, bound, actions, Write(env.sink, INITIAL, MissionStarted, true).st).out.Raise?
    ensures var leg := TryBlock(env, cfg, bound, actions, Write(env.sink, INITIAL, MissionStarted, true).st);
            var run := Execute(env, cfg, bound, actions, INITIAL);
            match run.report
            case NotEntered => false
            case Broken => run.out == Raise(Interrupt)
            case Reported(_) =>
              && run.st.attempts > 0
              && var last := env.sink(run.st.attempts - 1);
                 run.out == if last.Some? && !last.value.IsException() then Raise(last.value) else leg.out
  {
    hide TryBlock, Recover;
    var leg := TryBlock(env, cfg, bound, actions, Write(env.sink, INITIAL, MissionStarted, true).st);
    var r := Recover(env.replies, cfg, leg.st, leg.flags.attempted);
    if leg.flags.recoveryRequired && r.out.Ok? {
      LastWrite(env, r.st, r.out.value, leg.out.exn);
    } else if leg.flags.recoveryRequired {
      LastWrite(env, r.st, Failed, leg.out.exn);
    } else {
      LastWrite(env, leg.st, NotRequired, leg.out.exn);
    }
  }

  /**
   * What the handler reports: nothing was required; the status recovery came to; `failed` for whatever it
   * raised, cancellation included; and for an interrupt no report at all.
   */
  lemma HandlerReports(env: Env, cfg: Config, s: St, flags: Flags, exn: Exn)
    ensures var run, r := Handle(env, cfg, s, flags, exn), Recover(env.replies, cfg, s, flags.attempted);
            if !flags.recoveryRequired then
              run.report == Reported(NotRequired) && run.st.cursor == s.cursor
            else
              match r.out
              case Ok(status) => run.report == Reported(status)
              case Raise(inner) =>
                if inner == Interrupt then run == Run(r.st, Raise(Interrupt), Broken)
                else run.report == Reported(Failed)
    ensures var run := Handle(env, cfg, s, flags, exn);
            run.report.Reported? ==>
              var t := run.st.trace;
              && t != [] && t[|t| - 1].Attempt?
              && t[|t| - 1].record == MissionFailed(run.report.status) && !t[|t| - 1].strict
  {
    hide Recover;
  }

  lemma LastWrite(env: Env, s: St, status: RecoveryStatus, exn: Exn)
    ensures var run, last := Fail(env, s, status, exn), env.sink(s.attempts);
            && run.st.attempts == s.attempts + 1
            && run.out == if last.Some? && !last.value.IsException() then Raise(last.value) else Raise(exn)
  {
  }

  /**
   * No authorization class ever comes out of a run, and a run that ends in a home class never commanded
   * takeoff.
   */
  lemma RunClass(env: Env, cfg: Config, bound: Outcome<Home>, actions: seq<Action>)
    requires ForeignEnv(env) && HomeOrForeign(bound) && Flyable(actions)
    ensures var run := Execute(env, cfg, bound, actions, INITIAL);
            HomeOrForeign(run.out)
            && (run.out.Raise? && HomeClass(run.out.exn) ==> Issued(Takeoff) !in run.st.trace)
  {
    hide Watch, Write, TryBlock, Handle, ForeignEnv, Stopped;
    var ok := RulesOf(env, cfg, bound, actions);
    WriteClass(env, INITIAL, MissionStarted, true);
    FactoryClass(env);
    var started := Write(env.sink, INITIAL, MissionStarted, true);
    if env.factory.None? && started.out.Ok? {
      TryBlockClass(env, cfg, bound, actions, started.st);
      var leg := TryBlock(env, cfg, bound, actions, started.st);
      WriteClass(env, leg.st, MissionCompleted, false);
      if leg.out.Raise? {
        HandleReRaises(env, cfg, leg.st, leg.flags, leg.out.exn);
        if HomeClass(leg.out.exn) {
          HomeErrorRun(ok, env, cfg, bound, actions, started.st);
        }
      }
    }
  }

  lemma FactoryClass(env: Env)
    requires ForeignEnv(env)
    ensures env.factory.Some? ==> Foreign(env.factory.value)
  {
  }

  lemma HomeErrorRun(ok: Rules, env: Env, cfg: Config, bound: Outcome<Home>, actions: seq<Action>, s: St)
    requires ForeignEnv(env) && HomeOrForeign(bound) && Flyable(actions)
    requires ok == RulesOf(env, cfg, bound, actions)
    requires var w := Write(env.sink, INITIAL, MissionStarted, true); w.out.Ok? && s == w.st
    requires var leg := TryBlock(env, cfg, bound, actions, s); leg.out.Raise? && HomeClass(leg.out.exn)
    ensures var leg := TryBlock(env, cfg, bound, actions, s);
            Issued(Takeoff) !in Handle(env, cfg, leg.st, leg.flags, leg.out.exn).st.trace
  {
    hide Watch, Write, TryBlock, Handle, ForeignEnv, Stopped, Between;
    MissionStartedSeen(ok, env);
    TryBlockClass(env, cfg, bound, actions, s);
    TryBlockSeen(ok, env, cfg, HomeOf(bound), bound, actions, s);
    var leg := TryBlock(env, cfg, bound, actions, s);
    HandleKeeps(ok, env, cfg, actions, leg.st, leg.flags, leg.out.exn);
    var t := Handle(env, cfg, leg.st, leg.flags, leg.out.exn).st.trace;
    Projections(ok, t);
    CommandIssued(t, Takeoff);
  }
}
