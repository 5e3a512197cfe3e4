/**
 * Two runs with the same vehicle and different audit sinks: what the sink can change, and from when on
 * it can change nothing.
 */
module AuditTheorem {
  import opened Models
  import Policy
  import opened Vehicle
  import opened Executor
  import opened Monitor
  import opened ExecutorSafety
  import opened ExecutorRuns
  import opened TraceMeaning
  import opened FlightTheorems
  import opened Options

  /** The write succeeds or raises an ordinary exception. */
  predicate Ordinary(result: Option<Exn>) {
    result.Some? ==> result.value.IsException()
  }

  /** On every attempt of `t` the sinks agree, or the attempt is best-effort and both are ordinary. */
  predicate Indifferent(s1: Sink, s2: Sink, t: Trace) {
    forall i :: 0 <= i < |t| && t[i].Attempt? ==>
                  || s1(t[i].index) == s2(t[i].index)
                  || (!t[i].strict && Ordinary(s1(t[i].index)) && Ordinary(s2(t[i].index)))
  }

  ghost predicate SameVehicle(e1: Env, e2: Env) {
    e2 == e1.(sink := e2.sink)
  }

  lemma WriteSame(s1: Sink, s2: Sink, s: St, record: Record, strict: bool, t: Trace)
    requires Write(s1, s, record, strict).st.trace <= t && Indifferent(s1, s2, t)
    ensures Write(s1, s, record, strict) == Write(s2, s, record, strict)
  {
    assert t[|s.trace|] == Attempt(s.attempts, record, strict);
  }

  lemma CheckHomeSame(e1: Env, e2: Env, cfg: Config, bound: Home, phase: Phase, s: St, t: Trace)
    requires SameVehicle(e1, e2) && Indifferent(e1.sink, e2.sink, t)
    requires CheckHome(e1, cfg, bound, phase, s).st.trace <= t
    ensures CheckHome(e1, cfg, bound, phase, s) == CheckHome(e2, cfg, bound, phase, s)
  {
    hide WaitFor, Write;
    var r := ReadHome(e1, cfg, s);
    if r.out.Ok? && cfg.measurable(bound, r.out.value) {
      WriteSame(e1.sink, e2.sink, r.st, HomeCheck(phase, cfg.within(bound, r.out.value)), true, t);
    }
  }

  lemma ArmAndCheckSame(e1: Env, e2: Env, cfg: Config, bound: Home, s: St, t: Trace)
    requires SameVehicle(e1, e2) && Indifferent(e1.sink, e2.sink, t)
    requires ArmAndCheck(e1, cfg, bound, s).st.trace <= t
    ensures ArmAndCheck(e1, cfg, bound, s) == ArmAndCheck(e2, cfg, bound, s)
  {
    hide WaitFor, Send, CheckHome;
    var a := Send(e1.replies, s, Arm, Never);
    if a.out.Ok? {
      var w := WaitUntilArmed(e1, cfg, a.st);
      if w.out.Ok? {
        CheckHomeSame(e1, e2, cfg, bound, PostArm, w.st, t);
      }
    }
  }

  lemma PreflightSame(e1: Env, e2: Env, cfg: Config, bound: Outcome<Home>, s: St, t: Trace)
    requires SameVehicle(e1, e2) && Indifferent(e1.sink, e2.sink, t)
    requires Preflight(e1, cfg, bound, s).st.trace <= t
    ensures Preflight(e1, cfg, bound, s) == Preflight(e2, cfg, bound, s)
  {
    hide WaitFor, Send, CheckHome;
    var c := Send(e1.replies, s, Connect, Never);
    if c.out.Ok? {
      var w := WaitForConnection(e1, cfg, c.st);
      if w.out.Ok? && bound.Ok? {
        CheckHomeSame(e1, e2, cfg, bound.value, PreArm, w.st, t);
      }
    }
  }

  lemma RunActionSame(e1: Env, e2: Env, cfg: Config, bound: Home, action: Action, s: St, flags: Flags, t: Trace)
    requires SameVehicle(e1, e2) && Indifferent(e1.sink, e2.sink, t)
    requires RunAction(e1, cfg, bound, action, s, flags).st.trace <= t
    ensures RunAction(e1, cfg, bound, action, s, flags) == RunAction(e2, cfg, bound, action, s, flags)
  {
    hide WaitFor, Send, Sleep, ArmAndCheck;
    if action.TakeoffAction? {
      var c := Send(e1.replies, s, SetTakeoffAltitude(action.altitude), Never);
      if c.out.Ok? {
        ArmAndCheckSame(e1, e2, cfg, bound, c.st, t);
      }
    }
  }

  lemma RunTurnSame(
    e1: Env, e2: Env, cfg: Config, bound: Home, action: Action, sequence: nat, s: St, flags: Flags, t: Trace)
    requires SameVehicle(e1, e2) && Indifferent(e1.sink, e2.sink, t)
    requires RunTurn(e1, cfg, bound, action, sequence, s, flags).st.trace <= t
    ensures RunTurn(e1, cfg, bound, action, sequence, s, flags) == RunTurn(e2, cfg, bound, action, sequence, s, flags)
  {
    hide Write, RunAction;
    WriteSame(e1.sink, e2.sink, s, ActionStarted(sequence), !flags.committed, t);
    var started := Write(e1.sink, s, ActionStarted(sequence), !flags.committed);
    if started.out.Ok? {
      RunActionSame(e1, e2, cfg, bound, action, started.st, flags, t);
      var leg := RunAction(e1, cfg, bound, action, started.st, flags);
      if leg.out.Ok? {
        WriteSame(e1.sink, e2.sink, leg.st, ActionCompleted(sequence), !leg.flags.committed, t);
      }
    }
  }

  lemma {:induction false} RunActionsSame(
    e1: Env, e2: Env, cfg: Config, bound: Home, actions: seq<Action>, k: nat, s: St, flags: Flags, t: Trace)
    requires SameVehicle(e1, e2) && Indifferent(e1.sink, e2.sink, t) && k <= |actions|
    requires RunActions(e1, cfg, bound, actions, k, s, flags).st.trace <= t
    ensures RunActions(e1, cfg, bound, actions, k, s, flags) == RunActions(e2, cfg, bound, actions, k, s, flags)
    decreases |actions| - k
  {
    hide RunTurn;
    if k == |actions| {
    } else {
      RunTurnSame(e1, e2, cfg, bound, actions[k], k + 1, s, flags, t);
      var leg := RunTurn(e1, cfg, bound, actions[k], k + 1, s, flags);
      if leg.out.Ok? {
        RunActionsSame(e1, e2, cfg, bound, actions, k + 1, leg.st, leg.flags, t);
      }
    }
  }

  lemma TryBlockSame(e1: Env, e2: Env, cfg: Config, bound: Outcome<Home>, actions: seq<Action>, s: St, t: Trace)
    requires SameVehicle(e1, e2) && Indifferent(e1.sink, e2.sink, t)
    requires TryBlock(e1, cfg, bound, actions, s).st.trace <= t
    ensures TryBlock(e1, cfg, bound, actions, s) == TryBlock(e2, cfg, bound, actions, s)
  {
    hide Preflight, RunActions;
    PreflightSame(e1, e2, cfg, bound, s, t);
    var p := Preflight(e1, cfg, bound, s);
    if p.out.Ok? && bound.Ok? {
      RunActionsSame(e1, e2, cfg, bound.value, actions, 0, p.st, GROUNDED, t);
    }
  }

  lemma HandleSame(e1: Env, e2: Env, cfg: Config, s: St, flags: Flags, exn: Exn, t: Trace)
    requires SameVehicle(e1, e2) && Indifferent(e1.sink, e2.sink, t)
    requires Handle(e1, cfg, s, flags, exn).st.trace <= t
    ensures Handle(e1, cfg, s, flags, exn) == Handle(e2, cfg, s, flags, exn)
  {
    hide Recover, Write;
    if !flags.recoveryRequired {
      WriteSame(e1.sink, e2.sink, s, MissionFailed(NotRequired), false, t);
    } else {
      var r := Recover(e1.replies, cfg, s, flags.attempted);
      if r.out != Raise(Interrupt) {
        WriteSame(e1.sink, e2.sink, r.st, MissionFailed(if r.out.Ok? then r.out.value else Failed), false, t);
      }
    }
  }

  /**
   * For any mission: sinks that agree on the strict attempts of a run, and raise nothing but ordinary
   * exceptions on the others, leave the whole run unchanged - every command, sample, time and the outcome.
   */
  lemma SinkCannotSteer(e1: Env, e2: Env, cfg: Config, bound: Outcome<Home>, actions: seq<Action>)
    requires SameVehicle(e1, e2)
    requires Indifferent(e1.sink, e2.sink, TraceOf(e1, cfg, bound, actions))
    ensures Execute(e1, cfg, bound, actions, INITIAL) == Execute(e2, cfg, bound, actions, INITIAL)
  {
    hide Write, TryBlock, Handle;
    var t := TraceOf(e1, cfg, bound, actions);
    if e1.factory.None? {
      WriteSame(e1.sink, e2.sink, INITIAL, MissionStarted, true, t);
      var started := Write(e1.sink, INITIAL, MissionStarted, true);
      if started.out.Ok? {
        TryBlockSame(e1, e2, cfg, bound, actions, started.st, t);
        var leg := TryBlock(e1, cfg, bound, actions, started.st);
        if leg.out.Ok? {
          WriteSame(e1.sink, e2.sink, leg.st, MissionCompleted, false, t);
        } else {
          HandleSame(e1, e2, cfg, leg.st, leg.flags, leg.out.exn, t);
        }
      }
    }
  }

  /** The sinks agree on every attempt up to the accepted takeoff, and are ordinary after it. */
  predicate AgreeUntilTakeoff(s1: Sink, s2: Sink, t: Trace) {
    forall i :: 0 <= i < |t| && t[i].Attempt? ==>
                  || s1(t[i].index) == s2(t[i].index)
                  || (Returned(Takeoff) in t[..i] && Ordinary(s1(t[i].index)) && Ordinary(s2(t[i].index)))
  }

  /** A strict attempt is never made once takeoff has been accepted. */
  lemma StrictBeforeTakeoff(
    h: Policy.Hypot, limits: PolicyLimits, env: Env, cfg: Config, bound: Outcome<Home>, actions: seq<Action>, i: nat)
    requires Accepted(h, limits, actions)
    requires i < |TraceOf(env, cfg, bound, actions)|
    requires TraceOf(env, cfg, bound, actions)[i].Attempt? && TraceOf(env, cfg, bound, actions)[i].strict
    ensures Returned(Takeoff) !in TraceOf(env, cfg, bound, actions)[..i]
  {
    hide Execute, Watch, CommandWord, AuditWord, Cleaned, Completed;
    AcceptedIsFlyable(h, limits, actions);
    RunVerdict(env, cfg, bound, actions);
    var t, ok := TraceOf(env, cfg, bound, actions), RulesOf(env, cfg, bound, actions);
    if Returned(Takeoff) in t[..i] {
      var j :| 0 <= j < i && t[..i][j] == Returned(Takeoff);
      AllQuiet(ok, t, j);
      Projections(ok, t[..j]);
      CommandIssued(t[..j], Takeoff);
      var k :| 0 <= k < j && t[..j][k] == Issued(Takeoff);
      assert t[..i][k] == Issued(Takeoff);
      StrictAuditGatesTakeoff(h, limits, env, cfg, bound, actions, i);
      assert false;
    }
  }

  /**
   * For accepted missions: audit sinks that differ in any ordinary way once takeoff has been accepted
   * issue identical commands and end identically.
   */
  lemma AuditNonInterference(
    h: Policy.Hypot, limits: PolicyLimits, e1: Env, e2: Env, cfg: Config, bound: Outcome<Home>, actions: seq<Action>)
    requires Accepted(h, limits, actions) && SameVehicle(e1, e2)
    requires AgreeUntilTakeoff(e1.sink, e2.sink, TraceOf(e1, cfg, bound, actions))
    ensures Execute(e1, cfg, bound, actions, INITIAL) == Execute(e2, cfg, bound, actions, INITIAL)
  {
    hide Execute;
    var t := TraceOf(e1, cfg, bound, actions);
    forall i | 0 <= i < |t| && t[i].Attempt? && t[i].strict
      ensures Returned(Takeoff) !in t[..i]
    {
      StrictBeforeTakeoff(h, limits, e1, cfg, bound, actions, i);
    }
    SinkCannotSteer(e1, e2, cfg, bound, actions);
  }
}
