/**
 * The executor's flags do not make it safe on their own: every mission with two takeoffs has a run in
 * which a strict audit write fails after takeoff was commanded, interrupts the flight, and makes recovery
 * disarm. So at most one takeoff, which policy guarantees, is exactly what the executor needs.
 */
module PolicyNeeded {
  import opened Models
  import opened Vehicle
  import opened Executor
  import opened Additions
  import opened OneTakeoff
  import opened Options

  const HERE := Home(0.0, 0.0, 0.0)

  function Anywhere(a: Home, b: Home): bool { true }

  const CFG := Config(10, 10, 10, 0.5, Anywhere, Anywhere)

  /** High enough for every climb, and not in the air: every gate passes at once. */
  function Report(top: real): Sample {
    Sample(true, true, Some(HERE), IsTrue, Some(top), IsFalse)
  }

  /** A vehicle that obeys and reports, and a sink that fails at attempt `target` only. */
  function Faulty(top: real, target: nat): Env {
    Env(_ => Reply(1, true, None, Item(Report(top))),
        n => if n == target then Some(OtherError(7)) else None,
        None, true, true)
  }

  lemma Sent(top: real, target: nat, s: St, c: Command)
    ensures var r := Send(Faulty(top, target).replies, s, c, Never);
            && r.out == Ok(()) && r.st.attempts == s.attempts
            && |r.st.trace| > |s.trace| && r.st.trace[|s.trace|] == Issued(c)
  {
  }

  lemma Waited(top: real, target: nat, s: St, gate: Gate, deadline: nat)
    requires s.clock + 1 <= deadline && gate.Passes(Report(top))
    ensures var r := WaitFor(Faulty(top, target).replies, s, gate, deadline);
            r.out == Ok(Report(top)) && r.st.attempts == s.attempts && r.st.clock == s.clock + 1
  {
  }

  lemma HomeRead(top: real, target: nat, s: St)
    ensures var r := ReadHome(Faulty(top, target), CFG, s); r.out == Ok(HERE) && r.st.attempts == s.attempts
  {
    hide WaitFor;
    Waited(top, target, s, ForHealth, s.clock + 10);
    var health := WaitFor(Faulty(top, target).replies, s, ForHealth, s.clock + 10);
    Waited(top, target, health.st, ForHome, s.clock + 10);
  }

  /** A home check makes one strict attempt, and fails exactly if the sink fails at it. */
  lemma HomeChecked(top: real, target: nat, phase: Phase, s: St)
    ensures var r := CheckHome(Faulty(top, target), CFG, HERE, phase, s);
            && r.st.attempts == s.attempts + 1
            && (if s.attempts != target then r.out == Ok(())
                else
                  && r.out == Raise(OtherError(7))
                  && r.st.trace != []
                  && r.st.trace[|r.st.trace| - 1] == Attempt(target, HomeCheck(phase, true), true))
  {
    hide WaitFor;
    HomeRead(top, target, s);
  }

  lemma Preflighted(top: real, target: nat, s: St)
    requires s.attempts != target
    ensures var r := Preflight(Faulty(top, target), CFG, Ok(HERE), s);
            r.out == Ok(()) && r.st.attempts == s.attempts + 1
  {
    hide WaitFor, Send, CheckHome;
    Sent(top, target, s, Connect);
    var c := Send(Faulty(top, target).replies, s, Connect, Never);
    Waited(top, target, c.st, ForConnection, c.st.clock + 10);
    HomeChecked(top, target, PreArm, WaitForConnection(Faulty(top, target), CFG, c.st).st);
  }

  lemma ArmedAndChecked(top: real, target: nat, s: St)
    ensures var r := ArmAndCheck(Faulty(top, target), CFG, HERE, s);
            && r.st.attempts == s.attempts + 1
            && (if s.attempts != target then r.out == Ok(())
                else
                  && r.out == Raise(OtherError(7))
                  && r.st.trace != []
                  && r.st.trace[|r.st.trace| - 1] == Attempt(target, HomeCheck(PostArm, true), true))
  {
    hide WaitFor, Send, CheckHome;
    Sent(top, target, s, Arm);
    var a := Send(Faulty(top, target).replies, s, Arm, Never);
    Waited(top, target, a.st, ForArmed, a.st.clock + 10);
    HomeChecked(top, target, PostArm, WaitUntilArmed(Faulty(top, target), CFG, a.st).st);
  }

  lemma Climbed(top: real, target: nat, altitude: real, s: St, flags: Flags)
    requires MinimumAltitude(CFG, altitude) <= top
    ensures var leg := Climb(Faulty(top, target), CFG, altitude, s, flags);
            leg.out == Ok(()) && leg.st.attempts == s.attempts && Issued(Takeoff) in leg.st.trace
  {
    hide WaitFor, Send;
    Sent(top, target, s, Takeoff);
    var t := Send(Faulty(top, target).replies, s, Takeoff, Never);
    var gate := ForAltitude(MinimumAltitude(CFG, altitude));
    Waited(top, target, t.st, gate, t.st.clock + 10);
    var w := WaitUntilTakeoffAltitude(Faulty(top, target), CFG, t.st, altitude);
    assert w.st.trace[|s.trace|] == Issued(Takeoff);
  }

  /** Audit attempts of an undisturbed turn. */
  function Attempts(action: Action): nat {
    if action.TakeoffAction? then 3 else 2
  }

  function AttemptsBefore(actions: seq<Action>, k: nat): nat
    requires k <= |actions|
  {
    if k == 0 then 0 else AttemptsBefore(actions, k - 1) + Attempts(actions[k - 1])
  }

  predicate Reachable(top: real, action: Action) {
    action.TakeoffAction? ==> MinimumAltitude(CFG, action.altitude) <= top
  }

  lemma ActionWorks(top: real, target: nat, action: Action, s: St, flags: Flags)
    requires Reachable(top, action) && (action.TakeoffAction? ==> target != s.attempts)
    ensures var leg := RunAction(Faulty(top, target), CFG, HERE, action, s, flags);
            && leg.out == Ok(())
            && leg.st.attempts == s.attempts + Attempts(action) - 2
            && (action.TakeoffAction? ==> Issued(Takeoff) in leg.st.trace)
  {
    hide WaitFor, Send, ArmAndCheck, Climb, MinimumAltitude;
    var env := Faulty(top, target);
    match action {
      case TakeoffAction(altitude) =>
        Sent(top, target, s, SetTakeoffAltitude(altitude));
        var c := Send(env.replies, s, SetTakeoffAltitude(altitude), Never);
        ArmedAndChecked(top, target, c.st);
        Climbed(top, target, altitude, ArmAndCheck(env, CFG, HERE, c.st).st,
                flags.(attempted := true, recoveryRequired := true));
      case LandAction =>
        Sent(top, target, s, Land);
        var l := Send(env.replies, s, Land, Never);
        Waited(top, target, l.st, ForLanding, l.st.clock + 10);
      case _ =>
    }
  }

  lemma WriteWorks(top: real, target: nat, s: St, record: Record, strict: bool)
    requires s.attempts != target
    ensures var w := Write(Faulty(top, target).sink, s, record, strict);
            w.out == Ok(()) && w.st.attempts == s.attempts + 1
  {
  }

  lemma TurnWorks(top: real, target: nat, action: Action, sequence: nat, s: St, flags: Flags)
    requires Reachable(top, action) && s.attempts + Attempts(action) <= target
    ensures var leg := RunTurn(Faulty(top, target), CFG, HERE, action, sequence, s, flags);
            && leg.out == Ok(())
            && leg.st.attempts == s.attempts + Attempts(action)
            && (action.TakeoffAction? ==> Issued(Takeoff) in leg.st.trace)
  {
    hide Write, RunAction, Reachable;
    var env := Faulty(top, target);
    WriteWorks(top, target, s, ActionStarted(sequence), !flags.committed);
    var started := Write(env.sink, s, ActionStarted(sequence), !flags.committed);
    ActionWorks(top, target, action, started.st, flags);
    var leg := RunAction(env, CFG, HERE, action, started.st, flags);
    WriteWorks(top, target, leg.st, ActionCompleted(sequence), !leg.flags.committed);
  }

  /** The loop gets to action `j` undisturbed, and past a takeoff if there is one on the way. */
  lemma {:induction false} LoopReaches(
    top: real, target: nat, actions: seq<Action>, k: nat, j: nat, s: St, flags: Flags)
    returns (s': St, flags': Flags)
    requires k <= j <= |actions| && forall i :: 0 <= i < |actions| ==> Reachable(top, actions[i])
    requires s.attempts == 2 + AttemptsBefore(actions, k) && 2 + AttemptsBefore(actions, j) <= target
    requires Takeoffs(actions[..k]) > 0 ==> Issued(Takeoff) in s.trace
    ensures RunActions(Faulty(top, target), CFG, HERE, actions, k, s, flags)
         == RunActions(Faulty(top, target), CFG, HERE, actions, j, s', flags')
    ensures s'.attempts == 2 + AttemptsBefore(actions, j)
    ensures Takeoffs(actions[..j]) > 0 ==> Issued(Takeoff) in s'.trace
    decreases j - k
  {
    hide RunTurn, Reachable, Takeoffs;
    if k == j {
      s', flags' := s, flags;
    } else {
      AttemptsGrow(actions, k + 1, j);
      TurnWorks(top, target, actions[k], k + 1, s, flags);
      var leg := RunTurn(Faulty(top, target), CFG, HERE, actions[k], k + 1, s, flags);
      assert s.trace <= leg.st.trace;
      TakeoffsSnoc(actions, k);
      s', flags' := LoopReaches(top, target, actions, k + 1, j, leg.st, leg.flags);
    }
  }

  lemma {:induction false} AttemptsGrow(actions: seq<Action>, k: nat, j: nat)
    requires k <= j <= |actions|
    ensures AttemptsBefore(actions, k) <= AttemptsBefore(actions, j)
  {
    if k == j {
    } else {
      AttemptsGrow(actions, k, j - 1);
    }
  }

  /** The strict record of a takeoff's home check fails: the turn stops armed, its takeoff not attempted. */
  lemma TurnFails(top: real, target: nat, action: Action, sequence: nat, s: St, flags: Flags)
    requires action.TakeoffAction? && target == s.attempts + 1
    ensures var leg := RunTurn(Faulty(top, target), CFG, HERE, action, sequence, s, flags);
            && leg.out == Raise(OtherError(7))
            && leg.flags.recoveryRequired && !leg.flags.attempted
            && |leg.st.trace| > |s.trace|
            && leg.st.trace[|leg.st.trace| - 1] == Attempt(target, HomeCheck(PostArm, true), true)
  {
    hide Write, Send, ArmAndCheck, Climb;
    var env := Faulty(top, target);
    WriteWorks(top, target, s, ActionStarted(sequence), !flags.committed);
    var started := Write(env.sink, s, ActionStarted(sequence), !flags.committed);
    Sent(top, target, started.st, SetTakeoffAltitude(action.altitude));
    ArmedAndChecked(top, target, Send(env.replies, started.st, SetTakeoffAltitude(action.altitude), Never).st);
  }

  lemma Disarmed(top: real, target: nat, s: St, deadline: nat)
    requires s.clock + 1 <= deadline
    ensures var r := Send(Faulty(top, target).replies, s, Disarm, At(deadline));
            r.out == Ok(()) && |r.st.trace| > |s.trace| && r.st.trace[|s.trace|] == Issued(Disarm)
  {
  }

  /** Recovery sees the vehicle not in the air, and disarms. */
  lemma RecoveryDisarms(top: real, target: nat, s: St, flags: Flags)
    requires flags.recoveryRequired && !flags.attempted
    ensures var run := Handle(Faulty(top, target), CFG, s, flags, OtherError(7));
            && run.out == Raise(OtherError(7))
            && s.trace <= run.st.trace
            && exists k :: |s.trace| <= k < |run.st.trace| && run.st.trace[k] == Issued(Disarm)
  {
    hide WaitFor, Send;
    var env := Faulty(top, target);
    Waited(top, target, s, ForInAir, s.clock + 10);
    var w := WaitFor(env.replies, s, ForInAir, s.clock + 10);
    Disarmed(top, target, w.st, s.clock + 10);
    var r := Recover(env.replies, CFG, s, false);
    assert r.out == Ok(DisarmAccepted) && r.st.trace[|w.st.trace|] == Issued(Disarm);
    assert Handle(env, CFG, s, flags, OtherError(7)).st.trace[|w.st.trace|] == Issued(Disarm);
  }

  // ----- two takeoffs are one too many

  /** An altitude that reaches every climb of the mission. */
  function Top(actions: seq<Action>): (top: real)
    ensures forall i :: 0 <= i < |actions| ==> Reachable(top, actions[i])
  {
    if actions == [] then 0.0
    else
      var rest, last := Top(actions[..|actions| - 1]), actions[|actions| - 1];
      assert forall i :: 0 <= i < |actions| - 1 ==> actions[i] == actions[..|actions| - 1][i];
      if last.TakeoffAction? && MinimumAltitude(CFG, last.altitude) > rest then MinimumAltitude(CFG, last.altitude)
      else rest
  }

  /** A takeoff action with another before it. */
  lemma {:induction false} SecondTakeoff(actions: seq<Action>, n: nat) returns (j: nat)
    requires n <= |actions| && Takeoffs(actions[..n]) > 1
    ensures j < n && actions[j].TakeoffAction? && Takeoffs(actions[..j]) > 0
  {
    if n == 0 {
      assert false;
    } else {
      TakeoffsSnoc(actions, n - 1);
      if Takeoffs(actions[..n - 1]) > 1 {
        j := SecondTakeoff(actions, n - 1);
      } else {
        j := n - 1;
      }
    }
  }

  /** A takeoff command, then a strict audit attempt that raises, then a disarm command. */
  predicate Spoiled(sink: Sink, t: Trace, i: nat, j: nat, k: nat) {
    i < j < k < |t| && t[i] == Issued(Takeoff)
    && t[j].Attempt? && t[j].strict && sink(t[j].index).Some? && t[k] == Issued(Disarm)
  }

  /** With two takeoffs the audit sink can interrupt the flight, and have the vehicle disarmed. */
  lemma TwoTakeoffsSpoil(actions: seq<Action>) returns (env: Env, i: nat, j: nat, k: nat)
    requires Takeoffs(actions) > 1
    ensures Spoiled(env.sink, TraceOf(env, CFG, Ok(HERE), actions), i, j, k)
    ensures Execute(env, CFG, Ok(HERE), actions, INITIAL).out
         == Raise(env.sink(TraceOf(env, CFG, Ok(HERE), actions)[j].index).value)
  {
    hide Preflight, RunTurn, Handle, Write, Reachable, Takeoffs;
    assert actions[..|actions|] == actions;
    var turn := SecondTakeoff(actions, |actions|);
    var top, target := Top(actions), 2 + AttemptsBefore(actions, turn) + 1;
    env := Faulty(top, target);
    WriteWorks(top, target, INITIAL, MissionStarted, true);
    var started := Write(env.sink, INITIAL, MissionStarted, true);
    Preflighted(top, target, started.st);
    var p := Preflight(env, CFG, Ok(HERE), started.st);
    NoneYet(actions);
    var s, flags := LoopReaches(top, target, actions, 0, turn, p.st, GROUNDED);
    TurnFails(top, target, actions[turn], turn + 1, s, flags);
    var leg := RunTurn(env, CFG, HERE, actions[turn], turn + 1, s, flags);
    assert TryBlock(env, CFG, Ok(HERE), actions, started.st) == leg;
    RecoveryDisarms(top, target, leg.st, leg.flags);
    var t := TraceOf(env, CFG, Ok(HERE), actions);
    assert t == Handle(env, CFG, leg.st, leg.flags, OtherError(7)).st.trace;
    i :| 0 <= i < |s.trace| && s.trace[i] == Issued(Takeoff);
    j := |leg.st.trace| - 1;
    k :| |leg.st.trace| <= k < |t| && t[k] == Issued(Disarm);
    assert s.trace <= leg.st.trace <= t;
  }

  /**
   * For every list of actions: no vehicle, sink, configuration or home makes a run disarm after a takeoff
   * command exactly if the list has at most one takeoff; the same holds of strict audit attempts after a
   * takeoff command, and of strict audit failures after one.
   */
  lemma SafeIffOneTakeoff(actions: seq<Action>)
    ensures (forall env: Env, cfg, bound :: !DisarmFollows(TraceOf(env, cfg, bound, actions)))
       <==> Takeoffs(actions) <= 1
    ensures (forall env: Env, cfg, bound :: !StrictFollows(TraceOf(env, cfg, bound, actions)))
       <==> Takeoffs(actions) <= 1
    ensures (forall env: Env, cfg, bound :: !FailureFollows(env.sink, TraceOf(env, cfg, bound, actions)))
       <==> Takeoffs(actions) <= 1
  {
    hide TraceOf, Takeoffs;
    if Takeoffs(actions) <= 1 {
      forall env: Env, cfg, bound
        ensures !DisarmFollows(TraceOf(env, cfg, bound, actions)) && !StrictFollows(TraceOf(env, cfg, bound, actions))
      {
        OneTakeoffSuffices(env, cfg, bound, actions);
      }
    } else {
      var env, i, j, k := TwoTakeoffsSpoil(actions);
      var t := TraceOf(env, CFG, Ok(HERE), actions);
      assert DisarmAt(t, i, k) && StrictAt(t, i, j);
    }
  }

  /** The schema does not rule such missions out: one of them disarms after takeoff. */
  lemma FlagsAloneAreUnsafe()
    ensures exists actions, env: Env :: ActionsValid(actions) && DisarmFollows(TraceOf(env, CFG, Ok(HERE), actions))
  {
    hide TraceOf;
    var actions := [TakeoffAction(1.0), TakeoffAction(1.0), LandAction];
    TakeoffsSnoc(actions, 0);
    TakeoffsSnoc(actions, 1);
    TakeoffsSnoc(actions, 2);
    assert actions[..3] == actions;
    var env, i, j, k := TwoTakeoffsSpoil(actions);
    assert DisarmAt(TraceOf(env, CFG, Ok(HERE), actions), i, k);
  }
}
