/**
 * What each step of the executor may add to the trace, for every list of actions, accepted or not.
 */
module Additions {
  import opened Models
  import opened Vehicle
  import opened Executor
  import opened Options

  /** Which of the telling events a step may add. */
  datatype Scope = Scope(strict: bool, lax: bool, takeoff: bool, landing: bool)

  const NOTHING := Scope(false, false, false, false)
  const CHECKS := Scope(true, false, false, false)
  const CLIMB := Scope(false, false, true, false)
  const DESCENT := Scope(false, false, false, true)
  const CLOSING := Scope(false, true, false, true)

  predicate Fits(e: Event, scope: Scope) {
    && e != Issued(Disarm)
    && (e == Issued(Takeoff) || e == Returned(Takeoff) ==> scope.takeoff)
    && (e.Attempt? ==> if e.strict then scope.strict else scope.lax)
    && (e.Saw? && e.gate == ForLanding ==> scope.landing)
  }

  /** A command takes effect only directly after it was sent. */
  predicate EffectAt(t: Trace, k: nat)
    requires k < |t|
  {
    t[k].TookEffect? ==> k > 0 && t[k - 1] == Issued(t[k].command)
  }

  predicate Effects(t: Trace) {
    forall k :: 0 <= k < |t| ==> EffectAt(t, k)
  }

  predicate Adds(t: Trace, t': Trace, scope: Scope) {
    && t <= t'
    && (forall k :: |t| <= k < |t'| ==> Fits(t'[k], scope))
    && (Effects(t) ==> Effects(t'))
  }

  lemma AddsThen(t: Trace, t': Trace, t'': Trace, scope: Scope)
    requires Adds(t, t', scope) && Adds(t', t'', scope)
    ensures Adds(t, t'', scope)
  {
    hide Effects;
  }

  predicate Within(a: Scope, b: Scope) {
    (a.strict ==> b.strict) && (a.lax ==> b.lax) && (a.takeoff ==> b.takeoff) && (a.landing ==> b.landing)
  }

  lemma AddsWider(t: Trace, t': Trace, a: Scope, b: Scope)
    requires Adds(t, t', a) && Within(a, b)
    ensures Adds(t, t', b)
  {
    hide Effects;
  }

  lemma AddsNothing(t: Trace, scope: Scope)
    ensures Adds(t, t, scope)
  {
  }

  lemma EmitAdds(s: St, e: Event, scope: Scope)
    requires Fits(e, scope) && !e.TookEffect?
    ensures Adds(s.trace, Emit(s, e).trace, scope)
  {
    var t := Emit(s, e).trace;
    if Effects(s.trace) {
      forall k | 0 <= k < |t| ensures EffectAt(t, k) {
        if k < |s.trace| { assert EffectAt(s.trace, k); }
      }
    }
  }

  // ----- the primitive steps

  /** A command other than disarm, in any scope that allows it. */
  lemma SendAdds(replies: Replies, s: St, c: Command, deadline: Deadline, scope: Scope)
    requires c != Disarm && (c == Takeoff ==> scope.takeoff)
    ensures Adds(s.trace, Send(replies, s, c, deadline).st.trace, scope)
  {
    SendSound(replies, s, c, deadline);
  }

  lemma SendSound(replies: Replies, s: St, c: Command, deadline: Deadline)
    ensures Effects(s.trace) ==> Effects(Send(replies, s, c, deadline).st.trace)
    ensures var t := Send(replies, s, c, deadline).st.trace;
            |t| > |s.trace| && t[|s.trace|] == Issued(c)
            && forall k :: |s.trace| < k < |t| ==> t[k] == TookEffect(c) || t[k] == Returned(c)
  {
    var t := Send(replies, s, c, deadline).st.trace;
    if Effects(s.trace) {
      forall k | 0 <= k < |t| ensures EffectAt(t, k) {
        if k < |s.trace| { assert EffectAt(s.trace, k); }
      }
    }
  }

  lemma NextItemAdds(replies: Replies, s: St, gate: Gate, deadline: nat, scope: Scope)
    requires gate == ForLanding ==> scope.landing
    ensures var r := NextItem(replies, s, gate, deadline);
            && Adds(s.trace, r.st.trace, scope)
            && (r.out.Ok? ==> r.st.trace == s.trace + [Saw(gate, r.out.value)])
  {
    hide Adds;
    var reply := replies(s.cursor);
    AddsNothing(s.trace, scope);
    if reply.telemetry.Item? {
      EmitAdds(s, Saw(gate, reply.telemetry.sample), scope);
    }
  }

  /** A wait that succeeds ends in the item that passed. */
  lemma {:induction false} WaitAdds(replies: Replies, s: St, gate: Gate, deadline: nat, scope: Scope)
    requires gate == ForLanding ==> scope.landing
    ensures var r := WaitFor(replies, s, gate, deadline);
            && Adds(s.trace, r.st.trace, scope)
            && (r.out.Ok? ==> r.st.trace != [] && r.st.trace[|r.st.trace| - 1] == Saw(gate, r.out.value))
    decreases deadline - s.clock
  {
    hide Adds, NextItem;
    var item := NextItem(replies, s, gate, deadline);
    NextItemAdds(replies, s, gate, deadline, scope);
    if item.out.Ok? && !gate.Passes(item.out.value) {
      WaitAdds(replies, item.st, gate, deadline, scope);
      AddsThen(s.trace, item.st.trace, WaitFor(replies, item.st, gate, deadline).st.trace, scope);
    }
  }

  lemma SleepAdds(replies: Replies, s: St, seconds: int, scope: Scope)
    ensures Adds(s.trace, Sleep(replies, s, seconds).st.trace, scope)
  {
    hide Adds;
    var s1 := Emit(s, HoldBegan(seconds));
    EmitAdds(s, HoldBegan(seconds), scope);
    EmitAdds(s1, Slept(seconds), scope);
    AddsThen(s.trace, s1.trace, Emit(s1, Slept(seconds)).trace, scope);
  }

  lemma WriteAdds(sink: Sink, s: St, record: Record, strict: bool, scope: Scope)
    requires if strict then scope.strict else scope.lax
    ensures Adds(s.trace, Write(sink, s, record, strict).st.trace, scope)
  {
    hide Adds;
    var s1 := Emit(s, Attempt(s.attempts, record, strict));
    EmitAdds(s, Attempt(s.attempts, record, strict), scope);
    EmitAdds(s1, Recorded(record), scope);
    AddsThen(s.trace, s1.trace, Emit(s1, Recorded(record)).trace, scope);
  }

  // ----- the parts of the try block

  lemma CheckHomeAdds(env: Env, cfg: Config, bound: Home, phase: Phase, s: St)
    ensures Adds(s.trace, CheckHome(env, cfg, bound, phase, s).st.trace, CHECKS)
  {
    hide Adds, WaitFor, Write;
    AddsNothing(s.trace, CHECKS);
    var deadline := s.clock + cfg.connectionTimeout;
    var health := WaitFor(env.replies, s, ForHealth, deadline);
    WaitAdds(env.replies, s, ForHealth, deadline, CHECKS);
    var fix := WaitFor(env.replies, health.st, ForHome, deadline);
    WaitAdds(env.replies, health.st, ForHome, deadline, CHECKS);
    AddsThen(s.trace, health.st.trace, fix.st.trace, CHECKS);
    var r := ReadHome(env, cfg, s);
    if r.out.Ok? {
      var record := HomeCheck(phase, cfg.within(bound, r.out.value));
      WriteAdds(env.sink, r.st, record, true, CHECKS);
      AddsThen(s.trace, r.st.trace, Write(env.sink, r.st, record, true).st.trace, CHECKS);
    }
  }

  lemma PreflightAdds(env: Env, cfg: Config, bound: Outcome<Home>, s: St)
    ensures Adds(s.trace, Preflight(env, cfg, bound, s).st.trace, CHECKS)
  {
    hide Adds, WaitFor, Send, CheckHome;
    var c := Send(env.replies, s, Connect, Never);
    SendAdds(env.replies, s, Connect, Never, CHECKS);
    var w := WaitForConnection(env, cfg, c.st);
    WaitAdds(env.replies, c.st, ForConnection, c.st.clock + cfg.connectionTimeout, CHECKS);
    AddsThen(s.trace, c.st.trace, w.st.trace, CHECKS);
    if bound.Ok? {
      CheckHomeAdds(env, cfg, bound.value, PreArm, w.st);
      AddsThen(s.trace, w.st.trace, CheckHome(env, cfg, bound.value, PreArm, w.st).st.trace, CHECKS);
    }
  }

  lemma ArmAndCheckAdds(env: Env, cfg: Config, bound: Home, s: St)
    ensures Adds(s.trace, ArmAndCheck(env, cfg, bound, s).st.trace, CHECKS)
  {
    hide Adds, WaitFor, Send, CheckHome;
    var a := Send(env.replies, s, Arm, Never);
    SendAdds(env.replies, s, Arm, Never, CHECKS);
    var w := WaitUntilArmed(env, cfg, a.st);
    AddsNothing(a.st.trace, CHECKS);
    WaitAdds(env.replies, a.st, ForArmed, a.st.clock + cfg.takeoffTimeout, CHECKS);
    AddsThen(s.trace, a.st.trace, w.st.trace, CHECKS);
    CheckHomeAdds(env, cfg, bound, PostArm, w.st);
    AddsThen(s.trace, w.st.trace, CheckHome(env, cfg, bound, PostArm, w.st).st.trace, CHECKS);
  }

  lemma ClimbAdds(env: Env, cfg: Config, altitude: real, s: St, flags: Flags)
    ensures Adds(s.trace, Climb(env, cfg, altitude, s, flags).st.trace, CLIMB)
  {
    hide Adds, WaitFor, Send;
    var t := Send(env.replies, s, Takeoff, Never);
    SendAdds(env.replies, s, Takeoff, Never, CLIMB);
    var w := WaitUntilTakeoffAltitude(env, cfg, t.st, altitude);
    var gate := ForAltitude(MinimumAltitude(cfg, altitude));
    WaitAdds(env.replies, t.st, gate, t.st.clock + cfg.takeoffTimeout, CLIMB);
    AddsThen(s.trace, t.st.trace, w.st.trace, CLIMB);
  }

  /** A takeoff action: the checks come first, the takeoff command after them. */
  lemma RunTakeoffAdds(env: Env, cfg: Config, bound: Home, altitude: real, s: St, flags: Flags) returns (mid: Trace)
    ensures var leg := RunTakeoff(env, cfg, bound, altitude, s, flags);
            && Adds(s.trace, mid, CHECKS) && Adds(mid, leg.st.trace, CLIMB)
            && (!leg.flags.attempted ==> mid == leg.st.trace || leg.flags == flags)
            && (mid != leg.st.trace ==> leg.flags.attempted)
            && (leg.out.Ok? ==> leg.flags.committed && leg.flags.attempted)
  {
    hide Adds, Send, ArmAndCheck, WaitFor;
    var c := Send(env.replies, s, SetTakeoffAltitude(altitude), Never);
    SendAdds(env.replies, s, SetTakeoffAltitude(altitude), Never, CHECKS);
    var a := ArmAndCheck(env, cfg, bound, c.st);
    ArmAndCheckAdds(env, cfg, bound, c.st);
    AddsThen(s.trace, c.st.trace, a.st.trace, CHECKS);
    mid := if c.out.Raise? then c.st.trace else a.st.trace;
    AddsNothing(mid, CLIMB);
    ClimbAdds(env, cfg, altitude, a.st, flags.(attempted := true, recoveryRequired := true));
  }

  lemma RunLandAdds(env: Env, cfg: Config, s: St, flags: Flags)
    ensures var leg := RunLand(env, cfg, s, flags);
            && Adds(s.trace, leg.st.trace, DESCENT)
            && leg.flags == flags.(recoveryRequired := leg.flags.recoveryRequired)
  {
    hide Adds, WaitFor, Send;
    var l := Send(env.replies, s, Land, Never);
    SendAdds(env.replies, s, Land, Never, DESCENT);
    var w := WaitUntilLanded(env, cfg, l.st);
    WaitAdds(env.replies, l.st, ForLanding, l.st.clock + cfg.landingTimeout, DESCENT);
    AddsThen(s.trace, l.st.trace, w.st.trace, DESCENT);
  }

  /** Any other action leaves the flags that choose recovery and auditing alone. */
  lemma OtherActionAdds(env: Env, cfg: Config, bound: Home, action: Action, s: St, flags: Flags)
    requires !action.TakeoffAction?
    ensures var leg := RunAction(env, cfg, bound, action, s, flags);
            && Adds(s.trace, leg.st.trace, DESCENT)
            && leg.flags == flags.(recoveryRequired := leg.flags.recoveryRequired)
  {
    hide Adds, RunLand, Sleep;
    match action {
      case LandAction => RunLandAdds(env, cfg, s, flags);
      case HoldAction(seconds) => SleepAdds(env.replies, s, seconds, DESCENT);
      case _ => AddsNothing(s.trace, DESCENT);
    }
  }

  // ----- any mission, any run

  const ANYTHING := Scope(true, true, true, true)

  lemma RunTurnAdds(env: Env, cfg: Config, bound: Home, action: Action, sequence: nat, s: St, flags: Flags)
    ensures Adds(s.trace, RunTurn(env, cfg, bound, action, sequence, s, flags).st.trace, ANYTHING)
  {
    hide Adds, Write, RunAction;
    WriteAdds(env.sink, s, ActionStarted(sequence), !flags.committed, ANYTHING);
    var started := Write(env.sink, s, ActionStarted(sequence), !flags.committed);
    RunActionAdds(env, cfg, bound, action, started.st, flags);
    var leg := RunAction(env, cfg, bound, action, started.st, flags);
    AddsThen(s.trace, started.st.trace, leg.st.trace, ANYTHING);
    WriteAdds(env.sink, leg.st, ActionCompleted(sequence), !leg.flags.committed, ANYTHING);
    AddsThen(s.trace, leg.st.trace,
             Write(env.sink, leg.st, ActionCompleted(sequence), !leg.flags.committed).st.trace, ANYTHING);
  }

  lemma RunActionAdds(env: Env, cfg: Config, bound: Home, action: Action, s: St, flags: Flags)
    ensures Adds(s.trace, RunAction(env, cfg, bound, action, s, flags).st.trace, ANYTHING)
  {
    hide Adds, RunTakeoff;
    var leg := RunAction(env, cfg, bound, action, s, flags);
    if action.TakeoffAction? {
      var mid := RunTakeoffAdds(env, cfg, bound, action.altitude, s, flags);
      AddsWider(s.trace, mid, CHECKS, ANYTHING);
      AddsWider(mid, leg.st.trace, CLIMB, ANYTHING);
      AddsThen(s.trace, mid, leg.st.trace, ANYTHING);
    } else {
      OtherActionAdds(env, cfg, bound, action, s, flags);
      AddsWider(s.trace, leg.st.trace, DESCENT, ANYTHING);
    }
  }

  lemma {:induction false} RunActionsAdds(
    env: Env, cfg: Config, bound: Home, actions: seq<Action>, k: nat, s: St, flags: Flags)
    requires k <= |actions|
    ensures Adds(s.trace, RunActions(env, cfg, bound, actions, k, s, flags).st.trace, ANYTHING)
    decreases |actions| - k
  {
    hide Adds, RunTurn;
    if k == |actions| {
      AddsNothing(s.trace, ANYTHING);
    } else {
      RunTurnAdds(env, cfg, bound, actions[k], k + 1, s, flags);
      var leg := RunTurn(env, cfg, bound, actions[k], k + 1, s, flags);
      RunActionsAdds(env, cfg, bound, actions, k + 1, leg.st, leg.flags);
      var rest := RunActions(env, cfg, bound, actions, k + 1, leg.st, leg.flags);
      AddsThen(s.trace, leg.st.trace, rest.st.trace, ANYTHING);
    }
  }

  lemma TryBlockAdds(env: Env, cfg: Config, bound: Outcome<Home>, actions: seq<Action>, s: St)
    ensures Adds(s.trace, TryBlock(env, cfg, bound, actions, s).st.trace, ANYTHING)
  {
    hide Adds, Preflight, RunActions;
    PreflightAdds(env, cfg, bound, s);
    var p := Preflight(env, cfg, bound, s);
    AddsWider(s.trace, p.st.trace, CHECKS, ANYTHING);
    if bound.Ok? {
      RunActionsAdds(env, cfg, bound.value, actions, 0, p.st, GROUNDED);
      AddsThen(s.trace, p.st.trace, RunActions(env, cfg, bound.value, actions, 0, p.st, GROUNDED).st.trace, ANYTHING);
    }
  }

  // ----- the handler

  /** The last event is recovery's in_air item, with exactly the value False. */
  predicate EndsInFalse(t: Trace) {
    t != [] && t[|t| - 1].Saw? && t[|t| - 1].gate == ForInAir && t[|t| - 1].sample.inAir == IsFalse
  }

  /** What the handler adds within a scope: a disarm only where it is safe. */
  predicate Closes(t: Trace, t': Trace, attempted: bool, scope: Scope) {
    && t <= t'
    && (forall k :: |t| <= k < |t'| ==>
          Fits(t'[k], scope) || (t'[k] == Issued(Disarm) && !attempted && EndsInFalse(t'[..k])))
    && (Effects(t) ==> Effects(t'))
  }

  lemma AddsCloses(t: Trace, t': Trace, t'': Trace, attempted: bool, scope: Scope)
    requires Adds(t, t', scope) && Closes(t', t'', attempted, scope)
    ensures Closes(t, t'', attempted, scope)
  {
    hide Effects, EndsInFalse;
  }

  lemma ClosesAdds(t: Trace, t': Trace, t'': Trace, attempted: bool, scope: Scope)
    requires Closes(t, t', attempted, scope) && Adds(t', t'', scope)
    ensures Closes(t, t'', attempted, scope)
  {
    hide Effects, EndsInFalse;
    forall k | |t| <= k < |t''|
      ensures Fits(t''[k], scope) || (t''[k] == Issued(Disarm) && !attempted && EndsInFalse(t''[..k]))
    {
      if k < |t'| {
        assert t''[k] == t'[k] && t''[..k] == t'[..k];
      }
    }
  }

  lemma OnlyAdds(t: Trace, t': Trace, attempted: bool, scope: Scope)
    requires Adds(t, t', scope)
    ensures Closes(t, t', attempted, scope)
  {
    hide Effects;
  }

  lemma ClosesWider(t: Trace, t': Trace, attempted: bool, a: Scope, b: Scope)
    requires Closes(t, t', attempted, a) && Within(a, b)
    ensures Closes(t, t', attempted, b)
  {
    hide Effects, EndsInFalse;
  }

  lemma LandAndConfirmAdds(replies: Replies, s: St, deadline: nat)
    ensures Adds(s.trace, LandAndConfirm(replies, s, deadline).st.trace, DESCENT)
  {
    hide Adds, WaitFor, Send;
    var l := Send(replies, s, Land, At(deadline));
    SendAdds(replies, s, Land, At(deadline), DESCENT);
    WaitAdds(replies, l.st, ForLanding, deadline, DESCENT);
    AddsThen(s.trace, l.st.trace, WaitFor(replies, l.st, ForLanding, deadline).st.trace, DESCENT);
  }

  lemma DisarmCloses(replies: Replies, s: St, deadline: nat)
    requires EndsInFalse(s.trace)
    ensures Closes(s.trace, Send(replies, s, Disarm, At(deadline)).st.trace, false, DESCENT)
  {
    SendSound(replies, s, Disarm, At(deadline));
    var t := Send(replies, s, Disarm, At(deadline)).st.trace;
    assert t[..|s.trace|] == s.trace;
    hide Send, Effects, EndsInFalse;
  }

  lemma DecideCloses(replies: Replies, s: St, inAir: Tri, deadline: nat)
    requires s.trace != [] && s.trace[|s.trace| - 1].Saw? && s.trace[|s.trace| - 1].gate == ForInAir
    requires s.trace[|s.trace| - 1].sample.inAir == inAir
    ensures Closes(s.trace, Decide(replies, s, inAir, deadline).st.trace, false, DESCENT)
  {
    hide Closes, Send, LandAndConfirm;
    match inAir {
      case IsFalse => DisarmCloses(replies, s, deadline);
      case IsTrue =>
        LandAndConfirmAdds(replies, s, deadline);
        OnlyAdds(s.trace, LandAndConfirm(replies, s, deadline).st.trace, false, DESCENT);
      case _ =>
        AddsNothing(s.trace, DESCENT);
        OnlyAdds(s.trace, s.trace, false, DESCENT);
    }
  }

  lemma RecoverCloses(replies: Replies, cfg: Config, s: St, attempted: bool)
    ensures Closes(s.trace, Recover(replies, cfg, s, attempted).st.trace, attempted, DESCENT)
  {
    hide Closes, Adds, WaitFor, LandAndConfirm, Decide;
    var deadline := s.clock + cfg.landingTimeout;
    if attempted {
      LandAndConfirmAdds(replies, s, deadline);
      OnlyAdds(s.trace, LandAndConfirm(replies, s, deadline).st.trace, attempted, DESCENT);
    } else {
      var w := WaitFor(replies, s, ForInAir, deadline);
      WaitAdds(replies, s, ForInAir, deadline, DESCENT);
      if w.out.Raise? {
        OnlyAdds(s.trace, w.st.trace, false, DESCENT);
      } else {
        DecideCloses(replies, w.st, w.out.value.inAir, deadline);
        AddsCloses(s.trace, w.st.trace, Decide(replies, w.st, w.out.value.inAir, deadline).st.trace, false, DESCENT);
      }
    }
  }

  lemma HandleCloses(env: Env, cfg: Config, s: St, flags: Flags, exn: Exn)
    ensures Closes(s.trace, Handle(env, cfg, s, flags, exn).st.trace, flags.attempted, CLOSING)
  {
    hide Closes, Adds, Recover, Write;
    if flags.recoveryRequired {
      var r := Recover(env.replies, cfg, s, flags.attempted);
      var record := MissionFailed(if r.out.Ok? then r.out.value else Failed);
      RecoverCloses(env.replies, cfg, s, flags.attempted);
      ClosesWider(s.trace, r.st.trace, flags.attempted, DESCENT, CLOSING);
      WriteAdds(env.sink, r.st, record, false, CLOSING);
      ClosesAdds(s.trace, r.st.trace, Write(env.sink, r.st, record, false).st.trace, flags.attempted, CLOSING);
    } else {
      WriteAdds(env.sink, s, MissionFailed(NotRequired), false, CLOSING);
      OnlyAdds(s.trace, Write(env.sink, s, MissionFailed(NotRequired), false).st.trace, flags.attempted, CLOSING);
    }
  }
}
