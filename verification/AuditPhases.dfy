/**
 * Which audit writes may stop a flight: on the trace of every accepted mission, exactly the attempts made
 * before takeoff was accepted are strict, and any of them that fails ends the run there, on the ground.
 */
module AuditPhases {
  import opened Models
  import Policy
  import opened Vehicle
  import opened Executor
  import opened Additions
  import opened OneTakeoff
  import ExecutorSafety
  import opened Checklist
  import opened FlightTheorems
  import opened Waits
  import opened Options

  /** The attempt at `j` is strict exactly if no takeoff has been accepted before it. */
  predicate ModeAt(t: Trace, j: nat)
    requires j < |t|
  {
    t[j].Attempt? && !t[j].record.MissionFailed? ==> (t[j].strict <==> Returned(Takeoff) !in t[..j])
  }

  predicate Modes(t: Trace) {
    forall j :: 0 <= j < |t| ==> ModeAt(t, j)
  }

  predicate Modal(t: Trace, up: bool) {
    Modes(t) && (Returned(Takeoff) in t <==> up)
  }

  lemma ModalAdds(t: Trace, t': Trace, up: bool, scope: Scope)
    requires Modal(t, up) && Adds(t, t', scope) && !scope.takeoff
    requires (scope.strict ==> !up) && (scope.lax ==> up)
    ensures Modal(t', up)
  {
    hide Effects;
    assert Returned(Takeoff) in t' <==> Returned(Takeoff) in t by {
      assert t' == t + t'[|t|..];
      assert forall k :: |t| <= k < |t'| ==> t'[k] == t'[|t|..][k - |t|];
    }
    forall j | 0 <= j < |t'| ensures ModeAt(t', j) {
      if j < |t| {
        assert ModeAt(t, j) && t'[..j] == t[..j];
      } else {
        assert Fits(t'[j], scope);
        assert t'[..j] == t + t'[|t|..j];
        assert forall k :: |t| <= k < j ==> t'[k] == t'[|t|..j][k - |t|];
      }
    }
  }

  lemma ModalClimb(t: Trace, t': Trace)
    requires Modal(t, false) && Adds(t, t', CLIMB)
    ensures Modes(t')
  {
    hide Effects;
    forall j | 0 <= j < |t'| ensures ModeAt(t', j) {
      if j < |t| {
        assert ModeAt(t, j) && t'[..j] == t[..j];
      } else {
        assert Fits(t'[j], CLIMB);
      }
    }
  }

  // ----- the list of steps

  /** Strict records and home checks before the takeoff step, best-effort records after it. */
  predicate Phased(steps: seq<Step>, up: bool)
    decreases |steps|
  {
    if steps == [] then true
    else
      match steps[0].task
      case Note(_, strict) => strict == !up && Phased(steps[1..], up)
      case CheckAt(_) => !up && Phased(steps[1..], up)
      case Do(c) => if c == Takeoff then !up && Phased(steps[1..], true) else c != Disarm && Phased(steps[1..], up)
      case _ => Phased(steps[1..], up)
  }

  function UpAfter(steps: seq<Step>, up: bool): bool {
    if steps == [] then up else UpAfter(steps[1..], up || steps[0].task == Do(Takeoff))
  }

  lemma {:induction false} PhasedAppend(a: seq<Step>, b: seq<Step>, up: bool)
    ensures Phased(a + b, up) <==> Phased(a, up) && Phased(b, UpAfter(a, up))
    ensures UpAfter(a + b, up) == UpAfter(b, UpAfter(a, up))
    decreases |a|
  {
    if a == [] {
      assert a + b == b;
    } else {
      assert (a + b)[0] == a[0] && (a + b)[1..] == a[1..] + b;
      PhasedAppend(a[1..], b, up || a[0].task == Do(Takeoff));
      assert a[0].task != Do(Takeoff) ==> up == (up || a[0].task == Do(Takeoff));
    }
  }

  lemma PhasedOne(step: Step, up: bool)
    ensures Phased([step], up) <==> (match step.task
                                     case Note(_, strict) => strict == !up
                                     case CheckAt(_) => !up
                                     case Do(c) => c != Disarm && (c == Takeoff ==> !up)
                                     case _ => true)
    ensures UpAfter([step], up) == (up || step.task == Do(Takeoff))
  {
    assert [step][1..] == [];
    assert forall u :: Phased([], u) && UpAfter([], u) == u;
  }

  lemma PhasedOpening()
    ensures Phased(Opening(), false) && !UpAfter(Opening(), false)
  {
    var a, b := Step(Do(Connect), Grounded), Step(AwaitConnection, Grounded);
    var c, d := Step(Bind, Grounded), Step(CheckAt(PreArm), Grounded);
    assert Opening() == [a] + ([b] + ([c] + [d]));
    hide Phased, UpAfter, Opening;
    PhasedOne(a, false);
    PhasedOne(b, false);
    PhasedOne(c, false);
    PhasedOne(d, false);
    PhasedAppend([c], [d], false);
    PhasedAppend([b], [c] + [d], false);
    PhasedAppend([a], [b] + ([c] + [d]), false);
  }

  lemma PhasedAction(actions: seq<Action>, k: nat, up: bool)
    requires k < |actions| && (actions[k].TakeoffAction? ==> !up)
    ensures Phased(ActionSteps(actions, k), up)
    ensures UpAfter(ActionSteps(actions, k), up) == (up || actions[k].TakeoffAction?)
  {
    var d := DangerBefore(actions, k);
    var steps := ActionSteps(actions, k);
    match actions[k] {
      case TakeoffAction(altitude) =>
        var a, b := Step(Do(SetTakeoffAltitude(altitude)), d), Step(Do(Arm), Arming);
        var c, e := Step(AwaitArmed, Arming), Step(CheckAt(PostArm), Arming);
        var f, g := Step(Do(Takeoff), Aloft), Step(AwaitAltitude(altitude), Aloft);
        assert steps == [a] + ([b] + ([c] + ([e] + ([f] + [g]))));
        hide Phased, UpAfter, ActionSteps;
        PhasedOne(a, up);
        PhasedOne(b, up);
        PhasedOne(c, up);
        PhasedOne(e, up);
        PhasedOne(f, up);
        PhasedOne(g, true);
        PhasedAppend([f], [g], up);
        PhasedAppend([e], [f] + [g], up);
        PhasedAppend([c], [e] + ([f] + [g]), up);
        PhasedAppend([b], [c] + ([e] + ([f] + [g])), up);
        PhasedAppend([a], [b] + ([c] + ([e] + ([f] + [g]))), up);
      case LandAction =>
        assert steps == [Step(Do(Land), d)] + [Step(AwaitLanding, d)];
        hide Phased, UpAfter, ActionSteps;
        PhasedOne(Step(Do(Land), d), up);
        PhasedOne(Step(AwaitLanding, d), up);
        PhasedAppend([Step(Do(Land), d)], [Step(AwaitLanding, d)], up);
      case HoldAction(seconds) => PhasedOne(Step(Pause(seconds), d), up);
      case _ =>
    }
  }

  lemma PhasedTurn(actions: seq<Action>, k: nat)
    requires k < |actions| && (actions[k].TakeoffAction? ==> StrictBefore(actions, k))
    ensures Phased(TurnSteps(actions, k), !StrictBefore(actions, k))
    ensures UpAfter(TurnSteps(actions, k), !StrictBefore(actions, k)) == !StrictBefore(actions, k + 1)
  {
    var up := !StrictBefore(actions, k);
    var first := Step(Note(ActionStarted(k + 1), StrictBefore(actions, k)), DangerBefore(actions, k));
    var last := Step(Note(ActionCompleted(k + 1), StrictBefore(actions, k + 1)), DangerBefore(actions, k + 1));
    assert TurnSteps(actions, k) == [first] + (ActionSteps(actions, k) + [last]);
    assert StrictBefore(actions, k + 1) <==> !(up || actions[k].TakeoffAction?);
    hide Phased, UpAfter, ActionSteps, TurnSteps, StrictBefore;
    PhasedOne(first, up);
    PhasedAction(actions, k, up);
    PhasedOne(last, up || actions[k].TakeoffAction?);
    PhasedAppend(ActionSteps(actions, k), [last], up);
    PhasedAppend([first], ActionSteps(actions, k) + [last], up);
  }

  /** At most one takeoff: every takeoff action finds the records before it strict. */
  predicate Single(actions: seq<Action>) {
    forall k :: 0 <= k < |actions| && actions[k].TakeoffAction? ==> StrictBefore(actions, k)
  }

  lemma {:induction false} PhasedTurns(actions: seq<Action>, k: nat)
    requires k <= |actions| && Single(actions)
    ensures Phased(Turns(actions, k), !StrictBefore(actions, k))
    ensures UpAfter(Turns(actions, k), !StrictBefore(actions, k)) == !StrictBefore(actions, |actions|)
    decreases |actions| - k
  {
    hide StrictBefore, TurnSteps;
    if k == |actions| {
    } else {
      PhasedTurn(actions, k);
      PhasedTurns(actions, k + 1);
      PhasedAppend(TurnSteps(actions, k), Turns(actions, k + 1), !StrictBefore(actions, k));
    }
  }

  lemma PhasedSteps(actions: seq<Action>)
    requires Single(actions)
    ensures Phased(Steps(actions), false)
    ensures UpAfter(Steps(actions), false) == !StrictBefore(actions, |actions|)
  {
    assert StrictBefore(actions, 0);
    hide Phased, UpAfter, Opening, Turns, StrictBefore;
    PhasedOpening();
    PhasedTurns(actions, 0);
    PhasedAppend(Opening(), Turns(actions, 0), false);
  }

  // ----- what one step adds

  function ScopeOf(task: Task): Scope {
    match task
    case Note(_, strict) => Scope(strict, !strict, false, false)
    case CheckAt(_) => CHECKS
    case Do(c) => if c == Takeoff then CLIMB else NOTHING
    case AwaitLanding => DESCENT
    case _ => NOTHING
  }

  lemma PerformAdds(env: Env, cfg: Config, bound: Outcome<Home>, task: Task, s: St)
    requires task != Do(Disarm)
    ensures Adds(s.trace, Perform(env, cfg, bound, task, s).st.trace, ScopeOf(task))
  {
    hide Adds, Send, WaitFor, CheckHome, Write, Sleep;
    var scope := ScopeOf(task);
    AddsNothing(s.trace, scope);
    match task {
      case Do(c) => SendAdds(env.replies, s, c, Never, scope);
      case AwaitConnection => WaitAdds(env.replies, s, ForConnection, s.clock + cfg.connectionTimeout, scope);
      case AwaitArmed => WaitAdds(env.replies, s, ForArmed, s.clock + cfg.takeoffTimeout, scope);
      case AwaitAltitude(target) =>
        WaitAdds(env.replies, s, ForAltitude(MinimumAltitude(cfg, target)), s.clock + cfg.takeoffTimeout, scope);
      case AwaitLanding => WaitAdds(env.replies, s, ForLanding, s.clock + cfg.landingTimeout, scope);
      case CheckAt(phase) => if bound.Ok? { CheckHomeAdds(env, cfg, bound.value, phase, s); }
      case Pause(seconds) => SleepAdds(env.replies, s, seconds, scope);
      case Note(record, strict) => WriteAdds(env.sink, s, record, strict, scope);
      case Bind =>
    }
  }

  lemma TakeoffAccepted(env: Env, s: St)
    requires Send(env.replies, s, Takeoff, Never).out.Ok?
    ensures Returned(Takeoff) in Send(env.replies, s, Takeoff, Never).st.trace
  {
    var t := Send(env.replies, s, Takeoff, Never).st.trace;
    assert t[|t| - 1] == Returned(Takeoff);
  }

  lemma {:induction false} StepsModal(
    env: Env, cfg: Config, bound: Outcome<Home>, steps: seq<Step>, s: St, up: bool)
    requires Phased(steps, up) && Modal(s.trace, up)
    ensures var stop := RunSteps(env, cfg, bound, steps, s);
            Modes(stop.st.trace) && (stop.out.Ok? ==> Modal(stop.st.trace, UpAfter(steps, up)))
    decreases |steps|
  {
    hide Adds, Perform, Modes;
    if steps == [] {
    } else {
      var task := steps[0].task;
      var r := Perform(env, cfg, bound, task, s);
      PerformAdds(env, cfg, bound, task, s);
      if task == Do(Takeoff) {
        ModalClimb(s.trace, r.st.trace);
        if r.out.Ok? {
          PerformTakeoff(env, cfg, bound, s);
          StepsModal(env, cfg, bound, steps[1..], r.st, true);
        }
      } else {
        ModalAdds(s.trace, r.st.trace, up, ScopeOf(task));
        if r.out.Ok? {
          StepsModal(env, cfg, bound, steps[1..], r.st, up);
        }
      }
    }
  }

  lemma PerformTakeoff(env: Env, cfg: Config, bound: Outcome<Home>, s: St)
    requires Perform(env, cfg, bound, Do(Takeoff), s).out.Ok?
    ensures Returned(Takeoff) in Perform(env, cfg, bound, Do(Takeoff), s).st.trace
  {
    TakeoffAccepted(env, s);
  }

  // ----- a strict write that fails stops the list

  predicate FailedAt(sink: Sink, t: Trace, j: nat) {
    j < |t| && t[j].Attempt? && t[j].strict && sink(t[j].index).Some?
  }

  ghost predicate Unfailed(sink: Sink, t: Trace) {
    forall j: nat :: !FailedAt(sink, t, j)
  }

  /** If a strict write has failed, it is what the outcome reports. */
  ghost predicate Told(sink: Sink, t: Trace, out: Outcome<()>) {
    forall j: nat :: FailedAt(sink, t, j) ==> out == Raise(sink(t[j].index).value)
  }

  lemma UnfailedAdds(sink: Sink, t: Trace, t': Trace, scope: Scope)
    requires Unfailed(sink, t) && Adds(t, t', scope) && !scope.strict
    ensures Unfailed(sink, t')
  {
    hide Effects;
    forall j: nat ensures !FailedAt(sink, t', j) {
      assert !FailedAt(sink, t, j);
      assert |t| <= j < |t'| ==> Fits(t'[j], scope);
    }
  }

  lemma NoteTold(env: Env, s: St, record: Record, strict: bool)
    requires Unfailed(env.sink, s.trace)
    ensures var w := Write(env.sink, s, record, strict);
            Told(env.sink, w.st.trace, w.out) && (w.out.Ok? ==> Unfailed(env.sink, w.st.trace))
  {
    var t := Write(env.sink, s, record, strict).st.trace;
    forall j: nat ensures FailedAt(env.sink, t, j) ==> j == |s.trace| {
      assert !FailedAt(env.sink, s.trace, j);
    }
  }

  lemma ReadHomeAdds(env: Env, cfg: Config, s: St)
    ensures Adds(s.trace, ReadHome(env, cfg, s).st.trace, NOTHING)
  {
    hide Adds, WaitFor;
    AddsNothing(s.trace, NOTHING);
    var deadline := s.clock + cfg.connectionTimeout;
    var health := WaitFor(env.replies, s, ForHealth, deadline);
    WaitAdds(env.replies, s, ForHealth, deadline, NOTHING);
    WaitAdds(env.replies, health.st, ForHome, deadline, NOTHING);
    AddsThen(s.trace, health.st.trace, WaitFor(env.replies, health.st, ForHome, deadline).st.trace, NOTHING);
  }

  lemma CheckTold(env: Env, cfg: Config, home: Home, phase: Phase, s: St)
    requires Unfailed(env.sink, s.trace)
    ensures var r := CheckHome(env, cfg, home, phase, s);
            Told(env.sink, r.st.trace, r.out) && (r.out.Ok? ==> Unfailed(env.sink, r.st.trace))
  {
    hide Adds, ReadHome, Write;
    var read := ReadHome(env, cfg, s);
    ReadHomeAdds(env, cfg, s);
    UnfailedAdds(env.sink, s.trace, read.st.trace, NOTHING);
    if read.out.Ok? {
      NoteTold(env, read.st, HomeCheck(phase, cfg.within(home, read.out.value)), true);
      WriteUnfailed(env, read.st, HomeCheck(phase, cfg.within(home, read.out.value)));
    }
  }

  lemma WriteUnfailed(env: Env, s: St, record: Record)
    ensures Write(env.sink, s, record, true).out.Raise? <==> env.sink(s.attempts).Some?
  {
  }

  lemma PerformTold(env: Env, cfg: Config, bound: Outcome<Home>, task: Task, s: St)
    requires Unfailed(env.sink, s.trace) && task != Do(Disarm)
    ensures var r := Perform(env, cfg, bound, task, s);
            Told(env.sink, r.st.trace, r.out) && (r.out.Ok? ==> Unfailed(env.sink, r.st.trace))
  {
    hide Adds, CheckHome, Write, Unfailed;
    if task.Note? {
      NoteTold(env, s, task.record, task.strict);
    } else if task.CheckAt? && bound.Ok? {
      CheckTold(env, cfg, bound.value, task.phase, s);
    } else {
      QuietTask(env, cfg, bound, task, s);
      UnfailedTold(env.sink, Perform(env, cfg, bound, task, s).st.trace, Perform(env, cfg, bound, task, s).out);
    }
  }

  lemma QuietTask(env: Env, cfg: Config, bound: Outcome<Home>, task: Task, s: St)
    requires Unfailed(env.sink, s.trace) && task != Do(Disarm) && !task.Note? && (task.CheckAt? ==> bound.Raise?)
    ensures Unfailed(env.sink, Perform(env, cfg, bound, task, s).st.trace)
  {
    PerformAdds(env, cfg, bound, task, s);
    hide Adds;
    if task.CheckAt? {
      assert Perform(env, cfg, bound, task, s).st == s;
    } else {
      hide Perform;
      UnfailedAdds(env.sink, s.trace, Perform(env, cfg, bound, task, s).st.trace, ScopeOf(task));
    }
  }

  lemma {:induction false} StepsTold(
    env: Env, cfg: Config, bound: Outcome<Home>, steps: seq<Step>, s: St, up: bool)
    requires Phased(steps, up) && Unfailed(env.sink, s.trace)
    ensures var stop := RunSteps(env, cfg, bound, steps, s);
            Told(env.sink, stop.st.trace, stop.out) && (stop.out.Ok? ==> Unfailed(env.sink, stop.st.trace))
    decreases |steps|
  {
    hide Perform, Unfailed, Told;
    if steps == [] {
      UnfailedTold(env.sink, s.trace, Ok(()));
    } else {
      PerformTold(env, cfg, bound, steps[0].task, s);
      var r := Perform(env, cfg, bound, steps[0].task, s);
      if r.out.Ok? {
        StepsTold(env, cfg, bound, steps[1..], r.st, up || steps[0].task == Do(Takeoff));
      }
    }
  }

  lemma UnfailedTold(sink: Sink, t: Trace, out: Outcome<()>)
    requires Unfailed(sink, t)
    ensures Told(sink, t, out)
  {
  }

  // ----- after the list

  lemma ModesCloses(t: Trace, t': Trace, attempted: bool)
    requires Modes(t) && Closes(t, t', attempted, DESCENT)
    ensures Modes(t')
  {
    hide Effects, EndsInFalse;
    forall j | 0 <= j < |t'| ensures ModeAt(t', j) {
      if j < |t| {
        assert ModeAt(t, j) && t'[..j] == t[..j];
      }
    }
  }

  lemma ModesFail(env: Env, s: St, status: RecoveryStatus, exn: Exn)
    requires Modes(s.trace)
    ensures Modes(Fail(env, s, status, exn).st.trace)
  {
    var t := Fail(env, s, status, exn).st.trace;
    forall j | 0 <= j < |t| ensures ModeAt(t, j) {
      if j < |s.trace| {
        assert ModeAt(s.trace, j) && t[..j] == s.trace[..j];
      }
    }
  }

  lemma RespondModes(env: Env, cfg: Config, s: St, danger: Danger, exn: Exn)
    requires Modes(s.trace)
    ensures Modes(Respond(env, cfg, s, danger, exn).st.trace)
  {
    hide Modes, Recover, Fail, Closes;
    if danger == Grounded {
      ModesFail(env, s, NotRequired, exn);
    } else {
      var r := Recover(env.replies, cfg, s, danger == Aloft);
      RecoverCloses(env.replies, cfg, s, danger == Aloft);
      ModesCloses(s.trace, r.st.trace, danger == Aloft);
      ModesFail(env, r.st, if r.out.Ok? then r.out.value else Failed, exn);
    }
  }

  lemma FlyableSingle(actions: seq<Action>)
    requires ExecutorSafety.Flyable(actions)
    ensures Single(actions) && !StrictBefore(actions, |actions|)
  {
    assert actions[0].TakeoffAction?;
  }

  lemma StartModal(env: Env)
    ensures var w := Write(env.sink, INITIAL, MissionStarted, true);
            && Modal(w.st.trace, false)
            && Told(env.sink, w.st.trace, w.out)
            && (w.out.Ok? ==> Unfailed(env.sink, w.st.trace))
  {
    assert Modal([], false) && Unfailed(env.sink, []);
    hide Modal, Told, Unfailed;
    WriteAdds(env.sink, INITIAL, MissionStarted, true, CHECKS);
    ModalAdds([], Write(env.sink, INITIAL, MissionStarted, true).st.trace, false, CHECKS);
    NoteTold(env, INITIAL, MissionStarted, true);
  }

  lemma RunModes(env: Env, cfg: Config, bound: Outcome<Home>, actions: seq<Action>)
    requires ExecutorSafety.Flyable(actions)
    ensures Modes(TraceOf(env, cfg, bound, actions))
  {
    assert Modes([]);
    ExecuteIsChecklist(env, cfg, bound, actions);
    FlyableSingle(actions);
    hide Modes, Write, RunSteps, Steps, Respond, Execute, ExecutorSafety.Flyable, StrictBefore, Single;
    StartModal(env);
    PhasedSteps(actions);
    var started := Write(env.sink, INITIAL, MissionStarted, true);
    StepsModal(env, cfg, bound, Steps(actions), started.st, false);
    var stop := RunSteps(env, cfg, bound, Steps(actions), started.st);
    if stop.out.Raise? {
      RespondModes(env, cfg, stop.st, stop.danger, stop.out.exn);
    } else {
      WriteAdds(env.sink, stop.st, MissionCompleted, false, CLOSING);
      ModalAdds(stop.st.trace, Write(env.sink, stop.st, MissionCompleted, false).st.trace, true, CLOSING);
    }
  }

  /** An audit attempt of an accepted mission is strict exactly if takeoff has not been accepted before it. */
  lemma StrictIffBeforeTakeoff(
    h: Policy.Hypot, limits: PolicyLimits, env: Env, cfg: Config, bound: Outcome<Home>, actions: seq<Action>, j: nat)
    requires Accepted(h, limits, actions)
    requires j < |TraceOf(env, cfg, bound, actions)|
    requires TraceOf(env, cfg, bound, actions)[j].Attempt?
    requires !TraceOf(env, cfg, bound, actions)[j].record.MissionFailed?
    ensures TraceOf(env, cfg, bound, actions)[j].strict
       <==> Returned(Takeoff) !in TraceOf(env, cfg, bound, actions)[..j]
  {
    hide Accepted, TraceOf;
    AcceptedIsFlyable(h, limits, actions);
    RunModes(env, cfg, bound, actions);
    assert ModeAt(TraceOf(env, cfg, bound, actions), j);
  }

  /** How a run ends that `exn` has stopped: with it, unless the terminal write or recovery is struck anew. */
  ghost predicate EndsIn(env: Env, run: Run, exn: Exn) {
    match run.report
    case NotEntered => run.out == Raise(exn)
    case Broken => run.out == Raise(Interrupt)
    case Reported(_) =>
      && run.st.attempts > 0
      && var last := env.sink(run.st.attempts - 1);
         run.out == Raise(if last.Some? && !last.value.IsException() then last.value else exn)
  }

  lemma FailEnds(env: Env, s: St, status: RecoveryStatus, exn: Exn)
    ensures EndsIn(env, Fail(env, s, status, exn), exn)
  {
  }

  lemma RespondEnds(env: Env, cfg: Config, s: St, danger: Danger, exn: Exn)
    ensures EndsIn(env, Respond(env, cfg, s, danger, exn), exn)
  {
    hide Recover, Fail, EndsIn;
    if danger == Grounded {
      FailEnds(env, s, NotRequired, exn);
    } else {
      var r := Recover(env.replies, cfg, s, danger == Aloft);
      FailEnds(env, r.st, if r.out.Ok? then r.out.value else Failed, exn);
      BrokenEnds(env, r.st, exn);
    }
  }

  lemma BrokenEnds(env: Env, s: St, exn: Exn)
    ensures EndsIn(env, Run(s, Raise(Interrupt), Broken), exn)
  {
  }

  /** Strict attempts are made by the list, or before it. */
  lemma RespondLax(env: Env, cfg: Config, s: St, danger: Danger, exn: Exn, j: nat)
    requires FailedAt(env.sink, Respond(env, cfg, s, danger, exn).st.trace, j)
    ensures FailedAt(env.sink, s.trace, j) && s.trace[j] == Respond(env, cfg, s, danger, exn).st.trace[j]
  {
    hide Recover, Closes, Effects, EndsInFalse;
    var t := Respond(env, cfg, s, danger, exn).st.trace;
    if danger != Grounded {
      RecoverCloses(env.replies, cfg, s, danger == Aloft);
      RecoverLax(env, cfg, s, danger == Aloft);
    }
  }

  lemma RecoverLax(env: Env, cfg: Config, s: St, attempted: bool)
    ensures var t := Recover(env.replies, cfg, s, attempted).st.trace;
            s.trace <= t && forall k :: |s.trace| <= k < |t| ==> !(t[k].Attempt? && t[k].strict)
  {
    RecoverCloses(env.replies, cfg, s, attempted);
    hide Recover, Effects, EndsInFalse;
  }

  lemma FailureEndsRun(env: Env, cfg: Config, bound: Outcome<Home>, actions: seq<Action>, j: nat)
    requires ExecutorSafety.Flyable(actions) && FailedAt(env.sink, TraceOf(env, cfg, bound, actions), j)
    ensures EndsIn(env, Execute(env, cfg, bound, actions, INITIAL),
                   env.sink(TraceOf(env, cfg, bound, actions)[j].index).value)
  {
    ExecuteIsChecklist(env, cfg, bound, actions);
    FlyableSingle(actions);
    hide Write, RunSteps, Steps, Respond, Execute, ExecutorSafety.Flyable, StrictBefore, Single, EndsIn, Modal;
    StartModal(env);
    PhasedSteps(actions);
    var started := Write(env.sink, INITIAL, MissionStarted, true);
    EarlyEnds(env, started);
    if started.out.Ok? {
      StepsTold(env, cfg, bound, Steps(actions), started.st, false);
      var stop := RunSteps(env, cfg, bound, Steps(actions), started.st);
      if stop.out.Raise? {
        RespondLax(env, cfg, stop.st, stop.danger, stop.out.exn, j);
        RespondEnds(env, cfg, stop.st, stop.danger, stop.out.exn);
      } else {
        WriteAdds(env.sink, stop.st, MissionCompleted, false, CLOSING);
        UnfailedAdds(env.sink, stop.st.trace, Write(env.sink, stop.st, MissionCompleted, false).st.trace, CLOSING);
        assert false;
      }
    }
  }

  lemma EarlyEnds(env: Env, started: R<()>)
    ensures started.out.Raise? ==> EndsIn(env, Run(started.st, started.out, NotEntered), started.out.exn)
  {
  }

  /**
   * An audit failure before takeoff was accepted ends the run with that error, and takeoff is never
   * commanded - not before it, and not after.
   */
  lemma FailureBeforeTakeoffStops(
    h: Policy.Hypot, limits: PolicyLimits, env: Env, cfg: Config, bound: Outcome<Home>, actions: seq<Action>, j: nat)
    requires Accepted(h, limits, actions)
    requires j < |TraceOf(env, cfg, bound, actions)|
    requires TraceOf(env, cfg, bound, actions)[j].Attempt?
    requires !TraceOf(env, cfg, bound, actions)[j].record.MissionFailed?
    requires Returned(Takeoff) !in TraceOf(env, cfg, bound, actions)[..j]
    requires env.sink(TraceOf(env, cfg, bound, actions)[j].index).Some?
    ensures Issued(Takeoff) !in TraceOf(env, cfg, bound, actions)
    ensures EndsIn(env, Execute(env, cfg, bound, actions, INITIAL),
                   env.sink(TraceOf(env, cfg, bound, actions)[j].index).value)
  {
    hide Accepted, Execute, EndsIn;
    StrictIffBeforeTakeoff(h, limits, env, cfg, bound, actions, j);
    AcceptedIsFlyable(h, limits, actions);
    FailureEndsRun(env, cfg, bound, actions, j);
    StrictAuditGatesTakeoff(h, limits, env, cfg, bound, actions, j);
    var t := TraceOf(env, cfg, bound, actions);
    assert t == t[..j] + t[j..];
  }
}
