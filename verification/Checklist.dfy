/**
 * The executor without its flags: each mission spelled out as one list of steps, with the audit mode of
 * every record and the recovery that a failure of every step calls for written in the list. The run of the
 * list is the run of the executor, for every mission.
 */
module Checklist {
  import opened Models
  import opened Vehicle
  import opened Executor
  import opened OneTakeoff
  import opened Options

  datatype Task =
    | Do(command: Command)
    | AwaitConnection | AwaitArmed | AwaitAltitude(target: real) | AwaitLanding
    | Bind
    | CheckAt(phase: Phase)
    | Pause(seconds: int)
    | Note(record: Record, strict: bool)

  /** What the vehicle may be up to when a step fails: nothing, armed on the ground, or in the air. */
  datatype Danger = Grounded | Arming | Aloft

  datatype Step = Step(task: Task, danger: Danger)

  // ----- the list

  function Opening(): seq<Step> {
    [Step(Do(Connect), Grounded), Step(AwaitConnection, Grounded),
     Step(Bind, Grounded), Step(CheckAt(PreArm), Grounded)]
  }

  /** Before action `k`: in the air after a takeoff, on the ground after a landing or before either. */
  function DangerBefore(actions: seq<Action>, k: nat): Danger
    requires k <= |actions|
  {
    if k == 0 then Grounded
    else
      match actions[k - 1]
      case TakeoffAction(_) => Aloft
      case LandAction => Grounded
      case _ => DangerBefore(actions, k - 1)
  }

  /** Records are written strictly until a takeoff action has gone by. */
  predicate StrictBefore(actions: seq<Action>, k: nat)
    requires k <= |actions|
  {
    forall i :: 0 <= i < k ==> !actions[i].TakeoffAction?
  }

  function ActionSteps(actions: seq<Action>, k: nat): seq<Step>
    requires k < |actions|
  {
    var d := DangerBefore(actions, k);
    match actions[k]
    case TakeoffAction(altitude) =>
      [Step(Do(SetTakeoffAltitude(altitude)), d),
       Step(Do(Arm), Arming), Step(AwaitArmed, Arming), Step(CheckAt(PostArm), Arming),
       Step(Do(Takeoff), Aloft), Step(AwaitAltitude(altitude), Aloft)]
    case HoldAction(seconds) => [Step(Pause(seconds), d)]
    case LandAction => [Step(Do(Land), d), Step(AwaitLanding, d)]
    case _ => []
  }

  function TurnSteps(actions: seq<Action>, k: nat): seq<Step>
    requires k < |actions|
  {
    [Step(Note(ActionStarted(k + 1), StrictBefore(actions, k)), DangerBefore(actions, k))]
    + ActionSteps(actions, k)
    + [Step(Note(ActionCompleted(k + 1), StrictBefore(actions, k + 1)), DangerBefore(actions, k + 1))]
  }

  function Turns(actions: seq<Action>, k: nat): seq<Step>
    requires k <= |actions|
    decreases |actions| - k
  {
    if k == |actions| then [] else TurnSteps(actions, k) + Turns(actions, k + 1)
  }

  function Steps(actions: seq<Action>): seq<Step> {
    Opening() + Turns(actions, 0)
  }

  // ----- running it

  function Done<T>(r: R<T>): R<()> {
    R(r.st, if r.out.Raise? then Raise(r.out.exn) else Ok(()))
  }

  function Perform(env: Env, cfg: Config, bound: Outcome<Home>, task: Task, s: St): (r: R<()>)
    ensures s.trace <= r.st.trace
  {
    match task
    case Do(command) => Send(env.replies, s, command, Never)
    case AwaitConnection => Done(WaitForConnection(env, cfg, s))
    case AwaitArmed => Done(WaitUntilArmed(env, cfg, s))
    case AwaitAltitude(target) => Done(WaitUntilTakeoffAltitude(env, cfg, s, target))
    case AwaitLanding => Done(WaitUntilLanded(env, cfg, s))
    case Bind => Done(R(s, bound))
    case CheckAt(phase) => if bound.Raise? then R(s, Raise(bound.exn)) else CheckHome(env, cfg, bound.value, phase, s)
    case Pause(seconds) => Sleep(env.replies, s, seconds)
    case Note(record, strict) => Write(env.sink, s, record, strict)
  }

  /** Where the list stopped, how, and what danger the stopping step names. */
  datatype Stop = Stop(st: St, out: Outcome<()>, danger: Danger)

  function RunSteps(env: Env, cfg: Config, bound: Outcome<Home>, steps: seq<Step>, s: St): (stop: Stop)
    ensures s.trace <= stop.st.trace
    decreases |steps|
  {
    if steps == [] then Stop(s, Ok(()), Grounded)
    else
      var r := Perform(env, cfg, bound, steps[0].task, s);
      if r.out.Raise? then Stop(r.st, r.out, steps[0].danger) else RunSteps(env, cfg, bound, steps[1..], r.st)
  }

  /** After recovery: its status, or `failed`; an interrupt inside it goes straight out. */
  function Aftermath(env: Env, r: R<RecoveryStatus>, exn: Exn): Run {
    match r.out
    case Ok(status) => Fail(env, r.st, status, exn)
    case Raise(inner) =>
      if inner == Interrupt then Run(r.st, Raise(Interrupt), Broken) else Fail(env, r.st, Failed, exn)
  }

  function Respond(env: Env, cfg: Config, s: St, danger: Danger, exn: Exn): Run {
    match danger
    case Grounded => Fail(env, s, NotRequired, exn)
    case Arming => Aftermath(env, Recover(env.replies, cfg, s, false), exn)
    case Aloft => Aftermath(env, Recover(env.replies, cfg, s, true), exn)
  }

  function RunChecklist(env: Env, cfg: Config, bound: Outcome<Home>, actions: seq<Action>): Run {
    if env.factory.Some? then Run(INITIAL, Raise(env.factory.value), NotEntered)
    else
      var started := Write(env.sink, INITIAL, MissionStarted, true);
      if started.out.Raise? then Run(started.st, started.out, NotEntered)
      else
        var stop := RunSteps(env, cfg, bound, Steps(actions), started.st);
        match stop.out
        case Raise(exn) => Respond(env, cfg, stop.st, stop.danger, exn)
        case Ok(_) =>
          var w := Write(env.sink, stop.st, MissionCompleted, false);
          Run(w.st, w.out, NotEntered)
  }

  // ----- the flags say what the list says

  lemma {:induction false} RunAppend(
    env: Env, cfg: Config, bound: Outcome<Home>, a: seq<Step>, b: seq<Step>, s: St)
    ensures var stop := RunSteps(env, cfg, bound, a, s);
            RunSteps(env, cfg, bound, a + b, s) == (
              if stop.out.Raise? then stop else RunSteps(env, cfg, bound, b, stop.st))
    decreases |a|
  {
    hide Perform;
    if a == [] {
      assert a + b == b;
    } else {
      var r := Perform(env, cfg, bound, a[0].task, s);
      assert (a + b)[0] == a[0] && (a + b)[1..] == a[1..] + b;
      if r.out.Ok? {
        RunAppend(env, cfg, bound, a[1..], b, r.st);
      }
    }
  }

  function DangerOf(flags: Flags): Danger {
    if !flags.recoveryRequired then Grounded else if flags.attempted then Aloft else Arming
  }

  /** Between turns. */
  predicate Agree(flags: Flags, actions: seq<Action>, k: nat)
    requires k <= |actions|
  {
    && (flags.committed <==> !StrictBefore(actions, k))
    && DangerOf(flags) == DangerBefore(actions, k)
  }

  predicate Same(leg: Leg, stop: Stop) {
    leg.st == stop.st && leg.out == stop.out && (leg.out.Raise? ==> DangerOf(leg.flags) == stop.danger)
  }

  lemma OneStep(env: Env, cfg: Config, bound: Outcome<Home>, step: Step, rest: seq<Step>, s: St)
    ensures var r := Perform(env, cfg, bound, step.task, s);
            RunSteps(env, cfg, bound, [step] + rest, s) == (
              if r.out.Raise? then Stop(r.st, r.out, step.danger) else RunSteps(env, cfg, bound, rest, r.st))
  {
    hide Perform;
    assert ([step] + rest)[1..] == rest;
  }

  lemma ArmSteps(env: Env, cfg: Config, home: Home, rest: seq<Step>, s: St)
    ensures var a := ArmAndCheck(env, cfg, home, s);
            var armed := [Step(AwaitArmed, Arming)] + ([Step(CheckAt(PostArm), Arming)] + rest);
            RunSteps(env, cfg, Ok(home), [Step(Do(Arm), Arming)] + armed, s) == (
              if a.out.Raise? then Stop(a.st, a.out, Arming) else RunSteps(env, cfg, Ok(home), rest, a.st))
  {
    hide Send, WaitUntilArmed, CheckHome, RunSteps;
    var bound: Outcome<Home> := Ok(home);
    var check := [Step(CheckAt(PostArm), Arming)] + rest;
    var s1 := Send(env.replies, s, Arm, Never).st;
    var s2 := WaitUntilArmed(env, cfg, s1).st;
    OneStep(env, cfg, bound, Step(Do(Arm), Arming), [Step(AwaitArmed, Arming)] + check, s);
    OneStep(env, cfg, bound, Step(AwaitArmed, Arming), check, s1);
    OneStep(env, cfg, bound, Step(CheckAt(PostArm), Arming), rest, s2);
  }

  lemma ClimbSteps(env: Env, cfg: Config, home: Home, altitude: real, s: St, flags: Flags)
    requires DangerOf(flags) == Aloft
    ensures var leg := Climb(env, cfg, altitude, s, flags);
            && Same(leg, RunSteps(env, cfg, Ok(home),
                                  [Step(Do(Takeoff), Aloft)] + [Step(AwaitAltitude(altitude), Aloft)], s))
            && (leg.out.Ok? ==> leg.flags == flags.(committed := true))
  {
    hide Send, WaitUntilTakeoffAltitude, RunSteps;
    var bound: Outcome<Home> := Ok(home);
    OneStep(env, cfg, bound, Step(Do(Takeoff), Aloft), [Step(AwaitAltitude(altitude), Aloft)], s);
    LastStep(env, cfg, bound, Step(AwaitAltitude(altitude), Aloft), Send(env.replies, s, Takeoff, Never).st);
  }

  function CheckedClimb(altitude: real): seq<Step> {
    [Step(AwaitArmed, Arming)]
    + ([Step(CheckAt(PostArm), Arming)] + ([Step(Do(Takeoff), Aloft)] + [Step(AwaitAltitude(altitude), Aloft)]))
  }

  lemma TakeoffSteps(env: Env, cfg: Config, home: Home, altitude: real, d: Danger, s: St, flags: Flags)
    requires DangerOf(flags) == d
    ensures var leg := RunTakeoff(env, cfg, home, altitude, s, flags);
            var steps := [Step(Do(SetTakeoffAltitude(altitude)), d)]
                         + ([Step(Do(Arm), Arming)] + CheckedClimb(altitude));
            && Same(leg, RunSteps(env, cfg, Ok(home), steps, s))
            && (leg.out.Ok? ==> leg.flags == Flags(true, true, true))
  {
    hide Send, ArmAndCheck, Climb, RunSteps;
    var s1 := Send(env.replies, s, SetTakeoffAltitude(altitude), Never).st;
    var climb := [Step(Do(Takeoff), Aloft)] + [Step(AwaitAltitude(altitude), Aloft)];
    OneStep(env, cfg, Ok(home), Step(Do(SetTakeoffAltitude(altitude)), d),
            [Step(Do(Arm), Arming)] + CheckedClimb(altitude), s);
    ArmSteps(env, cfg, home, climb, s1);
    ClimbSteps(env, cfg, home, altitude, ArmAndCheck(env, cfg, home, s1).st,
               flags.(attempted := true, recoveryRequired := true));
  }

  lemma LastStep(env: Env, cfg: Config, bound: Outcome<Home>, step: Step, s: St)
    ensures var r, stop := Perform(env, cfg, bound, step.task, s), RunSteps(env, cfg, bound, [step], s);
            stop.st == r.st && stop.out == r.out && (r.out.Raise? ==> stop.danger == step.danger)
  {
    hide Perform;
    var r := Perform(env, cfg, bound, step.task, s);
    assert [step][1..] == [];
    assert RunSteps(env, cfg, bound, [], r.st) == Stop(r.st, Ok(()), Grounded);
    assert r.out.Ok? ==> r.out.value == ();
  }

  lemma LandSteps(env: Env, cfg: Config, home: Home, d: Danger, s: St, flags: Flags)
    requires DangerOf(flags) == d
    ensures var leg := RunLand(env, cfg, s, flags);
            Same(leg, RunSteps(env, cfg, Ok(home), [Step(Do(Land), d)] + [Step(AwaitLanding, d)], s))
            && (leg.out.Ok? ==> leg.flags == flags.(recoveryRequired := false))
  {
    hide Send, WaitUntilLanded, RunSteps;
    var bound: Outcome<Home> := Ok(home);
    OneStep(env, cfg, bound, Step(Do(Land), d), [Step(AwaitLanding, d)], s);
    LastStep(env, cfg, bound, Step(AwaitLanding, d), Send(env.replies, s, Land, Never).st);
  }

  /** One action: the leg is the steps, and a leg that succeeds leaves flags that agree again. */
  lemma ActionIsSteps(env: Env, cfg: Config, home: Home, actions: seq<Action>, k: nat, s: St, flags: Flags)
    requires k < |actions| && Agree(flags, actions, k)
    ensures var leg := RunAction(env, cfg, home, actions[k], s, flags);
            && Same(leg, RunSteps(env, cfg, Ok(home), ActionSteps(actions, k), s))
            && (leg.out.Ok? ==> Agree(leg.flags, actions, k + 1))
  {
    hide RunTakeoff, RunLand, RunHold, Perform;
    var bound: Outcome<Home> := Ok(home);
    var d := DangerBefore(actions, k);
    var steps := ActionSteps(actions, k);
    match actions[k] {
      case TakeoffAction(altitude) =>
        TakeoffSteps(env, cfg, home, altitude, d, s, flags);
        assert steps == [Step(Do(SetTakeoffAltitude(altitude)), d)]
                        + ([Step(Do(Arm), Arming)] + CheckedClimb(altitude));
      case LandAction =>
        LandSteps(env, cfg, home, d, s, flags);
        assert steps == [Step(Do(Land), d)] + [Step(AwaitLanding, d)];
      case HoldAction(seconds) =>
        HoldSteps(env, cfg, home, seconds, d, s, flags);
      case _ =>
    }
  }

  lemma HoldSteps(env: Env, cfg: Config, home: Home, seconds: int, d: Danger, s: St, flags: Flags)
    requires DangerOf(flags) == d
    ensures var leg := RunHold(env, seconds, s, flags);
            Same(leg, RunSteps(env, cfg, Ok(home), [Step(Pause(seconds), d)], s)) && leg.flags == flags
  {
    hide Sleep, RunSteps;
    LastStep(env, cfg, Ok(home), Step(Pause(seconds), d), s);
  }

  lemma TurnIsSteps(env: Env, cfg: Config, home: Home, actions: seq<Action>, k: nat, s: St, flags: Flags)
    requires k < |actions| && Agree(flags, actions, k)
    ensures var leg := RunTurn(env, cfg, home, actions[k], k + 1, s, flags);
            && Same(leg, RunSteps(env, cfg, Ok(home), TurnSteps(actions, k), s))
            && (leg.out.Ok? ==> Agree(leg.flags, actions, k + 1))
  {
    hide RunAction, Write, ActionSteps, StrictBefore, DangerBefore;
    var bound: Outcome<Home> := Ok(home);
    var first := Step(Note(ActionStarted(k + 1), StrictBefore(actions, k)), DangerBefore(actions, k));
    var last := Step(Note(ActionCompleted(k + 1), StrictBefore(actions, k + 1)), DangerBefore(actions, k + 1));
    assert TurnSteps(actions, k) == [first] + (ActionSteps(actions, k) + [last]);
    hide TurnSteps, RunSteps;
    var started := Write(env.sink, s, ActionStarted(k + 1), !flags.committed);
    OneStep(env, cfg, bound, first, ActionSteps(actions, k) + [last], s);
    RunAppend(env, cfg, bound, ActionSteps(actions, k), [last], started.st);
    ActionIsSteps(env, cfg, home, actions, k, started.st, flags);
    var leg := RunAction(env, cfg, home, actions[k], started.st, flags);
    LastStep(env, cfg, bound, last, leg.st);
  }

  lemma {:induction false} LoopIsSteps(
    env: Env, cfg: Config, home: Home, actions: seq<Action>, k: nat, s: St, flags: Flags)
    requires k <= |actions| && Agree(flags, actions, k)
    ensures Same(RunActions(env, cfg, home, actions, k, s, flags),
                 RunSteps(env, cfg, Ok(home), Turns(actions, k), s))
    decreases |actions| - k
  {
    hide RunTurn, TurnSteps, Agree;
    if k == |actions| {
      assert Turns(actions, k) == [];
    } else {
      TurnIsSteps(env, cfg, home, actions, k, s, flags);
      RunAppend(env, cfg, Ok(home), TurnSteps(actions, k), Turns(actions, k + 1), s);
      var leg := RunTurn(env, cfg, home, actions[k], k + 1, s, flags);
      if leg.out.Ok? {
        LoopIsSteps(env, cfg, home, actions, k + 1, leg.st, leg.flags);
      }
    }
  }

  lemma OpeningIsPreflight(env: Env, cfg: Config, bound: Outcome<Home>, s: St)
    ensures var p, stop := Preflight(env, cfg, bound, s), RunSteps(env, cfg, bound, Opening(), s);
            stop.st == p.st && stop.out == p.out && (p.out.Raise? ==> stop.danger == Grounded)
  {
    hide Send, WaitForConnection, CheckHome;
    var check := [Step(CheckAt(PreArm), Grounded)];
    var bind := [Step(Bind, Grounded)] + check;
    var wait := [Step(AwaitConnection, Grounded)] + bind;
    assert Opening() == [Step(Do(Connect), Grounded)] + wait;
    hide RunSteps;
    var s1 := Send(env.replies, s, Connect, Never).st;
    var s2 := WaitForConnection(env, cfg, s1).st;
    OneStep(env, cfg, bound, Step(Do(Connect), Grounded), wait, s);
    OneStep(env, cfg, bound, Step(AwaitConnection, Grounded), bind, s1);
    OneStep(env, cfg, bound, Step(Bind, Grounded), check, s2);
    LastStep(env, cfg, bound, Step(CheckAt(PreArm), Grounded), s2);
  }

  lemma TryBlockIsSteps(env: Env, cfg: Config, bound: Outcome<Home>, actions: seq<Action>, s: St)
    ensures Same(TryBlock(env, cfg, bound, actions, s), RunSteps(env, cfg, bound, Steps(actions), s))
  {
    hide Preflight, RunActions, Opening, Turns, RunSteps;
    OpeningIsPreflight(env, cfg, bound, s);
    RunAppend(env, cfg, bound, Opening(), Turns(actions, 0), s);
    var p := Preflight(env, cfg, bound, s);
    if bound.Ok? && p.out.Ok? {
      LoopIsSteps(env, cfg, bound.value, actions, 0, p.st, GROUNDED);
    } else if p.out.Ok? {
      BoundFirst(env, cfg, bound, s);
    }
  }

  lemma BoundFirst(env: Env, cfg: Config, bound: Outcome<Home>, s: St)
    requires bound.Raise?
    ensures Preflight(env, cfg, bound, s).out.Raise?
  {
    hide Send, WaitForConnection;
  }

  /**
   * The flags compute the list: for every mission, vehicle, sink, configuration and home the executor's run -
   * every event, time, audit mode, recovery, report and outcome - is the run of the mission's steps.
   */
  lemma ExecuteIsChecklist(env: Env, cfg: Config, bound: Outcome<Home>, actions: seq<Action>)
    ensures Execute(env, cfg, bound, actions, INITIAL) == RunChecklist(env, cfg, bound, actions)
  {
    hide Write, TryBlock, RunSteps, Recover, Fail;
    TryBlockIsSteps(env, cfg, bound, actions, Write(env.sink, INITIAL, MissionStarted, true).st);
  }
}
