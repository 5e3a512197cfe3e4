/**
 * The executor as the source runs it: fields that change, loops over telemetry streams, three flags
 * and a handler. Each method is proved equal to the function of the same name.
 */
module Session {
  import opened Models
  import opened Vehicle
  import V = Vehicle
  import X = Executor
  import opened Recovery
  import opened Options

  class Session {
    const env: X.Env
    const cfg: X.Config
    /** How many cancellations reach the mission task before each resumption of the recovery task. */
    const cancellations: nat -> nat
    var cursor: nat
    var clock: nat
    var attempts: nat
    var trace: Trace
    var log: seq<Record>

    constructor (env: X.Env, cfg: X.Config, cancellations: nat -> nat)
      ensures State() == INITIAL && Valid()
      ensures this.env == env && this.cfg == cfg
    {
      this.env, this.cfg, this.cancellations := env, cfg, cancellations;
      cursor, clock, attempts, trace, log := 0, 0, 0, [], [];
    }

    /** The log holds exactly the attempted records whose write did not raise. */
    ghost predicate Valid()
      reads this
    {
      log == Log(env.sink, trace)
    }

    function State(): St
      reads this
    {
      St(cursor, clock, attempts, trace)
    }

    method Note(e: Event)
      requires Valid() && !e.Attempt?
      modifies this`trace
      ensures Valid() && trace == old(trace) + [e]
    {
      hide Log;
      LogSnoc(env.sink, trace, e);
      trace := trace + [e];
    }

    method Send(c: Command, deadline: Deadline) returns (out: Outcome<()>)
      requires Valid()
      modifies this
      ensures Valid() && R(State(), out) == V.Send(env.replies, old(State()), c, deadline)
    {
      hide Log;
      var r := env.replies(cursor);
      cursor := cursor + 1;
      Note(Issued(c));
      if r.effective {
        Note(TookEffect(c));
      }
      if deadline.PassedBy(clock + r.delay) {
        clock := Later(clock, deadline.time);
        return Raise(TimeoutError);
      }
      clock := clock + r.delay;
      match r.raised {
        case Some(exn) => return Raise(exn);
        case None =>
          Note(Returned(c));
          return Ok(());
      }
    }

    method Sleep(seconds: int) returns (out: Outcome<()>)
      requires Valid()
      modifies this
      ensures Valid() && R(State(), out) == V.Sleep(env.replies, old(State()), seconds)
    {
      var r := env.replies(cursor);
      cursor, clock := cursor + 1, clock + r.delay;
      Note(HoldBegan(seconds));
      match r.raised {
        case Some(exn) => return Raise(exn);
        case None =>
          Note(Slept(seconds));
          return Ok(());
      }
    }

    method NextItem(gate: Gate, deadline: nat) returns (out: Outcome<Sample>)
      requires Valid()
      modifies this
      ensures Valid() && R(State(), out) == V.NextItem(env.replies, old(State()), gate, deadline)
    {
      var r := env.replies(cursor);
      cursor := cursor + 1;
      if clock + r.delay > deadline {
        clock := Later(clock, deadline);
        return Raise(TimeoutError);
      }
      clock := clock + r.delay;
      match r.telemetry {
        case Ended => return Raise(gate.EndError());
        case Broke(exn) => return Raise(exn);
        case Item(sample) =>
          Note(Saw(gate, sample));
          return Ok(sample);
      }
    }

    method WaitFor(gate: Gate, deadline: nat) returns (out: Outcome<Sample>)
      requires Valid()
      modifies this
      ensures Valid() && R(State(), out) == V.WaitFor(env.replies, old(State()), gate, deadline)
    {
      hide Log, V.NextItem;
      while true
        invariant Valid()
        invariant V.WaitFor(env.replies, State(), gate, deadline)
               == V.WaitFor(env.replies, old(State()), gate, deadline)
        decreases deadline - clock
      {
        out := NextItem(gate, deadline);
        if out.Raise? || gate.Passes(out.value) { return; }
      }
    }

    /** The strict writer; the best-effort wrapper catches what an `except Exception` catches. */
    method Write(record: Record, strict: bool) returns (out: Outcome<()>)
      requires Valid()
      modifies this
      ensures Valid() && R(State(), out) == V.Write(env.sink, old(State()), record, strict)
    {
      hide Log;
      var result := env.sink(attempts);
      LogSnoc(env.sink, trace, Attempt(attempts, record, strict));
      trace := trace + [Attempt(attempts, record, strict)];
      attempts := attempts + 1;
      match result {
        case Some(exn) =>
          assert log + [] == log;
          if strict || !exn.IsException() {
            return Raise(exn);
          }
        case None =>
          log := log + [record];
          if strict {
            Note(Recorded(record));
          }
      }
      return Ok(());
    }

    method OnTimeout<T>(result: Outcome<T>, exn: Exn) returns (out: Outcome<T>)
      ensures forall s: St :: R(s, out) == X.OnTimeout(R(s, result), exn)
    {
      if result.Raise? && result.exn == TimeoutError {
        return Raise(exn);
      }
      return result;
    }

    method WaitForConnection() returns (out: Outcome<Sample>)
      requires Valid()
      modifies this
      ensures Valid() && R(State(), out) == X.WaitForConnection(env, cfg, old(State()))
    {
      out := WaitFor(ForConnection, clock + cfg.connectionTimeout);
      out := OnTimeout(out, ExecutorError);
    }

    method WaitUntilArmed() returns (out: Outcome<Sample>)
      requires Valid()
      modifies this
      ensures Valid() && R(State(), out) == X.WaitUntilArmed(env, cfg, old(State()))
    {
      if !env.exposesArmed {
        return Raise(ExecutorError);
      }
      out := WaitFor(ForArmed, clock + cfg.takeoffTimeout);
      out := OnTimeout(out, ExecutorError);
    }

    method WaitUntilTakeoffAltitude(target: real) returns (out: Outcome<Sample>)
      requires Valid()
      modifies this
      ensures Valid() && R(State(), out) == X.WaitUntilTakeoffAltitude(env, cfg, old(State()), target)
    {
      out := WaitFor(ForAltitude(X.MinimumAltitude(cfg, target)), clock + cfg.takeoffTimeout);
      out := OnTimeout(out, ExecutorError);
    }

    method WaitUntilLanded() returns (out: Outcome<Sample>)
      requires Valid()
      modifies this
      ensures Valid() && R(State(), out) == X.WaitUntilLanded(env, cfg, old(State()))
    {
      out := WaitFor(ForLanding, clock + cfg.landingTimeout);
      out := OnTimeout(out, ExecutorError);
    }

    method ReadHome() returns (out: Outcome<Home>)
      requires Valid()
      modifies this
      ensures Valid() && R(State(), out) == X.ReadHome(env, cfg, old(State()))
    {
      if !env.exposesHome {
        return Raise(HomeUnavailable);
      }
      var deadline := clock + cfg.connectionTimeout;
      var health := WaitFor(ForHealth, deadline);
      health := OnTimeout(health, HomeUnavailable);
      var _ :- health;
      var fix := WaitFor(ForHome, deadline);
      fix := OnTimeout(fix, HomeUnavailable);
      var sample :- fix;
      return X.Snapshot(sample);
    }

    method VerifyHome(bound: Home, live: Home, phase: Phase) returns (out: Outcome<()>)
      requires Valid()
      modifies this
      ensures Valid() && R(State(), out) == X.VerifyHome(env, cfg, old(State()), bound, live, phase)
    {
      if !cfg.measurable(bound, live) {
        return Raise(OtherError(1));
      }
      var ok := cfg.within(bound, live);
      out := Write(HomeCheck(phase, ok), true);
      if out.Ok? && !ok {
        return Raise(HomeMismatch);
      }
    }

    method CheckHome(bound: Home, phase: Phase) returns (out: Outcome<()>)
      requires Valid()
      modifies this
      ensures Valid() && R(State(), out) == X.CheckHome(env, cfg, bound, phase, old(State()))
    {
      var read := ReadHome();
      var live :- read;
      out := VerifyHome(bound, live, phase);
    }

    method Preflight(bound: Outcome<Home>) returns (out: Outcome<()>)
      requires Valid()
      modifies this
      ensures Valid() && R(State(), out) == X.Preflight(env, cfg, bound, old(State()))
    {
      out := Send(Connect, Never);
      if out.Raise? { return; }
      var connected := WaitForConnection();
      var _ :- connected;
      var home :- bound;
      out := CheckHome(home, PreArm);
    }

    /** One mission action; the flags go in as they stand and come out as they are left. */
    method RunAction(bound: Home, action: Action, flags: X.Flags) returns (left: X.Flags, out: Outcome<()>)
      requires Valid()
      modifies this
      ensures Valid() && X.Leg(State(), left, out) == X.RunAction(env, cfg, bound, action, old(State()), flags)
    {
      left := flags;
      match action {
        case TakeoffAction(altitude) =>
          left, out := RunTakeoff(bound, altitude, flags);
        case HoldAction(seconds) =>
          out := Sleep(seconds);
        case LandAction =>
          left, out := RunLand(flags);
        case _ =>
          out := Ok(());
      }
    }

    method ArmAndCheck(bound: Home) returns (out: Outcome<()>)
      requires Valid()
      modifies this
      ensures Valid() && R(State(), out) == X.ArmAndCheck(env, cfg, bound, old(State()))
    {
      out := Send(Arm, Never);
      if out.Raise? { return; }
      var armed := WaitUntilArmed();
      var _ :- armed;
      out := CheckHome(bound, PostArm);
    }

    method Climb(altitude: real, flags: X.Flags) returns (left: X.Flags, out: Outcome<()>)
      requires Valid()
      modifies this
      ensures Valid() && X.Leg(State(), left, out) == X.Climb(env, cfg, altitude, old(State()), flags)
    {
      left := flags;
      out := Send(Takeoff, Never);
      if out.Raise? { return; }
      left := left.(committed := true);
      var reached := WaitUntilTakeoffAltitude(altitude);
      out := if reached.Raise? then Raise(reached.exn) else Ok(());
    }

    method RunTakeoff(bound: Home, altitude: real, flags: X.Flags) returns (left: X.Flags, out: Outcome<()>)
      requires Valid()
      modifies this
      ensures Valid() && X.Leg(State(), left, out) == X.RunTakeoff(env, cfg, bound, altitude, old(State()), flags)
    {
      left := flags;
      out := Send(SetTakeoffAltitude(altitude), Never);
      if out.Raise? { return; }
      left := left.(attempted := false, recoveryRequired := true);
      out := ArmAndCheck(bound);
      if out.Raise? { return; }
      left := left.(attempted := true);
      left, out := Climb(altitude, left);
    }

    method RunLand(flags: X.Flags) returns (left: X.Flags, out: Outcome<()>)
      requires Valid()
      modifies this
      ensures Valid() && X.Leg(State(), left, out) == X.RunLand(env, cfg, old(State()), flags)
    {
      left := flags;
      out := Send(Land, Never);
      if out.Raise? { return; }
      var landed := WaitUntilLanded();
      if landed.Raise? {
        return left, Raise(landed.exn);
      }
      left, out := left.(recoveryRequired := false), Ok(());
    }

    method RunTurn(bound: Home, action: Action, sequence: nat, flags: X.Flags) returns (left: X.Flags, out: Outcome<()>)
      requires Valid()
      modifies this
      ensures Valid() && X.Leg(State(), left, out) == X.RunTurn(env, cfg, bound, action, sequence, old(State()), flags)
    {
      left := flags;
      out := Write(ActionStarted(sequence), !left.committed);
      if out.Raise? { return; }
      left, out := RunAction(bound, action, left);
      if out.Raise? { return; }
      out := Write(ActionCompleted(sequence), !left.committed);
    }

    /** The try block: preflight, then one turn per action until one raises. */
    method TryBlock(bound: Outcome<Home>, actions: seq<Action>) returns (flags: X.Flags, out: Outcome<()>)
      requires Valid()
      modifies this
      ensures Valid() && X.Leg(State(), flags, out) == X.TryBlock(env, cfg, bound, actions, old(State()))
    {
      hide V.Send, V.WaitFor, V.Write, X.RunTurn;
      flags := X.GROUNDED;
      out := Preflight(bound);
      if out.Raise? || bound.Raise? { return; }
      var home := bound.value;
      var k := 0;
      label start:
      while k < |actions|
        invariant 0 <= k <= |actions| && Valid()
        invariant X.RunActions(env, cfg, home, actions, k, State(), flags)
               == X.RunActions(env, cfg, home, actions, 0, old@start(State()), X.GROUNDED)
      {
        flags, out := RunTurn(home, actions[k], k + 1, flags);
        if out.Raise? { return; }
        k := k + 1;
      }
      out := Ok(());
    }

    // ----- recovery

    /** One resumption of the recovery task. */
    method StepRecovery(pc: Pc, deadline: nat) returns (next: Pc)
      requires Valid()
      modifies this
      ensures Valid() && Task(next, State()) == Step(env.replies, deadline, Task(pc, old(State())))
    {
      match pc {
        case Done(_) =>
          next := pc;
        case Disarming =>
          var out := Send(Disarm, At(deadline));
          next := Done(if out.Raise? then Raise(out.exn) else Ok(DisarmAccepted));
        case Landing =>
          var out := Send(Land, At(deadline));
          next := if out.Raise? then Done(Raise(out.exn)) else Confirming;
        case Deciding =>
          next := ReceiveItem(pc, deadline, ForInAir);
        case Confirming =>
          next := ReceiveItem(pc, deadline, ForLanding);
      }
    }

    method ReceiveItem(pc: Pc, deadline: nat, gate: Gate) returns (next: Pc)
      requires Valid()
      modifies this
      ensures Valid() && Task(next, State()) == Receive(env.replies, deadline, Task(pc, old(State())), gate)
    {
      var item := NextItem(gate, deadline);
      match item {
        case Raise(exn) => return Done(Raise(exn));
        case Ok(sample) => return AfterItem(pc, sample);
      }
    }

    /**
     * `_recover_protected`: keep awaiting the same task through any number of cancellations of the
     * mission task. Whatever `cancellations` says, the outcome is that of the uncancelled `Recover`.
     */
    method RecoverProtected(attempted: bool) returns (out: Outcome<RecoveryStatus>)
      requires Valid()
      modifies this
      ensures Valid() && R(State(), out) == X.Recover(env.replies, cfg, old(State()), attempted)
    {
      hide Step, X.Recover;
      var deadline := clock + cfg.landingTimeout;
      var pc := if attempted then Landing else Deciding;
      var pending := cancellations(cursor);
      FinishIsRecover(env.replies, cfg, State(), attempted);
      while !pc.Done?
        invariant Valid()
        invariant Finish(env.replies, deadline, Task(pc, State()))
               == Finish(env.replies, deadline, Start(old(State()), attempted))
        decreases Budget(deadline, Task(pc, State())), pending
      {
        if pending > 0 {
          // except asyncio.CancelledError: continue
          pending := pending - 1;
          continue;
        }
        StepSpends(env.replies, deadline, Task(pc, State()));
        pc := StepRecovery(pc, deadline);
        pending := cancellations(cursor);
      }
      out := pc.out;
    }

    /** The handler of `_execute`. */
    method Handle(flags: X.Flags, exn: Exn) returns (out: Outcome<()>, report: X.Report)
      requires Valid()
      modifies this
      ensures Valid() && X.Run(State(), out, report) == X.Handle(env, cfg, old(State()), flags, exn)
    {
      var status := NotRequired;
      if flags.recoveryRequired {
        var recovered := RecoverProtected(flags.attempted);
        match recovered {
          case Ok(s) =>
            status := s;
          case Raise(inner) =>
            if inner == Interrupt {
              return Raise(Interrupt), X.Broken;
            }
            status := Failed;
        }
      }
      var written := Write(MissionFailed(status), false);
      out := if written.Raise? then written else Raise(exn);
      report := X.Reported(status);
    }

    /** `_execute`: the result is a function of the environment, untouched by the cancellations during recovery. */
    method Execute(bound: Outcome<Home>, actions: seq<Action>) returns (out: Outcome<()>, report: X.Report)
      requires Valid()
      modifies this
      ensures Valid()
      ensures X.Run(State(), out, report) == X.Execute(env, cfg, bound, actions, old(State()))
    {
      hide V.Write, X.TryBlock, X.Handle;
      report := X.NotEntered;
      if env.factory.Some? {
        return Raise(env.factory.value), report;
      }
      out := Write(MissionStarted, true);
      if out.Raise? { return; }
      var flags;
      flags, out := TryBlock(bound, actions);
      if out.Raise? {
        out, report := Handle(flags, out.exn);
        return;
      }
      out := Write(MissionCompleted, false);
    }
  }
}
