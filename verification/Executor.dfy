/**
 * The restricted executor (src/nightjar/mavsdk_executor.py) as a function of the environment's
 * replies. `Session` runs the same steps imperatively and is proved equal to it.
 */
module Executor {
  import opened Models
  import opened Vehicle
  import opened Options

  /**
   * `measurable` says whether the distance between two homes and the integers of the second can be
   * computed: a coordinate may be finite and its scaled value not.
   */
  datatype Config = Config(
    connectionTimeout: nat,
    takeoffTimeout: nat,
    landingTimeout: nat,
    altitudeTolerance: real,
    measurable: (Home, Home) -> bool,
    within: (Home, Home) -> bool)

  /** `factory` is what creating the system raises; the two flags say which streams the SDK has. */
  datatype Env = Env(
    replies: Replies,
    sink: Sink,
    factory: Option<Exn>,
    exposesArmed: bool,
    exposesHome: bool)

  datatype Flags = Flags(committed: bool, recoveryRequired: bool, attempted: bool)

  /** The outcome of a part of the try block: the state and the flags as they stand. */
  datatype Leg = Leg(st: St, flags: Flags, out: Outcome<()>)

  /** What the handler had to report: nothing yet, a status, or an interrupt inside recovery. */
  datatype Report = NotEntered | Reported(status: RecoveryStatus) | Broken

  datatype Run = Run(st: St, out: Outcome<()>, report: Report)

  // ----- the waits

  /** `except asyncio.TimeoutError: raise ...` around a wait. */
  function OnTimeout<T>(r: R<T>, exn: Exn): R<T> {
    if r.out.Raise? && r.out.exn == TimeoutError then R(r.st, Raise(exn)) else r
  }

  function WaitForConnection(env: Env, cfg: Config, s: St): (r: R<Sample>)
    ensures s.trace <= r.st.trace
  {
    OnTimeout(WaitFor(env.replies, s, ForConnection, s.clock + cfg.connectionTimeout), ExecutorError)
  }

  function WaitUntilArmed(env: Env, cfg: Config, s: St): (r: R<Sample>)
    ensures s.trace <= r.st.trace
  {
    if !env.exposesArmed then R(s, Raise(ExecutorError))
    else OnTimeout(WaitFor(env.replies, s, ForArmed, s.clock + cfg.takeoffTimeout), ExecutorError)
  }

  function MinimumAltitude(cfg: Config, target: real): real {
    if target * 0.9 >= target - cfg.altitudeTolerance then target * 0.9 else target - cfg.altitudeTolerance
  }

  function WaitUntilTakeoffAltitude(env: Env, cfg: Config, s: St, target: real): (r: R<Sample>)
    ensures s.trace <= r.st.trace
  {
    OnTimeout(WaitFor(env.replies, s, ForAltitude(MinimumAltitude(cfg, target)), s.clock + cfg.takeoffTimeout),
              ExecutorError)
  }

  function WaitUntilLanded(env: Env, cfg: Config, s: St): (r: R<Sample>)
    ensures s.trace <= r.st.trace
  {
    OnTimeout(WaitFor(env.replies, s, ForLanding, s.clock + cfg.landingTimeout), ExecutorError)
  }

  /** `_read_home`: health, then the first home item, under one time bound. */
  function ReadHome(env: Env, cfg: Config, s: St): (r: R<Home>)
    ensures s.trace <= r.st.trace
  {
    if !env.exposesHome then R(s, Raise(HomeUnavailable))
    else
      var deadline := s.clock + cfg.connectionTimeout;
      var health := OnTimeout(WaitFor(env.replies, s, ForHealth, deadline), HomeUnavailable);
      match health.out
      case Raise(exn) => R(health.st, Raise(exn))
      case Ok(_) =>
        var fix := OnTimeout(WaitFor(env.replies, health.st, ForHome, deadline), HomeUnavailable);
        match fix.out
        case Raise(exn) => R(fix.st, Raise(exn))
        case Ok(sample) => R(fix.st, Snapshot(sample))
  }

  /** A non-finite coordinate fails the snapshot's schema. */
  function Snapshot(sample: Sample): Outcome<Home> {
    match sample.home
    case None => Raise(OtherError(0))
    case Some(home) => Ok(home)
  }

  function VerifyHome(env: Env, cfg: Config, s: St, bound: Home, live: Home, phase: Phase): (r: R<()>)
    ensures s.trace <= r.st.trace
  {
    if !cfg.measurable(bound, live) then R(s, Raise(OtherError(1)))
    else
      var ok := cfg.within(bound, live);
      var w := Write(env.sink, s, HomeCheck(phase, ok), true);
      if w.out.Raise? || ok then w else R(w.st, Raise(HomeMismatch))
  }

  // ----- the try block

  /** Connect and re-verify the bound home before any vehicle command. */
  function Preflight(env: Env, cfg: Config, bound: Outcome<Home>, s: St): (r: R<()>)
    ensures s.trace <= r.st.trace
  {
    var c := Send(env.replies, s, Connect, Never);
    if c.out.Raise? then c
    else
      var w := WaitForConnection(env, cfg, c.st);
      match w.out
      case Raise(exn) => R(w.st, Raise(exn))
      case Ok(_) =>
        match bound
        case Raise(exn) => R(w.st, Raise(exn))
        case Ok(home) => CheckHome(env, cfg, home, PreArm, w.st)
  }

  /** `_read_home` followed by `_verify_home`. */
  function CheckHome(env: Env, cfg: Config, bound: Home, phase: Phase, s: St): (r: R<()>)
    ensures s.trace <= r.st.trace
  {
    var r := ReadHome(env, cfg, s);
    match r.out
    case Raise(exn) => R(r.st, Raise(exn))
    case Ok(live) => VerifyHome(env, cfg, r.st, bound, live, phase)
  }

  /** Arm, wait for armed telemetry, and re-verify home. */
  function ArmAndCheck(env: Env, cfg: Config, bound: Home, s: St): (r: R<()>)
    ensures s.trace <= r.st.trace
  {
    var a := Send(env.replies, s, Arm, Never);
    if a.out.Raise? then a
    else
      var w := WaitUntilArmed(env, cfg, a.st);
      match w.out
      case Raise(exn) => R(w.st, Raise(exn))
      case Ok(_) => CheckHome(env, cfg, bound, PostArm, w.st)
  }

  function Climb(env: Env, cfg: Config, altitude: real, s: St, flags: Flags): (r: Leg)
    ensures s.trace <= r.st.trace
  {
    var t := Send(env.replies, s, Takeoff, Never);
    if t.out.Raise? then Leg(t.st, flags, t.out)
    else
      var w := WaitUntilTakeoffAltitude(env, cfg, t.st, altitude);
      Leg(w.st, flags.(committed := true), if w.out.Raise? then Raise(w.out.exn) else Ok(()))
  }

  function RunTakeoff(env: Env, cfg: Config, bound: Home, altitude: real, s: St, flags: Flags): (r: Leg)
    ensures s.trace <= r.st.trace
  {
    var c := Send(env.replies, s, SetTakeoffAltitude(altitude), Never);
    if c.out.Raise? then Leg(c.st, flags, c.out)
    else
      var armed := flags.(attempted := false, recoveryRequired := true);
      var a := ArmAndCheck(env, cfg, bound, c.st);
      if a.out.Raise? then Leg(a.st, armed, a.out)
      else Climb(env, cfg, altitude, a.st, armed.(attempted := true))
  }

  function RunHold(env: Env, seconds: int, s: St, flags: Flags): (r: Leg)
    ensures s.trace <= r.st.trace
  {
    var r := Sleep(env.replies, s, seconds);
    Leg(r.st, flags, r.out)
  }

  function RunLand(env: Env, cfg: Config, s: St, flags: Flags): (r: Leg)
    ensures s.trace <= r.st.trace
  {
    var l := Send(env.replies, s, Land, Never);
    if l.out.Raise? then Leg(l.st, flags, l.out)
    else
      var w := WaitUntilLanded(env, cfg, l.st);
      match w.out
      case Raise(exn) => Leg(w.st, flags, Raise(exn))
      case Ok(_) => Leg(w.st, flags.(recoveryRequired := false), Ok(()))
  }

  function RunAction(env: Env, cfg: Config, bound: Home, action: Action, s: St, flags: Flags): (r: Leg)
    ensures s.trace <= r.st.trace
  {
    match action
    case TakeoffAction(altitude) => RunTakeoff(env, cfg, bound, altitude, s, flags)
    case HoldAction(seconds) => RunHold(env, seconds, s, flags)
    case LandAction => RunLand(env, cfg, s, flags)
    case _ => Leg(s, flags, Ok(()))
  }

  /** One turn of the mission loop: audit, act, audit. */
  function RunTurn(env: Env, cfg: Config, bound: Home, action: Action, sequence: nat, s: St, flags: Flags): (r: Leg)
    ensures s.trace <= r.st.trace
  {
    var started := Write(env.sink, s, ActionStarted(sequence), !flags.committed);
    if started.out.Raise? then Leg(started.st, flags, started.out)
    else
      var leg := RunAction(env, cfg, bound, action, started.st, flags);
      if leg.out.Raise? then leg
      else
        var completed := Write(env.sink, leg.st, ActionCompleted(sequence), !leg.flags.committed);
        Leg(completed.st, leg.flags, completed.out)
  }

  /** The mission loop from action `k` on. */
  function RunActions(env: Env, cfg: Config, bound: Home, actions: seq<Action>, k: nat, s: St, flags: Flags): (r: Leg)
    ensures s.trace <= r.st.trace
    requires k <= |actions|
    decreases |actions| - k
  {
    if k == |actions| then Leg(s, flags, Ok(()))
    else
      var leg := RunTurn(env, cfg, bound, actions[k], k + 1, s, flags);
      if leg.out.Raise? then leg
      else RunActions(env, cfg, bound, actions, k + 1, leg.st, leg.flags)
  }

  const GROUNDED := Flags(false, false, false)

  function TryBlock(env: Env, cfg: Config, bound: Outcome<Home>, actions: seq<Action>, s: St): (r: Leg)
    ensures s.trace <= r.st.trace
  {
    var p := Preflight(env, cfg, bound, s);
    match bound
    case Ok(home) =>
      if p.out.Raise? then Leg(p.st, GROUNDED, p.out)
      else RunActions(env, cfg, home, actions, 0, p.st, GROUNDED)
    case Raise(_) => Leg(p.st, GROUNDED, p.out)
  }

  // ----- recovery

  function LandAndConfirm(replies: Replies, s: St, deadline: nat): (r: R<RecoveryStatus>)
    ensures s.trace <= r.st.trace
  {
    var l := Send(replies, s, Land, At(deadline));
    match l.out
    case Raise(exn) => R(l.st, Raise(exn))
    case Ok(_) =>
      var w := WaitFor(replies, l.st, ForLanding, deadline);
      R(w.st, if w.out.Raise? then Raise(w.out.exn) else Ok(LandingConfirmed))
  }

  /** `_recover` once the first in_air item is known. */
  function Decide(replies: Replies, s: St, inAir: Tri, deadline: nat): (r: R<RecoveryStatus>)
    ensures s.trace <= r.st.trace
  {
    match inAir
    case IsFalse =>
      var d := Send(replies, s, Disarm, At(deadline));
      R(d.st, if d.out.Raise? then Raise(d.out.exn) else Ok(DisarmAccepted))
    case IsTrue => LandAndConfirm(replies, s, deadline)
    case _ => R(s, Raise(ExecutorError))
  }

  /** `asyncio.wait_for(self._recover(...), timeout=landing_timeout_seconds)`, uncancelled. */
  function Recover(replies: Replies, cfg: Config, s: St, attempted: bool): (r: R<RecoveryStatus>)
    ensures s.trace <= r.st.trace
  {
    var deadline := s.clock + cfg.landingTimeout;
    if attempted then LandAndConfirm(replies, s, deadline)
    else
      var w := WaitFor(replies, s, ForInAir, deadline);
      match w.out
      case Raise(exn) => R(w.st, Raise(exn))
      case Ok(sample) => Decide(replies, w.st, sample.inAir, deadline)
  }

  function Fail(env: Env, s: St, status: RecoveryStatus, exn: Exn): (r: Run)
    ensures s.trace <= r.st.trace
  {
    var w := Write(env.sink, s, MissionFailed(status), false);
    Run(w.st, if w.out.Raise? then w.out else Raise(exn), Reported(status))
  }

  /** The handler: recover if required, then record, then re-raise. */
  function Handle(env: Env, cfg: Config, s: St, flags: Flags, exn: Exn): (r: Run)
    ensures s.trace <= r.st.trace
  {
    if !flags.recoveryRequired then Fail(env, s, NotRequired, exn)
    else
      var r := Recover(env.replies, cfg, s, flags.attempted);
      match r.out
      case Ok(status) => Fail(env, r.st, status, exn)
      case Raise(inner) =>
        if inner == Interrupt then Run(r.st, Raise(Interrupt), Broken) else Fail(env, r.st, Failed, exn)
  }

  function Execute(env: Env, cfg: Config, bound: Outcome<Home>, actions: seq<Action>, s: St): (r: Run)
    ensures s.trace <= r.st.trace
  {
    if env.factory.Some? then Run(s, Raise(env.factory.value), NotEntered)
    else
      var started := Write(env.sink, s, MissionStarted, true);
      if started.out.Raise? then Run(started.st, started.out, NotEntered)
      else
        var leg := TryBlock(env, cfg, bound, actions, started.st);
        match leg.out
        case Raise(exn) => Handle(env, cfg, leg.st, leg.flags, exn)
        case Ok(_) =>
          var w := Write(env.sink, leg.st, MissionCompleted, false);
          Run(w.st, w.out, NotEntered)
  }

  /** The trace of a whole run. */
  function TraceOf(env: Env, cfg: Config, bound: Outcome<Home>, actions: seq<Action>): Trace {
    Execute(env, cfg, bound, actions, INITIAL).st.trace
  }
}
