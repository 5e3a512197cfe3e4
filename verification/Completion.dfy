/**
 * The other direction of safety: against a vehicle that keeps answering, an accepted mission completes,
 * and an approval that was built and signed for it, in force and unused, is enough for exit code 0.
 */
module Completion {
  import opened Models
  import opened Policy
  import opened PolicyGrammar
  import opened Vehicle
  import opened Executor
  import opened ExecutorSafety
  import opened FlightTheorems
  import opened Canonical
  import opened HomeBinding
  import opened Approval
  import opened Replay
  import opened MavsdkExecutor
  import opened Waits
  import opened Options

  predicate Answers(replies: Replies, wanted: Wanted, window: nat, i: nat, j: nat) {
    && i <= j
    && replies(j).telemetry.Item? && wanted(replies(j).telemetry.sample)
    && Elapsed(replies, i, j) <= window
  }

  ghost predicate AnsweredFrom(replies: Replies, wanted: Wanted, window: nat, i: nat) {
    exists j: nat :: Answers(replies, wanted, window, i, j)
  }

  /** From any point on, an item that is wanted arrives within the window. */
  ghost predicate Answering(replies: Replies, wanted: Wanted, window: nat) {
    forall i: nat :: AnsweredFrom(replies, wanted, window, i)
  }

  predicate Willing(reply: Reply) {
    reply.raised.None? && reply.telemetry.Item?
  }

  predicate AtHome(sample: Sample, cfg: Config, home: Home) {
    sample.home.Some? && cfg.measurable(home, sample.home.value) && cfg.within(home, sample.home.value)
  }

  /** An item the environment delivers at some time. */
  predicate Delivered(replies: Replies, k: nat, sample: Sample) {
    replies(k).telemetry == Item(sample)
  }

  /**
   * Nothing raises, streams do not end, home stays within tolerance, and each wait is answered within a
   * window that fits the timeouts - the climb by an altitude at or above nine tenths of the target and the
   * target less the tolerance; `_read_home` has to fit two windows.
   */
  ghost predicate Cooperative(env: Env, cfg: Config, home: Home, altitude: real, window: nat) {
    && env.factory.None? && env.exposesArmed && env.exposesHome
    && (forall i :: env.sink(i).None?)
    && (forall i :: Willing(env.replies(i)))
    && (forall k, sample :: Delivered(env.replies, k, sample) ==> AtHome(sample, cfg, home))
    && Answering(env.replies, Connected, window) && Answering(env.replies, Healthy, window)
    && Answering(env.replies, Any, window) && Answering(env.replies, Armed, window)
    && Answering(env.replies, HighEnough(altitude, cfg.altitudeTolerance), window)
    && Answering(env.replies, OnGround, window)
    && 2 * window <= cfg.connectionTimeout && window <= cfg.takeoffTimeout && window <= cfg.landingTimeout
  }

  lemma SendOk(env: Env, cfg: Config, home: Home, altitude: real, window: nat, s: St, c: Command)
    requires Cooperative(env, cfg, home, altitude, window)
    ensures Send(env.replies, s, c, Never).out.Ok?
  {
    hide Answering;
    assert Willing(env.replies(s.cursor));
  }

  lemma {:induction false} WaitUntil(replies: Replies, s: St, gate: Gate, deadline: nat, j: nat)
    requires forall i :: Willing(replies(i))
    requires s.cursor <= j && replies(j).telemetry.Item? && gate.Passes(replies(j).telemetry.sample)
    requires s.clock + Elapsed(replies, s.cursor, j) <= deadline
    ensures var r := WaitFor(replies, s, gate, deadline);
            && r.out.Ok?
            && r.st.clock <= s.clock + Elapsed(replies, s.cursor, j)
            && exists k :: Delivered(replies, k, r.out.value)
    decreases j - s.cursor
  {
    assert Willing(replies(s.cursor));
    var item := NextItem(replies, s, gate, deadline);
    if gate.Passes(item.out.value) {
      assert Delivered(replies, s.cursor, item.out.value);
    } else {
      WaitUntil(replies, item.st, gate, deadline, j);
    }
  }

  /** A wait whose deadline leaves a window ends with an item that is wanted, within that window. */
  lemma WaitOk(
    env: Env, cfg: Config, home: Home, altitude: real, window: nat, s: St, gate: Gate, wanted: Wanted, deadline: nat)
    requires forall x :: gate.Passes(x) <==> wanted(x)
    requires Cooperative(env, cfg, home, altitude, window) && Answering(env.replies, wanted, window)
    requires s.clock + window <= deadline
    ensures var r := WaitFor(env.replies, s, gate, deadline);
            && r.out.Ok? && r.st.clock <= s.clock + window
            && AtHome(r.out.value, cfg, home)
  {
    hide WaitFor, Elapsed;
    assert AnsweredFrom(env.replies, wanted, window, s.cursor);
    var j: nat :| Answers(env.replies, wanted, window, s.cursor, j);
    WaitUntil(env.replies, s, gate, deadline, j);
  }

  lemma WriteOk(env: Env, cfg: Config, home: Home, altitude: real, window: nat, s: St, record: Record, strict: bool)
    requires Cooperative(env, cfg, home, altitude, window)
    ensures Write(env.sink, s, record, strict).out == Ok(())
  {
    hide Answering;
  }

  lemma CheckHomeOk(env: Env, cfg: Config, home: Home, altitude: real, window: nat, phase: Phase, s: St)
    requires Cooperative(env, cfg, home, altitude, window)
    ensures CheckHome(env, cfg, home, phase, s).out == Ok(())
  {
    assert env.exposesHome && 2 * window <= cfg.connectionTimeout;
    assert Answering(env.replies, Healthy, window) && Answering(env.replies, Any, window);
    hide WaitFor, Write, Cooperative, Answering;
    var deadline := s.clock + cfg.connectionTimeout;
    WaitOk(env, cfg, home, altitude, window, s, ForHealth, Healthy, deadline);
    var health := WaitFor(env.replies, s, ForHealth, deadline);
    WaitOk(env, cfg, home, altitude, window, health.st, ForHome, Any, deadline);
    var fix := WaitFor(env.replies, health.st, ForHome, deadline);
    WriteOk(env, cfg, home, altitude, window, fix.st, HomeCheck(phase, true), true);
  }

  lemma PreflightOk(env: Env, cfg: Config, home: Home, altitude: real, window: nat, s: St)
    requires Cooperative(env, cfg, home, altitude, window)
    ensures Preflight(env, cfg, Ok(home), s).out == Ok(())
  {
    assert Answering(env.replies, Connected, window) && window <= cfg.connectionTimeout;
    hide WaitFor, Send, CheckHome, Cooperative, Answering;
    SendOk(env, cfg, home, altitude, window, s, Connect);
    var c := Send(env.replies, s, Connect, Never);
    WaitOk(env, cfg, home, altitude, window, c.st, ForConnection, Connected, c.st.clock + cfg.connectionTimeout);
    CheckHomeOk(env, cfg, home, altitude, window, PreArm, WaitForConnection(env, cfg, c.st).st);
  }

  lemma ArmAndCheckOk(env: Env, cfg: Config, home: Home, altitude: real, window: nat, s: St)
    requires Cooperative(env, cfg, home, altitude, window)
    ensures ArmAndCheck(env, cfg, home, s).out == Ok(())
  {
    assert Answering(env.replies, Armed, window) && window <= cfg.takeoffTimeout && env.exposesArmed;
    hide WaitFor, Send, CheckHome, Cooperative, Answering;
    SendOk(env, cfg, home, altitude, window, s, Arm);
    var a := Send(env.replies, s, Arm, Never);
    WaitOk(env, cfg, home, altitude, window, a.st, ForArmed, Armed, a.st.clock + cfg.takeoffTimeout);
    CheckHomeOk(env, cfg, home, altitude, window, PostArm, WaitUntilArmed(env, cfg, a.st).st);
  }

  lemma ClimbOk(env: Env, cfg: Config, home: Home, altitude: real, window: nat, s: St, flags: Flags)
    requires Cooperative(env, cfg, home, altitude, window)
    ensures Climb(env, cfg, altitude, s, flags).out == Ok(())
  {
    var gate, wanted := ForAltitude(MinimumAltitude(cfg, altitude)), HighEnough(altitude, cfg.altitudeTolerance);
    assert Answering(env.replies, wanted, window) && window <= cfg.takeoffTimeout;
    forall x ensures gate.Passes(x) <==> wanted(x) {
      ClimbEndsIff(cfg, altitude, x);
    }
    hide WaitFor, Send, Cooperative, Answering, MinimumAltitude;
    SendOk(env, cfg, home, altitude, window, s, Takeoff);
    var t := Send(env.replies, s, Takeoff, Never);
    WaitOk(env, cfg, home, altitude, window, t.st, gate, wanted, t.st.clock + cfg.takeoffTimeout);
  }

  lemma RunActionOk(env: Env, cfg: Config, home: Home, altitude: real, window: nat, action: Action, s: St, flags: Flags)
    requires Cooperative(env, cfg, home, altitude, window) && Supported(action)
    requires action.TakeoffAction? ==> action.altitude == altitude
    ensures RunAction(env, cfg, home, action, s, flags).out == Ok(())
  {
    assert Answering(env.replies, OnGround, window) && window <= cfg.landingTimeout;
    assert Willing(env.replies(s.cursor));
    hide WaitFor, Send, ArmAndCheck, Climb, Cooperative, Answering;
    match action {
      case TakeoffAction(_) =>
        SendOk(env, cfg, home, altitude, window, s, SetTakeoffAltitude(altitude));
        var c := Send(env.replies, s, SetTakeoffAltitude(altitude), Never);
        ArmAndCheckOk(env, cfg, home, altitude, window, c.st);
        ClimbOk(env, cfg, home, altitude, window, ArmAndCheck(env, cfg, home, c.st).st,
                flags.(attempted := true, recoveryRequired := true));
      case LandAction =>
        SendOk(env, cfg, home, altitude, window, s, Land);
        var l := Send(env.replies, s, Land, Never);
        WaitOk(env, cfg, home, altitude, window, l.st, ForLanding, OnGround, l.st.clock + cfg.landingTimeout);
      case _ =>
    }
  }

  lemma RunTurnOk(
    env: Env, cfg: Config, home: Home, altitude: real, window: nat, action: Action, sequence: nat, s: St, flags: Flags)
    requires Cooperative(env, cfg, home, altitude, window) && Supported(action)
    requires action.TakeoffAction? ==> action.altitude == altitude
    ensures RunTurn(env, cfg, home, action, sequence, s, flags).out == Ok(())
  {
    hide Write, RunAction, Cooperative;
    WriteOk(env, cfg, home, altitude, window, s, ActionStarted(sequence), !flags.committed);
    var started := Write(env.sink, s, ActionStarted(sequence), !flags.committed);
    RunActionOk(env, cfg, home, altitude, window, action, started.st, flags);
    var leg := RunAction(env, cfg, home, action, started.st, flags);
    WriteOk(env, cfg, home, altitude, window, leg.st, ActionCompleted(sequence), !leg.flags.committed);
  }

  lemma {:induction false} RunActionsOk(
    env: Env, cfg: Config, home: Home, window: nat, actions: seq<Action>, k: nat, s: St, flags: Flags)
    requires Flyable(actions) && Cooperative(env, cfg, home, actions[0].altitude, window) && k <= |actions|
    ensures RunActions(env, cfg, home, actions, k, s, flags).out == Ok(())
    decreases |actions| - k
  {
    hide RunTurn, Cooperative;
    if k == |actions| {
    } else {
      RunTurnOk(env, cfg, home, actions[0].altitude, window, actions[k], k + 1, s, flags);
      var leg := RunTurn(env, cfg, home, actions[k], k + 1, s, flags);
      RunActionsOk(env, cfg, home, window, actions, k + 1, leg.st, leg.flags);
    }
  }

  /** Every takeoff-holds-land mission completes against a cooperative vehicle, however long it takes. */
  lemma CooperativeRunCompletes(env: Env, cfg: Config, home: Home, window: nat, actions: seq<Action>)
    requires Flyable(actions) && Cooperative(env, cfg, home, actions[0].altitude, window)
    ensures Execute(env, cfg, Ok(home), actions, INITIAL).out == Ok(())
  {
    assert env.factory.None?;
    hide Write, Preflight, RunActions, Cooperative, Handle;
    var altitude := actions[0].altitude;
    WriteOk(env, cfg, home, altitude, window, INITIAL, MissionStarted, true);
    var started := Write(env.sink, INITIAL, MissionStarted, true);
    PreflightOk(env, cfg, home, altitude, window, started.st);
    RunActionsOk(env, cfg, home, window, actions, 0, Preflight(env, cfg, Ok(home), started.st).st, GROUNDED);
    var leg := TryBlock(env, cfg, Ok(home), actions, started.st);
    WriteOk(env, cfg, home, altitude, window, leg.st, MissionCompleted, false);
  }

  /** A vehicle that obeys at once and reports, at every tick, what each wait is waiting for. */
  function Obliging(altitude: real): Reply {
    Reply(1, true, None, Item(Sample(true, true, Some(Home(0.0, 0.0, 0.0)), IsTrue, Some(altitude), IsFalse)))
  }

  function ObligingEnv(altitude: real): Env {
    Env(_ => Obliging(altitude), _ => None, None, true, true)
  }

  const PATIENT := Config(2, 1, 1, 0.5, (bound: Home, live: Home) => true, (bound: Home, live: Home) => true)

  lemma ObligingAnswers(altitude: real, wanted: Wanted)
    requires wanted(Obliging(altitude).telemetry.sample)
    ensures Answering(ObligingEnv(altitude).replies, wanted, 1)
  {
    var replies := ObligingEnv(altitude).replies;
    forall i: nat ensures AnsweredFrom(replies, wanted, 1, i) {
      assert Answers(replies, wanted, 1, i, i);
    }
  }

  /** Every takeoff-holds-land mission has a run that completes. */
  lemma FlightsExist(actions: seq<Action>)
    requires Flyable(actions) && ActionsValid(actions)
    ensures Execute(ObligingEnv(actions[0].altitude), PATIENT, Ok(Home(0.0, 0.0, 0.0)), actions, INITIAL).out == Ok(())
  {
    hide Execute, Answering;
    var altitude, home := actions[0].altitude, Home(0.0, 0.0, 0.0);
    assert ActionValid(actions[0]);
    ObligingAnswers(altitude, Connected);
    ObligingAnswers(altitude, Healthy);
    ObligingAnswers(altitude, Any);
    ObligingAnswers(altitude, Armed);
    ObligingAnswers(altitude, HighEnough(altitude, PATIENT.altitudeTolerance));
    ObligingAnswers(altitude, OnGround);
    assert Cooperative(ObligingEnv(altitude), PATIENT, home, altitude, 1);
    CooperativeRunCompletes(ObligingEnv(altitude), PATIENT, home, 1, actions);
  }

  /** What recovery achieves on a vehicle that answers: decided by the flag and the first in_air item alone. */
  function Achieved(attempted: bool, inAir: Tri): Outcome<RecoveryStatus> {
    if attempted || inAir == IsTrue then Ok(LandingConfirmed)
    else if inAir == IsFalse then Ok(DisarmAccepted)
    else Raise(ExecutorError)
  }

  /**
   * Recovery succeeds wherever it can: from any state a run may be in when it fails, if from there on
   * nothing raises and touch-down is reported within a third of the landing timeout.
   */
  lemma RecoverySucceeds(replies: Replies, cfg: Config, s: St, attempted: bool, window: nat)
    requires (forall i :: Willing(replies(i))) && Answering(replies, OnGround, window)
    requires 3 * window <= cfg.landingTimeout
    ensures replies(s.cursor).telemetry.Item?
    ensures Recover(replies, cfg, s, attempted).out == Achieved(attempted, replies(s.cursor).telemetry.sample.inAir)
  {
    var deadline := s.clock + cfg.landingTimeout;
    Prompt(replies, window, s.cursor);
    Prompt(replies, window, s.cursor + 1);
    hide Answering, LandAndConfirm, Willing;
    if attempted {
      LandingSucceeds(replies, s, deadline, window);
    } else {
      var first := NextItem(replies, s, ForInAir, deadline);
      if replies(s.cursor).telemetry.sample.inAir == IsTrue {
        LandingSucceeds(replies, first.st, deadline, window);
      }
    }
  }

  lemma Prompt(replies: Replies, window: nat, i: nat)
    requires Answering(replies, OnGround, window) && Willing(replies(i))
    ensures replies(i).delay <= window && replies(i).raised.None? && replies(i).telemetry.Item?
  {
    assert AnsweredFrom(replies, OnGround, window, i);
  }

  lemma LandingSucceeds(replies: Replies, s: St, deadline: nat, window: nat)
    requires (forall i :: Willing(replies(i))) && Answering(replies, OnGround, window)
    requires s.clock + 2 * window <= deadline
    ensures LandAndConfirm(replies, s, deadline).out == Ok(LandingConfirmed)
  {
    Prompt(replies, window, s.cursor);
    hide WaitFor, Elapsed, Willing;
    var l := Send(replies, s, Land, At(deadline));
    assert AnsweredFrom(replies, OnGround, window, l.st.cursor);
    var j: nat :| Answers(replies, OnGround, window, l.st.cursor, j);
    WaitUntil(replies, l.st, ForLanding, deadline, j);
  }

  /**
   * What an approver asked for can be flown: a permitted takeoff-holds-land mission, its built and signed
   * approval in force, an unused nonce, a working store and a cooperative vehicle end in exit code 0.
   */
  lemma ApprovedMissionFlies(g: Setting, i: Invocation, db: Db, r: Request, window: nat)
    requires IsHypot(g.h) && Faithful(g.w.printer) && RoundsToNearest(g.w.floats) && Correct(g.w.scheme)
    requires Build(g.w, r).Ok? && UnitsRepresentable(Build(g.w, r).value.units)
    requires Parsed(i) && i.command == Mavsdk && i.mission == Loaded(r.mission) && g.limits == r.limits
    requires InputFloats(g.w, r.mission, r.limits)
    requires Flyable(r.mission.actions) && Permitted(g.h, r.limits, r.mission.actions)
    requires i.envelope == Loaded(Sign(g.w, Build(g.w, r).value))
    requires r.executor == EXECUTOR_NAME && r.now - g.w.skew <= i.now < r.now + r.ttl && r.ttl <= g.w.lifetime
    requires db.txn.Idle? && r.nonce !in db.table && forall stage :: i.faults(stage).None?
    requires var p := Build(g.w, r).value;
             BoundHome(g.w, p).Ok? ==>
               Cooperative(g.env, g.cfg, BoundHome(g.w, p).value, r.mission.actions[0].altitude, window)
    ensures Pipeline(g, i, db).exit == Code(0)
  {
    hide Faithful, IsHypot, RoundsToNearest, Correct, Permitted, Approved, InputFloats, Cooperative, Execute, Verify,
         BoundHome, Close, Pipeline, Build, UnitsRepresentable;
    var p, m := Build(g.w, r).value, r.mission;
    BuiltHomeBinds(g.w, r);
    VerifiesNow(g.w, r, i.now);
    ApprovedIffPermitted(g.h, g.limits, m.actions);
    FlyableSupported(m.actions);
    CooperativeRunCompletes(g.env, g.cfg, BoundHome(g.w, p).value, window, m.actions);
    AuthorizedFlightExits(g, i, db);
  }

  lemma FlyableSupported(actions: seq<Action>)
    requires Flyable(actions)
    ensures forall k :: 0 <= k < |actions| ==> Supported(actions[k])
  {
  }

  lemma VerifiesNow(w: World, r: Request, now: int)
    requires Faithful(w.printer) && Correct(w.scheme) && Build(w, r).Ok? && InputFloats(w, r.mission, r.limits)
    requires r.now - w.skew <= now < r.now + r.ttl && r.ttl <= w.lifetime
    ensures var e := Sign(w, Build(w, r).value);
            Verify(w, e, r.mission, r.limits, r.executor, now) == Ok(e.payload) && e.payload.nonce == r.nonce
  {
    SignedVerifiesIff(w, r, r.mission, r.limits, r.executor, now);
    hide Verify, Faithful, Correct, InputFloats, MissionCollision, LimitsCollision, Fits;
    hide MissionSha, PolicySha, HomeSha, ToUnits;
    assert Covers(w, r, r.mission, r.limits, r.executor, now);
  }

  /** The command line adds no obstacle of its own. */
  lemma AuthorizedFlightExits(g: Setting, i: Invocation, db: Db)
    requires Parsed(i) && i.command == Mavsdk && i.mission.Loaded? && i.envelope.Loaded?
    requires Accepted(g.h, g.limits, i.mission.value.actions)
    requires var e := i.envelope.value;
             Verify(g.w, e, i.mission.value, g.limits, EXECUTOR_NAME, i.now) == Ok(e.payload)
    requires db.txn.Idle? && i.envelope.value.payload.nonce !in db.table && forall stage :: i.faults(stage).None?
    requires Execute(g.env, g.cfg, BoundHome(g.w, i.envelope.value.payload), i.mission.value.actions, INITIAL).out.Ok?
    ensures Pipeline(g, i, db).exit == Code(0)
  {
    hide Verify, Execute, BoundHome, Approved;
  }
}
