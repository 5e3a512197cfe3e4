/**
 * Every run of an accepted mission, step by step: what the monitor has seen at each point.
 */
module ExecutorSafety {
  import opened Models
  import opened Vehicle
  import opened Executor
  import opened Monitor
  import opened Options

  /** takeoff, holds, land: the missions the executor accepts (see `FlightTheorems.AcceptedIff`). */
  predicate Flyable(actions: seq<Action>) {
    && |actions| >= 2
    && actions[0].TakeoffAction?
    && actions[|actions| - 1].LandAction?
    && forall i :: 1 <= i < |actions| - 1 ==> actions[i].HoldAction?
  }

  /** The commands of an undisturbed run. */
  function Plan(actions: seq<Action>): seq<Command>
    requires Flyable(actions)
  {
    [Connect, SetTakeoffAltitude(actions[0].altitude), Arm, Takeoff, Land]
  }

  function TurnRecords(action: Action, sequence: nat): seq<Record> {
    [ActionStarted(sequence)]
    + (if action.TakeoffAction? then [HomeCheck(PostArm, true)] else [])
    + [ActionCompleted(sequence)]
  }

  /** The audit records of the first `k` turns of an undisturbed run. */
  function Script(actions: seq<Action>, k: nat): seq<Record>
    requires k <= |actions|
  {
    if k == 0 then [MissionStarted, HomeCheck(PreArm, true)]
    else Script(actions, k - 1) + TurnRecords(actions[k - 1], k)
  }

  /** The hold durations among the first `k` actions, in order. */
  function Durations(actions: seq<Action>, k: nat): seq<int>
    requires k <= |actions|
  {
    if k == 0 then []
    else Durations(actions, k - 1) + (if actions[k - 1].HoldAction? then [actions[k - 1].seconds] else [])
  }

  /** A prefix of `full`, except that the last record may be a home check that found a mismatch. */
  predicate Cut(records: seq<Record>, full: seq<Record>) {
    || records <= full
    || (records != []
        && records[|records| - 1].HomeCheck?
        && records[..|records| - 1] + [records[|records| - 1].(within := true)] <= full)
  }

  /** The rules that fit a run: this home and tolerance, this altitude, this sink. */
  ghost predicate Tests(ok: Rules, env: Env, cfg: Config, bound: Home) {
    && (forall h: Home :: ok.home(h) == cfg.within(bound, h))
    && ok.sink == env.sink
  }

  // ----- the steps of the try block

  predicate Ready(m: Mon) {
    m.alarms == {} && !m.failed && Takeoff !in m.commands
  }

  /** A home check that fails adds at most milestones and its own record. */
  predicate CheckFailed(m: Mon, m': Mon, phase: Phase) {
    && m' == m.(progress := m'.progress, records := m'.records, failed := m'.failed)
    && (|| m'.records == m.records
        || m'.records == m.records + [HomeCheck(phase, true)]
        || m'.records == m.records + [HomeCheck(phase, false)])
  }

  /** The milestone before the check of `phase`. */
  function Before(phase: Phase): nat {
    if phase == PreArm then 1 else 6
  }

  /** The home item counts as a milestone exactly when it is within tolerance. */
  lemma HomeItemSeen(ok: Rules, env: Env, cfg: Config, bound: Home, m: Mon, sample: Sample, phase: Phase)
    requires Tests(ok, env, cfg, bound) && m.progress == Before(phase)
    ensures Next(ok, m, Saw(ForHome, sample))
         == if sample.home.Some? && cfg.within(bound, sample.home.value) then m.(progress := Before(phase) + 1) else m
    ensures Next(ok, m, Saw(ForHealth, sample)) == m
  {
  }

  lemma ReadHomeSeen(ok: Rules, env: Env, cfg: Config, bound: Home, s: St, phase: Phase)
    requires Tests(ok, env, cfg, bound) && Seen(ok, s).progress == Before(phase)
    ensures var r, m := ReadHome(env, cfg, s), Seen(ok, s);
            match r.out
            case Ok(live) =>
              Seen(ok, r.st) == m.(progress := if cfg.within(bound, live) then Before(phase) + 1 else Before(phase))
            case Raise(_) => Seen(ok, r.st) == m.(progress := Seen(ok, r.st).progress)
  {
    hide Watch, WaitFor, Next;
    if env.exposesHome {
      var deadline := s.clock + cfg.connectionTimeout;
      WaitForSeen(ok, env.replies, s, ForHealth, deadline);
      var health := WaitFor(env.replies, s, ForHealth, deadline);
      if health.out.Ok? {
        HomeItemSeen(ok, env, cfg, bound, Seen(ok, s), health.out.value, phase);
        WaitForSeen(ok, env.replies, health.st, ForHome, deadline);
        var fix := WaitFor(env.replies, health.st, ForHome, deadline);
        if fix.out.Ok? {
          HomeItemSeen(ok, env, cfg, bound, Seen(ok, s), fix.out.value, phase);
        }
      }
    }
  }

  lemma VerifyHomeSeen(ok: Rules, env: Env, cfg: Config, s: St, bound: Home, live: Home, phase: Phase)
    requires Ready(Seen(ok, s)) && ok.sink == env.sink
    requires cfg.within(bound, live) ==> Seen(ok, s).progress == Before(phase) + 1
    ensures var r, m := VerifyHome(env, cfg, s, bound, live, phase), Seen(ok, s);
            if r.out.Ok? then
              Seen(ok, r.st) == m.(progress := Before(phase) + 2, records := m.records + [HomeCheck(phase, true)])
            else CheckFailed(m, Seen(ok, r.st), phase)
  {
    hide Watch, Write;
    WriteSeen(ok, env.sink, s, HomeCheck(phase, cfg.within(bound, live)), true);
  }

  lemma CheckHomeSeen(ok: Rules, env: Env, cfg: Config, bound: Home, phase: Phase, s: St)
    requires Tests(ok, env, cfg, bound) && Ready(Seen(ok, s)) && Seen(ok, s).progress == Before(phase)
    ensures var r, m := CheckHome(env, cfg, bound, phase, s), Seen(ok, s);
            if r.out.Ok? then
              Seen(ok, r.st) == m.(progress := Before(phase) + 2, records := m.records + [HomeCheck(phase, true)])
            else CheckFailed(m, Seen(ok, r.st), phase)
  {
    ReadHomeSeen(ok, env, cfg, bound, s, phase);
    var r := ReadHome(env, cfg, s);
    if r.out.Ok? {
      VerifyHomeSeen(ok, env, cfg, r.st, bound, r.out.value, phase);
    }
  }

  function AfterArm(m: Mon): Mon {
    m.(commands := m.commands + [Arm], landSent := false, landed := false, disarmed := false)
  }

  lemma ArmAndCheckSeen(ok: Rules, env: Env, cfg: Config, bound: Home, s: St)
    requires Tests(ok, env, cfg, bound) && Ready(Seen(ok, s)) && Seen(ok, s).progress == 3
    ensures var r, m := ArmAndCheck(env, cfg, bound, s), AfterArm(Seen(ok, s));
            if r.out.Ok? then
              Seen(ok, r.st) == m.(progress := OPEN, records := m.records + [HomeCheck(PostArm, true)])
            else CheckFailed(m, Seen(ok, r.st), PostArm)
  {
    hide Watch, WaitFor, Send, CheckHome;
    SendSeen(ok, env.replies, s, Arm, Never);
    var a := Send(env.replies, s, Arm, Never);
    assert Seen(ok, a.st) == AfterArm(Seen(ok, s)).(progress := Seen(ok, a.st).progress);
    if a.out.Ok? {
      assert Seen(ok, a.st).progress == 5;
      WaitForSeen(ok, env.replies, a.st, ForArmed, a.st.clock + cfg.takeoffTimeout);
      var w := WaitUntilArmed(env, cfg, a.st);
      if w.out.Ok? {
        assert Seen(ok, w.st) == Seen(ok, a.st).(progress := 6);
        CheckHomeSeen(ok, env, cfg, bound, PostArm, w.st);
      }
    }
  }

  lemma ClimbSeen(ok: Rules, env: Env, cfg: Config, altitude: real, s: St, flags: Flags)
    requires Ready(Seen(ok, s)) && Seen(ok, s).progress == OPEN && ok.minimum == MinimumAltitude(cfg, altitude)
    ensures var leg, m := Climb(env, cfg, altitude, s, flags), Seen(ok, s);
            && Seen(ok, leg.st) == m.(progress := 3, commands := m.commands + [Takeoff], reached := leg.out.Ok?)
            && leg.flags == flags.(committed := leg.flags.committed)
            && (leg.out.Ok? ==> leg.flags.committed)
  {
    hide Watch, WaitFor, Send;
    SendSeen(ok, env.replies, s, Takeoff, Never);
    var t := Send(env.replies, s, Takeoff, Never);
    if t.out.Ok? {
      WaitForSeen(ok, env.replies, t.st, ForAltitude(MinimumAltitude(cfg, altitude)), t.st.clock + cfg.takeoffTimeout);
    }
  }

  /**
   * The try block has stopped: the commands are a prefix of the plan, the flags say what recovery
   * must do about it, and the records are a prefix of the script.
   */
  predicate Stopped(m: Mon, flags: Flags, actions: seq<Action>)
    requires Flyable(actions)
  {
    && m.alarms == {} && !m.disarmed
    && m.commands <= Plan(actions)
    && (flags.recoveryRequired <==> Arm in m.commands && !m.landed)
    && (flags.attempted <==> Takeoff in m.commands)
    && (m.landed ==> m.commands == Plan(actions))
    && [MissionStarted] <= m.records
    && Cut(m.records, Script(actions, |actions|))
  }

  /** Between turns: `k` actions are done. */
  predicate Between(m: Mon, flags: Flags, actions: seq<Action>, k: nat)
    requires Flyable(actions) && k <= |actions|
  {
    && m.alarms == {} && !m.disarmed && !m.failed
    && m.progress == 3
    && m.records == Script(actions, k)
    && m.slept == Durations(actions, k)
    && (if k == 0 then
          m.commands == [Connect] && flags == GROUNDED && !m.landSent && !m.landed
        else if k < |actions| then
          m.commands == Plan(actions)[..4] && flags == Flags(true, true, true) && m.reached && !m.landed
        else
          m.commands == Plan(actions) && flags == Flags(true, false, true) && m.landSent && m.landed)
  }

  lemma {:induction false} ScriptGrows(actions: seq<Action>, k: nat, n: nat)
    requires k <= n <= |actions|
    ensures Script(actions, k) <= Script(actions, n)
    decreases n
  {
    if k == n {
    } else {
      ScriptGrows(actions, k, n - 1);
    }
  }

  lemma ScriptStarts(actions: seq<Action>, k: nat)
    requires k <= |actions|
    ensures [MissionStarted] <= Script(actions, k)
  {
    ScriptGrows(actions, 0, k);
  }

  lemma CutExtends(base: seq<Record>, part: seq<Record>, turn: seq<Record>, full: seq<Record>)
    requires Cut(part, turn) && base + turn <= full
    ensures Cut(base + part, full)
  {
    if part <= turn {
      assert base + part <= base + turn;
    } else {
      var last := part[|part| - 1];
      var mended := part[..|part| - 1] + [last.(within := true)];
      assert (base + part)[..|base + part| - 1] + [last.(within := true)] == base + mended;
      assert base + mended <= base + turn;
    }
  }

  /** Records inside turn `k` (0-based): a cut of the whole script. */
  lemma TurnCut(actions: seq<Action>, k: nat, part: seq<Record>)
    requires k < |actions| && Cut(part, TurnRecords(actions[k], k + 1))
    ensures Cut(Script(actions, k) + part, Script(actions, |actions|))
  {
    ScriptGrows(actions, k + 1, |actions|);
    CutExtends(Script(actions, k), part, TurnRecords(actions[k], k + 1), Script(actions, |actions|));
  }

  lemma StartedSeen(ok: Rules, env: Env, sequence: nat, s: St, strict: bool)
    requires ok.sink == env.sink
    ensures var w, m := Write(env.sink, s, ActionStarted(sequence), strict), Seen(ok, s);
            && Seen(ok, w.st) == m.(records := m.records + [ActionStarted(sequence)], failed := Seen(ok, w.st).failed)
            && (w.out.Ok? && !m.failed ==> !Seen(ok, w.st).failed)
  {
    hide Watch, Write;
    WriteSeen(ok, env.sink, s, ActionStarted(sequence), strict);
  }

  lemma CompletedSeen(ok: Rules, env: Env, sequence: nat, s: St, strict: bool)
    requires ok.sink == env.sink
    ensures var w, m := Write(env.sink, s, ActionCompleted(sequence), strict), Seen(ok, s);
            && Seen(ok, w.st) == m.(records := m.records + [ActionCompleted(sequence)], failed := Seen(ok, w.st).failed)
            && (w.out.Ok? && !m.failed ==> !Seen(ok, w.st).failed)
  {
    hide Watch, Write;
    WriteSeen(ok, env.sink, s, ActionCompleted(sequence), strict);
  }

  // ----- the turns

  /** What a takeoff action that raises has left behind: commands in order, flags to match. */
  predicate TakeoffStopped(m: Mon, m': Mon, flags: Flags, altitude: real) {
    && m' == m.(progress := m'.progress, commands := m'.commands, records := m'.records,
                reached := m'.reached, failed := m'.failed)
    && (|| m'.records == m.records
        || m'.records == m.records + [HomeCheck(PostArm, true)]
        || m'.records == m.records + [HomeCheck(PostArm, false)])
    && (|| (m'.commands == m.commands + [SetTakeoffAltitude(altitude)]
            && !flags.recoveryRequired && !flags.attempted)
        || (m'.commands == m.commands + [SetTakeoffAltitude(altitude), Arm]
            && flags.recoveryRequired && !flags.attempted)
        || (m'.commands == m.commands + [SetTakeoffAltitude(altitude), Arm, Takeoff]
            && flags.recoveryRequired && flags.attempted))
  }

  predicate Fresh(m: Mon) {
    Ready(m) && m.progress == 3 && !m.landSent && !m.landed && !m.disarmed
  }

  lemma RunTakeoffSeen(ok: Rules, env: Env, cfg: Config, bound: Home, altitude: real, s: St)
    requires Tests(ok, env, cfg, bound) && Fresh(Seen(ok, s)) && ok.minimum == MinimumAltitude(cfg, altitude)
    ensures var leg, m := RunTakeoff(env, cfg, bound, altitude, s, GROUNDED), Seen(ok, s);
            if leg.out.Ok? then
              && leg.flags == Flags(true, true, true)
              && Seen(ok, leg.st) == m.(
                   commands := m.commands + [SetTakeoffAltitude(altitude), Arm, Takeoff],
                   records := m.records + [HomeCheck(PostArm, true)],
                   reached := true)
            else TakeoffStopped(m, Seen(ok, leg.st), leg.flags, altitude)
  {
    hide Watch, Send, ArmAndCheck, Climb;
    SendSeen(ok, env.replies, s, SetTakeoffAltitude(altitude), Never);
    var c := Send(env.replies, s, SetTakeoffAltitude(altitude), Never);
    assert Seen(ok, c.st) == Seen(ok, s).(commands := Seen(ok, s).commands + [SetTakeoffAltitude(altitude)]);
    if c.out.Ok? {
      ArmAndCheckSeen(ok, env, cfg, bound, c.st);
      var a := ArmAndCheck(env, cfg, bound, c.st);
      if a.out.Ok? {
        ClimbSeen(ok, env, cfg, altitude, a.st, Flags(false, true, true));
      }
    }
  }

  lemma RunHoldSeen(ok: Rules, env: Env, seconds: int, s: St, flags: Flags)
    requires Seen(ok, s).reached
    ensures var leg, m := RunHold(env, seconds, s, flags), Seen(ok, s);
            && leg.flags == flags
            && Seen(ok, leg.st) == if leg.out.Ok? then m.(slept := m.slept + [seconds]) else m
  {
    hide Watch, Sleep;
    SleepSeen(ok, env.replies, s, seconds);
  }

  lemma RunLandSeen(ok: Rules, env: Env, cfg: Config, s: St, flags: Flags)
    requires !Seen(ok, s).landed && !Seen(ok, s).disarmed
    ensures var leg, m := RunLand(env, cfg, s, flags), Seen(ok, s);
            && Seen(ok, leg.st) == m.(commands := m.commands + [Land], landSent := true, landed := leg.out.Ok?)
            && leg.flags == if leg.out.Ok? then flags.(recoveryRequired := false) else flags
  {
    hide Watch, Send, WaitFor, Next;
    SendSeen(ok, env.replies, s, Land, Never);
    ClosingCommandSeen(ok, Seen(ok, s), Land);
    var l := Send(env.replies, s, Land, Never);
    if l.out.Ok? {
      var deadline := l.st.clock + cfg.landingTimeout;
      WaitForSeen(ok, env.replies, l.st, ForLanding, deadline);
      var w := WaitFor(env.replies, l.st, ForLanding, deadline);
      if w.out.Ok? {
        LandingItemSeen(ok, Seen(ok, l.st), w.out.value);
      }
    }
  }

  predicate TurnDone(ok: Rules, leg: Leg, actions: seq<Action>, k: nat)
    requires Flyable(actions) && k < |actions|
  {
    if leg.out.Ok? then Between(Seen(ok, leg.st), leg.flags, actions, k + 1)
    else Stopped(Seen(ok, leg.st), leg.flags, actions)
  }

  lemma TakeoffTurn(ok: Rules, env: Env, cfg: Config, bound: Home, actions: seq<Action>, s: St)
    requires Flyable(actions) && Tests(ok, env, cfg, bound) && Between(Seen(ok, s), GROUNDED, actions, 0)
    requires ok.minimum == MinimumAltitude(cfg, actions[0].altitude)
    ensures TurnDone(ok, RunTurn(env, cfg, bound, actions[0], 1, s, GROUNDED), actions, 0)
  {
    hide Watch, Write, RunTakeoff;
    var altitude := actions[0].altitude;
    StartedSeen(ok, env, 1, s, true);
    var w := Write(env.sink, s, ActionStarted(1), true);
    TurnCut(actions, 0, [ActionStarted(1)]);
    if w.out.Ok? {
      RunTakeoffSeen(ok, env, cfg, bound, altitude, w.st);
      var leg := RunTakeoff(env, cfg, bound, altitude, w.st, GROUNDED);
      TurnCut(actions, 0, [ActionStarted(1), HomeCheck(PostArm, true)]);
      TurnCut(actions, 0, [ActionStarted(1), HomeCheck(PostArm, false)]);
      if leg.out.Ok? {
        CompletedSeen(ok, env, 1, leg.st, false);
        PlanFacts(actions);
        ScriptGrows(actions, 1, |actions|);
        TakeoffDone(Seen(ok, s), Seen(ok, leg.st), actions);
      } else {
        TakeoffStops(Seen(ok, s), Seen(ok, leg.st), leg.flags, actions);
      }
    }
  }

  lemma TakeoffStops(m: Mon, m': Mon, flags: Flags, actions: seq<Action>)
    requires Flyable(actions) && Between(m, GROUNDED, actions, 0)
    requires TakeoffStopped(m.(records := m.records + [ActionStarted(1)]), m', flags, actions[0].altitude)
    ensures Stopped(m', flags, actions)
  {
    TurnCut(actions, 0, [ActionStarted(1)]);
    TurnCut(actions, 0, [ActionStarted(1), HomeCheck(PostArm, true)]);
    TurnCut(actions, 0, [ActionStarted(1), HomeCheck(PostArm, false)]);
    var base := Script(actions, 0);
    assert base + [ActionStarted(1)] + [HomeCheck(PostArm, true)]
        == base + [ActionStarted(1), HomeCheck(PostArm, true)];
    assert base + [ActionStarted(1)] + [HomeCheck(PostArm, false)]
        == base + [ActionStarted(1), HomeCheck(PostArm, false)];
  }

  /** The records and commands after a takeoff turn, written as the plan and the script have them. */
  lemma TakeoffDone(m: Mon, m': Mon, actions: seq<Action>)
    requires Flyable(actions) && Between(m, GROUNDED, actions, 0)
    requires m'.records == m.records + [ActionStarted(1)] + [HomeCheck(PostArm, true)]
    requires m'.commands == m.commands + [SetTakeoffAltitude(actions[0].altitude), Arm, Takeoff]
    ensures m'.records + [ActionCompleted(1)] == Script(actions, 1)
    ensures m'.commands == Plan(actions)[..4]
    ensures Durations(actions, 1) == []
  {
    hide Stopped;
    var turn := [ActionStarted(1), HomeCheck(PostArm, true), ActionCompleted(1)];
    assert TurnRecords(actions[0], 1) == turn;
    assert Script(actions, 1) == Script(actions, 0) + turn;
    assert Durations(actions, 0) == [];
  }

  /** A cruising turn (hold or land) logs a start, acts, and logs a completion. */
  lemma CruiseScript(actions: seq<Action>, k: nat)
    requires Flyable(actions) && 1 <= k < |actions|
    ensures Script(actions, k) + [ActionStarted(k + 1)] + [ActionCompleted(k + 1)] == Script(actions, k + 1)
    ensures Cut(Script(actions, k) + [ActionStarted(k + 1)], Script(actions, |actions|))
    ensures Cut(Script(actions, k + 1), Script(actions, |actions|))
    ensures [MissionStarted] <= Script(actions, k)
    ensures actions[k].HoldAction? ==> Durations(actions, k + 1) == Durations(actions, k) + [actions[k].seconds]
    ensures actions[k].LandAction? ==> Durations(actions, k + 1) == Durations(actions, k)
  {
    assert actions[k].HoldAction? || actions[k].LandAction?;
    var turn := [ActionStarted(k + 1), ActionCompleted(k + 1)];
    assert TurnRecords(actions[k], k + 1) == turn;
    assert Script(actions, k + 1) == Script(actions, k) + turn;
    assert Durations(actions, k + 1)
        == Durations(actions, k) + (if actions[k].HoldAction? then [actions[k].seconds] else []);
    hide Script, Durations;
    ScriptStarts(actions, k);
    TurnCut(actions, k, [ActionStarted(k + 1)]);
    ScriptGrows(actions, k + 1, |actions|);
  }

  const FLYING := Flags(true, true, true)

  lemma PlanFacts(actions: seq<Action>)
    requires Flyable(actions)
    ensures Plan(actions)[..4] <= Plan(actions)
    ensures Arm in Plan(actions)[..4] && Takeoff in Plan(actions)[..4]
    ensures Arm in Plan(actions) && Takeoff in Plan(actions)
    ensures Plan(actions)[..4] + [Land] == Plan(actions)
  {
    assert Plan(actions)[..4][2] == Arm && Plan(actions)[..4][3] == Takeoff;
    assert Plan(actions)[2] == Arm && Plan(actions)[3] == Takeoff;
  }

  lemma HoldTurn(ok: Rules, env: Env, cfg: Config, bound: Home, actions: seq<Action>, k: nat, s: St)
    requires Flyable(actions) && ok.sink == env.sink && 1 <= k < |actions| - 1
    requires Between(Seen(ok, s), FLYING, actions, k)
    ensures TurnDone(ok, RunTurn(env, cfg, bound, actions[k], k + 1, s, FLYING), actions, k)
  {
    hide Watch, Write, RunHold, Cut, Script, Durations;
    CruiseScript(actions, k);
    PlanFacts(actions);
    StartedSeen(ok, env, k + 1, s, false);
    var w := Write(env.sink, s, ActionStarted(k + 1), false);
    if w.out.Ok? {
      RunHoldSeen(ok, env, actions[k].seconds, w.st, FLYING);
      var leg := RunHold(env, actions[k].seconds, w.st, FLYING);
      if leg.out.Ok? {
        CompletedSeen(ok, env, k + 1, leg.st, false);
      }
    }
  }

  lemma LandTurn(ok: Rules, env: Env, cfg: Config, bound: Home, actions: seq<Action>, s: St)
    requires Flyable(actions) && ok.sink == env.sink && Between(Seen(ok, s), FLYING, actions, |actions| - 1)
    ensures TurnDone(ok, RunTurn(env, cfg, bound, actions[|actions| - 1], |actions|, s, FLYING), actions, |actions| - 1)
  {
    hide Watch, Write, RunLand, Cut, Script, Durations;
    var k := |actions| - 1;
    CruiseScript(actions, k);
    PlanFacts(actions);
    StartedSeen(ok, env, k + 1, s, false);
    var w := Write(env.sink, s, ActionStarted(k + 1), false);
    if w.out.Ok? {
      RunLandSeen(ok, env, cfg, w.st, FLYING);
      var leg := RunLand(env, cfg, w.st, FLYING);
      assert Seen(ok, leg.st).commands == Plan(actions);
      if leg.out.Ok? {
        CompletedSeen(ok, env, k + 1, leg.st, false);
      }
    }
  }

  predicate LegDone(ok: Rules, leg: Leg, actions: seq<Action>)
    requires Flyable(actions)
  {
    if leg.out.Ok? then Between(Seen(ok, leg.st), leg.flags, actions, |actions|)
    else Stopped(Seen(ok, leg.st), leg.flags, actions)
  }

  lemma {:induction false} RunActionsSeen(
    ok: Rules, env: Env, cfg: Config, bound: Home, actions: seq<Action>, k: nat, s: St, flags: Flags)
    requires Flyable(actions) && Tests(ok, env, cfg, bound) && k <= |actions| && Between(Seen(ok, s), flags, actions, k)
    requires ok.minimum == MinimumAltitude(cfg, actions[0].altitude)
    ensures LegDone(ok, RunActions(env, cfg, bound, actions, k, s, flags), actions)
    decreases |actions| - k
  {
    hide Watch, RunTurn, Stopped;
    if k == |actions| {
    } else {
      if k == 0 {
        TakeoffTurn(ok, env, cfg, bound, actions, s);
      } else if k < |actions| - 1 {
        HoldTurn(ok, env, cfg, bound, actions, k, s);
      } else {
        LandTurn(ok, env, cfg, bound, actions, s);
      }
      var leg := RunTurn(env, cfg, bound, actions[k], k + 1, s, flags);
      if leg.out.Ok? {
        RunActionsSeen(ok, env, cfg, bound, actions, k + 1, leg.st, leg.flags);
      }
    }
  }
}
