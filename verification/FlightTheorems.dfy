/**
 * The safety theorems of the executor, stated on the trace of an arbitrary run: for every environment,
 * every configuration, and every mission `validate_mission` accepts.
 */
module FlightTheorems {
  import opened Models
  import Policy
  import PolicyGrammar
  import opened Vehicle
  import opened Executor
  import opened Monitor
  import opened ExecutorSafety
  import opened ExecutorRuns
  import opened TraceMeaning
  import opened Additions
  import opened OneTakeoff
  import opened Options

  // ----- which missions the executor accepts

  predicate Supported(a: Action) {
    a.TakeoffAction? || a.HoldAction? || a.LandAction?
  }

  /** `validate_mission`: policy first, then the actions the executor can translate. */
  function Validate(h: Policy.Hypot, limits: PolicyLimits, actions: seq<Action>): Outcome<()>
    requires actions != []
  {
    if !Policy.Approved(h, limits, actions) then Raise(PolicyRejected)
    else if exists i :: 0 <= i < |actions| && !Supported(actions[i]) then Raise(Unsupported)
    else Ok(())
  }

  predicate Accepted(h: Policy.Hypot, limits: PolicyLimits, actions: seq<Action>) {
    ActionsValid(actions) && Validate(h, limits, actions).Ok?
  }

  lemma ApprovedIsGrammatical(h: Policy.Hypot, limits: PolicyLimits, actions: seq<Action>)
    requires ActionsValid(actions) && Policy.Approved(h, limits, actions)
    ensures PolicyGrammar.Grammatical(actions)
  {
    hide Policy.Gathered, Policy.PassAt, ActionsValid, PolicyGrammar.Grammatical, PolicyGrammar.LegalUpTo;
    PolicyGrammar.GatheredClean(h, limits, actions, |actions|);
    PolicyGrammar.LegalIsSentence(actions);
  }

  lemma SupportedSentence(actions: seq<Action>, m: nat)
    requires PolicyGrammar.Sentence(actions, m) && forall i :: 0 <= i < |actions| ==> Supported(actions[i])
    ensures Flyable(actions)
  {
    assert actions[m] == actions[m..][0];
    assert |actions[m..]| == |actions| - m;
    assert Supported(actions[m]);
  }

  lemma AcceptedIsFlyable(h: Policy.Hypot, limits: PolicyLimits, actions: seq<Action>)
    requires Accepted(h, limits, actions)
    ensures Flyable(actions)
  {
    hide Policy.Approved, Flyable, Supported, PolicyGrammar.Sentence;
    ApprovedIsGrammatical(h, limits, actions);
    var m: nat :| PolicyGrammar.Sentence(actions, m);
    SupportedSentence(actions, m);
  }

  lemma FlyableIsSentence(actions: seq<Action>)
    requires Flyable(actions)
    ensures PolicyGrammar.Grammatical(actions)
  {
    var m := |actions| - 1;
    assert actions[m..] == [LandAction];
    assert PolicyGrammar.Sentence(actions, m);
  }

  /** `validate_mission` accepts exactly takeoff, holds, land, within the budgets. */
  lemma AcceptedIff(h: Policy.Hypot, limits: PolicyLimits, actions: seq<Action>)
    requires PolicyGrammar.IsHypot(h) && ActionsValid(actions)
    ensures Validate(h, limits, actions).Ok? <==> Flyable(actions) && PolicyGrammar.WithinBudgets(h, limits, actions)
  {
    PolicyGrammar.ApprovedIffPermitted(h, limits, actions);
    if Validate(h, limits, actions).Ok? {
      AcceptedIsFlyable(h, limits, actions);
    } else if Flyable(actions) {
      FlyableIsSentence(actions);
    }
  }

  /** Which refusal: policy's first, and only then that of the executor's capabilities. */
  lemma RefusedIff(h: Policy.Hypot, limits: PolicyLimits, actions: seq<Action>)
    requires PolicyGrammar.IsHypot(h) && ActionsValid(actions)
    ensures Validate(h, limits, actions) == Raise(PolicyRejected) <==> !PolicyGrammar.Permitted(h, limits, actions)
    ensures Validate(h, limits, actions) == Raise(Unsupported)
       <==> && PolicyGrammar.Permitted(h, limits, actions)
            && exists i :: 0 <= i < |actions| && (actions[i].GotoAction? || actions[i].ReturnHomeAction?)
  {
    hide PolicyGrammar.IsHypot, PolicyGrammar.Permitted, ActionsValid, Policy.Approved;
    PolicyGrammar.ApprovedIffPermitted(h, limits, actions);
    assert forall i :: 0 <= i < |actions| ==>
        (Supported(actions[i]) <==> !(actions[i].GotoAction? || actions[i].ReturnHomeAction?));
  }

  // ----- the monitor of a run

  function HomeOf(bound: Outcome<Home>): Home {
    match bound
    case Ok(home) => home
    case Raise(_) => Home(0.0, 0.0, 0.0)
  }

  function RulesOf(env: Env, cfg: Config, bound: Outcome<Home>, actions: seq<Action>): Rules
    requires Flyable(actions)
  {
    Rules((live: Home) => cfg.within(HomeOf(bound), live), MinimumAltitude(cfg, actions[0].altitude), env.sink)
  }

  lemma RunVerdict(env: Env, cfg: Config, bound: Outcome<Home>, actions: seq<Action>)
    requires Flyable(actions)
    ensures var run := Execute(env, cfg, bound, actions, INITIAL);
            Verdict(Watch(RulesOf(env, cfg, bound, actions), run.st.trace), run, actions)
  {
    hide Verdict, Execute;
    var ok := RulesOf(env, cfg, bound, actions);
    ExecuteSeen(ok, env, cfg, HomeOf(bound), bound, actions);
  }

  // ----- commands

  lemma {:induction false} FlyableTakesOffOnce(actions: seq<Action>, k: nat)
    requires Flyable(actions) && 1 <= k <= |actions|
    ensures Takeoffs(actions[..k]) == 1
  {
    TakeoffsSnoc(actions, k - 1);
    if k == 1 {
      NoneYet(actions);
    } else {
      FlyableTakesOffOnce(actions, k - 1);
    }
  }

  /** What policy gives the executor: one takeoff. */
  lemma AcceptedTakesOffOnce(h: Policy.Hypot, limits: PolicyLimits, actions: seq<Action>)
    requires Accepted(h, limits, actions)
    ensures Takeoffs(actions) == 1
  {
    AcceptedIsFlyable(h, limits, actions);
    FlyableTakesOffOnce(actions, |actions|);
    assert actions[..|actions|] == actions;
  }

  /**
   * Disarm is sent only right after an in_air item that is exactly False, and never in a run that
   * commanded takeoff, before or after.
   */
  lemma DisarmOnlyOnGround(
    h: Policy.Hypot, limits: PolicyLimits, env: Env, cfg: Config, bound: Outcome<Home>, actions: seq<Action>, i: nat)
    requires Accepted(h, limits, actions)
    requires i < |TraceOf(env, cfg, bound, actions)| && TraceOf(env, cfg, bound, actions)[i] == Issued(Disarm)
    ensures EndsInFalse(TraceOf(env, cfg, bound, actions)[..i])
    ensures Issued(Takeoff) !in TraceOf(env, cfg, bound, actions)
  {
    hide TraceOf, Accepted, Takeoffs;
    AcceptedTakesOffOnce(h, limits, actions);
    DisarmNeedsFalse(env, cfg, bound, actions, i);
    OneTakeoffSuffices(env, cfg, bound, actions);
  }

  /** The commands of any run: a prefix of the plan, then at most one recovery command. */
  lemma CommandsAreAWord(
    h: Policy.Hypot, limits: PolicyLimits, env: Env, cfg: Config, bound: Outcome<Home>, actions: seq<Action>)
    requires Accepted(h, limits, actions)
    ensures Flyable(actions) && CommandWord(CommandsOf(TraceOf(env, cfg, bound, actions)), actions)
  {
    hide Execute, Watch, CommandWord, AuditWord, Cleaned, Completed;
    AcceptedIsFlyable(h, limits, actions);
    RunVerdict(env, cfg, bound, actions);
    Projections(RulesOf(env, cfg, bound, actions), TraceOf(env, cfg, bound, actions));
  }

  /** In a command word takeoff comes after arm and at most once, and land after takeoff. */
  lemma WordOrder(commands: seq<Command>, actions: seq<Action>)
    requires Flyable(actions) && CommandWord(commands, actions)
    ensures Takeoff in commands ==> Arm in commands && Land in commands
    ensures forall b :: 0 <= b < |commands| && commands[b] == Takeoff ==> b == 3
    ensures forall a :: 0 <= a < |commands| && commands[a] == Land ==> a >= 3
  {
    var n: nat, recovery :| PlanThen(commands, actions, n, recovery);
    assert forall k :: 0 <= k < n ==> commands[k] == Plan(actions)[k];
    assert forall k :: n <= k < |commands| ==> commands[k] == recovery[k - n];
    if Takeoff in commands {
      var k :| 0 <= k < |commands| && commands[k] == Takeoff;
      assert n >= 4 && commands[2] == Arm && commands[4] == Land;
    }
  }

  lemma TakeoffAfterArm(
    h: Policy.Hypot, limits: PolicyLimits, env: Env, cfg: Config, bound: Outcome<Home>, actions: seq<Action>)
    requires Accepted(h, limits, actions) && Issued(Takeoff) in TraceOf(env, cfg, bound, actions)
    ensures Issued(Arm) in TraceOf(env, cfg, bound, actions)
  {
    hide TraceOf, Accepted, CommandWord;
    var t := TraceOf(env, cfg, bound, actions);
    CommandsAreAWord(h, limits, env, cfg, bound, actions);
    WordOrder(CommandsOf(t), actions);
    CommandIssued(t, Takeoff);
    CommandIssued(t, Arm);
  }

  lemma NoTakeoffAfterLand(
    h: Policy.Hypot, limits: PolicyLimits, env: Env, cfg: Config, bound: Outcome<Home>, actions: seq<Action>)
    requires Accepted(h, limits, actions)
    ensures var t := TraceOf(env, cfg, bound, actions);
            forall p: nat, q: nat :: p < q < |t| && t[p] == Issued(Land) ==> t[q] != Issued(Takeoff)
  {
    hide TraceOf, Accepted, CommandWord, CommandsOf;
    var t := TraceOf(env, cfg, bound, actions);
    CommandsAreAWord(h, limits, env, cfg, bound, actions);
    WordOrder(CommandsOf(t), actions);
    forall p: nat, q: nat | p < q < |t| && t[p] == Issued(Land) ensures t[q] != Issued(Takeoff) {
      if t[q].Issued? {
        CommandsInOrder(t, p, q);
      }
    }
  }

  lemma TakeoffOnce(
    h: Policy.Hypot, limits: PolicyLimits, env: Env, cfg: Config, bound: Outcome<Home>, actions: seq<Action>,
    p: nat, q: nat)
    requires Accepted(h, limits, actions)
    requires p < |TraceOf(env, cfg, bound, actions)| && q < |TraceOf(env, cfg, bound, actions)|
    requires TraceOf(env, cfg, bound, actions)[p] == Issued(Takeoff) == TraceOf(env, cfg, bound, actions)[q]
    ensures p == q
  {
    hide TraceOf, Accepted, CommandWord, CommandsOf;
    var t := TraceOf(env, cfg, bound, actions);
    CommandsAreAWord(h, limits, env, cfg, bound, actions);
    WordOrder(CommandsOf(t), actions);
    if p < q {
      CommandsInOrder(t, p, q);
    } else if q < p {
      CommandsInOrder(t, q, p);
    }
  }

  /** Every takeoff command is followed by a land command, in failed and interrupted runs too. */
  lemma TakeoffThenLand(
    h: Policy.Hypot, limits: PolicyLimits, env: Env, cfg: Config, bound: Outcome<Home>, actions: seq<Action>, i: nat)
    requires Accepted(h, limits, actions)
    requires i < |TraceOf(env, cfg, bound, actions)| && TraceOf(env, cfg, bound, actions)[i] == Issued(Takeoff)
    ensures exists j: nat :: i < j < |TraceOf(env, cfg, bound, actions)|
                             && TraceOf(env, cfg, bound, actions)[j] == Issued(Land)
  {
    hide TraceOf, Accepted, CommandWord, CommandsOf;
    var t := TraceOf(env, cfg, bound, actions);
    CommandsAreAWord(h, limits, env, cfg, bound, actions);
    WordOrder(CommandsOf(t), actions);
    CommandIssued(t, Takeoff);
    CommandIssued(t, Land);
    NoTakeoffAfterLand(h, limits, env, cfg, bound, actions);
    var j :| 0 <= j < |t| && t[j] == Issued(Land);
    assert i < j;
  }

  /**
   * Each takeoff command is preceded, in order, by a connected item, an in-tolerance home recorded
   * strictly, an arm command that returned, an armed item that is exactly True, and an in-tolerance
   * home read after arming and recorded strictly; no other takeoff lies between.
   */
  lemma TakeoffGate(
    h: Policy.Hypot, limits: PolicyLimits, env: Env, cfg: Config, bound: Outcome<Home>, actions: seq<Action>, i: nat)
    requires Accepted(h, limits, actions) && Flyable(actions)
    requires i < |TraceOf(env, cfg, bound, actions)| && TraceOf(env, cfg, bound, actions)[i] == Issued(Takeoff)
    ensures exists at: seq<nat> ::
              Passed(RulesOf(env, cfg, bound, actions), TraceOf(env, cfg, bound, actions)[..i], OPEN, at)
  {
    hide Execute, Watch, CommandWord, AuditWord, Cleaned, Completed, Passed;
    RunVerdict(env, cfg, bound, actions);
    var t, ok := TraceOf(env, cfg, bound, actions), RulesOf(env, cfg, bound, actions);
    AllQuiet(ok, t, i);
    ProgressMeaning(ok, t[..i]);
  }

  /** Without a home that matches the approval, the vehicle is never commanded to arm. */
  lemma UnboundNeverArms(env: Env, cfg: Config, exn: Exn, actions: seq<Action>)
    requires Flyable(actions)
    ensures Issued(Arm) !in TraceOf(env, cfg, Raise(exn), actions)
    ensures Issued(Takeoff) !in TraceOf(env, cfg, Raise(exn), actions)
  {
    hide Watch, Write, Preflight, Fail, Cut;
    var bound: Outcome<Home> := Raise(exn);
    var ok, t := RulesOf(env, cfg, bound, actions), TraceOf(env, cfg, bound, actions);
    StartSeen(ok);
    MissionStartedSeen(ok, env);
    Projections(ok, t);
    CommandIssued(t, Arm);
    CommandIssued(t, Takeoff);
    var started := Write(env.sink, INITIAL, MissionStarted, true);
    if env.factory.None? && started.out.Ok? {
      PreflightSeen(ok, env, cfg, HomeOf(bound), bound, actions, started.st);
      var p := Preflight(env, cfg, bound, started.st);
      assert p.out.Raise?;
      FailSeen(ok, env, p.st, NotRequired, p.out.exn);
      StoppedGrounded(Seen(ok, p.st), actions);
    }
  }

  lemma StoppedGrounded(m: Mon, actions: seq<Action>)
    requires Flyable(actions) && Stopped(m, GROUNDED, actions)
    ensures Arm !in m.commands && Takeoff !in m.commands
  {
    if Arm in m.commands {
      assert m.landed && Takeoff !in m.commands;
      PlanFacts(actions);
      assert false;
    }
  }

  // ----- cleanup

  /**
   * Every run that commanded arm - whether or not the command was acknowledged - ends with a landing
   * observed after a land command, or with recovery having reported what it achieved.
   */
  lemma Cleanup(
    h: Policy.Hypot, limits: PolicyLimits, env: Env, cfg: Config, bound: Outcome<Home>, actions: seq<Action>)
    requires Accepted(h, limits, actions)
    requires Issued(Arm) in TraceOf(env, cfg, bound, actions)
    ensures var run := Execute(env, cfg, bound, actions, INITIAL);
            match run.report
            case NotEntered => LandingSeen(run.st.trace)
            case Reported(NotRequired) => LandingSeen(run.st.trace)
            case Reported(DisarmAccepted) => Returned(Disarm) in run.st.trace && Issued(Takeoff) !in run.st.trace
            case Reported(LandingConfirmed) => LandingSeen(run.st.trace)
            case Reported(Failed) => run.out.Raise?
            case Broken => run.out == Raise(Interrupt)
  {
    hide Execute, Watch, CommandWord;
    AcceptedIsFlyable(h, limits, actions);
    RunVerdict(env, cfg, bound, actions);
    var t, ok := TraceOf(env, cfg, bound, actions), RulesOf(env, cfg, bound, actions);
    Projections(ok, t);
    CommandIssued(t, Arm);
    CommandIssued(t, Takeoff);
    LandedMeaning(ok, t);
    DisarmedMeaning(ok, t);
  }

  // ----- audit

  /** The audit attempts of any run form a cut of the script closed by exactly the fitting terminal record. */
  lemma AuditIsAWord(
    h: Policy.Hypot, limits: PolicyLimits, env: Env, cfg: Config, bound: Outcome<Home>, actions: seq<Action>)
    requires Accepted(h, limits, actions)
    ensures var run := Execute(env, cfg, bound, actions, INITIAL);
            Flyable(actions) && AuditWord(RecordsOf(run.st.trace), run, actions)
  {
    hide Execute, Watch, CommandWord, Cleaned, Completed;
    AcceptedIsFlyable(h, limits, actions);
    RunVerdict(env, cfg, bound, actions);
    Projections(RulesOf(env, cfg, bound, actions), TraceOf(env, cfg, bound, actions));
  }

  /** Strict auditing ends where flight begins, and a strict write that raises rules takeoff out. */
  lemma StrictAuditGatesTakeoff(
    h: Policy.Hypot, limits: PolicyLimits, env: Env, cfg: Config, bound: Outcome<Home>, actions: seq<Action>, i: nat)
    requires Accepted(h, limits, actions)
    requires i < |TraceOf(env, cfg, bound, actions)|
    requires TraceOf(env, cfg, bound, actions)[i].Attempt? && TraceOf(env, cfg, bound, actions)[i].strict
    ensures Issued(Takeoff) !in TraceOf(env, cfg, bound, actions)[..i]
    ensures var t := TraceOf(env, cfg, bound, actions);
            env.sink(t[i].index).Some? ==> Issued(Takeoff) !in t
  {
    hide Execute, Watch, CommandWord, AuditWord, Cleaned, Completed, Accepted, Takeoffs;
    AcceptedTakesOffOnce(h, limits, actions);
    AcceptedIsFlyable(h, limits, actions);
    OneTakeoffSuffices(env, cfg, bound, actions);
    RunVerdict(env, cfg, bound, actions);
    var t, ok := TraceOf(env, cfg, bound, actions), RulesOf(env, cfg, bound, actions);
    forall k: nat | k < i ensures t[k] != Issued(Takeoff) {
      assert !StrictAt(t, k, i);
    }
    if ok.sink(t[i].index).Some? {
      forall k: nat | i <= k < |t| ensures t[k] != Issued(Takeoff) {
        if k > i {
          AllQuiet(ok, t, k);
          FailureRemembered(ok, t[..k], i);
        }
      }
    }
  }

  // ----- completion

  /** An altitude item at or above both nine tenths of the target and the target less the tolerance. */
  predicate AtAltitude(cfg: Config, target: real, e: Event) {
    && e.Saw? && e.gate.ForAltitude?
    && e.sample.altitude.Some?
    && e.sample.altitude.value >= target * 0.9
    && e.sample.altitude.value >= target - cfg.altitudeTolerance
  }

  /** Each hold began only after an altitude item at or above max(0.9 a, a - tolerance). */
  lemma HoldsAtAltitude(
    h: Policy.Hypot, limits: PolicyLimits, env: Env, cfg: Config, bound: Outcome<Home>, actions: seq<Action>, i: nat)
    requires Accepted(h, limits, actions) && Flyable(actions)
    requires i < |TraceOf(env, cfg, bound, actions)| && TraceOf(env, cfg, bound, actions)[i].HoldBegan?
    ensures exists j: nat :: j < i && AtAltitude(cfg, actions[0].altitude, TraceOf(env, cfg, bound, actions)[j])
  {
    hide Execute, Watch, CommandWord, AuditWord, Cleaned, Completed;
    RunVerdict(env, cfg, bound, actions);
    var t, ok := TraceOf(env, cfg, bound, actions), RulesOf(env, cfg, bound, actions);
    AllQuiet(ok, t, i);
    ReachedMeaning(ok, t[..i]);
    var j: nat :| j < |t[..i]| && AltitudeReached(t[..i][j], ok.minimum);
    assert t[..i][j] == t[j];
    assert AtAltitude(cfg, actions[0].altitude, t[j]);
  }

  function Sum(s: seq<int>): int {
    if s == [] then 0 else Sum(s[..|s| - 1]) + s[|s| - 1]
  }

  lemma {:induction false} DurationsSum(actions: seq<Action>, k: nat)
    requires k <= |actions|
    ensures Sum(Durations(actions, k)) == PolicyGrammar.HoldTotal(actions[..k])
  {
    if k == 0 {
    } else {
      DurationsSum(actions, k - 1);
      assert actions[..k][..k - 1] == actions[..k - 1];
      var rest := Durations(actions, k - 1);
      if actions[k - 1].HoldAction? {
        assert (rest + [actions[k - 1].seconds])[..|rest|] == rest;
      } else {
        assert Durations(actions, k) == rest;
      }
    }
  }

  lemma {:induction false} PassHold(h: Policy.Hypot, actions: seq<Action>, k: nat)
    requires k <= |actions|
    ensures Policy.PassAt(h, actions, k).hold == PolicyGrammar.HoldTotal(actions[..k])
  {
    if k == 0 {
    } else {
      PassHold(h, actions, k - 1);
      assert actions[..k][..k - 1] == actions[..k - 1];
    }
  }

  /**
   * A run that completes sent exactly the plan's commands, slept exactly the mission's holds in order,
   * within the total hold budget, logged the whole script, and saw the vehicle land.
   */
  lemma CompletedRun(
    h: Policy.Hypot, limits: PolicyLimits, env: Env, cfg: Config, bound: Outcome<Home>, actions: seq<Action>)
    requires Accepted(h, limits, actions) && Flyable(actions)
    requires Execute(env, cfg, bound, actions, INITIAL).out.Ok?
    ensures var t := TraceOf(env, cfg, bound, actions);
            && CommandsOf(t) == Plan(actions)
            && SleptOf(t) == Durations(actions, |actions|)
            && Sum(SleptOf(t)) <= limits.maxTotalHold
            && RecordsOf(t) == Script(actions, |actions|) + [MissionCompleted]
            && LandingSeen(t)
  {
    hide Execute, Watch, CommandWord, AuditWord, Cleaned;
    RunVerdict(env, cfg, bound, actions);
    var t, ok := TraceOf(env, cfg, bound, actions), RulesOf(env, cfg, bound, actions);
    Projections(ok, t);
    LandedMeaning(ok, t);
    DurationsSum(actions, |actions|);
    PassHold(h, actions, |actions|);
    assert actions[..|actions|] == actions;
  }
}
