/**
 * The vehicle itself: what a run has done to it, given that it lifts off only on a takeoff that took
 * effect, that in_air items which say "no" are truthful, and that an acknowledged command took effect.
 */
module Ground {
  import opened Models
  import Policy
  import opened Vehicle
  import opened Executor
  import opened Additions
  import opened OneTakeoff
  import opened ExecutorSafety
  import opened ExecutorRuns
  import opened TraceMeaning
  import opened FlightTheorems
  import opened Options

  /** Whether the vehicle is in the air just before event `k`; at the length of the trace, at the end. */
  type Airborne = nat -> bool

  /** At event `k` a takeoff has taken effect and no land has since. */
  predicate LiftedBy(t: Trace, k: nat, i: nat) {
    i <= k < |t| && t[i] == TookEffect(Takeoff) && forall q :: i < q <= k ==> t[q] != TookEffect(Land)
  }

  ghost predicate Lifts(t: Trace, air: Airborne, k: nat) {
    !air(k) && air(k + 1) ==> exists i: nat :: LiftedBy(t, k, i)
  }

  /** The vehicle starts on the ground and leaves it only on a takeoff that no land has answered. */
  ghost predicate Physical(t: Trace, air: Airborne) {
    !air(0) && forall k: nat :: k < |t| ==> Lifts(t, air, k)
  }

  /** In_air items that are falsy are true of the vehicle. */
  ghost predicate Truthful(t: Trace, air: Airborne) {
    forall k: nat :: k < |t| && t[k].Saw? && t[k].gate == ForLanding && !t[k].sample.inAir.Truthy() ==> !air(k)
  }

  predicate HonestReply(r: Reply) {
    r.raised.None? ==> r.effective
  }

  /** A command that returns took effect; one that raises may have or not. */
  ghost predicate Honest(replies: Replies) {
    forall i :: HonestReply(replies(i))
  }

  // ----- without an effective takeoff the vehicle stays where it is

  /** No lift from `from` on: what was on the ground there is on the ground at `k`. */
  lemma {:induction false} StaysDown(t: Trace, air: Airborne, from: nat, k: nat)
    requires Physical(t, air) && from <= k <= |t| && !air(from)
    requires forall q: nat, i: nat :: from <= q < |t| ==> !LiftedBy(t, q, i)
    ensures !air(k)
  {
    if k == from {
    } else {
      StaysDown(t, air, from, k - 1);
      assert Lifts(t, air, k - 1);
    }
  }

  lemma GroundedWithoutTakeoff(t: Trace, air: Airborne, k: nat)
    requires Effects(t) && Physical(t, air) && Issued(Takeoff) !in t && k <= |t|
    ensures !air(k)
  {
    forall q: nat, i: nat | q < |t| ensures !LiftedBy(t, q, i) {
      assert i < |t| ==> EffectAt(t, i);
    }
    StaysDown(t, air, 0, k);
  }

  lemma RunEffects(env: Env, cfg: Config, bound: Outcome<Home>, actions: seq<Action>)
    ensures Effects(TraceOf(env, cfg, bound, actions))
  {
    hide TraceOf, Effects;
    var t, flags := RunCloses(env, cfg, bound, actions);
  }

  /** With at most one takeoff in the mission, no disarm ever takes effect in the air. */
  lemma NothingFalls(
    env: Env, cfg: Config, bound: Outcome<Home>, actions: seq<Action>, air: Airborne, k: nat)
    requires Takeoffs(actions) <= 1 && Physical(TraceOf(env, cfg, bound, actions), air)
    requires k < |TraceOf(env, cfg, bound, actions)| && TraceOf(env, cfg, bound, actions)[k] == TookEffect(Disarm)
    ensures !air(k)
  {
    hide TraceOf, Takeoffs, Physical, StrictFollows, DisarmFollows;
    var t := TraceOf(env, cfg, bound, actions);
    RunEffects(env, cfg, bound, actions);
    OneTakeoffSuffices(env, cfg, bound, actions);
    assert EffectAt(t, k);
    assert t[k - 1] == Issued(Disarm);
    GroundedWithoutTakeoff(t, air, k);
  }

  // ----- a landing item comes after a land command that took effect

  ghost predicate AnsweredAt(t: Trace, j: nat)
    requires j < |t|
  {
    t[j].Saw? && t[j].gate == ForLanding ==> TookEffect(Land) in t[..j]
  }

  ghost predicate Answered(t: Trace) {
    forall j: nat :: j < |t| ==> AnsweredAt(t, j)
  }

  /** New events that are no landing items, or come after an effective land, keep the trace answered. */
  lemma AnsweredAdds(t: Trace, t': Trace, scope: Scope)
    requires Answered(t) && Adds(t, t', scope) && (scope.landing ==> TookEffect(Land) in t)
    ensures Answered(t')
  {
    hide Effects;
    forall j: nat | j < |t'| ensures AnsweredAt(t', j) {
      if j < |t| {
        assert AnsweredAt(t, j) && t'[..j] == t[..j];
      } else if scope.landing {
        var m :| 0 <= m < |t| && t[m] == TookEffect(Land);
        assert t'[..j][m] == TookEffect(Land);
      } else {
        assert Fits(t'[j], scope);
      }
    }
  }

  /** A land command that returns has taken effect. */
  lemma LandSent(replies: Replies, s: St, deadline: Deadline)
    requires Honest(replies) && Answered(s.trace)
    ensures var l := Send(replies, s, Land, deadline);
            Answered(l.st.trace) && (l.out.Ok? ==> TookEffect(Land) in l.st.trace)
  {
    SendAdds(replies, s, Land, deadline, NOTHING);
    AnsweredAdds(s.trace, Send(replies, s, Land, deadline).st.trace, NOTHING);
    hide Answered, Adds;
    assert HonestReply(replies(s.cursor));
    var t := Send(replies, s, Land, deadline).st.trace;
    if Send(replies, s, Land, deadline).out.Ok? {
      assert t[|s.trace| + 1] == TookEffect(Land);
    }
  }

  lemma LandingWaitAnswered(replies: Replies, s: St, deadline: nat)
    requires Answered(s.trace) && TookEffect(Land) in s.trace
    ensures Answered(WaitFor(replies, s, ForLanding, deadline).st.trace)
  {
    hide Answered, Adds;
    WaitAdds(replies, s, ForLanding, deadline, DESCENT);
    AnsweredAdds(s.trace, WaitFor(replies, s, ForLanding, deadline).st.trace, DESCENT);
  }

  lemma ActionAnswered(env: Env, cfg: Config, bound: Home, action: Action, s: St, flags: Flags)
    requires Honest(env.replies) && Answered(s.trace)
    ensures Answered(RunAction(env, cfg, bound, action, s, flags).st.trace)
  {
    hide Answered, Adds, RunTakeoff, Send, WaitFor, Sleep, Honest;
    var leg := RunAction(env, cfg, bound, action, s, flags);
    match action {
      case TakeoffAction(altitude) =>
        var mid := RunTakeoffAdds(env, cfg, bound, altitude, s, flags);
        AnsweredAdds(s.trace, mid, CHECKS);
        AnsweredAdds(mid, leg.st.trace, CLIMB);
      case LandAction =>
        LandSent(env.replies, s, Never);
        var l := Send(env.replies, s, Land, Never);
        if l.out.Ok? {
          LandingWaitAnswered(env.replies, l.st, l.st.clock + cfg.landingTimeout);
        }
      case HoldAction(seconds) =>
        SleepAdds(env.replies, s, seconds, NOTHING);
        AnsweredAdds(s.trace, leg.st.trace, NOTHING);
      case _ =>
    }
  }

  lemma WriteAnswered(sink: Sink, s: St, record: Record, strict: bool)
    requires Answered(s.trace)
    ensures Answered(Write(sink, s, record, strict).st.trace)
  {
    hide Answered, Adds;
    WriteAdds(sink, s, record, strict, Scope(true, true, false, false));
    AnsweredAdds(s.trace, Write(sink, s, record, strict).st.trace, Scope(true, true, false, false));
  }

  lemma {:induction false} ActionsAnswered(
    env: Env, cfg: Config, bound: Home, actions: seq<Action>, k: nat, s: St, flags: Flags)
    requires Honest(env.replies) && Answered(s.trace) && k <= |actions|
    ensures Answered(RunActions(env, cfg, bound, actions, k, s, flags).st.trace)
    decreases |actions| - k
  {
    hide Answered, Write, RunAction, Honest;
    if k == |actions| {
    } else {
      WriteAnswered(env.sink, s, ActionStarted(k + 1), !flags.committed);
      var started := Write(env.sink, s, ActionStarted(k + 1), !flags.committed);
      ActionAnswered(env, cfg, bound, actions[k], started.st, flags);
      var done := RunAction(env, cfg, bound, actions[k], started.st, flags);
      WriteAnswered(env.sink, done.st, ActionCompleted(k + 1), !done.flags.committed);
      var leg := RunTurn(env, cfg, bound, actions[k], k + 1, s, flags);
      ActionsAnswered(env, cfg, bound, actions, k + 1, leg.st, leg.flags);
    }
  }

  lemma TryBlockAnswered(env: Env, cfg: Config, bound: Outcome<Home>, actions: seq<Action>, s: St)
    requires Honest(env.replies) && Answered(s.trace)
    ensures Answered(TryBlock(env, cfg, bound, actions, s).st.trace)
  {
    hide Answered, Adds, Preflight, RunActions, Honest;
    PreflightAdds(env, cfg, bound, s);
    var p := Preflight(env, cfg, bound, s);
    AnsweredAdds(s.trace, p.st.trace, CHECKS);
    if bound.Ok? {
      ActionsAnswered(env, cfg, bound.value, actions, 0, p.st, GROUNDED);
    }
  }

  lemma LandAndConfirmAnswered(replies: Replies, s: St, deadline: nat)
    requires Honest(replies) && Answered(s.trace)
    ensures Answered(LandAndConfirm(replies, s, deadline).st.trace)
  {
    hide Answered, Send, WaitFor, Honest;
    LandSent(replies, s, At(deadline));
    var l := Send(replies, s, Land, At(deadline));
    if l.out.Ok? {
      LandingWaitAnswered(replies, l.st, deadline);
    }
  }

  lemma DisarmAnswered(replies: Replies, s: St, deadline: nat)
    requires Answered(s.trace)
    ensures Answered(Send(replies, s, Disarm, At(deadline)).st.trace)
  {
    SendSound(replies, s, Disarm, At(deadline));
    var t := Send(replies, s, Disarm, At(deadline)).st.trace;
    assert s.trace <= t;
    hide Send, Effects;
    forall j: nat | j < |t| ensures AnsweredAt(t, j) {
      if j < |s.trace| {
        assert AnsweredAt(s.trace, j) && t[..j] == s.trace[..j];
      }
    }
  }

  lemma RecoverAnswered(replies: Replies, cfg: Config, s: St, attempted: bool)
    requires Honest(replies) && Answered(s.trace)
    ensures Answered(Recover(replies, cfg, s, attempted).st.trace)
  {
    hide Answered, Adds, Send, WaitFor, LandAndConfirm, Honest;
    var deadline := s.clock + cfg.landingTimeout;
    if attempted {
      LandAndConfirmAnswered(replies, s, deadline);
    } else {
      var w := WaitFor(replies, s, ForInAir, deadline);
      WaitAdds(replies, s, ForInAir, deadline, NOTHING);
      AnsweredAdds(s.trace, w.st.trace, NOTHING);
      DisarmAnswered(replies, w.st, deadline);
      LandAndConfirmAnswered(replies, w.st, deadline);
    }
  }

  lemma RunAnswered(env: Env, cfg: Config, bound: Outcome<Home>, actions: seq<Action>)
    requires Honest(env.replies)
    ensures Answered(TraceOf(env, cfg, bound, actions))
  {
    assert Answered([]);
    hide Answered, Write, TryBlock, Recover, Honest;
    WriteAnswered(env.sink, INITIAL, MissionStarted, true);
    var started := Write(env.sink, INITIAL, MissionStarted, true);
    TryBlockAnswered(env, cfg, bound, actions, started.st);
    var leg := TryBlock(env, cfg, bound, actions, started.st);
    if leg.out.Ok? {
      WriteAnswered(env.sink, leg.st, MissionCompleted, false);
    } else if leg.flags.recoveryRequired {
      RecoverAnswered(env.replies, cfg, leg.st, leg.flags.attempted);
      var r := Recover(env.replies, cfg, leg.st, leg.flags.attempted);
      WriteAnswered(env.sink, r.st, MissionFailed(if r.out.Ok? then r.out.value else Failed), false);
    } else {
      WriteAnswered(env.sink, leg.st, MissionFailed(NotRequired), false);
    }
  }

  // ----- a landing that was seen is a landing

  /** After a landing item no takeoff is effective without a land since: the vehicle stays down. */
  lemma DownAfterLanding(t: Trace, air: Airborne)
    requires Effects(t) && Answered(t) && Physical(t, air) && Truthful(t, air) && LandingSeen(t)
    requires forall p: nat, q: nat :: p < q < |t| && t[p] == Issued(Land) ==> t[q] != Issued(Takeoff)
    ensures !air(|t|)
  {
    var i: nat, j: nat :| LandedAt(t, i, j);
    assert AnsweredAt(t, j);
    var m :| 0 <= m < |t[..j]| && t[..j][m] == TookEffect(Land);
    assert EffectAt(t, m);
    hide Answered;
    forall q: nat, l: nat | j <= q < |t| ensures !LiftedBy(t, q, l) {
      assert l < |t| ==> EffectAt(t, l);
      assert t[m - 1] == Issued(Land);
    }
    StaysDown(t, air, j, |t|);
  }

  /**
   * The vehicle is never left in the air without the run saying so: if it is up when the run ends, the
   * report is that recovery failed or was interrupted.
   */
  lemma GroundedUnlessReported(
    h: Policy.Hypot, limits: PolicyLimits, env: Env, cfg: Config, bound: Outcome<Home>, actions: seq<Action>,
    air: Airborne)
    requires Accepted(h, limits, actions) && Honest(env.replies)
    requires Physical(TraceOf(env, cfg, bound, actions), air) && Truthful(TraceOf(env, cfg, bound, actions), air)
    requires air(|TraceOf(env, cfg, bound, actions)|)
    ensures var report := Execute(env, cfg, bound, actions, INITIAL).report;
            report == Reported(Failed) || report == Broken
  {
    hide Execute, Accepted, Physical, Truthful, LandingSeen, Honest, Answered, Effects;
    var t := TraceOf(env, cfg, bound, actions);
    RunEffects(env, cfg, bound, actions);
    RunAnswered(env, cfg, bound, actions);
    if Issued(Takeoff) !in t {
      GroundedWithoutTakeoff(t, air, |t|);
    } else {
      TakeoffAfterArm(h, limits, env, cfg, bound, actions);
      Cleanup(h, limits, env, cfg, bound, actions);
      NoTakeoffAfterLand(h, limits, env, cfg, bound, actions);
      if LandingSeen(t) {
        DownAfterLanding(t, air);
      }
    }
  }
}
