/**
 * What the executor's flags need from policy: exactly the missions with at most one takeoff never disarm
 * after a takeoff command, and never write an audit record strictly after one.
 */
module OneTakeoff {
  import opened Models
  import opened Vehicle
  import opened Executor
  import opened Additions
  import opened Options

  function Takeoffs(actions: seq<Action>): nat {
    if actions == [] then 0
    else Takeoffs(actions[..|actions| - 1]) + (if actions[|actions| - 1].TakeoffAction? then 1 else 0)
  }

  lemma TakeoffsSnoc(actions: seq<Action>, k: nat)
    requires k < |actions|
    ensures Takeoffs(actions[..k + 1]) == Takeoffs(actions[..k]) + (if actions[k].TakeoffAction? then 1 else 0)
  {
    assert actions[..k + 1][..k] == actions[..k];
  }

  lemma {:induction false} TakeoffsMonotone(actions: seq<Action>, k: nat)
    requires k <= |actions|
    ensures Takeoffs(actions[..k]) <= Takeoffs(actions)
    decreases |actions| - k
  {
    if k == |actions| {
      assert actions[..k] == actions;
    } else {
      TakeoffsSnoc(actions, k);
      TakeoffsMonotone(actions, k + 1);
    }
  }

  /** A strict audit attempt at `j`, after a takeoff command at `i`. */
  predicate StrictAt(t: Trace, i: nat, j: nat) {
    i < j < |t| && t[i] == Issued(Takeoff) && t[j].Attempt? && t[j].strict
  }

  ghost predicate StrictFollows(t: Trace) {
    exists i: nat, j: nat :: StrictAt(t, i, j)
  }

  /** As `StrictAt`, and the write raises. */
  ghost predicate FailureFollows(sink: Sink, t: Trace) {
    exists i: nat, j: nat :: StrictAt(t, i, j) && sink(t[j].index).Some?
  }

  /** A disarm command at `j`, after a takeoff command at `i`. */
  predicate DisarmAt(t: Trace, i: nat, j: nat) {
    i < j < |t| && t[i] == Issued(Takeoff) && t[j] == Issued(Disarm)
  }

  ghost predicate DisarmFollows(t: Trace) {
    exists i: nat, j: nat :: DisarmAt(t, i, j)
  }

  // ----- one takeoff is enough

  /** So far no disarm, nothing strict after takeoff, and a takeoff command is remembered. */
  ghost predicate Calm(t: Trace, flags: Flags) {
    && Issued(Disarm) !in t
    && !StrictFollows(t)
    && (Issued(Takeoff) in t ==> flags.attempted)
  }

  lemma CalmAdds(t: Trace, t': Trace, flags: Flags, flags': Flags, scope: Scope)
    requires Calm(t, flags) && Adds(t, t', scope) && !scope.takeoff
    requires flags.attempted ==> flags'.attempted || Issued(Takeoff) !in t
    requires Issued(Takeoff) in t ==> !scope.strict
    ensures Calm(t', flags') && (Issued(Takeoff) in t' <==> Issued(Takeoff) in t)
  {
    hide Effects;
    assert t' == t + t'[|t|..];
    assert Issued(Takeoff) in t' <==> Issued(Takeoff) in t;
    forall i: nat, j: nat ensures !StrictAt(t', i, j) {
      assert !StrictAt(t, i, j);
      assert |t| <= i < |t'| ==> Fits(t'[i], scope);
      assert |t| <= j < |t'| ==> Fits(t'[j], scope);
    }
  }

  lemma CalmClimb(t: Trace, t': Trace, flags: Flags, flags': Flags)
    requires Calm(t, flags) && Adds(t, t', CLIMB) && Issued(Takeoff) !in t && (t != t' ==> flags'.attempted)
    ensures Calm(t', flags')
  {
    hide Effects;
    assert t' == t + t'[|t|..];
    forall i: nat, j: nat ensures !StrictAt(t', i, j) {
      assert |t| <= j < |t'| ==> Fits(t'[j], CLIMB);
    }
  }

  /** Between turns: after a takeoff command the flags say so, and no takeoff is left. */
  ghost predicate Steady(t: Trace, flags: Flags, left: nat) {
    && Calm(t, flags)
    && (Issued(Takeoff) in t ==> flags.committed && left == 0)
  }

  ghost predicate LegCalm(leg: Leg, left: nat) {
    Calm(leg.st.trace, leg.flags) && (leg.out.Ok? ==> Steady(leg.st.trace, leg.flags, left))
  }

  function Cost(action: Action): nat {
    if action.TakeoffAction? then 1 else 0
  }

  lemma ActionCalm(env: Env, cfg: Config, bound: Home, action: Action, s: St, flags: Flags, left: nat)
    requires Steady(s.trace, flags, left + Cost(action)) && left + Cost(action) <= 1
    ensures LegCalm(RunAction(env, cfg, bound, action, s, flags), left)
  {
    hide Adds, RunTakeoff, StrictFollows;
    var leg := RunAction(env, cfg, bound, action, s, flags);
    if action.TakeoffAction? {
      var mid := RunTakeoffAdds(env, cfg, bound, action.altitude, s, flags);
      CalmAdds(s.trace, mid, flags, flags, CHECKS);
      CalmClimb(mid, leg.st.trace, flags, leg.flags);
    } else {
      OtherActionAdds(env, cfg, bound, action, s, flags);
      CalmAdds(s.trace, leg.st.trace, flags, leg.flags, DESCENT);
    }
  }

  lemma WriteCalm(env: Env, s: St, record: Record, flags: Flags, left: nat)
    requires Steady(s.trace, flags, left)
    ensures Steady(Write(env.sink, s, record, !flags.committed).st.trace, flags, left)
  {
    hide Adds, Write, StrictFollows;
    var scope := Scope(!flags.committed, flags.committed, false, false);
    WriteAdds(env.sink, s, record, !flags.committed, scope);
    CalmAdds(s.trace, Write(env.sink, s, record, !flags.committed).st.trace, flags, flags, scope);
  }

  lemma TurnCalm(
    env: Env, cfg: Config, bound: Home, action: Action, sequence: nat, s: St, flags: Flags, left: nat)
    requires Steady(s.trace, flags, left + Cost(action)) && left + Cost(action) <= 1
    ensures LegCalm(RunTurn(env, cfg, bound, action, sequence, s, flags), left)
  {
    hide Write, RunAction, StrictFollows;
    WriteCalm(env, s, ActionStarted(sequence), flags, left + Cost(action));
    var started := Write(env.sink, s, ActionStarted(sequence), !flags.committed);
    ActionCalm(env, cfg, bound, action, started.st, flags, left);
    var leg := RunAction(env, cfg, bound, action, started.st, flags);
    if leg.out.Ok? {
      WriteCalm(env, leg.st, ActionCompleted(sequence), leg.flags, left);
    }
  }

  lemma {:induction false} ActionsCalm(
    env: Env, cfg: Config, bound: Home, actions: seq<Action>, k: nat, s: St, flags: Flags, left: nat)
    requires k <= |actions| && Takeoffs(actions) <= 1 && left + Takeoffs(actions[..k]) == Takeoffs(actions)
    requires Steady(s.trace, flags, left)
    ensures var leg := RunActions(env, cfg, bound, actions, k, s, flags); Calm(leg.st.trace, leg.flags)
    decreases |actions| - k
  {
    hide RunTurn, Calm, Takeoffs;
    if k == |actions| {
      assert Calm(s.trace, flags);
    } else {
      TakeoffsSnoc(actions, k);
      TakeoffsMonotone(actions, k + 1);
      var next := left - Cost(actions[k]);
      TurnCalm(env, cfg, bound, actions[k], k + 1, s, flags, next);
      var leg := RunTurn(env, cfg, bound, actions[k], k + 1, s, flags);
      if leg.out.Ok? {
        ActionsCalm(env, cfg, bound, actions, k + 1, leg.st, leg.flags, next);
      }
    }
  }

  lemma TryBlockCalm(env: Env, cfg: Config, bound: Outcome<Home>, actions: seq<Action>, s: St)
    requires Takeoffs(actions) <= 1 && Steady(s.trace, GROUNDED, Takeoffs(actions)) && Issued(Takeoff) !in s.trace
    ensures var leg := TryBlock(env, cfg, bound, actions, s); Calm(leg.st.trace, leg.flags)
  {
    hide Adds, Preflight, RunActions, StrictFollows, Takeoffs;
    PreflightAdds(env, cfg, bound, s);
    var p := Preflight(env, cfg, bound, s);
    CalmAdds(s.trace, p.st.trace, GROUNDED, GROUNDED, CHECKS);
    if bound.Ok? {
      NoneYet(actions);
      ActionsCalm(env, cfg, bound.value, actions, 0, p.st, GROUNDED, Takeoffs(actions));
    }
  }

  lemma NoneYet(actions: seq<Action>)
    ensures Takeoffs(actions[..0]) == 0
  {
  }

  /** Whatever the handler does after a calm try block: a disarm only if no takeoff was commanded. */
  lemma CalmCloses(t: Trace, t': Trace, flags: Flags)
    requires Calm(t, flags) && Closes(t, t', flags.attempted, CLOSING)
    ensures !StrictFollows(t') && !DisarmFollows(t')
    ensures Issued(Disarm) in t' ==> Issued(Takeoff) !in t'
  {
    hide Effects, EndsInFalse;
    assert Issued(Takeoff) in t' ==> flags.attempted by {
      assert t' == t + t'[|t|..];
      assert forall k :: |t| <= k < |t'| ==> t'[k] == t'[|t|..][k - |t|];
    }
    assert flags.attempted ==> forall k :: 0 <= k < |t'| ==> t'[k] != Issued(Disarm) by {
      assert forall k :: 0 <= k < |t| ==> t'[k] == t[k];
    }
    forall i: nat, j: nat ensures !StrictAt(t', i, j) && !DisarmAt(t', i, j) {
      assert !StrictAt(t, i, j);
      assert i < |t'| && t'[i] == Issued(Takeoff) ==> Issued(Takeoff) in t';
    }
  }

  /** The trace of a run: a calm try block, or the little that happens without one, and then the handler. */
  lemma RunCloses(env: Env, cfg: Config, bound: Outcome<Home>, actions: seq<Action>) returns (t: Trace, flags: Flags)
    ensures Issued(Disarm) !in t && Closes(t, TraceOf(env, cfg, bound, actions), flags.attempted, CLOSING)
    ensures Takeoffs(actions) <= 1 ==> Calm(t, flags)
    ensures Effects(t)
  {
    hide Adds, Closes, Effects, Write, TryBlock, Handle, StrictFollows, Takeoffs;
    EmptyTrace();
    t, flags := [], GROUNDED;
    AddsNothing([], CLOSING);
    OnlyAdds([], [], false, CLOSING);
    var started := Write(env.sink, INITIAL, MissionStarted, true);
    if env.factory.None? {
      WriteAdds(env.sink, INITIAL, MissionStarted, true, CHECKS);
      CalmAdds([], started.st.trace, GROUNDED, GROUNDED, CHECKS);
      AddsNothing(started.st.trace, CLOSING);
      AddsEffects([], started.st.trace, CHECKS);
      OnlyAdds(started.st.trace, started.st.trace, false, CLOSING);
      t := started.st.trace;
      if started.out.Ok? {
        var leg := TryBlock(env, cfg, bound, actions, started.st);
        TryBlockAdds(env, cfg, bound, actions, started.st);
        AddsEffects(t, leg.st.trace, ANYTHING);
        if Takeoffs(actions) <= 1 {
          TryBlockCalm(env, cfg, bound, actions, started.st);
        }
        t, flags := leg.st.trace, leg.flags;
        if leg.out.Raise? {
          HandleCloses(env, cfg, leg.st, leg.flags, leg.out.exn);
        } else {
          WriteAdds(env.sink, leg.st, MissionCompleted, false, CLOSING);
          OnlyAdds(leg.st.trace, Write(env.sink, leg.st, MissionCompleted, false).st.trace, flags.attempted, CLOSING);
        }
      }
    }
  }

  lemma EmptyTrace()
    ensures Calm([], GROUNDED) && Effects([])
  {
  }

  lemma AddsEffects(t: Trace, t': Trace, scope: Scope)
    requires Adds(t, t', scope) && Effects(t) && Issued(Disarm) !in t
    ensures Effects(t') && Issued(Disarm) !in t'
  {
    hide Effects;
  }

  /** In every run of every mission, disarm is sent only right after an in_air item that is exactly False. */
  lemma DisarmNeedsFalse(env: Env, cfg: Config, bound: Outcome<Home>, actions: seq<Action>, i: nat)
    requires i < |TraceOf(env, cfg, bound, actions)| && TraceOf(env, cfg, bound, actions)[i] == Issued(Disarm)
    ensures EndsInFalse(TraceOf(env, cfg, bound, actions)[..i])
  {
    hide TraceOf, Effects, EndsInFalse;
    var t, flags := RunCloses(env, cfg, bound, actions);
  }

  /** A run of a mission with at most one takeoff that disarms has never commanded takeoff. */
  lemma OneTakeoffSuffices(env: Env, cfg: Config, bound: Outcome<Home>, actions: seq<Action>)
    requires Takeoffs(actions) <= 1
    ensures var t := TraceOf(env, cfg, bound, actions);
            && !StrictFollows(t) && !DisarmFollows(t)
            && (Issued(Disarm) in t ==> Issued(Takeoff) !in t)
  {
    hide TraceOf, Closes, Calm, StrictFollows, DisarmFollows, Takeoffs;
    var t, flags := RunCloses(env, cfg, bound, actions);
    CalmCloses(t, TraceOf(env, cfg, bound, actions), flags);
  }
}
