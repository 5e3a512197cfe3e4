/** `PolicyEngine.evaluate` as the source runs it: one loop over the actions. */
module PolicyEngine {
  import opened Models
  import opened Policy
  import opened PolicyGrammar

  /** The per-action checks, made before the action moves the state on. */
  method CheckOwn(h: Hypot, limits: PolicyLimits, s: Pass, action: Action, index: nat, acc: seq<Reason>)
    returns (reasons: seq<Reason>)
    ensures reasons == OwnReasons(h, limits, s, action, index, acc)
  {
    reasons := acc;
    match action {
      case TakeoffAction(altitude) =>
        if s.flight != Disarmed { reasons := reasons + [Reason(index, TakeoffState)]; }
        if altitude > limits.maxAltitude { reasons := reasons + [Reason(index, TooHigh)]; }
      case HoldAction(seconds) =>
        if s.flight != Airborne { reasons := reasons + [Reason(index, HoldState)]; }
        if seconds > limits.maxHoldSeconds { reasons := reasons + [Reason(index, HoldTooLong)]; }
      case GotoAction(north, east, altitude) =>
        if s.flight != Airborne { reasons := reasons + [Reason(index, GotoState)]; }
        if altitude > limits.maxAltitude { reasons := reasons + [Reason(index, TooHigh)]; }
        if h(north, east) > limits.maxDistanceFromHome { reasons := reasons + [Reason(index, TooFar)]; }
      case ReturnHomeAction =>
        if s.flight != Airborne { reasons := reasons + [Reason(index, ReturnState)]; }
      case LandAction =>
        if s.flight != Airborne && s.flight != Returning { reasons := reasons + [Reason(index, LandState)]; }
    }
  }

  /** The look-ahead at the end of each turn of the pass. */
  method CheckRemaining(state: FlightState, remaining: seq<Action>, index: nat, acc: seq<Reason>)
    returns (reasons: seq<Reason>)
    ensures reasons == LookAhead(state, remaining, index, acc)
  {
    reasons := acc;
    if state == Returning || state == Landed {
      if remaining != [] {
        if state == Landed {
          reasons := reasons + [Reason(index, AfterLanding)];
        } else if !OnlyLand(remaining) {
          reasons := reasons + [Reason(index, AfterReturn)];
        }
      }
    }
  }

  /** The whole-mission checks after the loop. */
  method CheckTotals(limits: PolicyLimits, s: Pass, actions: seq<Action>, acc: seq<Reason>)
    returns (reasons: seq<Reason>)
    requires actions != []
    ensures reasons == Closing(limits, s, actions, acc)
  {
    reasons := acc;
    if s.hold > limits.maxTotalHold { reasons := reasons + [Reason(0, TotalHold)]; }
    if s.distance > limits.maxTotalDistance { reasons := reasons + [Reason(0, TotalDistance)]; }
    if s.gotos > limits.maxGotos { reasons := reasons + [Reason(0, TooManyGotos)]; }
    if !actions[0].TakeoffAction? { reasons := reasons + [Reason(0, FirstNotTakeoff)]; }
  }

  /**
   * `PolicyEngine.evaluate`. The reasons returned are exactly the ones appended: the final
   * de-duplication removes nothing, so `approved` agrees with the returned reasons being empty.
   */
  method Evaluate(h: Hypot, limits: PolicyLimits, mission: Mission) returns (decision: PolicyDecision)
    requires mission.actions != []
    ensures decision.reasons == Collected(h, limits, mission.actions)
    ensures decision.approved <==> decision.reasons == []
    ensures IsHypot(h) && ActionsValid(mission.actions) ==> (
              decision.approved <==> Permitted(h, limits, mission.actions))
  {
    hide OwnReasons, LookAhead, Closing, Dedup, IsHypot, ActionsValid, Permitted;
    var actions := mission.actions;
    var reasons: seq<Reason> := [];
    var state, hold, distance, gotos := Disarmed, 0, 0.0, 0;
    var north, east := 0.0, 0.0;
    if |actions| > limits.maxActions {
      reasons := reasons + [Reason(0, TooManyActions)];
    }
    for k := 0 to |actions|
      invariant Pass(state, hold, distance, gotos, north, east) == PassAt(h, actions, k)
      invariant reasons == Gathered(h, limits, actions, k)
    {
      reasons := CheckOwn(h, limits, Pass(state, hold, distance, gotos, north, east), actions[k], k + 1, reasons);
      match actions[k] {
        case TakeoffAction(altitude) =>
          state := Airborne;
        case HoldAction(seconds) =>
          hold := hold + seconds;
        case GotoAction(n, e, altitude) =>
          gotos := gotos + 1;
          distance := distance + h(n - north, e - east);
          north, east := n, e;
        case ReturnHomeAction =>
          distance := distance + h(north, east);
          north, east := 0.0, 0.0;
          state := Returning;
        case LandAction =>
          state := Landed;
      }
      assert Pass(state, hold, distance, gotos, north, east) == PassAt(h, actions, k + 1);
      reasons := CheckRemaining(state, actions[k + 1..], k + 1, reasons);
    }
    reasons := CheckTotals(limits, Pass(state, hold, distance, gotos, north, east), actions, reasons);
    DedupRemovesNothing(h, limits, actions);
    decision := PolicyDecision(reasons == [], Dedup(reasons));
    if IsHypot(h) && ActionsValid(actions) {
      ApprovedIffPermitted(h, limits, actions);
    }
  }
}
