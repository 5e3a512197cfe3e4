/**
 * What the one-pass check decides, said without the pass: a mission grammar plus budgets.
 */
module PolicyGrammar {
  import opened Models
  import opened Policy

  datatype Point = Point(north: real, east: real)

  const ORIGIN := Point(0.0, 0.0)

  predicate Loiters(a: Action) {
    a.HoldAction? || a.GotoAction?
  }

  /** How a mission may end. */
  predicate Ending(tail: seq<Action>) {
    || tail == [LandAction]
    || tail == [ReturnHomeAction]
    || tail == [ReturnHomeAction, LandAction]
  }

  /** takeoff, then any holds and gotos up to `m`, then an ending. */
  predicate Sentence(actions: seq<Action>, m: nat) {
    && 1 <= m < |actions|
    && actions[0].TakeoffAction?
    && (forall i :: 1 <= i < m ==> Loiters(actions[i]))
    && Ending(actions[m..])
  }

  ghost predicate Grammatical(actions: seq<Action>) {
    exists m: nat :: Sentence(actions, m)
  }

  function HoldTotal(actions: seq<Action>): int {
    if actions == [] then 0
    else
      var a := actions[|actions| - 1];
      HoldTotal(actions[..|actions| - 1]) + (if a.HoldAction? then a.seconds else 0)
  }

  function GotoCount(actions: seq<Action>): nat {
    if actions == [] then 0
    else GotoCount(actions[..|actions| - 1]) + (if actions[|actions| - 1].GotoAction? then 1 else 0)
  }

  /** The corners of the horizontal path: home, each goto target, and home again per return. */
  function Waypoints(actions: seq<Action>): (r: seq<Point>)
    ensures |r| >= 1 && r[0] == ORIGIN
  {
    if actions == [] then [ORIGIN]
    else
      var rest := Waypoints(actions[..|actions| - 1]);
      match actions[|actions| - 1]
      case GotoAction(north, east, _) => rest + [Point(north, east)]
      case ReturnHomeAction => rest + [ORIGIN]
      case _ => rest
  }

  function Leg(h: Hypot, p: Point, q: Point): real {
    h(q.north - p.north, q.east - p.east)
  }

  function PathLength(h: Hypot, path: seq<Point>): real {
    if |path| < 2 then 0.0
    else PathLength(h, path[..|path| - 1]) + Leg(h, path[|path| - 2], path[|path| - 1])
  }

  predicate WithinOwnLimits(h: Hypot, limits: PolicyLimits, a: Action) {
    match a
    case TakeoffAction(altitude) => altitude <= limits.maxAltitude
    case HoldAction(seconds) => seconds <= limits.maxHoldSeconds
    case GotoAction(north, east, altitude) =>
      altitude <= limits.maxAltitude && h(north, east) <= limits.maxDistanceFromHome
    case _ => true
  }

  predicate WithinBudgets(h: Hypot, limits: PolicyLimits, actions: seq<Action>) {
    && |actions| <= limits.maxActions
    && (forall i :: 0 <= i < |actions| ==> WithinOwnLimits(h, limits, actions[i]))
    && HoldTotal(actions) <= limits.maxTotalHold
    && PathLength(h, Waypoints(actions)) <= limits.maxTotalDistance
    && GotoCount(actions) <= limits.maxGotos
  }

  ghost predicate Permitted(h: Hypot, limits: PolicyLimits, actions: seq<Action>) {
    Grammatical(actions) && WithinBudgets(h, limits, actions)
  }

  ghost predicate HypotAt(h: Hypot, x: real, y: real) {
    h(x, y) >= 0.0 && h(x, y) * h(x, y) == x * x + y * y
  }

  /** All that is used of `math.hypot`. */
  ghost predicate IsHypot(h: Hypot) {
    forall x, y :: HypotAt(h, x, y)
  }

  lemma PositiveProduct(p: real, q: real)
    requires p > 0.0 && q > 0.0
    ensures p * q > 0.0
  {
  }

  lemma SquaresGrow(x: real, y: real)
    requires x > y >= 0.0
    ensures x * x > y * y
  {
    PositiveProduct(x - y, x + y);
    assert x * x - y * y == (x - y) * (x + y);
  }

  lemma SquaresOrder(x: real, y: real)
    requires y >= 0.0 && x * x <= y * y
    ensures x <= y
  {
    if x > y {
      SquaresGrow(x, y);
      assert false;
    }
  }

  lemma SquaresDecide(a: real, b: real)
    requires a >= 0.0 && b >= 0.0 && a * a == b * b
    ensures a == b
  {
    SquaresOrder(a, b);
    SquaresOrder(b, a);
  }

  lemma HypotEven(h: Hypot, x: real, y: real)
    requires IsHypot(h)
    ensures h(0.0 - x, 0.0 - y) == h(x, y)
  {
    assert HypotAt(h, x, y) && HypotAt(h, 0.0 - x, 0.0 - y);
    assert (0.0 - x) * (0.0 - x) == x * x && (0.0 - y) * (0.0 - y) == y * y;
    SquaresDecide(h(0.0 - x, 0.0 - y), h(x, y));
  }

  lemma HypotOrigin(h: Hypot)
    requires IsHypot(h)
    ensures h(0.0, 0.0) == 0.0
  {
    assert HypotAt(h, 0.0, 0.0);
    SquaresDecide(h(0.0, 0.0), 0.0);
  }

  // ----- the accumulators of the pass are the totals of the actions seen

  ghost predicate TotalsAgree(h: Hypot, s: Pass, seen: seq<Action>) {
    var path := Waypoints(seen);
    && s.hold == HoldTotal(seen)
    && s.gotos == GotoCount(seen)
    && s.distance == PathLength(h, path)
    && Point(s.north, s.east) == path[|path| - 1]
  }

  lemma TotalsStep(h: Hypot, s: Pass, seen: seq<Action>, a: Action)
    requires IsHypot(h) && TotalsAgree(h, s, seen)
    ensures TotalsAgree(h, Advance(h, s, a), seen + [a])
  {
    assert (seen + [a])[..|seen|] == seen;
    var path := Waypoints(seen);
    HypotEven(h, s.north, s.east);
    if a.GotoAction? {
      assert (path + [Point(a.north, a.east)])[..|path|] == path;
    } else if a.ReturnHomeAction? {
      assert (path + [ORIGIN])[..|path|] == path;
    }
  }

  lemma {:induction false} PassTotals(h: Hypot, actions: seq<Action>, k: nat)
    requires IsHypot(h) && k <= |actions|
    ensures TotalsAgree(h, PassAt(h, actions, k), actions[..k])
  {
    if k == 0 {
    } else {
      PassTotals(h, actions, k - 1);
      TotalsStep(h, PassAt(h, actions, k - 1), actions[..k - 1], actions[k - 1]);
      assert actions[..k - 1] + [actions[k - 1]] == actions[..k];
    }
  }

  // ----- a turn of the pass is clean exactly when the transition is legal and the limits hold

  function FlightAfter(s: FlightState, a: Action): FlightState {
    match a
    case TakeoffAction(_) => Airborne
    case ReturnHomeAction => Returning
    case LandAction => Landed
    case _ => s
  }

  /** The flight state after the first `k` actions; the limits and the geometry play no part. */
  function FlightAt(actions: seq<Action>, k: nat): FlightState
    requires k <= |actions|
  {
    if k == 0 then Disarmed else FlightAfter(FlightAt(actions, k - 1), actions[k - 1])
  }

  predicate Legal(s: FlightState, a: Action, remaining: seq<Action>) {
    && (match a
        case TakeoffAction(_) => s == Disarmed
        case LandAction => s == Airborne || s == Returning
        case _ => s == Airborne)
    && (FlightAfter(s, a) == Landed ==> remaining == [])
    && (FlightAfter(s, a) == Returning ==> OnlyLand(remaining))
  }

  predicate LegalUpTo(actions: seq<Action>, k: nat)
    requires k <= |actions|
  {
    forall i :: 0 <= i < k ==> Legal(FlightAt(actions, i), actions[i], actions[i + 1..])
  }

  lemma {:induction false} PassFlight(h: Hypot, actions: seq<Action>, k: nat)
    requires k <= |actions|
    ensures PassAt(h, actions, k).flight == FlightAt(actions, k)
  {
    if k == 0 {
    } else {
      PassFlight(h, actions, k - 1);
    }
  }

  lemma TurnClean(
    h: Hypot, limits: PolicyLimits, s: Pass, a: Action, remaining: seq<Action>, index: nat, acc: seq<Reason>)
    ensures LookAhead(Advance(h, s, a).flight, remaining, index, OwnReasons(h, limits, s, a, index, acc)) == []
      <==> acc == [] && Legal(s.flight, a, remaining) && WithinOwnLimits(h, limits, a)
  {
  }

  lemma {:induction false} GatheredClean(h: Hypot, limits: PolicyLimits, actions: seq<Action>, k: nat)
    requires k <= |actions|
    ensures Gathered(h, limits, actions, k) == []
      <==> |actions| <= limits.maxActions && LegalUpTo(actions, k)
           && forall i :: 0 <= i < k ==> WithinOwnLimits(h, limits, actions[i])
  {
    hide OwnReasons, LookAhead, WithinOwnLimits, Legal, Advance;
    if k == 0 {
    } else {
      GatheredClean(h, limits, actions, k - 1);
      PassFlight(h, actions, k - 1);
      TurnClean(h, limits, PassAt(h, actions, k - 1), actions[k - 1], actions[k..], k,
                Gathered(h, limits, actions, k - 1));
    }
  }

  // ----- legal runs of the flight state are the sentences of the grammar

  lemma {:induction false} StaysAirborne(actions: seq<Action>, m: nat, k: nat)
    requires 1 <= k <= m <= |actions| && actions[0].TakeoffAction?
    requires forall i :: 1 <= i < m ==> Loiters(actions[i])
    ensures FlightAt(actions, k) == Airborne
  {
    if k == 1 {
    } else {
      StaysAirborne(actions, m, k - 1);
    }
  }

  lemma SentenceIsLegal(actions: seq<Action>, m: nat)
    requires Sentence(actions, m)
    ensures LegalUpTo(actions, |actions|)
  {
    forall i | 0 <= i < |actions|
      ensures Legal(FlightAt(actions, i), actions[i], actions[i + 1..])
    {
      if 1 <= i <= m {
        StaysAirborne(actions, m, i);
      } else if i > m {
        StaysAirborne(actions, m, m);
        assert actions[i] == actions[m..][i - m];
        assert FlightAt(actions, m + 1) == Returning;
      }
      if i >= m {
        assert actions[i] == actions[m..][i - m];
        assert actions[i + 1..] == actions[m..][i - m + 1..];
      }
    }
  }

  /** The index of the first action that is neither a hold nor a goto. */
  lemma {:induction false} FirstEnding(actions: seq<Action>, k: nat) returns (m: nat)
    requires ActionsValid(actions) && actions[0].TakeoffAction? && 1 <= k < |actions|
    requires forall i :: 1 <= i < k ==> Loiters(actions[i])
    ensures k <= m < |actions| && !Loiters(actions[m])
    ensures forall i :: 1 <= i < m ==> Loiters(actions[i])
    decreases |actions| - k
  {
    if Loiters(actions[k]) {
      m := FirstEnding(actions, k + 1);
    } else {
      m := k;
    }
  }

  lemma LegalIsSentence(actions: seq<Action>)
    requires ActionsValid(actions) && actions[0].TakeoffAction?
    requires LegalUpTo(actions, |actions|)
    ensures Grammatical(actions)
  {
    assert |actions| > 1;
    var m := FirstEnding(actions, 1);
    StaysAirborne(actions, m, m);
    assert Legal(FlightAt(actions, m), actions[m], actions[m + 1..]);
    var tail := actions[m..];
    assert tail == [actions[m]] + actions[m + 1..];
    if actions[m].ReturnHomeAction? && m + 1 < |actions| {
      assert actions[m + 1..][0] == actions[m + 1];
      assert Legal(FlightAt(actions, m + 1), actions[m + 1], actions[m + 2..]);
      assert tail == [actions[m], actions[m + 1]] + actions[m + 2..];
    }
    assert Sentence(actions, m);
  }

  /** The pass approves a schema-valid mission exactly when the grammar and the budgets permit it. */
  lemma ApprovedIffPermitted(h: Hypot, limits: PolicyLimits, actions: seq<Action>)
    requires IsHypot(h) && ActionsValid(actions)
    ensures Approved(h, limits, actions) <==> Permitted(h, limits, actions)
  {
    GatheredClean(h, limits, actions, |actions|);
    PassTotals(h, actions, |actions|);
    assert actions[..|actions|] == actions;
    if Grammatical(actions) {
      var m: nat :| Sentence(actions, m);
      SentenceIsLegal(actions, m);
    } else if actions[0].TakeoffAction? && LegalUpTo(actions, |actions|) {
      LegalIsSentence(actions);
    }
  }
}
