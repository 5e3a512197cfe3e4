/** What each reason says of the mission: the reasons of the pass, told without the pass. */
module PolicyReasons {
  import opened Models
  import opened Policy
  import opened PolicyGrammar

  /** The fault of `kind` in a single action taken in flight state `s`. */
  predicate ActionFault(h: Hypot, limits: PolicyLimits, s: FlightState, a: Action, kind: ReasonKind) {
    match kind
    case TakeoffState => a.TakeoffAction? && s != Disarmed
    case TooHigh => (a.TakeoffAction? || a.GotoAction?) && a.altitude > limits.maxAltitude
    case HoldState => a.HoldAction? && s != Airborne
    case HoldTooLong => a.HoldAction? && a.seconds > limits.maxHoldSeconds
    case GotoState => a.GotoAction? && s != Airborne
    case TooFar => a.GotoAction? && h(a.north, a.east) > limits.maxDistanceFromHome
    case ReturnState => a.ReturnHomeAction? && s != Airborne
    case LandState => a.LandAction? && s != Airborne && s != Returning
    case _ => false
  }

  /** The fault of `kind` in what is left after reaching flight state `s`. */
  predicate OrderFault(s: FlightState, remaining: seq<Action>, kind: ReasonKind) {
    match kind
    case AfterLanding => s == Landed && remaining != []
    case AfterReturn => s == Returning && !OnlyLand(remaining)
    case _ => false
  }

  /** The fault of `kind` in the mission as a whole. */
  predicate MissionFault(h: Hypot, limits: PolicyLimits, actions: seq<Action>, kind: ReasonKind)
    requires actions != []
  {
    match kind
    case TooManyActions => |actions| > limits.maxActions
    case TotalHold => HoldTotal(actions) > limits.maxTotalHold
    case TotalDistance => PathLength(h, Waypoints(actions)) > limits.maxTotalDistance
    case TooManyGotos => GotoCount(actions) > limits.maxGotos
    case FirstNotTakeoff => !actions[0].TakeoffAction?
    case _ => false
  }

  /** The mission has the fault that `r` names: at action `r.index`, or as a whole. */
  predicate Faulty(h: Hypot, limits: PolicyLimits, actions: seq<Action>, r: Reason)
    requires actions != []
  {
    if r.index == 0 then MissionFault(h, limits, actions, r.kind)
    else TurnFault(h, limits, actions, r.index, r.kind)
  }

  predicate TurnFault(h: Hypot, limits: PolicyLimits, actions: seq<Action>, index: nat, kind: ReasonKind)
    requires index > 0
  {
    && index <= |actions|
    && (|| ActionFault(h, limits, FlightAt(actions, index - 1), actions[index - 1], kind)
        || OrderFault(FlightAt(actions, index), actions[index..], kind))
  }

  lemma NoteMembers(acc: seq<Reason>, c: bool, index: nat, kind: ReasonKind, r: Reason)
    ensures r in Note(acc, c, index, kind) <==> r in acc || (c && r == Reason(index, kind))
  {
  }

  lemma OwnMembers(h: Hypot, limits: PolicyLimits, s: Pass, a: Action, index: nat, acc: seq<Reason>, r: Reason)
    ensures r in OwnReasons(h, limits, s, a, index, acc)
       <==> r in acc || (r.index == index && ActionFault(h, limits, s.flight, a, r.kind))
  {
    match a {
      case TakeoffAction(_) => match r.kind { case TakeoffState => case TooHigh => case _ => }
      case HoldAction(_) => match r.kind { case HoldState => case HoldTooLong => case _ => }
      case GotoAction(_, _, _) => match r.kind { case GotoState => case TooHigh => case TooFar => case _ => }
      case ReturnHomeAction => match r.kind { case ReturnState => case _ => }
      case LandAction => match r.kind { case LandState => case _ => }
    }
  }

  lemma LookAheadMembers(flight: FlightState, remaining: seq<Action>, index: nat, acc: seq<Reason>, r: Reason)
    ensures r in LookAhead(flight, remaining, index, acc)
       <==> r in acc || (r.index == index && OrderFault(flight, remaining, r.kind))
  {
  }

  lemma {:induction false} GatheredMembers(h: Hypot, limits: PolicyLimits, actions: seq<Action>, k: nat, r: Reason)
    requires k <= |actions|
    ensures r in Gathered(h, limits, actions, k)
       <==> || (r == Reason(0, TooManyActions) && |actions| > limits.maxActions)
            || (1 <= r.index <= k && TurnFault(h, limits, actions, r.index, r.kind))
  {
    hide OwnReasons, LookAhead, ActionFault, OrderFault, Advance;
    if k == 0 {
    } else {
      var acc, s := Gathered(h, limits, actions, k - 1), PassAt(h, actions, k - 1);
      var own := OwnReasons(h, limits, s, actions[k - 1], k, acc);
      GatheredMembers(h, limits, actions, k - 1, r);
      PassFlight(h, actions, k - 1);
      PassFlight(h, actions, k);
      OwnMembers(h, limits, s, actions[k - 1], k, acc, r);
      LookAheadMembers(PassAt(h, actions, k).flight, actions[k..], k, own, r);
    }
  }

  lemma ClosingMembers(h: Hypot, limits: PolicyLimits, s: Pass, actions: seq<Action>, acc: seq<Reason>, r: Reason)
    requires actions != [] && s.hold == HoldTotal(actions) && s.gotos == GotoCount(actions)
    requires s.distance == PathLength(h, Waypoints(actions))
    ensures r in Closing(limits, s, actions, acc)
       <==> r in acc || (r.index == 0 && r.kind != TooManyActions && MissionFault(h, limits, actions, r.kind))
  {
    hide PathLength, Waypoints, HoldTotal, GotoCount, Note;
    var c1, c2, c3 := s.hold > limits.maxTotalHold, s.distance > limits.maxTotalDistance, s.gotos > limits.maxGotos;
    var acc1 := Note(acc, c1, 0, TotalHold);
    var acc2 := Note(acc1, c2, 0, TotalDistance);
    var acc3 := Note(acc2, c3, 0, TooManyGotos);
    NoteMembers(acc, c1, 0, TotalHold, r);
    NoteMembers(acc1, c2, 0, TotalDistance, r);
    NoteMembers(acc2, c3, 0, TooManyGotos, r);
    NoteMembers(acc3, !actions[0].TakeoffAction?, 0, FirstNotTakeoff, r);
  }

  /** A reason is reported exactly when the mission has the fault it names: every one, and no other. */
  lemma ReasonsAreFaults(h: Hypot, limits: PolicyLimits, actions: seq<Action>, r: Reason)
    requires IsHypot(h) && actions != []
    ensures r in Collected(h, limits, actions) <==> Faulty(h, limits, actions, r)
  {
    hide Closing, IsHypot, ActionFault, OrderFault, Gathered, PassAt;
    GatheredMembers(h, limits, actions, |actions|, r);
    PassTotals(h, actions, |actions|);
    assert actions[..|actions|] == actions;
    ClosingMembers(h, limits, PassAt(h, actions, |actions|), actions, Gathered(h, limits, actions, |actions|), r);
  }

  // ----- the order of the reasons

  /** Within one action: its state, then its limits, then what follows it. */
  function Rank(kind: ReasonKind): nat {
    match kind
    case TakeoffState => 0
    case HoldState => 0
    case GotoState => 0
    case ReturnState => 0
    case LandState => 0
    case TooHigh => 1
    case HoldTooLong => 1
    case TooFar => 2
    case AfterLanding => 3
    case AfterReturn => 3
    case TooManyActions => 0
    case TotalHold => 4
    case TotalDistance => 5
    case TooManyGotos => 6
    case FirstNotTakeoff => 7
  }

  /** The number of actions first, then action by action, then the totals and the first action. */
  function Place(n: nat, r: Reason): nat {
    if r.index > 0 then 8 * r.index + Rank(r.kind)
    else if r.kind == TooManyActions then 0
    else 8 * (n + 1) + Rank(r.kind)
  }

  predicate InOrder(s: seq<Reason>, n: nat) {
    forall i, j :: 0 <= i < j < |s| ==> Place(n, s[i]) < Place(n, s[j])
  }

  predicate Under(s: seq<Reason>, n: nat, bound: nat) {
    forall i :: 0 <= i < |s| ==> Place(n, s[i]) < bound
  }

  lemma NoteInOrder(acc: seq<Reason>, c: bool, index: nat, kind: ReasonKind, n: nat, bound: nat)
    requires InOrder(acc, n) && Under(acc, n, bound) && bound <= Place(n, Reason(index, kind))
    ensures InOrder(Note(acc, c, index, kind), n)
    ensures Under(Note(acc, c, index, kind), n, Place(n, Reason(index, kind)) + 1)
  {
  }

  lemma UnderMore(s: seq<Reason>, n: nat, a: nat, b: nat)
    requires Under(s, n, a) && a <= b
    ensures Under(s, n, b)
  {
  }

  lemma OwnInOrder(h: Hypot, limits: PolicyLimits, s: Pass, a: Action, index: nat, acc: seq<Reason>, n: nat)
    requires index > 0 && InOrder(acc, n) && Under(acc, n, 8 * index)
    ensures InOrder(OwnReasons(h, limits, s, a, index, acc), n)
    ensures Under(OwnReasons(h, limits, s, a, index, acc), n, 8 * index + 3)
  {
    hide InOrder, Under, Note;
    match a {
      case TakeoffAction(altitude) =>
        var acc1 := Note(acc, s.flight != Disarmed, index, TakeoffState);
        NoteInOrder(acc, s.flight != Disarmed, index, TakeoffState, n, 8 * index);
        NoteInOrder(acc1, altitude > limits.maxAltitude, index, TooHigh, n, 8 * index + 1);
        UnderMore(OwnReasons(h, limits, s, a, index, acc), n, 8 * index + 2, 8 * index + 3);
      case HoldAction(seconds) =>
        var acc1 := Note(acc, s.flight != Airborne, index, HoldState);
        NoteInOrder(acc, s.flight != Airborne, index, HoldState, n, 8 * index);
        NoteInOrder(acc1, seconds > limits.maxHoldSeconds, index, HoldTooLong, n, 8 * index + 1);
        UnderMore(OwnReasons(h, limits, s, a, index, acc), n, 8 * index + 2, 8 * index + 3);
      case GotoAction(north, east, altitude) =>
        var acc1 := Note(acc, s.flight != Airborne, index, GotoState);
        var acc2 := Note(acc1, altitude > limits.maxAltitude, index, TooHigh);
        NoteInOrder(acc, s.flight != Airborne, index, GotoState, n, 8 * index);
        NoteInOrder(acc1, altitude > limits.maxAltitude, index, TooHigh, n, 8 * index + 1);
        NoteInOrder(acc2, h(north, east) > limits.maxDistanceFromHome, index, TooFar, n, 8 * index + 2);
      case ReturnHomeAction =>
        NoteInOrder(acc, s.flight != Airborne, index, ReturnState, n, 8 * index);
        UnderMore(OwnReasons(h, limits, s, a, index, acc), n, 8 * index + 1, 8 * index + 3);
      case LandAction =>
        NoteInOrder(acc, s.flight != Airborne && s.flight != Returning, index, LandState, n, 8 * index);
        UnderMore(OwnReasons(h, limits, s, a, index, acc), n, 8 * index + 1, 8 * index + 3);
    }
  }

  lemma LookAheadInOrder(flight: FlightState, remaining: seq<Action>, index: nat, acc: seq<Reason>, n: nat)
    requires index > 0 && InOrder(acc, n) && Under(acc, n, 8 * index + 3)
    ensures InOrder(LookAhead(flight, remaining, index, acc), n)
    ensures Under(LookAhead(flight, remaining, index, acc), n, 8 * index + 8)
  {
    hide InOrder, Under, Note;
    var ahead := LookAhead(flight, remaining, index, acc);
    NoteInOrder(acc, remaining != [], index, AfterLanding, n, 8 * index + 3);
    NoteInOrder(acc, flight == Returning && !OnlyLand(remaining), index, AfterReturn, n, 8 * index + 3);
    UnderMore(ahead, n, 8 * index + 4, 8 * index + 8);
  }

  lemma {:induction false} GatheredInOrder(h: Hypot, limits: PolicyLimits, actions: seq<Action>, k: nat)
    requires k <= |actions|
    ensures InOrder(Gathered(h, limits, actions, k), |actions|)
    ensures Under(Gathered(h, limits, actions, k), |actions|, 8 * k + 8)
  {
    hide OwnReasons, LookAhead, Advance;
    if k == 0 {
    } else {
      hide InOrder, Under;
      var acc, s := Gathered(h, limits, actions, k - 1), PassAt(h, actions, k - 1);
      GatheredInOrder(h, limits, actions, k - 1);
      OwnInOrder(h, limits, s, actions[k - 1], k, acc, |actions|);
      LookAheadInOrder(PassAt(h, actions, k).flight, actions[k..], k,
                       OwnReasons(h, limits, s, actions[k - 1], k, acc), |actions|);
    }
  }

  lemma TotalsInOrder(acc: seq<Reason>, a: bool, b: bool, c: bool, d: bool, n: nat)
    requires InOrder(acc, n) && Under(acc, n, 8 * n + 8)
    ensures InOrder(Note(Note(Note(Note(acc, a, 0, TotalHold), b, 0, TotalDistance), c, 0, TooManyGotos),
                         d, 0, FirstNotTakeoff), n)
  {
    hide InOrder, Under, Note;
    var acc1 := Note(acc, a, 0, TotalHold);
    var acc2 := Note(acc1, b, 0, TotalDistance);
    UnderMore(acc, n, 8 * n + 8, 8 * n + 12);
    NoteInOrder(acc, a, 0, TotalHold, n, 8 * n + 12);
    NoteInOrder(acc1, b, 0, TotalDistance, n, 8 * n + 13);
    NoteInOrder(acc2, c, 0, TooManyGotos, n, 8 * n + 14);
    NoteInOrder(Note(acc2, c, 0, TooManyGotos), d, 0, FirstNotTakeoff, n, 8 * n + 15);
  }

  /**
   * The reasons come in this order. With `ReasonsAreFaults` this fixes the whole list: each fault once, at
   * its place.
   */
  lemma ReasonsInOrder(h: Hypot, limits: PolicyLimits, actions: seq<Action>)
    requires actions != []
    ensures InOrder(Collected(h, limits, actions), |actions|)
  {
    var n, s := |actions|, PassAt(h, actions, |actions|);
    GatheredInOrder(h, limits, actions, n);
    hide InOrder, Under, Note, Gathered, PassAt;
    TotalsInOrder(Gathered(h, limits, actions, n), s.hold > limits.maxTotalHold,
                  s.distance > limits.maxTotalDistance, s.gotos > limits.maxGotos, !actions[0].TakeoffAction?, n);
  }
}
