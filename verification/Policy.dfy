/** The deterministic policy engine (src/nightjar/policy.py): the one-pass check and its reasons. */
module Policy {
  import opened Models

  datatype FlightState = Disarmed | Airborne | Returning | Landed

  datatype ReasonKind =
    | TooManyActions | TakeoffState | TooHigh | HoldState | HoldTooLong | GotoState | TooFar
    | ReturnState | LandState | AfterLanding | AfterReturn
    | TotalHold | TotalDistance | TooManyGotos | FirstNotTakeoff

  /** A rejection reason: the 1-based action index (0 for a whole-mission reason) and its kind. */
  datatype Reason = Reason(index: nat, kind: ReasonKind)

  datatype PolicyDecision = PolicyDecision(approved: bool, reasons: seq<Reason>)

  type Hypot = (real, real) -> real

  /** The accumulators of the pass. */
  datatype Pass = Pass(flight: FlightState, hold: int, distance: real, gotos: int, north: real, east: real)

  const START := Pass(Disarmed, 0, 0.0, 0, 0.0, 0.0)

  function Advance(h: Hypot, s: Pass, a: Action): Pass {
    match a
    case TakeoffAction(_) => s.(flight := Airborne)
    case HoldAction(seconds) => s.(hold := s.hold + seconds)
    case GotoAction(north, east, _) =>
      s.(gotos := s.gotos + 1,
         distance := s.distance + h(north - s.north, east - s.east),
         north := north,
         east := east)
    case ReturnHomeAction =>
      s.(distance := s.distance + h(s.north, s.east), north := 0.0, east := 0.0, flight := Returning)
    case LandAction => s.(flight := Landed)
  }

  /** Append one reason to the running list when its condition holds. */
  function Note(acc: seq<Reason>, c: bool, index: nat, kind: ReasonKind): (r: seq<Reason>)
    ensures r == [] <==> acc == [] && !c
  {
    if c then acc + [Reason(index, kind)] else acc
  }

  predicate Distinct(s: seq<Reason>) {
    forall i, j :: 0 <= i < j < |s| ==> s[i] != s[j]
  }

  predicate OnlyLand(actions: seq<Action>) {
    forall i :: 0 <= i < |actions| ==> actions[i].LandAction?
  }

  /** What action `a` itself adds, checked in state `s`. */
  function OwnReasons(h: Hypot, limits: PolicyLimits, s: Pass, a: Action, index: nat, acc: seq<Reason>): seq<Reason> {
    match a
    case TakeoffAction(altitude) =>
      Note(Note(acc, s.flight != Disarmed, index, TakeoffState), altitude > limits.maxAltitude, index, TooHigh)
    case HoldAction(seconds) =>
      Note(Note(acc, s.flight != Airborne, index, HoldState), seconds > limits.maxHoldSeconds, index, HoldTooLong)
    case GotoAction(north, east, altitude) =>
      Note(Note(Note(acc, s.flight != Airborne, index, GotoState), altitude > limits.maxAltitude, index, TooHigh),
           h(north, east) > limits.maxDistanceFromHome, index, TooFar)
    case ReturnHomeAction => Note(acc, s.flight != Airborne, index, ReturnState)
    case LandAction => Note(acc, s.flight != Airborne && s.flight != Returning, index, LandState)
  }

  /** What the look-ahead adds once the state after the action is `flight`. */
  function LookAhead(flight: FlightState, remaining: seq<Action>, index: nat, acc: seq<Reason>): seq<Reason> {
    if flight == Landed then Note(acc, remaining != [], index, AfterLanding)
    else Note(acc, flight == Returning && !OnlyLand(remaining), index, AfterReturn)
  }

  function PassAt(h: Hypot, actions: seq<Action>, k: nat): Pass
    requires k <= |actions|
  {
    if k == 0 then START else Advance(h, PassAt(h, actions, k - 1), actions[k - 1])
  }

  /** The reasons appended up to and including action `k`, in order. */
  function Gathered(h: Hypot, limits: PolicyLimits, actions: seq<Action>, k: nat): seq<Reason>
    requires k <= |actions|
  {
    if k == 0 then Note([], |actions| > limits.maxActions, 0, TooManyActions)
    else
      LookAhead(PassAt(h, actions, k).flight, actions[k..], k,
                OwnReasons(h, limits, PassAt(h, actions, k - 1), actions[k - 1], k,
                           Gathered(h, limits, actions, k - 1)))
  }

  function Closing(limits: PolicyLimits, s: Pass, actions: seq<Action>, acc: seq<Reason>): seq<Reason>
    requires actions != []
  {
    Note(Note(Note(Note(acc,
      s.hold > limits.maxTotalHold, 0, TotalHold),
      s.distance > limits.maxTotalDistance, 0, TotalDistance),
      s.gotos > limits.maxGotos, 0, TooManyGotos),
      !actions[0].TakeoffAction?, 0, FirstNotTakeoff)
  }

  /** Every reason of the pass, in the order it is appended. */
  function Collected(h: Hypot, limits: PolicyLimits, actions: seq<Action>): seq<Reason>
    requires actions != []
  {
    Closing(limits, PassAt(h, actions, |actions|), actions, Gathered(h, limits, actions, |actions|))
  }

  predicate Approved(h: Hypot, limits: PolicyLimits, actions: seq<Action>)
    requires actions != []
  {
    Collected(h, limits, actions) == []
  }

  /** Order-preserving removal of later duplicates, as `dict.fromkeys` does it. */
  function Dedup(s: seq<Reason>): seq<Reason> {
    if s == [] then []
    else
      var front := Dedup(s[..|s| - 1]);
      if s[|s| - 1] in s[..|s| - 1] then front else front + [s[|s| - 1]]
  }

  lemma {:induction false} DedupOfDistinct(s: seq<Reason>)
    requires Distinct(s)
    ensures Dedup(s) == s
  {
    if s == [] {
    } else {
      DedupOfDistinct(s[..|s| - 1]);
      assert s == s[..|s| - 1] + [s[|s| - 1]];
    }
  }

  /** De-duplication keeps exactly the reasons there are, once each, at the place of their first occurrence. */
  lemma {:induction false} DedupKeepsFirsts(s: seq<Reason>)
    ensures Distinct(Dedup(s)) && forall r :: r in Dedup(s) <==> r in s
    ensures forall k :: 0 <= k <= |s| ==> Dedup(s[..k]) <= Dedup(s)
  {
    if s == [] {
    } else {
      var front := s[..|s| - 1];
      DedupKeepsFirsts(front);
      assert s == front + [s[|s| - 1]];
      forall k | 0 <= k <= |s| ensures Dedup(s[..k]) <= Dedup(s) {
        if k < |s| {
          assert s[..k] == front[..k];
        } else {
          assert s[..k] == s;
        }
      }
    }
  }

  /** The list is distinct, and its reasons for action `index` are among `kinds`. */
  predicate NamesOnly(s: seq<Reason>, index: nat, kinds: set<ReasonKind>) {
    && Distinct(s)
    && forall r :: r in s && r.index == index ==> r.kind in kinds
  }

  predicate NoneAfter(s: seq<Reason>, index: nat) {
    forall r :: r in s ==> r.index <= index
  }

  lemma NoteNames(acc: seq<Reason>, c: bool, index: nat, kind: ReasonKind, kinds: set<ReasonKind>)
    requires NamesOnly(acc, index, kinds) && kind !in kinds
    ensures NamesOnly(Note(acc, c, index, kind), index, kinds + {kind})
  {
  }

  const OWN_KINDS := {TakeoffState, TooHigh, HoldState, HoldTooLong, GotoState, TooFar, ReturnState, LandState}

  lemma OwnNames(h: Hypot, limits: PolicyLimits, s: Pass, a: Action, index: nat, acc: seq<Reason>)
    requires NamesOnly(acc, index, {})
    ensures NamesOnly(OwnReasons(h, limits, s, a, index, acc), index, OWN_KINDS)
  {
    match a {
      case TakeoffAction(altitude) =>
        NoteNames(acc, s.flight != Disarmed, index, TakeoffState, {});
        NoteNames(Note(acc, s.flight != Disarmed, index, TakeoffState),
                  altitude > limits.maxAltitude, index, TooHigh, {TakeoffState});
      case HoldAction(seconds) =>
        NoteNames(acc, s.flight != Airborne, index, HoldState, {});
        NoteNames(Note(acc, s.flight != Airborne, index, HoldState),
                  seconds > limits.maxHoldSeconds, index, HoldTooLong, {HoldState});
      case GotoAction(north, east, altitude) =>
        var acc1 := Note(acc, s.flight != Airborne, index, GotoState);
        NoteNames(acc, s.flight != Airborne, index, GotoState, {});
        NoteNames(acc1, altitude > limits.maxAltitude, index, TooHigh, {GotoState});
        NoteNames(Note(acc1, altitude > limits.maxAltitude, index, TooHigh),
                  h(north, east) > limits.maxDistanceFromHome, index, TooFar, {GotoState, TooHigh});
      case ReturnHomeAction =>
        NoteNames(acc, s.flight != Airborne, index, ReturnState, {});
      case LandAction =>
        NoteNames(acc, s.flight != Airborne && s.flight != Returning, index, LandState, {});
    }
  }

  /** Action `index` adds reasons about itself only. */
  lemma OwnFrame(h: Hypot, limits: PolicyLimits, s: Pass, a: Action, index: nat, acc: seq<Reason>)
    ensures forall r :: r in OwnReasons(h, limits, s, a, index, acc) ==> r in acc || r.index == index
  {
  }

  lemma LookAheadFrame(flight: FlightState, remaining: seq<Action>, index: nat, acc: seq<Reason>)
    requires NamesOnly(acc, index, OWN_KINDS)
    ensures Distinct(LookAhead(flight, remaining, index, acc))
    ensures forall r :: r in LookAhead(flight, remaining, index, acc) ==> r in acc || r.index == index
  {
  }

  /** Reasons gathered so far name earlier actions only, so a new action's reasons are new. */
  lemma {:induction false} GatheredDistinct(h: Hypot, limits: PolicyLimits, actions: seq<Action>, k: nat)
    requires k <= |actions|
    ensures NamesOnly(Gathered(h, limits, actions, k), 0, {TooManyActions})
    ensures NoneAfter(Gathered(h, limits, actions, k), k)
  {
    hide OwnReasons, LookAhead;
    if k == 0 {
    } else {
      var acc := Gathered(h, limits, actions, k - 1);
      var s := PassAt(h, actions, k - 1);
      var own := OwnReasons(h, limits, s, actions[k - 1], k, acc);
      GatheredDistinct(h, limits, actions, k - 1);
      OwnNames(h, limits, s, actions[k - 1], k, acc);
      OwnFrame(h, limits, s, actions[k - 1], k, acc);
      LookAheadFrame(PassAt(h, actions, k).flight, actions[k..], k, own);
    }
  }

  /** The reasons of a whole pass are pairwise distinct as (action index, kind). */
  lemma CollectedDistinct(h: Hypot, limits: PolicyLimits, actions: seq<Action>)
    requires actions != []
    ensures Distinct(Collected(h, limits, actions))
  {
    var acc, s := Gathered(h, limits, actions, |actions|), PassAt(h, actions, |actions|);
    GatheredDistinct(h, limits, actions, |actions|);
    var acc1 := Note(acc, s.hold > limits.maxTotalHold, 0, TotalHold);
    var acc2 := Note(acc1, s.distance > limits.maxTotalDistance, 0, TotalDistance);
    var acc3 := Note(acc2, s.gotos > limits.maxGotos, 0, TooManyGotos);
    NoteNames(acc, s.hold > limits.maxTotalHold, 0, TotalHold, {TooManyActions});
    NoteNames(acc1, s.distance > limits.maxTotalDistance, 0, TotalDistance, {TooManyActions, TotalHold});
    NoteNames(acc2, s.gotos > limits.maxGotos, 0, TooManyGotos, {TooManyActions, TotalHold, TotalDistance});
    NoteNames(acc3, !actions[0].TakeoffAction?, 0, FirstNotTakeoff,
              {TooManyActions, TotalHold, TotalDistance, TooManyGotos});
  }

  /** So the final de-duplication of the reasons removes nothing. */
  lemma DedupRemovesNothing(h: Hypot, limits: PolicyLimits, actions: seq<Action>)
    requires actions != []
    ensures Dedup(Collected(h, limits, actions)) == Collected(h, limits, actions)
  {
    CollectedDistinct(h, limits, actions);
    DedupOfDistinct(Collected(h, limits, actions));
  }
}
