/** The mission vocabulary and the policy limits (src/nightjar/models.py, src/nightjar/policy.py). */
module Models {

  /** One mission action; the constructors carry the names of the source's model classes. */
  datatype Action =
    | TakeoffAction(altitude: real)
    | HoldAction(seconds: int)
    | GotoAction(north: real, east: real, altitude: real)
    | ReturnHomeAction
    | LandAction

  datatype Mission = Mission(id: string, description: string, actions: seq<Action>)

  datatype PolicyLimits = PolicyLimits(
    maxAltitude: real,
    maxDistanceFromHome: real,
    maxHoldSeconds: int,
    maxActions: int,
    maxTotalHold: int,
    maxTotalDistance: real,
    maxGotos: int,
    homeHorizontalTolerance: real,
    homeVerticalTolerance: real)

  predicate ActionValid(a: Action) {
    match a
    case TakeoffAction(altitude) => altitude > 0.0
    case HoldAction(seconds) => seconds > 0
    case GotoAction(_, _, altitude) => altitude > 0.0
    case ReturnHomeAction => true
    case LandAction => true
  }

  /** The action list every parsed mission satisfies: bounded, field-valid, safely terminated. */
  predicate ActionsValid(actions: seq<Action>) {
    && 1 <= |actions| <= 10
    && (forall i :: 0 <= i < |actions| ==> ActionValid(actions[i]))
    && (actions[|actions| - 1].ReturnHomeAction? || actions[|actions| - 1].LandAction?)
  }

  predicate MissionValid(m: Mission) {
    && 1 <= |m.description| <= 300
    && ActionsValid(m.actions)
  }
}
