/** `canonical_json_bytes` and the digests built on it (src/nightjar/security.py). */
module Canonical {
  import opened Models
  import opened JsonValue
  import opened JsonText
  import opened JsonRoundTrip
  import opened Utf8
  import opened Options

  function CanonicalBytes(v: Json): seq<Byte> {
    Encode(Emit(Norm(v)))
  }

  /** Read canonical bytes back. */
  function Read(b: seq<Byte>): Option<Json> {
    match Decode(b)
    case None => None
    case Some(text) =>
      match ParseValue(text)
      case None => None
      case Some((v, rest)) => if rest == [] then Some(v) else None
  }

  /** Reading gives back the value, with every dict in key order. */
  lemma ReadCanonical(v: Json)
    requires WellFormed(v)
    ensures Read(CanonicalBytes(v)) == Some(Norm(v))
  {
    hide Emit, ParseValue, Encode, Decode, Norm;
    RoundTrip(Emit(Norm(v)));
    NormPrintable(v);
    ValueRoundTrip(Norm(v), []);
    assert Emit(Norm(v)) + [] == Emit(Norm(v));
  }

  /** Two values have equal canonical bytes exactly when they are equal as values. */
  lemma CanonicalIff(a: Json, b: Json)
    requires WellFormed(a) && WellFormed(b)
    ensures CanonicalBytes(a) == CanonicalBytes(b) <==> Same(a, b)
  {
    hide CanonicalBytes, Norm, Same;
    ReadCanonical(a);
    ReadCanonical(b);
    if CanonicalBytes(a) == CanonicalBytes(b) {
      NormSame(a, b);
    } else if Same(a, b) {
      SameNorm(a, b);
      CanonicalOfNorm(a, b);
    }
  }

  lemma CanonicalOfNorm(a: Json, b: Json)
    requires Norm(a) == Norm(b)
    ensures CanonicalBytes(a) == CanonicalBytes(b)
  {
  }

  // ----- digests

  /** SHA-256 in hexadecimal; nothing is assumed of it. */
  type Hash = seq<Byte> -> string

  function Sha256Hex(hash: Hash, v: Json): string {
    hash(CanonicalBytes(v))
  }

  predicate Collision(hash: Hash, a: seq<Byte>, b: seq<Byte>) {
    a != b && hash(a) == hash(b)
  }

  // ----- how floats print

  /** Which reals are floats, and the token `float.__repr__` gives each. */
  datatype Printer = Printer(isFloat: real -> bool, repr: real -> string)

  ghost predicate Faithful(p: Printer) {
    && (forall x :: p.isFloat(x) ==> FloatToken(p.repr(x)))
    && (forall x, y :: p.isFloat(x) && p.isFloat(y) && p.repr(x) == p.repr(y) ==> x == y)
  }

  function Real(p: Printer, x: real): Json {
    Float(p.repr(x))
  }

  // ----- the values that are hashed

  function TypeName(a: Action): string {
    match a
    case TakeoffAction(_) => "takeoff"
    case HoldAction(_) => "hold"
    case GotoAction(_, _, _) => "goto"
    case ReturnHomeAction => "return_home"
    case LandAction => "land"
  }

  function ActionMembers(p: Printer, a: Action): seq<Member> {
    [Member("type", Str(TypeName(a)))]
    + match a
      case TakeoffAction(altitude) => [Member("altitude_m", Real(p, altitude))]
      case HoldAction(seconds) => [Member("duration_seconds", Int(seconds))]
      case GotoAction(north, east, altitude) =>
        [Member("north_m", Real(p, north)), Member("east_m", Real(p, east)), Member("altitude_m", Real(p, altitude))]
      case ReturnHomeAction => []
      case LandAction => []
  }

  function ActionsJson(p: Printer, actions: seq<Action>): (r: seq<Json>)
    ensures |r| == |actions|
    ensures forall i :: 0 <= i < |r| ==> r[i] == Obj(ActionMembers(p, actions[i]))
  {
    if actions == [] then [] else [Obj(ActionMembers(p, actions[0]))] + ActionsJson(p, actions[1..])
  }

  function MissionJson(p: Printer, m: Mission): Json {
    Obj([Member("mission_id", Str(m.id)),
         Member("description", Str(m.description)),
         Member("actions", Arr(ActionsJson(p, m.actions)))])
  }

  /** A dict with the given keys, in this order. */
  function Dict(keys: seq<string>, values: seq<Json>): (r: seq<Member>)
    requires |keys| == |values|
    ensures |r| == |keys|
    ensures forall i :: 0 <= i < |r| ==> r[i] == Member(keys[i], values[i])
  {
    if keys == [] then [] else [Member(keys[0], values[0])] + Dict(keys[1..], values[1..])
  }

  const LIMIT_KEYS := [
    "max_altitude_m", "max_distance_from_home_m", "max_hold_seconds", "max_mission_actions",
    "max_total_hold_seconds", "max_total_horizontal_distance_m", "max_goto_actions",
    "home_horizontal_tolerance_m", "home_vertical_tolerance_m"]

  function LimitValues(p: Printer, l: PolicyLimits): (r: seq<Json>)
    ensures |r| == |LIMIT_KEYS|
  {
    [Real(p, l.maxAltitude), Real(p, l.maxDistanceFromHome), Int(l.maxHoldSeconds), Int(l.maxActions),
     Int(l.maxTotalHold), Real(p, l.maxTotalDistance), Int(l.maxGotos),
     Real(p, l.homeHorizontalTolerance), Real(p, l.homeVerticalTolerance)]
  }

  function LimitsJson(p: Printer, l: PolicyLimits): Json {
    Obj(Dict(LIMIT_KEYS, LimitValues(p, l)))
  }

  predicate ActionFloats(p: Printer, a: Action) {
    match a
    case TakeoffAction(altitude) => p.isFloat(altitude)
    case GotoAction(north, east, altitude) => p.isFloat(north) && p.isFloat(east) && p.isFloat(altitude)
    case _ => true
  }

  predicate MissionFloats(p: Printer, m: Mission) {
    forall i :: 0 <= i < |m.actions| ==> ActionFloats(p, m.actions[i])
  }

  predicate LimitsFloats(p: Printer, l: PolicyLimits) {
    && p.isFloat(l.maxAltitude) && p.isFloat(l.maxDistanceFromHome) && p.isFloat(l.maxTotalDistance)
    && p.isFloat(l.homeHorizontalTolerance) && p.isFloat(l.homeVerticalTolerance)
  }

  // ----- which value stands under which key

  predicate HoldsAt(v: Json, key: string, value: Json, i: nat) {
    v.Obj? && i < |v.members| && v.members[i] == Member(key, value)
  }

  /** The dict `v` holds `value` under `key`. */
  ghost predicate Holds(v: Json, key: string, value: Json) {
    exists i: nat :: HoldsAt(v, key, value, i)
  }

  lemma LimitsFields(p: Printer, l: PolicyLimits)
    ensures var v := LimitsJson(p, l);
            && |v.members| == 9
            && Holds(v, "max_altitude_m", Float(p.repr(l.maxAltitude)))
            && Holds(v, "max_distance_from_home_m", Float(p.repr(l.maxDistanceFromHome)))
            && Holds(v, "max_hold_seconds", Int(l.maxHoldSeconds))
            && Holds(v, "max_mission_actions", Int(l.maxActions))
            && Holds(v, "max_total_hold_seconds", Int(l.maxTotalHold))
            && Holds(v, "max_total_horizontal_distance_m", Float(p.repr(l.maxTotalDistance)))
            && Holds(v, "max_goto_actions", Int(l.maxGotos))
            && Holds(v, "home_horizontal_tolerance_m", Float(p.repr(l.homeHorizontalTolerance)))
            && Holds(v, "home_vertical_tolerance_m", Float(p.repr(l.homeVerticalTolerance)))
  {
    hide Dict;
    var v := LimitsJson(p, l);
    assert HoldsAt(v, "max_altitude_m", Float(p.repr(l.maxAltitude)), 0);
    assert HoldsAt(v, "max_distance_from_home_m", Float(p.repr(l.maxDistanceFromHome)), 1);
    assert HoldsAt(v, "max_hold_seconds", Int(l.maxHoldSeconds), 2);
    assert HoldsAt(v, "max_mission_actions", Int(l.maxActions), 3);
    assert HoldsAt(v, "max_total_hold_seconds", Int(l.maxTotalHold), 4);
    assert HoldsAt(v, "max_total_horizontal_distance_m", Float(p.repr(l.maxTotalDistance)), 5);
    assert HoldsAt(v, "max_goto_actions", Int(l.maxGotos), 6);
    assert HoldsAt(v, "home_horizontal_tolerance_m", Float(p.repr(l.homeHorizontalTolerance)), 7);
    assert HoldsAt(v, "home_vertical_tolerance_m", Float(p.repr(l.homeVerticalTolerance)), 8);
  }

  lemma MissionFields(p: Printer, m: Mission)
    ensures var v := MissionJson(p, m);
            && |v.members| == 3
            && Holds(v, "mission_id", Str(m.id))
            && Holds(v, "description", Str(m.description))
            && Holds(v, "actions", Arr(ActionsJson(p, m.actions)))
  {
    var v := MissionJson(p, m);
    assert HoldsAt(v, "mission_id", Str(m.id), 0);
    assert HoldsAt(v, "description", Str(m.description), 1);
    assert HoldsAt(v, "actions", Arr(ActionsJson(p, m.actions)), 2);
  }

  lemma ActionFields(p: Printer, a: Action)
    ensures var v := Obj(ActionMembers(p, a));
            match a
            case TakeoffAction(altitude) =>
              |v.members| == 2 && Holds(v, "type", Str("takeoff")) && Holds(v, "altitude_m", Float(p.repr(altitude)))
            case HoldAction(seconds) =>
              |v.members| == 2 && Holds(v, "type", Str("hold")) && Holds(v, "duration_seconds", Int(seconds))
            case GotoAction(north, east, altitude) =>
              && |v.members| == 4 && Holds(v, "type", Str("goto"))
              && Holds(v, "north_m", Float(p.repr(north))) && Holds(v, "east_m", Float(p.repr(east)))
              && Holds(v, "altitude_m", Float(p.repr(altitude)))
            case ReturnHomeAction => |v.members| == 1 && Holds(v, "type", Str("return_home"))
            case LandAction => |v.members| == 1 && Holds(v, "type", Str("land"))
  {
    var v := Obj(ActionMembers(p, a));
    assert HoldsAt(v, "type", Str(TypeName(a)), 0);
    match a {
      case TakeoffAction(altitude) =>
        assert HoldsAt(v, "altitude_m", Float(p.repr(altitude)), 1);
      case HoldAction(seconds) =>
        assert HoldsAt(v, "duration_seconds", Int(seconds), 1);
      case GotoAction(north, east, altitude) =>
        assert HoldsAt(v, "north_m", Float(p.repr(north)), 1);
        assert HoldsAt(v, "east_m", Float(p.repr(east)), 2);
        assert HoldsAt(v, "altitude_m", Float(p.repr(altitude)), 3);
      case _ =>
    }
  }

  // ----- injectivity, lifted

  /** Equal dicts agree on a key they both have. */
  lemma FieldSame(xs: seq<Member>, ys: seq<Member>, i: nat, j: nat)
    requires Same(Obj(xs), Obj(ys)) && DistinctKeys(ys)
    requires i < |xs| && j < |ys| && xs[i].key == ys[j].key
    ensures Same(xs[i].value, ys[j].value)
  {
    assert FoundIn(xs[i], ys);
    var k :| 0 <= k < |ys| && SameMember(xs[i], ys[k]);
    assert k == j;
  }

  predicate Plain(v: Json) {
    !v.Arr? && !v.Obj?
  }

  /** Equal dicts with the same keys in the same places agree place by place. */
  lemma FieldsSame(xs: seq<Member>, ys: seq<Member>)
    requires Same(Obj(xs), Obj(ys)) && DistinctKeys(ys) && |xs| == |ys|
    requires forall i :: 0 <= i < |xs| ==> xs[i].key == ys[i].key
    ensures forall i :: 0 <= i < |xs| ==> Same(xs[i].value, ys[i].value)
    ensures forall i :: 0 <= i < |xs| && Plain(xs[i].value) ==> xs[i].value == ys[i].value
  {
    hide DistinctKeys;
    forall i | 0 <= i < |xs| ensures Same(xs[i].value, ys[i].value) {
      FieldSame(xs, ys, i, i);
    }
  }

  lemma DistinctTypeNames(a: Action, b: Action)
    requires TypeName(a) == TypeName(b)
    ensures a.TakeoffAction? == b.TakeoffAction? && a.HoldAction? == b.HoldAction? && a.GotoAction? == b.GotoAction?
         && a.ReturnHomeAction? == b.ReturnHomeAction? && a.LandAction? == b.LandAction?
  {
    assert TypeName(a)[0] == TypeName(b)[0] && |TypeName(a)| == |TypeName(b)|;
  }

  lemma ActionWellFormed(p: Printer, a: Action)
    requires Faithful(p) && ActionFloats(p, a)
    ensures DistinctKeys(ActionMembers(p, a)) && WellFormed(Obj(ActionMembers(p, a)))
  {
    assert "type"[0] == 't' && "altitude_m"[0] == 'a' && "duration_seconds"[0] == 'd'
        && "north_m"[0] == 'n' && "east_m"[0] == 'e';
  }

  lemma ActionInjective(p: Printer, a: Action, b: Action)
    requires Faithful(p) && ActionFloats(p, a) && ActionFloats(p, b)
    requires Same(Obj(ActionMembers(p, a)), Obj(ActionMembers(p, b)))
    ensures a == b
  {
    hide WellFormed;
    var xs, ys := ActionMembers(p, a), ActionMembers(p, b);
    ActionWellFormed(p, a);
    ActionWellFormed(p, b);
    FieldSame(xs, ys, 0, 0);
    DistinctTypeNames(a, b);
    match a {
      case TakeoffAction(_) => FieldSame(xs, ys, 1, 1);
      case HoldAction(_) => FieldSame(xs, ys, 1, 1);
      case GotoAction(_, _, _) =>
        FieldSame(xs, ys, 1, 1);
        FieldSame(xs, ys, 2, 2);
        FieldSame(xs, ys, 3, 3);
      case _ =>
    }
  }

  lemma MissionWellFormed(p: Printer, m: Mission)
    requires Faithful(p) && MissionFloats(p, m)
    ensures WellFormed(MissionJson(p, m))
  {
    hide ActionMembers;
    var items := ActionsJson(p, m.actions);
    forall i | 0 <= i < |items| ensures WellFormed(items[i]) {
      ActionWellFormed(p, m.actions[i]);
    }
    assert WellFormed(Arr(items));
  }

  lemma MissionInjective(p: Printer, a: Mission, b: Mission)
    requires Faithful(p) && MissionFloats(p, a) && MissionFloats(p, b)
    requires Same(MissionJson(p, a), MissionJson(p, b))
    ensures a == b
  {
    hide ActionMembers, WellFormed, Same;
    var xs, ys := MissionJson(p, a).members, MissionJson(p, b).members;
    FieldsSame(xs, ys);
    assert xs[0].value == ys[0].value && xs[1].value == ys[1].value;
    assert Same(xs[2].value, ys[2].value);
    ActionsInjective(p, a.actions, b.actions);
  }

  lemma ActionsInjective(p: Printer, a: seq<Action>, b: seq<Action>)
    requires Faithful(p)
    requires forall i :: 0 <= i < |a| ==> ActionFloats(p, a[i])
    requires forall i :: 0 <= i < |b| ==> ActionFloats(p, b[i])
    requires Same(Arr(ActionsJson(p, a)), Arr(ActionsJson(p, b)))
    ensures a == b
  {
    hide ActionMembers, ActionFloats;
    var xs, ys := ActionsJson(p, a), ActionsJson(p, b);
    assert |a| == |b|;
    forall i | 0 <= i < |a| ensures a[i] == b[i] {
      assert Same(xs[i], ys[i]);
      ActionInjective(p, a[i], b[i]);
    }
  }

  /** A mission's canonical bytes determine the mission, its id and description included. */
  lemma MissionBytesInjective(p: Printer, a: Mission, b: Mission)
    requires Faithful(p) && MissionFloats(p, a) && MissionFloats(p, b)
    ensures CanonicalBytes(MissionJson(p, a)) == CanonicalBytes(MissionJson(p, b)) <==> a == b
  {
    hide CanonicalBytes, Same, WellFormed;
    MissionWellFormed(p, a);
    MissionWellFormed(p, b);
    CanonicalIff(MissionJson(p, a), MissionJson(p, b));
    if CanonicalBytes(MissionJson(p, a)) == CanonicalBytes(MissionJson(p, b)) {
      MissionInjective(p, a, b);
    }
  }

  predicate DistinctStrings(keys: seq<string>) {
    forall i, j :: 0 <= i < j < |keys| ==> keys[i] != keys[j]
  }

  lemma DictWellFormed(keys: seq<string>, values: seq<Json>)
    requires |keys| == |values| && DistinctStrings(keys)
    requires forall i :: 0 <= i < |values| ==> WellFormed(values[i])
    ensures WellFormed(Obj(Dict(keys, values)))
  {
  }

  lemma DictInjective(keys: seq<string>, xs: seq<Json>, ys: seq<Json>)
    requires |keys| == |xs| == |ys| && DistinctStrings(keys)
    requires forall i :: 0 <= i < |xs| ==> Plain(xs[i])
    requires Same(Obj(Dict(keys, xs)), Obj(Dict(keys, ys)))
    ensures xs == ys
  {
    hide Same, Dict;
    var a, b := Dict(keys, xs), Dict(keys, ys);
    FieldsSame(a, b);
    forall i | 0 <= i < |xs| ensures xs[i] == ys[i] {
      assert a[i].value == b[i].value;
    }
  }

  predicate Atom(v: Json) {
    Plain(v) && WellFormed(v)
  }

  /** A dict of numbers and strings under fixed keys: the bytes determine the values. */
  lemma DictBytesInjective(keys: seq<string>, xs: seq<Json>, ys: seq<Json>)
    requires |keys| == |xs| == |ys| && DistinctStrings(keys)
    requires forall i :: 0 <= i < |xs| ==> Atom(xs[i])
    requires forall i :: 0 <= i < |ys| ==> Atom(ys[i])
    ensures CanonicalBytes(Obj(Dict(keys, xs))) == CanonicalBytes(Obj(Dict(keys, ys))) <==> xs == ys
  {
    hide CanonicalBytes, Same, Dict, DistinctStrings;
    DictWellFormed(keys, xs);
    DictWellFormed(keys, ys);
    CanonicalIff(Obj(Dict(keys, xs)), Obj(Dict(keys, ys)));
    if CanonicalBytes(Obj(Dict(keys, xs))) == CanonicalBytes(Obj(Dict(keys, ys))) {
      DictInjective(keys, xs, ys);
    }
  }

  lemma RealInjective(p: Printer, x: real, y: real)
    requires Faithful(p) && p.isFloat(x) && p.isFloat(y) && Real(p, x) == Real(p, y)
    ensures x == y
  {
  }

  lemma LimitKeysDistinct()
    ensures DistinctStrings(LIMIT_KEYS)
  {
    assert LIMIT_KEYS[2][4] == 'h' && LIMIT_KEYS[6][4] == 'g';
  }

  lemma LimitsWellFormed(p: Printer, l: PolicyLimits)
    requires Faithful(p) && LimitsFloats(p, l)
    ensures WellFormed(LimitsJson(p, l))
  {
    hide FloatToken, DistinctStrings, Dict;
    LimitKeysDistinct();
    DictWellFormed(LIMIT_KEYS, LimitValues(p, l));
  }

  lemma LimitsInjective(p: Printer, a: PolicyLimits, b: PolicyLimits)
    requires Faithful(p) && LimitsFloats(p, a) && LimitsFloats(p, b)
    requires Same(LimitsJson(p, a), LimitsJson(p, b))
    ensures a == b
  {
    hide Same, FloatToken, DistinctStrings, Dict, Faithful, Real;
    var xs, ys := LimitValues(p, a), LimitValues(p, b);
    LimitKeysDistinct();
    LimitsPlain(p, a);
    DictInjective(LIMIT_KEYS, xs, ys);
    assert xs[2] == ys[2] && xs[3] == ys[3] && xs[4] == ys[4] && xs[6] == ys[6];
    assert xs[0] == ys[0] && xs[1] == ys[1] && xs[5] == ys[5] && xs[7] == ys[7] && xs[8] == ys[8];
    RealInjective(p, a.maxAltitude, b.maxAltitude);
    RealInjective(p, a.maxDistanceFromHome, b.maxDistanceFromHome);
    RealInjective(p, a.maxTotalDistance, b.maxTotalDistance);
    RealInjective(p, a.homeHorizontalTolerance, b.homeHorizontalTolerance);
    RealInjective(p, a.homeVerticalTolerance, b.homeVerticalTolerance);
  }

  lemma LimitsPlain(p: Printer, l: PolicyLimits)
    ensures forall i :: 0 <= i < |LimitValues(p, l)| ==> Plain(LimitValues(p, l)[i])
  {
  }

  /** The canonical bytes of the limits determine every limit, the home tolerances included. */
  lemma LimitsBytesInjective(p: Printer, a: PolicyLimits, b: PolicyLimits)
    requires Faithful(p) && LimitsFloats(p, a) && LimitsFloats(p, b)
    ensures CanonicalBytes(LimitsJson(p, a)) == CanonicalBytes(LimitsJson(p, b)) <==> a == b
  {
    hide CanonicalBytes, Same, WellFormed, LimitsJson;
    LimitsWellFormed(p, a);
    LimitsWellFormed(p, b);
    CanonicalIff(LimitsJson(p, a), LimitsJson(p, b));
    if CanonicalBytes(LimitsJson(p, a)) == CanonicalBytes(LimitsJson(p, b)) {
      LimitsInjective(p, a, b);
    }
  }
}
