/** The whole chain, from the approver's request to the takeoff command. */
module EndToEnd {
  import opened Models
  import opened Policy
  import opened PolicyGrammar
  import opened Vehicle
  import opened Executor
  import opened Monitor
  import opened ExecutorSafety
  import opened TraceMeaning
  import opened FlightTheorems
  import opened HomeBinding
  import opened Canonical
  import opened Approval
  import opened Replay
  import opened MavsdkExecutor

  /** What stands behind a takeoff command at position `k` of the flight of an invocation. */
  ghost predicate StandsBehind(
    g: Setting, i: Invocation, db: Db, end: Ending, r: Request, requests: iset<Request>, home: Home, k: nat)
    requires i.mission.Loaded? && i.envelope.Loaded? && end.flight.Some? && k <= |end.flight.value.st.trace|
  {
    var m, e := i.mission.value, i.envelope.value;
    // the mission is takeoff, holds, land, within every budget
    && Flyable(m.actions) && Permitted(g.h, g.limits, m.actions)
    // the approver asked for exactly this mission, these limits and this executor, and is in time
    && ApprovedBy(g.w, requests, r, e.payload, m, g.limits, EXECUTOR_NAME, i.now)
    // the nonce was unused and is now recorded
    && SpentBy(db, end.db, e, i.now)
    // the home checked against is the approved one, to half a unit
    && BoundHome(g.w, e.payload) == Ok(home)
    && (UnitsRepresentable(e.payload.units) ==> Close(e.payload.units, r.home, home))
    // and every check passed in order, strictly recorded, before the command
    && exists at: seq<nat> ::
         Passed(RulesOf(g.env, g.cfg, Ok(home), m.actions), end.flight.value.st.trace[..k], OPEN, at)
  }

  /** The flight of an invocation is a run of an accepted mission against the bound home. */
  lemma FlightOf(g: Setting, i: Invocation, db: Db)
    requires Parsed(i) && i.command == Mavsdk && Pipeline(g, i, db).flight.Some?
    ensures i.mission.Loaded? && i.envelope.Loaded?
    ensures var m, e := i.mission.value, i.envelope.value;
            && Accepted(g.h, g.limits, m.actions)
            && Verify(g.w, e, m, g.limits, EXECUTOR_NAME, i.now) == Ok(e.payload)
            && SpentBy(db, Pipeline(g, i, db).db, e, i.now)
            && Pipeline(g, i, db).flight.value == Execute(g.env, g.cfg, BoundHome(g.w, e.payload), m.actions, INITIAL)
  {
    hide Verify, Execute, Approved, BoundHome;
    VerifyClass(g.w, i.envelope.value, i.mission.value, g.limits, EXECUTOR_NAME, i.now);
  }

  /**
   * No takeoff is ever commanded unless an approver asked for it: whatever the vehicle, the audit sink and
   * the store do, a takeoff command has all of `StandsBehind` behind it.
   */
  lemma TakeoffIsAuthorized(g: Setting, i: Invocation, db: Db, requests: iset<Request>, k: nat)
    requires Parsed(i) && i.command == Mavsdk && IsHypot(g.h)
    requires Faithful(g.w.printer) && RoundsToNearest(g.w.floats)
    requires AllFloats(g.w, requests) && (i.envelope.Loaded? ==> Unforged(g.w, requests, i.envelope.value))
    requires i.mission.Loaded? ==> InputFloats(g.w, i.mission.value, g.limits)
    requires var end := Pipeline(g, i, db);
             end.flight.Some? && k < |end.flight.value.st.trace| && end.flight.value.st.trace[k] == Issued(Takeoff)
    ensures i.mission.Loaded? && i.envelope.Loaded?
    ensures exists r, home :: StandsBehind(g, i, db, Pipeline(g, i, db), r, requests, home, k)
  {
    hide Pipeline, Execute, Approved, Permitted, IsHypot, Verify, BoundHome, ApprovedBy, Passed, Close, SpentBy,
         Faithful, Unforged, AllFloats, RoundsToNearest, InputFloats;
    FlightOf(g, i, db);
    var m, e, end := i.mission.value, i.envelope.value, Pipeline(g, i, db);
    AcceptedIsFlyable(g.h, g.limits, m.actions);
    ApprovedIffPermitted(g.h, g.limits, m.actions);
    Soundness(g.w, requests, e, m, g.limits, EXECUTOR_NAME, i.now);
    var r :| ApprovedBy(g.w, requests, r, e.payload, m, g.limits, EXECUTOR_NAME, i.now);
    var bound := BoundHome(g.w, e.payload);
    if bound.Raise? {
      UnboundNeverArms(g.env, g.cfg, bound.exn, m.actions);
      assert false;
    }
    TakeoffGate(g.h, g.limits, g.env, g.cfg, bound, m.actions, k);
    ApprovedHome(g.w, requests, r, e.payload, m, g.limits, i.now);
    assert StandsBehind(g, i, db, end, r, requests, bound.value, k);
  }

  lemma ApprovedHome(
    w: World, requests: iset<Request>, r: Request, p: Payload, m: Mission, limits: PolicyLimits, now: int)
    requires RoundsToNearest(w.floats) && ApprovedBy(w, requests, r, p, m, limits, EXECUTOR_NAME, now)
    ensures UnitsRepresentable(p.units) ==> BoundHome(w, p).Ok? && Close(p.units, r.home, BoundHome(w, p).value)
  {
    hide BoundHome, Build, Close, RoundsToNearest;
    if UnitsRepresentable(p.units) {
      BuiltHomeBinds(w, r);
    }
  }
}
