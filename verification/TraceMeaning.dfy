/** What the monitor's fields say about the events of the trace itself. */
module TraceMeaning {
  import opened Vehicle
  import opened Monitor
  import opened Options

  /** The commands sent, the audit attempts and the completed holds of a trace, in order. */
  function CommandsOf(t: Trace): seq<Command> {
    if t == [] then []
    else if t[|t| - 1].Issued? then CommandsOf(t[..|t| - 1]) + [t[|t| - 1].command]
    else CommandsOf(t[..|t| - 1])
  }

  function RecordsOf(t: Trace): seq<Record> {
    if t == [] then []
    else if t[|t| - 1].Attempt? then RecordsOf(t[..|t| - 1]) + [t[|t| - 1].record]
    else RecordsOf(t[..|t| - 1])
  }

  function SleptOf(t: Trace): seq<int> {
    if t == [] then []
    else if t[|t| - 1].Slept? then SleptOf(t[..|t| - 1]) + [t[|t| - 1].seconds]
    else SleptOf(t[..|t| - 1])
  }

  lemma OnCommandProjects(m: Mon, c: Command)
    ensures var n := OnCommand(m, c); n.commands == m.commands + [c] && n.records == m.records && n.slept == m.slept
  {
    hide Raised;
    match c { case Arm => case Takeoff => case Land => case Disarm => case _ => }
  }

  lemma OnSampleProjects(ok: Rules, m: Mon, gate: Gate, sample: Sample)
    ensures var n := OnSample(ok, m, gate, sample);
            n.commands == m.commands && n.records == m.records && n.slept == m.slept
  {
    match gate { case ForLanding => case ForAltitude(_) => case _ => }
  }

  lemma NextProjects(ok: Rules, m: Mon, e: Event)
    ensures Next(ok, m, e).commands == if e.Issued? then m.commands + [e.command] else m.commands
    ensures Next(ok, m, e).records == if e.Attempt? then m.records + [e.record] else m.records
    ensures Next(ok, m, e).slept == if e.Slept? then m.slept + [e.seconds] else m.slept
  {
    hide Milestone, Raised, OnCommand, OnSample;
    var m1 := if Milestone(ok, m.progress, e) then m.(progress := m.progress + 1) else m;
    match e {
      case Issued(c) => OnCommandProjects(m1, c);
      case Saw(gate, sample) => OnSampleProjects(ok, m1, gate, sample);
      case _ =>
    }
  }

  lemma {:induction false} Projections(ok: Rules, t: Trace)
    ensures Watch(ok, t).commands == CommandsOf(t)
    ensures Watch(ok, t).records == RecordsOf(t)
    ensures Watch(ok, t).slept == SleptOf(t)
  {
    hide Next;
    if t == [] {
    } else {
      Projections(ok, t[..|t| - 1]);
      NextProjects(ok, Watch(ok, t[..|t| - 1]), t[|t| - 1]);
    }
  }

  lemma {:induction false} CommandIssued(t: Trace, c: Command)
    ensures c in CommandsOf(t) <==> Issued(c) in t
  {
    if t == [] {
    } else {
      CommandIssued(t[..|t| - 1], c);
      assert t == t[..|t| - 1] + [t[|t| - 1]];
    }
  }

  predicate WrittenAt(sink: Sink, t: Trace, r: Record, j: nat) {
    j < |t| && t[j].Attempt? && t[j].record == r && sink(t[j].index).None?
  }

  /** The log holds a record exactly if some attempt to write it did not raise. */
  lemma {:induction false} LogHolds(sink: Sink, t: Trace, r: Record)
    ensures r in Log(sink, t) <==> exists j: nat :: WrittenAt(sink, t, r, j)
  {
    if t == [] {
    } else {
      var n := |t| - 1;
      LogHolds(sink, t[..n], r);
      assert forall j: nat :: j < n ==> (WrittenAt(sink, t, r, j) <==> WrittenAt(sink, t[..n], r, j));
      assert WrittenAt(sink, t, r, n) <==> t[n].Attempt? && t[n].record == r && sink(t[n].index).None?;
    }
  }

  lemma {:induction false} CommandsPrefix(t: Trace, k: nat)
    requires k <= |t|
    ensures CommandsOf(t[..k]) <= CommandsOf(t)
    decreases |t|
  {
    if k == |t| {
      assert t[..k] == t;
    } else {
      CommandsPrefix(t[..|t| - 1], k);
      assert t[..|t| - 1][..k] == t[..k];
    }
  }

  /** A command sent at `k` is the next one in the list of commands. */
  lemma CommandAt(t: Trace, k: nat)
    requires k < |t| && t[k].Issued?
    ensures CommandsOf(t[..k]) + [t[k].command] <= CommandsOf(t)
  {
    CommandsPrefix(t, k + 1);
    assert t[..k + 1][..k] == t[..k];
  }

  /** Commands sent in order are in the list in order. */
  lemma CommandsInOrder(t: Trace, p: nat, q: nat)
    requires p < q < |t| && t[p].Issued? && t[q].Issued?
    ensures var cs := CommandsOf(t);
            exists a, b :: 0 <= a < b < |cs| && cs[a] == t[p].command && cs[b] == t[q].command
  {
    CommandAt(t, q);
    CommandAt(t[..q], p);
    assert t[..q][..p] == t[..p];
    var cs, a, b := CommandsOf(t), |CommandsOf(t[..p])|, |CommandsOf(t[..q])|;
    assert cs[a] == t[p].command && cs[b] == t[q].command;
  }

  /** The event reports an altitude at or above `minimum`. */
  predicate AltitudeReached(e: Event, minimum: real) {
    && e.Saw? && e.gate == ForAltitude(minimum)
    && e.sample.altitude.Some? && e.sample.altitude.value >= minimum
  }

  /** A falsy in_air item of the landing wait. */
  predicate TouchedDown(e: Event) {
    e.Saw? && e.gate == ForLanding && !e.sample.inAir.Truthy()
  }

  /** Land was commanded at `i`, and its wait saw a falsy in_air item at `j`, with no arm command since. */
  predicate LandedAt(t: Trace, i: nat, j: nat) {
    && i < j < |t|
    && t[i] == Issued(Land)
    && TouchedDown(t[j])
    && forall k :: i <= k < |t| ==> t[k] != Issued(Arm)
  }

  ghost predicate LandingSeen(t: Trace) {
    exists i: nat, j: nat :: LandedAt(t, i, j)
  }

  lemma {:induction false} ReachedMeaning(ok: Rules, t: Trace)
    ensures Watch(ok, t).reached ==> exists j: nat :: j < |t| && AltitudeReached(t[j], ok.minimum)
  {
    hide Next;
    if t == [] {
    } else {
      var front, e := t[..|t| - 1], t[|t| - 1];
      NextReached(ok, Watch(ok, front), e);
      ReachedMeaning(ok, front);
      if Watch(ok, front).reached {
        var j: nat :| j < |front| && AltitudeReached(front[j], ok.minimum);
        assert t[j] == front[j];
      } else if Watch(ok, t).reached {
        assert AltitudeReached(t[|t| - 1], ok.minimum);
      }
    }
  }

  lemma NextLanding(ok: Rules, m: Mon, e: Event)
    ensures Next(ok, m, e).landSent ==> e == Issued(Land) || (m.landSent && e != Issued(Arm))
    ensures Next(ok, m, e).landed ==> (m.landed && e != Issued(Arm)) || (m.landSent && TouchedDown(e))
    ensures Next(ok, m, e).disarmed ==> m.disarmed || e == Returned(Disarm)
  {
    hide Milestone, Raised;
    match e {
      case Issued(c) => match c { case Arm => case Takeoff => case Land => case Disarm => case _ => }
      case Saw(gate, _) => match gate { case ForLanding => case ForAltitude(_) => case _ => }
      case _ =>
    }
  }

  lemma OnCommandProgress(m: Mon, c: Command)
    ensures OnCommand(m, c).progress == if c == Takeoff && m.progress > 3 then 3 else m.progress
  {
    hide Raised;
    match c { case Arm => case Takeoff => case Land => case Disarm => case _ => }
  }

  lemma OnSampleProgress(ok: Rules, m: Mon, gate: Gate, sample: Sample)
    ensures OnSample(ok, m, gate, sample).progress == m.progress
  {
    match gate { case ForLanding => case ForAltitude(_) => case _ => }
  }

  lemma NextProgress(ok: Rules, m: Mon, e: Event)
    ensures Next(ok, m, e).progress == if Milestone(ok, m.progress, e) then m.progress + 1
                                       else if e == Issued(Takeoff) && m.progress > 3 then 3
                                       else m.progress
  {
    hide Milestone, Raised, OnCommand, OnSample;
    var m1 := if Milestone(ok, m.progress, e) then m.(progress := m.progress + 1) else m;
    match e {
      case Issued(c) =>
        OnlyArmIsMilestone(ok, m.progress, c);
        OnCommandProgress(m1, c);
      case Saw(gate, sample) => OnSampleProgress(ok, m1, gate, sample);
      case _ =>
    }
  }

  lemma NextReached(ok: Rules, m: Mon, e: Event)
    ensures Next(ok, m, e).reached ==> m.reached || AltitudeReached(e, ok.minimum)
  {
    hide Milestone, Raised;
  }

  lemma {:induction false} DisarmedMeaning(ok: Rules, t: Trace)
    ensures Watch(ok, t).disarmed ==> Returned(Disarm) in t
  {
    hide Next;
    if t == [] {
    } else {
      NextLanding(ok, Watch(ok, t[..|t| - 1]), t[|t| - 1]);
      DisarmedMeaning(ok, t[..|t| - 1]);
    }
  }

  /** A land command with no arm command since. */
  predicate LandSentAt(t: Trace, i: nat) {
    i < |t| && t[i] == Issued(Land) && forall k :: i <= k < |t| ==> t[k] != Issued(Arm)
  }

  lemma {:induction false} LandSentMeaning(ok: Rules, t: Trace)
    ensures Watch(ok, t).landSent ==> exists i: nat :: LandSentAt(t, i)
  {
    hide Next;
    if t != [] && Watch(ok, t).landSent {
      var front, e := t[..|t| - 1], t[|t| - 1];
      NextLanding(ok, Watch(ok, front), e);
      LandSentMeaning(ok, front);
      if e == Issued(Land) {
        assert LandSentAt(t, |t| - 1);
      } else {
        var i: nat :| LandSentAt(front, i);
        assert LandSentAt(t, i);
      }
    }
  }

  lemma {:induction false} LandedMeaning(ok: Rules, t: Trace)
    ensures Watch(ok, t).landed ==> LandingSeen(t)
  {
    hide Next;
    if t != [] && Watch(ok, t).landed {
      var front, e := t[..|t| - 1], t[|t| - 1];
      NextLanding(ok, Watch(ok, front), e);
      if Watch(ok, front).landed && e != Issued(Arm) {
        LandedMeaning(ok, front);
        var i: nat, j: nat :| LandedAt(front, i, j);
        assert LandedAt(t, i, j);
      } else {
        LandSentMeaning(ok, front);
        var i: nat :| LandSentAt(front, i);
        assert LandedAt(t, i, |t| - 1);
      }
    }
  }

  // ----- the takeoff gate

  /** Positions of the first `k` milestones, in order; from the arm command on, no takeoff intervenes. */
  predicate Passed(ok: Rules, t: Trace, k: nat, at: seq<nat>) {
    && |at| == k
    && (forall j :: 0 <= j < k ==> at[j] < |t| && Milestone(ok, j, t[at[j]]))
    && (forall i, j :: 0 <= i < j < k ==> at[i] < at[j])
    && (k > 3 ==> forall q :: at[3] <= q < |t| ==> t[q] != Issued(Takeoff))
  }

  lemma {:induction false} ProgressMeaning(ok: Rules, t: Trace)
    ensures Watch(ok, t).progress <= OPEN
    ensures exists at: seq<nat> :: Passed(ok, t, Watch(ok, t).progress, at)
  {
    hide Next;
    if t == [] {
      assert Passed(ok, t, 0, []);
    } else {
      var front, e := t[..|t| - 1], t[|t| - 1];
      ProgressMeaning(ok, front);
      ProgressStep(ok, front, e);
      assert t == front + [e];
    }
  }

  lemma ProgressStep(ok: Rules, t: Trace, e: Event)
    requires Watch(ok, t).progress <= OPEN
    requires exists at: seq<nat> :: Passed(ok, t, Watch(ok, t).progress, at)
    ensures Watch(ok, t + [e]).progress <= OPEN
    ensures exists at: seq<nat> :: Passed(ok, t + [e], Watch(ok, t + [e]).progress, at)
  {
    hide Watch, Next;
    WatchSnoc(ok, t, e);
    var k := Watch(ok, t).progress;
    NextProgress(ok, Watch(ok, t), e);
    var at: seq<nat> :| Passed(ok, t, k, at);
    if Milestone(ok, k, e) {
      PassedMore(ok, t, k, at, e);
    } else if e == Issued(Takeoff) && k > 3 {
      PassedReset(ok, t, k, at, e);
    } else {
      PassedKept(ok, t, k, at, e);
    }
  }

  lemma PassedMore(ok: Rules, t: Trace, k: nat, at: seq<nat>, e: Event)
    requires Passed(ok, t, k, at) && Milestone(ok, k, e)
    ensures Passed(ok, t + [e], k + 1, at + [|t|])
  {
  }

  lemma PassedReset(ok: Rules, t: Trace, k: nat, at: seq<nat>, e: Event)
    requires Passed(ok, t, k, at) && k > 3
    ensures Passed(ok, t + [e], 3, at[..3])
  {
  }

  lemma PassedKept(ok: Rules, t: Trace, k: nat, at: seq<nat>, e: Event)
    requires Passed(ok, t, k, at) && (k > 3 ==> e != Issued(Takeoff))
    ensures Passed(ok, t + [e], k, at)
  {
  }

  /** A failed strict write is remembered for the rest of the run. */
  lemma {:induction false} FailureRemembered(ok: Rules, t: Trace, i: nat)
    requires i < |t| && t[i].Attempt? && t[i].strict && ok.sink(t[i].index).Some?
    ensures Watch(ok, t).failed
  {
    hide Next;
    NextFailed(ok, Watch(ok, t[..|t| - 1]), t[|t| - 1]);
    if i < |t| - 1 {
      FailureRemembered(ok, t[..|t| - 1], i);
    }
  }

  lemma NextFailed(ok: Rules, m: Mon, e: Event)
    ensures Next(ok, m, e).failed <==> m.failed || (e.Attempt? && e.strict && ok.sink(e.index).Some?)
  {
    hide Milestone, Raised;
    match e {
      case Issued(c) => match c { case Arm => case Takeoff => case Land => case Disarm => case _ => }
      case Saw(gate, _) => match gate { case ForLanding => case ForAltitude(_) => case _ => }
      case _ =>
    }
  }

  // ----- silence

  /** No event after monitor state `m` raises an alarm. */
  predicate Quiet(m: Mon, e: Event) {
    && (e == Issued(Takeoff) ==> m.progress == OPEN && !m.failed)
    && (e.HoldBegan? ==> m.reached)
    && (e.Returned? ==> e.command in m.commands)
  }

  lemma RaisedEmpty(alarms: set<Alarm>, c: bool, a: Alarm)
    ensures Raised(alarms, c, a) == {} <==> alarms == {} && !c
  {
    assert c ==> a in Raised(alarms, c, a);
  }

  lemma CommandQuiet(m: Mon, c: Command)
    ensures OnCommand(m, c).alarms == {} <==> m.alarms == {} && Quiet(m, Issued(c))
  {
    hide Raised;
    match c {
      case Takeoff =>
        RaisedEmpty(m.alarms, m.progress != OPEN, TakeoffUngated);
        RaisedEmpty(Raised(m.alarms, m.progress != OPEN, TakeoffUngated), m.failed, TakeoffUnaudited);
      case _ =>
    }
  }

  lemma OnlyArmIsMilestone(ok: Rules, k: nat, c: Command)
    ensures Milestone(ok, k, Issued(c)) ==> k == 3 && c == Arm
  {
  }

  lemma NextAlarms(ok: Rules, m: Mon, e: Event)
    ensures Next(ok, m, e).alarms == {} <==> m.alarms == {} && Quiet(m, e)
  {
    hide Milestone, Raised, OnCommand;
    match e {
      case Issued(c) =>
        OnlyArmIsMilestone(ok, m.progress, c);
        CommandQuiet(m, c);
        CommandQuiet(m.(progress := m.progress + 1), c);
      case HoldBegan(_) => RaisedEmpty(m.alarms, !m.reached, HoldBeforeAltitude);
      case Returned(c) => RaisedEmpty(m.alarms, c !in m.commands, ReturnUnsent);
      case _ =>
    }
  }

  lemma {:induction false} AllQuiet(ok: Rules, t: Trace, i: nat)
    requires Watch(ok, t).alarms == {} && i < |t|
    ensures Quiet(Watch(ok, t[..i]), t[i])
  {
    hide Next;
    var front := t[..|t| - 1];
    NextAlarms(ok, Watch(ok, front), t[|t| - 1]);
    if i < |t| - 1 {
      AllQuiet(ok, front, i);
      assert front[..i] == t[..i] && front[i] == t[i];
    } else {
      assert t[..i] == front;
    }
  }
}
