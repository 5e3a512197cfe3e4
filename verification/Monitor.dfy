/**
 * A monitor that reads a trace from left to right, and what its verdicts say about the trace itself.
 */
module Monitor {
  import opened Vehicle
  import opened Options

  datatype Alarm =
    | TakeoffUngated       // takeoff without the full sequence of checks
    | HoldBeforeAltitude   // a hold begun before the takeoff altitude was seen
    | TakeoffUnaudited     // takeoff after a strict audit write failed
    | ReturnUnsent         // a command that returns without having been sent

  /**
   * `progress` counts the takeoff-gate milestones passed in order; `landed` and `disarmed` refer to the
   * time since the last arm command, `reached` to the time since the last takeoff command, and `failed`
   * says that a strict audit write has raised.
   */
  datatype Mon = Mon(
    progress: nat,
    commands: seq<Command>,
    records: seq<Record>,
    slept: seq<int>,
    landSent: bool,
    landed: bool,
    disarmed: bool,
    reached: bool,
    failed: bool,
    alarms: set<Alarm>)

  const START := Mon(0, [], [], [], false, false, false, false, false, {})

  /** What a run is judged by: the home tolerance, the takeoff altitude to reach, and the audit sink. */
  datatype Rules = Rules(home: Home -> bool, minimum: real, sink: Sink)

  /** The milestones that must precede a takeoff command; each arm starts again from the fourth. */
  predicate Milestone(ok: Rules, k: nat, e: Event) {
    match k
    case 0 => e.Saw? && e.gate == ForConnection && e.sample.connected
    case 1 => e.Saw? && e.gate == ForHome && e.sample.home.Some? && ok.home(e.sample.home.value)
    case 2 => e == Recorded(HomeCheck(PreArm, true))
    case 3 => e == Issued(Arm)
    case 4 => e == Returned(Arm)
    case 5 => e.Saw? && e.gate == ForArmed && e.sample.armed == IsTrue
    case 6 => e.Saw? && e.gate == ForHome && e.sample.home.Some? && ok.home(e.sample.home.value)
    case 7 => e == Recorded(HomeCheck(PostArm, true))
    case _ => false
  }

  const OPEN := 8

  function Raised(alarms: set<Alarm>, c: bool, a: Alarm): set<Alarm> {
    if c then alarms + {a} else alarms
  }

  function OnCommand(m: Mon, c: Command): Mon {
    var m1 := m.(commands := m.commands + [c]);
    match c
    case Arm => m1.(landSent := false, landed := false, disarmed := false)
    case Takeoff =>
      m1.(progress := if m.progress > 3 then 3 else m.progress,
          reached := false,
          alarms := Raised(Raised(m.alarms, m.progress != OPEN, TakeoffUngated), m.failed, TakeoffUnaudited))
    case Land => m1.(landSent := true)
    case _ => m1
  }

  function OnSample(ok: Rules, m: Mon, gate: Gate, s: Sample): Mon {
    match gate
    case ForLanding => m.(landed := m.landed || (m.landSent && !s.inAir.Truthy()))
    case ForAltitude(minimum) => m.(reached := m.reached || (minimum == ok.minimum && gate.Passes(s)))
    case _ => m
  }

  function Next(ok: Rules, m: Mon, e: Event): Mon {
    var m1 := if Milestone(ok, m.progress, e) then m.(progress := m.progress + 1) else m;
    match e
    case Issued(c) => OnCommand(m1, c)
    case Saw(gate, s) => OnSample(ok, m1, gate, s)
    case Returned(c) =>
      m1.(disarmed := m.disarmed || c == Disarm, alarms := Raised(m.alarms, c !in m.commands, ReturnUnsent))
    case HoldBegan(_) => m1.(alarms := Raised(m.alarms, !m.reached, HoldBeforeAltitude))
    case Slept(seconds) => m1.(slept := m.slept + [seconds])
    case Attempt(index, record, strict) =>
      m1.(records := m.records + [record], failed := m.failed || (strict && ok.sink(index).Some?))
    case TookEffect(_) => m1
    case Recorded(_) => m1
  }

  function Watch(ok: Rules, t: Trace): Mon {
    if t == [] then START else Next(ok, Watch(ok, t[..|t| - 1]), t[|t| - 1])
  }

  lemma WatchSnoc(ok: Rules, t: Trace, e: Event)
    ensures Watch(ok, t + [e]) == Next(ok, Watch(ok, t), e)
  {
    assert (t + [e])[..|t|] == t;
  }

  // ----- what one step of the executor does to the monitor

  function Seen(ok: Rules, s: St): Mon {
    Watch(ok, s.trace)
  }

  lemma EmitSeen(ok: Rules, s: St, e: Event)
    ensures Seen(ok, Emit(s, e)) == Next(ok, Seen(ok, s), e)
  {
    WatchSnoc(ok, s.trace, e);
  }

  lemma SendSeen(ok: Rules, replies: Replies, s: St, c: Command, d: Deadline)
    ensures var r := Send(replies, s, c, d);
            var issued := Next(ok, Seen(ok, s), Issued(c));
            Seen(ok, r.st) == if r.out.Ok? then Next(ok, issued, Returned(c)) else issued
  {
    hide Watch;
    var s1 := Emit(s.(cursor := s.cursor + 1), Issued(c));
    EmitSeen(ok, s.(cursor := s.cursor + 1), Issued(c));
    EmitSeen(ok, s1, TookEffect(c));
    var s2 := if replies(s.cursor).effective then Emit(s1, TookEffect(c)) else s1;
    assert Seen(ok, s2) == Seen(ok, s1);
    EmitSeen(ok, s2.(clock := s.clock + replies(s.cursor).delay), Returned(c));
  }

  /** Items that do not pass their gate leave no mark. */
  lemma SkipSeen(ok: Rules, m: Mon, gate: Gate, sample: Sample)
    requires !gate.Passes(sample)
    ensures Next(ok, m, Saw(gate, sample)) == m
  {
  }

  lemma NextItemSeen(ok: Rules, replies: Replies, s: St, gate: Gate, deadline: nat)
    ensures var item := NextItem(replies, s, gate, deadline);
            Seen(ok, item.st) == if item.out.Ok? then Next(ok, Seen(ok, s), Saw(gate, item.out.value)) else Seen(ok, s)
  {
    hide Watch, Next;
    var r := replies(s.cursor);
    if r.telemetry.Item? {
      EmitSeen(ok, s.(cursor := s.cursor + 1, clock := s.clock + r.delay), Saw(gate, r.telemetry.sample));
    }
  }

  predicate Waited(ok: Rules, m: Mon, gate: Gate, r: R<Sample>) {
    match r.out
    case Ok(sample) => gate.Passes(sample) && Seen(ok, r.st) == Next(ok, m, Saw(gate, sample))
    case Raise(_) => Seen(ok, r.st) == m
  }

  lemma {:induction false} WaitForSeen(ok: Rules, replies: Replies, s: St, gate: Gate, deadline: nat)
    ensures Waited(ok, Seen(ok, s), gate, WaitFor(replies, s, gate, deadline))
    decreases deadline - s.clock
  {
    hide Watch, Next, NextItem;
    var item := NextItem(replies, s, gate, deadline);
    NextItemSeen(ok, replies, s, gate, deadline);
    if item.out.Ok? && !gate.Passes(item.out.value) {
      SkipSeen(ok, Seen(ok, s), gate, item.out.value);
      WaitForSeen(ok, replies, item.st, gate, deadline);
    }
  }

  lemma WriteSeen(ok: Rules, sink: Sink, s: St, record: Record, strict: bool)
    ensures strict && Write(sink, s, record, strict).out.Ok? ==> sink(s.attempts).None?
    ensures var r := Write(sink, s, record, strict);
            var attempted := Next(ok, Seen(ok, s), Attempt(s.attempts, record, strict));
            Seen(ok, r.st) == if r.out.Ok? && strict then Next(ok, attempted, Recorded(record)) else attempted
  {
    hide Watch;
    var s0 := s.(attempts := s.attempts + 1);
    EmitSeen(ok, s0, Attempt(s.attempts, record, strict));
    EmitSeen(ok, Emit(s0, Attempt(s.attempts, record, strict)), Recorded(record));
  }

  lemma SleepSeen(ok: Rules, replies: Replies, s: St, seconds: int)
    ensures var r := Sleep(replies, s, seconds);
            var began := Next(ok, Seen(ok, s), HoldBegan(seconds));
            Seen(ok, r.st) == if r.out.Ok? then Next(ok, began, Slept(seconds)) else began
  {
    hide Watch;
    var s0 := s.(cursor := s.cursor + 1, clock := s.clock + replies(s.cursor).delay);
    EmitSeen(ok, s0, HoldBegan(seconds));
    EmitSeen(ok, Emit(s0, HoldBegan(seconds)), Slept(seconds));
  }

  /** What a land or disarm command and its return do to the monitor. */
  lemma ClosingCommandSeen(ok: Rules, m: Mon, c: Command)
    requires c == Land || c == Disarm
    ensures var n := Next(ok, m, Issued(c));
            && n == m.(commands := m.commands + [c], landSent := m.landSent || c == Land)
            && Next(ok, n, Returned(c)) == n.(disarmed := m.disarmed || c == Disarm)
  {
  }

  /** A falsy in_air item of the landing wait, after a land command, counts as landing. */
  lemma LandingItemSeen(ok: Rules, m: Mon, sample: Sample)
    requires m.landSent && ForLanding.Passes(sample)
    ensures Next(ok, m, Saw(ForLanding, sample)) == m.(landed := true)
  {
  }
}
