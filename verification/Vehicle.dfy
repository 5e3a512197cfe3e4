/**
 * The world the executor runs against: vehicle commands, telemetry, audit sink, exceptions,
 * and the trace of everything that passed between them.
 *
 * Every await of the source consumes one reply of the environment. A run is a function of the
 * replies, so a statement about all replies is a statement about all runs.
 */
module Vehicle {
  import opened Options

  /** Exception classes, as far as any handler of the source tells them apart. */
  datatype Exn =
    | PolicyRejected | Unsupported | HomeUnavailable | HomeMismatch | ExecutorError
    | ApprovalError | ReplayError | StoreError
    | TimeoutError
    | OtherError(code: int)
    | Cancelled
    | Interrupt
  {
    /** Derives from Python's `Exception`; cancellation and keyboard interrupt do not. */
    predicate IsException() { this != Cancelled && this != Interrupt }
  }

  datatype Outcome<+T> = Ok(value: T) | Raise(exn: Exn) {
    predicate IsFailure() { Raise? }
    function PropagateFailure<U>(): Outcome<U> requires Raise? { Raise(exn) }
    function Extract(): T requires Ok? { value }
  }

  /** A telemetry value that may fail to be a bool: `is True`, `is False`, and truthiness differ. */
  datatype Tri = IsTrue | IsFalse | OtherTruthy | OtherFalsy {
    predicate Truthy() { IsTrue? || OtherTruthy? }
  }

  datatype Home = Home(latitude: real, longitude: real, altitude: real)

  /** One telemetry item. `None` is a number that is not finite. */
  datatype Sample = Sample(
    connected: bool,
    healthy: bool,
    home: Option<Home>,
    armed: Tri,
    altitude: Option<real>,
    inAir: Tri)

  type Ticks = n: nat | n > 0 witness 1

  datatype Telemetry = Item(sample: Sample) | Ended | Broke(exn: Exn)

  /**
   * What the environment does at one await. A command may take effect and still raise (a lost
   * acknowledgement), or return without taking effect; a stream yields an item, ends, or raises.
   * Cancellation of the mission task is a raise. Each reply takes time.
   */
  datatype Reply = Reply(delay: Ticks, effective: bool, raised: Option<Exn>, telemetry: Telemetry)

  type Replies = nat -> Reply

  /** The audit sink: for each write attempt, the exception it raises, if any. */
  type Sink = nat -> Option<Exn>

  datatype Command = Connect | SetTakeoffAltitude(altitude: real) | Arm | Takeoff | Land | Disarm

  datatype Phase = PreArm | PostArm

  datatype RecoveryStatus = NotRequired | DisarmAccepted | LandingConfirmed | Failed

  datatype Record =
    | MissionStarted
    | HomeCheck(phase: Phase, within: bool)
    | ActionStarted(sequence: nat)
    | ActionCompleted(sequence: nat)
    | MissionFailed(status: RecoveryStatus)
    | MissionCompleted

  /** What a telemetry loop is waiting for. */
  datatype Gate =
    | ForConnection | ForHealth | ForHome | ForArmed
    | ForAltitude(minimum: real)
    | ForInAir
    | ForLanding
  {
    predicate Passes(s: Sample) {
      match this
      case ForConnection => s.connected
      case ForHealth => s.healthy
      case ForHome => true
      case ForArmed => s.armed == IsTrue
      case ForAltitude(minimum) => s.altitude.Some? && s.altitude.value >= minimum
      case ForInAir => true
      case ForLanding => !s.inAir.Truthy()
    }

    /** Raised when the stream ends first. */
    function EndError(): Exn {
      if ForHealth? || ForHome? then HomeUnavailable else ExecutorError
    }
  }

  datatype Event =
    | Issued(command: Command)
    | TookEffect(command: Command)
    | Returned(command: Command)
    | Saw(gate: Gate, sample: Sample)
    | HoldBegan(seconds: int)
    | Slept(seconds: int)
    | Attempt(index: nat, record: Record, strict: bool)
    | Recorded(record: Record)

  type Trace = seq<Event>

  /** Everything a run has changed so far: awaits consumed, time, audit attempts, and the trace. */
  datatype St = St(cursor: nat, clock: nat, attempts: nat, trace: Trace)

  const INITIAL := St(0, 0, 0, [])

  datatype R<+T> = R(st: St, out: Outcome<T>)

  function Emit(s: St, e: Event): St {
    s.(trace := s.trace + [e])
  }

  datatype Deadline = Never | At(time: nat) {
    predicate PassedBy(t: nat) { At? && t > time }
  }

  function Later(a: nat, b: nat): nat { if a > b then a else b }

  /** `await drone.action.<command>()`, under an enclosing time bound if there is one. */
  function Send(replies: Replies, s: St, c: Command, deadline: Deadline): (r: R<()>)
    ensures s.trace <= r.st.trace
  {
    var r := replies(s.cursor);
    var s1 := Emit(s.(cursor := s.cursor + 1), Issued(c));
    var s2 := if r.effective then Emit(s1, TookEffect(c)) else s1;
    if deadline.PassedBy(s.clock + r.delay) then
      R(s2.(clock := Later(s.clock, deadline.time)), Raise(TimeoutError))
    else
      var s3 := s2.(clock := s.clock + r.delay);
      match r.raised
      case Some(exn) => R(s3, Raise(exn))
      case None => R(Emit(s3, Returned(c)), Ok(()))
  }

  /** `await self.sleep_function(seconds)`. */
  function Sleep(replies: Replies, s: St, seconds: int): (r: R<()>)
    ensures s.trace <= r.st.trace
  {
    var r := replies(s.cursor);
    var s1 := Emit(s.(cursor := s.cursor + 1, clock := s.clock + r.delay), HoldBegan(seconds));
    match r.raised
    case Some(exn) => R(s1, Raise(exn))
    case None => R(Emit(s1, Slept(seconds)), Ok(()))
  }

  /** The next item of a telemetry stream, under an enclosing time bound. */
  function NextItem(replies: Replies, s: St, gate: Gate, deadline: nat): (r: R<Sample>)
    ensures s.trace <= r.st.trace
    ensures r.out.Ok? ==> s.clock < r.st.clock <= deadline
  {
    var reply := replies(s.cursor);
    var s1 := s.(cursor := s.cursor + 1);
    if s.clock + reply.delay > deadline then
      R(s1.(clock := Later(s.clock, deadline)), Raise(TimeoutError))
    else
      var s2 := s1.(clock := s.clock + reply.delay);
      match reply.telemetry
      case Ended => R(s2, Raise(gate.EndError()))
      case Broke(exn) => R(s2, Raise(exn))
      case Item(sample) => R(Emit(s2, Saw(gate, sample)), Ok(sample))
  }

  /** A telemetry loop under `asyncio.wait_for`: the first item that passes the gate. */
  function WaitFor(replies: Replies, s: St, gate: Gate, deadline: nat): (r: R<Sample>)
    ensures s.trace <= r.st.trace
    decreases deadline - s.clock
  {
    var item := NextItem(replies, s, gate, deadline);
    if item.out.Raise? || gate.Passes(item.out.value) then item
    else WaitFor(replies, item.st, gate, deadline)
  }

  /** `write_audit_record`, or its best-effort wrapper that swallows ordinary exceptions. */
  function Write(sink: Sink, s: St, record: Record, strict: bool): (r: R<()>)
    ensures s.trace <= r.st.trace
  {
    var s1 := Emit(s.(attempts := s.attempts + 1), Attempt(s.attempts, record, strict));
    match sink(s.attempts)
    case None => R(if strict then Emit(s1, Recorded(record)) else s1, Ok(()))
    case Some(exn) => R(s1, if strict || !exn.IsException() then Raise(exn) else Ok(()))
  }

  /** The log the sink ends up holding: the attempted records whose write did not raise. */
  function Log(sink: Sink, t: Trace): seq<Record> {
    if t == [] then []
    else
      var e := t[|t| - 1];
      Log(sink, t[..|t| - 1]) + (if e.Attempt? && sink(e.index).None? then [e.record] else [])
  }

  lemma LogSnoc(sink: Sink, t: Trace, e: Event)
    ensures Log(sink, t + [e]) == Log(sink, t) + (if e.Attempt? && sink(e.index).None? then [e.record] else [])
  {
    assert (t + [e])[..|t|] == t;
  }
}
