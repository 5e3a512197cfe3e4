/**
 * What each telemetry loop waits for and for how long, told from the replies alone: the first reply that
 * is late, ends the stream, breaks it, or carries an item the loop wants decides the outcome.
 */
module Waits {
  import opened Vehicle
  import opened Executor
  import opened Options

  type Wanted = Sample -> bool

  /** The time that replies `i` to `j` take together. */
  function Elapsed(replies: Replies, i: nat, j: nat): nat
    requires i <= j
    decreases j - i
  {
    if i == j then replies(i).delay else replies(i).delay + Elapsed(replies, i + 1, j)
  }

  function Arrival(replies: Replies, s: St, j: nat): nat
    requires s.cursor <= j
  {
    s.clock + Elapsed(replies, s.cursor, j)
  }

  predicate Decisive(replies: Replies, s: St, wanted: Wanted, limit: nat, j: nat)
    requires s.cursor <= j
  {
    || Arrival(replies, s, j) > limit
    || !replies(j).telemetry.Item?
    || wanted(replies(j).telemetry.sample)
  }

  /** Reply `j` decides the wait: it is the first decisive one. */
  predicate Decides(replies: Replies, s: St, wanted: Wanted, limit: nat, j: nat) {
    && s.cursor <= j
    && Decisive(replies, s, wanted, limit, j)
    && forall k :: s.cursor <= k < j ==> !Decisive(replies, s, wanted, limit, k)
  }

  /** The outcome of a wait that reply `j` decides: `late` past the limit, `ended` at the end of the stream. */
  function Decision(replies: Replies, s: St, limit: nat, late: Exn, ended: Exn, j: nat): Outcome<Sample>
    requires s.cursor <= j
  {
    if Arrival(replies, s, j) > limit then Raise(late)
    else
      match replies(j).telemetry
      case Ended => Raise(ended)
      case Broke(exn) => Raise(exn)
      case Item(sample) => Ok(sample)
  }

  /** As `Decision`, where a timeout raised inside the wait counts as its own. */
  function Result(replies: Replies, s: St, limit: nat, failure: Exn, j: nat): Outcome<Sample>
    requires s.cursor <= j
  {
    var out := Decision(replies, s, limit, failure, failure, j);
    if out == Raise(TimeoutError) then Raise(failure) else out
  }

  /** The wait consumes the replies up to `j`, and time up to its arrival or to the limit. */
  predicate Consumes(replies: Replies, s: St, limit: nat, j: nat, s': St)
    requires s.cursor <= j
  {
    && s'.cursor == j + 1
    && s'.clock == (if Arrival(replies, s, j) > limit then limit else Arrival(replies, s, j))
    && s'.attempts == s.attempts
  }

  /** Every wait is decided: replies take time, so one of them is late at last. */
  lemma {:induction false} SomeoneDecides(replies: Replies, s: St, wanted: Wanted, limit: nat) returns (j: nat)
    ensures Decides(replies, s, wanted, limit, j)
    decreases if s.clock <= limit then limit - s.clock + 1 else 0
  {
    if Decisive(replies, s, wanted, limit, s.cursor) {
      j := s.cursor;
    } else {
      var next := s.(cursor := s.cursor + 1, clock := s.clock + replies(s.cursor).delay);
      j := SomeoneDecides(replies, next, wanted, limit);
      DecidesLater(replies, s, next, wanted, limit, j);
    }
  }

  lemma DecidesLater(replies: Replies, s: St, next: St, wanted: Wanted, limit: nat, j: nat)
    requires next.cursor == s.cursor + 1 && next.clock == s.clock + replies(s.cursor).delay
    requires !Decisive(replies, s, wanted, limit, s.cursor)
    ensures Decides(replies, next, wanted, limit, j) <==> j > s.cursor && Decides(replies, s, wanted, limit, j)
    ensures j > s.cursor ==> Arrival(replies, next, j) == Arrival(replies, s, j)
  {
    forall k | k > s.cursor
      ensures Decisive(replies, next, wanted, limit, k) <==> Decisive(replies, s, wanted, limit, k)
    {
      assert Elapsed(replies, s.cursor, k) == replies(s.cursor).delay + Elapsed(replies, next.cursor, k);
    }
  }

  lemma {:induction false} WaitDecided(
    replies: Replies, s: St, gate: Gate, wanted: Wanted, limit: nat, j: nat)
    requires forall x :: gate.Passes(x) <==> wanted(x)
    requires s.clock <= limit && Decides(replies, s, wanted, limit, j)
    ensures var r := WaitFor(replies, s, gate, limit);
            && r.out == Decision(replies, s, limit, TimeoutError, gate.EndError(), j)
            && Consumes(replies, s, limit, j, r.st)
    decreases j - s.cursor
  {
    var item := NextItem(replies, s, gate, limit);
    if j == s.cursor {
      assert Arrival(replies, s, j) == s.clock + replies(j).delay;
    } else {
      assert !Decisive(replies, s, wanted, limit, s.cursor);
      assert Arrival(replies, s, s.cursor) == s.clock + replies(s.cursor).delay;
      DecidesLater(replies, s, item.st, wanted, limit, j);
      WaitDecided(replies, item.st, gate, wanted, limit, j);
    }
  }

  // ----- the waits of the executor

  predicate Connected(x: Sample) { x.connected }

  predicate Healthy(x: Sample) { x.healthy }

  predicate Armed(x: Sample) { x.armed == IsTrue }

  predicate OnGround(x: Sample) { x.inAir == IsFalse || x.inAir == OtherFalsy }

  predicate Any(x: Sample) { true }

  /** At or above nine tenths of the target, and the target less the tolerance. */
  predicate High(x: Sample, target: real, tolerance: real) {
    x.altitude.Some? && x.altitude.value >= target * 0.9 && x.altitude.value >= target - tolerance
  }

  function HighEnough(target: real, tolerance: real): Wanted {
    (x: Sample) => High(x, target, tolerance)
  }

  /** An altitude item ends the climb exactly if it is at or above both bounds. */
  lemma ClimbEndsIff(cfg: Config, target: real, x: Sample)
    ensures ForAltitude(MinimumAltitude(cfg, target)).Passes(x)
       <==> && x.altitude.Some?
            && x.altitude.value >= target * 0.9
            && x.altitude.value >= target - cfg.altitudeTolerance
  {
  }

  lemma ConnectionWait(env: Env, cfg: Config, s: St, j: nat)
    requires Decides(env.replies, s, Connected, s.clock + cfg.connectionTimeout, j)
    ensures var r, limit := WaitForConnection(env, cfg, s), s.clock + cfg.connectionTimeout;
            r.out == Result(env.replies, s, limit, ExecutorError, j) && Consumes(env.replies, s, limit, j, r.st)
  {
    hide WaitFor, Decides;
    WaitDecided(env.replies, s, ForConnection, Connected, s.clock + cfg.connectionTimeout, j);
  }

  lemma ArmedWait(env: Env, cfg: Config, s: St, j: nat)
    requires env.exposesArmed && Decides(env.replies, s, Armed, s.clock + cfg.takeoffTimeout, j)
    ensures var r, limit := WaitUntilArmed(env, cfg, s), s.clock + cfg.takeoffTimeout;
            r.out == Result(env.replies, s, limit, ExecutorError, j) && Consumes(env.replies, s, limit, j, r.st)
  {
    hide WaitFor, Decides;
    WaitDecided(env.replies, s, ForArmed, Armed, s.clock + cfg.takeoffTimeout, j);
  }

  lemma AltitudeWait(env: Env, cfg: Config, s: St, target: real, j: nat)
    requires Decides(env.replies, s, HighEnough(target, cfg.altitudeTolerance), s.clock + cfg.takeoffTimeout, j)
    ensures var r, limit := WaitUntilTakeoffAltitude(env, cfg, s, target), s.clock + cfg.takeoffTimeout;
            r.out == Result(env.replies, s, limit, ExecutorError, j) && Consumes(env.replies, s, limit, j, r.st)
  {
    hide WaitFor, Decides, MinimumAltitude;
    var wanted := HighEnough(target, cfg.altitudeTolerance);
    forall x ensures ForAltitude(MinimumAltitude(cfg, target)).Passes(x) <==> wanted(x) {
      ClimbEndsIff(cfg, target, x);
    }
    WaitDecided(env.replies, s, ForAltitude(MinimumAltitude(cfg, target)), wanted, s.clock + cfg.takeoffTimeout, j);
  }

  lemma LandingWait(env: Env, cfg: Config, s: St, j: nat)
    requires Decides(env.replies, s, OnGround, s.clock + cfg.landingTimeout, j)
    ensures var r, limit := WaitUntilLanded(env, cfg, s), s.clock + cfg.landingTimeout;
            r.out == Result(env.replies, s, limit, ExecutorError, j) && Consumes(env.replies, s, limit, j, r.st)
  {
    hide WaitFor, Decides;
    WaitDecided(env.replies, s, ForLanding, OnGround, s.clock + cfg.landingTimeout, j);
  }

  /** A stream the SDK does not have fails at once, and uses up nothing. */
  lemma MissingStreams(env: Env, cfg: Config, s: St)
    ensures !env.exposesArmed ==> WaitUntilArmed(env, cfg, s) == R(s, Raise(ExecutorError))
    ensures !env.exposesHome ==> ReadHome(env, cfg, s) == R(s, Raise(HomeUnavailable))
  {
  }

  // ----- commands, holds and records

  /** A command: what is on the trace, and that only a reply that raises - or comes too late - fails it. */
  lemma CommandSent(replies: Replies, s: St, c: Command, deadline: Deadline)
    ensures var r, reply := Send(replies, s, c, deadline), replies(s.cursor);
            var late := deadline.At? && s.clock + reply.delay > deadline.time;
            && r.st.trace == s.trace + [Issued(c)] + (if reply.effective then [TookEffect(c)] else [])
                             + (if !late && reply.raised.None? then [Returned(c)] else [])
            && r.out == (if late then Raise(TimeoutError)
                         else if reply.raised.Some? then Raise(reply.raised.value) else Ok(()))
            && r.st.cursor == s.cursor + 1 && r.st.attempts == s.attempts
            && (!late ==> r.st.clock == s.clock + reply.delay)
  {
  }

  /** A hold is slept out unless its reply raises. */
  lemma HoldSlept(replies: Replies, s: St, seconds: int)
    ensures var r, reply := Sleep(replies, s, seconds), replies(s.cursor);
            && r.st.trace == s.trace + [HoldBegan(seconds)] + (if reply.raised.None? then [Slept(seconds)] else [])
            && r.out == (if reply.raised.Some? then Raise(reply.raised.value) else Ok(()))
            && r.st.cursor == s.cursor + 1 && r.st.clock == s.clock + reply.delay && r.st.attempts == s.attempts
  {
  }

  /** A record: attempts are numbered; strict writes raise, best-effort ones swallow all but what is no `Exception`. */
  lemma RecordWritten(sink: Sink, s: St, record: Record, strict: bool)
    ensures var r, result := Write(sink, s, record, strict), sink(s.attempts);
            && r.out == (match result
                         case None => Ok(())
                         case Some(exn) =>
                           if strict || exn == Cancelled || exn == Interrupt then Raise(exn) else Ok(()))
            && r.st.trace == s.trace + [Attempt(s.attempts, record, strict)]
                             + (if strict && result.None? then [Recorded(record)] else [])
            && r.st.attempts == s.attempts + 1 && r.st.cursor == s.cursor && r.st.clock == s.clock
  {
  }

  // ----- reading home

  /** What the home item at `j` comes to; the time bound still runs from `s`. */
  function HomeResult(replies: Replies, s: St, limit: nat, j: nat): Outcome<Home>
    requires s.cursor <= j
  {
    match Result(replies, s, limit, HomeUnavailable, j)
    case Raise(exn) => Raise(exn)
    case Ok(sample) => if sample.home.Some? then Ok(sample.home.value) else Raise(OtherError(0))
  }

  /**
   * `_read_home`: reply `j` decides the health wait. If it is a healthy item in time, the very next reply
   * is the home item; both share one time bound.
   */
  lemma HomeRead(env: Env, cfg: Config, s: St, j: nat)
    requires env.exposesHome && Decides(env.replies, s, Healthy, s.clock + cfg.connectionTimeout, j)
    ensures var r, limit := ReadHome(env, cfg, s), s.clock + cfg.connectionTimeout;
            match Result(env.replies, s, limit, HomeUnavailable, j)
            case Raise(exn) => r.out == Raise(exn) && Consumes(env.replies, s, limit, j, r.st)
            case Ok(_) =>
              r.out == HomeResult(env.replies, s, limit, j + 1) && Consumes(env.replies, s, limit, j + 1, r.st)
  {
    var limit := s.clock + cfg.connectionTimeout;
    WaitDecided(env.replies, s, ForHealth, Healthy, limit, j);
    var health := WaitFor(env.replies, s, ForHealth, limit);
    if health.out.Ok? {
      ArrivalNext(env.replies, s, j);
      assert Decides(env.replies, health.st, Any, limit, j + 1);
      hide WaitFor, Decides;
      WaitDecided(env.replies, health.st, ForHome, Any, limit, j + 1);
    } else {
      hide WaitFor, Decides;
    }
  }

  lemma {:induction false} ElapsedNext(replies: Replies, i: nat, j: nat)
    requires i <= j
    ensures Elapsed(replies, i, j + 1) == Elapsed(replies, i, j) + replies(j + 1).delay
    decreases j - i
  {
    if i == j {
      assert Elapsed(replies, i + 1, j + 1) == replies(j + 1).delay;
    } else {
      ElapsedNext(replies, i + 1, j);
    }
  }

  lemma ArrivalNext(replies: Replies, s: St, j: nat)
    requires s.cursor <= j
    ensures Arrival(replies, s, j + 1) == Arrival(replies, s, j) + replies(j + 1).delay
  {
    ElapsedNext(replies, s.cursor, j);
  }

  // ----- checking home

  /**
   * A home check on a live home that was read: what cannot be computed raises before the record; otherwise
   * the record says whether the home is within tolerance, a record that cannot be written raises, and a home
   * out of tolerance is a mismatch.
   */
  lemma HomeChecked(env: Env, cfg: Config, bound: Home, phase: Phase, s: St)
    requires ReadHome(env, cfg, s).out.Ok?
    ensures var read, r := ReadHome(env, cfg, s), CheckHome(env, cfg, bound, phase, s);
            var live, ok := read.out.value, cfg.within(bound, read.out.value);
            var attempt := Attempt(read.st.attempts, HomeCheck(phase, ok), true);
            if !cfg.measurable(bound, live) then r.out == Raise(OtherError(1)) && r.st == read.st
            else
              match env.sink(read.st.attempts)
              case Some(exn) => r.out == Raise(exn) && r.st.trace == read.st.trace + [attempt]
              case None =>
                && r.out == (if ok then Ok(()) else Raise(HomeMismatch))
                && r.st.trace == read.st.trace + [attempt] + [Recorded(HomeCheck(phase, ok))]
  {
    hide ReadHome;
  }

  /** A home that cannot be read ends the check with the error of the read. */
  lemma HomeNotRead(env: Env, cfg: Config, bound: Home, phase: Phase, s: St)
    requires ReadHome(env, cfg, s).out.Raise?
    ensures CheckHome(env, cfg, bound, phase, s) == R(ReadHome(env, cfg, s).st, Raise(ReadHome(env, cfg, s).out.exn))
  {
    hide ReadHome;
  }

  // ----- recovery, from the replies

  /** A command sent at the next reply, under recovery's own time bound. */
  function Sent(replies: Replies, s: St, limit: nat): Outcome<()> {
    var r := replies(s.cursor);
    if s.clock + r.delay > limit then Raise(TimeoutError) else if r.raised.Some? then Raise(r.raised.value) else Ok(())
  }

  function AfterReply(replies: Replies, s: St): St {
    s.(cursor := s.cursor + 1, clock := s.clock + replies(s.cursor).delay)
  }

  /** Land, then wait for the ground: reply `j` decides the wait if the command is acknowledged. */
  function Landed(replies: Replies, s: St, limit: nat, j: nat): Outcome<RecoveryStatus>
    requires s.cursor < j
  {
    match Sent(replies, s, limit)
    case Raise(exn) => Raise(exn)
    case Ok(_) =>
      match Decision(replies, AfterReply(replies, s), limit, TimeoutError, ExecutorError, j)
      case Raise(exn) => Raise(exn)
      case Ok(_) => Ok(LandingConfirmed)
  }

  lemma LandingDecided(replies: Replies, s: St, limit: nat, j: nat)
    requires s.clock <= limit && Decides(replies, AfterReply(replies, s), OnGround, limit, j)
    ensures LandAndConfirm(replies, s, limit).out == Landed(replies, s, limit, j)
    ensures Issued(Land) in LandAndConfirm(replies, s, limit).st.trace
  {
    assert s.cursor + 1 <= j;
    hide WaitFor, Decides;
    var l := Send(replies, s, Land, At(limit));
    assert l.st.trace[|s.trace|] == Issued(Land);
    if l.out.Ok? {
      SameDecision(replies, AfterReply(replies, s), l.st, limit, j);
      WaitDecided(replies, l.st, ForLanding, OnGround, limit, j);
    }
    assert LandAndConfirm(replies, s, limit).st.trace[|s.trace|] == Issued(Land);
  }

  lemma SameDecision(replies: Replies, s: St, s': St, limit: nat, j: nat)
    requires s.cursor == s'.cursor && s.clock == s'.clock && s.cursor <= j
    ensures Decides(replies, s, OnGround, limit, j) ==> Decides(replies, s', OnGround, limit, j)
    ensures Decision(replies, s, limit, TimeoutError, ExecutorError, j)
         == Decision(replies, s', limit, TimeoutError, ExecutorError, j)
  {
    forall k | s.cursor <= k
      ensures Decisive(replies, s', OnGround, limit, k) <==> Decisive(replies, s, OnGround, limit, k)
    {
      assert Arrival(replies, s, k) == Arrival(replies, s', k);
    }
  }

  /** Recovery after takeoff was attempted: land and wait, all under the landing timeout. */
  lemma RecoveryAloft(replies: Replies, cfg: Config, s: St, j: nat)
    requires Decides(replies, AfterReply(replies, s), OnGround, s.clock + cfg.landingTimeout, j)
    ensures Recover(replies, cfg, s, true).out == Landed(replies, s, s.clock + cfg.landingTimeout, j)
  {
    hide LandAndConfirm, Decides;
    LandingDecided(replies, s, s.clock + cfg.landingTimeout, j);
  }

  /**
   * Recovery before takeoff was attempted: the next in_air item decides. Exactly False disarms, exactly True
   * lands, anything else is refused; all under the landing timeout.
   */
  lemma RecoveryArmed(replies: Replies, cfg: Config, s: St, j: nat)
    requires var s1 := AfterReply(replies, s);
             Decides(replies, AfterReply(replies, s1), OnGround, s.clock + cfg.landingTimeout, j)
    ensures var limit, s1 := s.clock + cfg.landingTimeout, AfterReply(replies, s);
            var out := Recover(replies, cfg, s, false).out;
            if s1.clock > limit then out == Raise(TimeoutError)
            else
              match replies(s.cursor).telemetry
              case Ended => out == Raise(ExecutorError)
              case Broke(exn) => out == Raise(exn)
              case Item(x) =>
                match x.inAir
                case IsFalse => out == (if Sent(replies, s1, limit).Ok? then Ok(DisarmAccepted)
                                        else Raise(Sent(replies, s1, limit).exn))
                case IsTrue => out == Landed(replies, s1, limit, j)
                case _ => out == Raise(ExecutorError)
  {
    hide LandAndConfirm, Decides;
    var limit := s.clock + cfg.landingTimeout;
    var w := WaitFor(replies, s, ForInAir, limit);
    if w.out.Ok? {
      var s1 := AfterReply(replies, s);
      SameDecides(replies, AfterReply(replies, s1), AfterReply(replies, w.st), limit, j);
      LandingDecided(replies, w.st, limit, j);
      SameDecision(replies, AfterReply(replies, s1), AfterReply(replies, w.st), limit, j);
    }
  }

  lemma SameDecides(replies: Replies, s: St, s': St, limit: nat, j: nat)
    requires s.cursor == s'.cursor && s.clock == s'.clock && Decides(replies, s, OnGround, limit, j)
    ensures Decides(replies, s', OnGround, limit, j)
  {
    SameDecision(replies, s, s', limit, j);
  }
}
