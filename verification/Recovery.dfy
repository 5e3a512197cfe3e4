/**
 * Protected recovery (`_recover_protected`): the recovery task runs step by step under a scheduler
 * that may cancel the mission task, any number of times, between any two steps.
 */
module Recovery {
  import opened Vehicle
  import opened Executor

  /** Where the recovery task is suspended. */
  datatype Pc = Deciding | Disarming | Landing | Confirming | Done(out: Outcome<RecoveryStatus>)

  datatype Task = Task(pc: Pc, st: St)

  /** One resumption of the task: it consumes one reply, or is ended by its own time bound. */
  function Step(replies: Replies, deadline: nat, task: Task): Task {
    var s := task.st;
    match task.pc
    case Done(_) => task
    case Disarming =>
      var d := Send(replies, s, Disarm, At(deadline));
      Task(Done(if d.out.Raise? then Raise(d.out.exn) else Ok(DisarmAccepted)), d.st)
    case Landing =>
      var l := Send(replies, s, Land, At(deadline));
      Task(if l.out.Raise? then Done(Raise(l.out.exn)) else Confirming, l.st)
    case Deciding => Receive(replies, deadline, task, ForInAir)
    case Confirming => Receive(replies, deadline, task, ForLanding)
  }

  /** One item of an in_air stream. */
  function Receive(replies: Replies, deadline: nat, task: Task, gate: Gate): Task {
    var item := NextItem(replies, task.st, gate, deadline);
    match item.out
    case Raise(exn) => Task(Done(Raise(exn)), item.st)
    case Ok(sample) => Task(AfterItem(task.pc, sample), item.st)
  }

  function AfterItem(pc: Pc, sample: Sample): Pc {
    if pc == Deciding then
      match sample.inAir
      case IsFalse => Disarming
      case IsTrue => Landing
      case _ => Done(Raise(ExecutorError))
    else if ForLanding.Passes(sample) then Done(Ok(LandingConfirmed))
    else pc
  }

  function Start(s: St, attempted: bool): Task {
    Task(if attempted then Landing else Deciding, s)
  }

  /** An upper bound on the resumptions left: each takes at least one tick of the time bound. */
  function Budget(deadline: nat, task: Task): nat {
    var left := if task.st.clock <= deadline then deadline - task.st.clock else 0;
    match task.pc
    case Done(_) => 0
    case Disarming => 1
    case Landing => left + 2
    case Confirming => left + 1
    case Deciding => left + 3
  }

  lemma StepSpends(replies: Replies, deadline: nat, task: Task)
    requires !task.pc.Done?
    ensures Budget(deadline, Step(replies, deadline, task)) < Budget(deadline, task)
  {
  }

  /** The task run to its end with nothing in between. */
  function Finish(replies: Replies, deadline: nat, task: Task): Task
    decreases Budget(deadline, task)
  {
    if task.pc.Done? then task
    else
      StepSpends(replies, deadline, task);
      Finish(replies, deadline, Step(replies, deadline, task))
  }

  // ----- stepping to the end is `_recover` under its time bound

  lemma {:induction false} ConfirmingFinishes(replies: Replies, deadline: nat, s: St)
    ensures var w := WaitFor(replies, s, ForLanding, deadline);
            var out := if w.out.Raise? then Raise(w.out.exn) else Ok(LandingConfirmed);
            Finish(replies, deadline, Task(Confirming, s)) == Task(Done(out), w.st)
    decreases deadline - s.clock
  {
    hide NextItem;
    var item := NextItem(replies, s, ForLanding, deadline);
    var next := Step(replies, deadline, Task(Confirming, s));
    if item.out.Ok? && !ForLanding.Passes(item.out.value) {
      ConfirmingFinishes(replies, deadline, next.st);
    } else {
      assert next.pc.Done?;
    }
  }

  lemma LandingFinishes(replies: Replies, deadline: nat, s: St)
    ensures var r := LandAndConfirm(replies, s, deadline);
            Finish(replies, deadline, Task(Landing, s)) == Task(Done(r.out), r.st)
  {
    hide WaitFor, Send;
    var l := Send(replies, s, Land, At(deadline));
    if l.out.Ok? {
      ConfirmingFinishes(replies, deadline, l.st);
    }
  }

  /** The uncancelled task computes exactly `Recover`. */
  lemma FinishIsRecover(replies: Replies, cfg: Config, s: St, attempted: bool)
    ensures var r := Recover(replies, cfg, s, attempted);
            Finish(replies, s.clock + cfg.landingTimeout, Start(s, attempted)) == Task(Done(r.out), r.st)
  {
    hide LandAndConfirm, Send, NextItem;
    var deadline := s.clock + cfg.landingTimeout;
    if attempted {
      LandingFinishes(replies, deadline, s);
    } else {
      var next := Step(replies, deadline, Start(s, attempted));
      if next.pc == Landing {
        LandingFinishes(replies, deadline, next.st);
      } else if next.pc == Disarming {
        assert Finish(replies, deadline, next) == Step(replies, deadline, next);
      } else {
        assert next.pc.Done?;
      }
    }
  }

  // ----- the loop around `asyncio.shield`

  /**
   * The future that `asyncio.shield` puts around the task: the task settles it when it ends, unless a
   * cancellation of the mission task, which reaches this future and not the task, has come first.
   */
  datatype Outer = Pending | CancelledFirst | Settled(out: Outcome<RecoveryStatus>)

  /** The loop awaits the future, or has left with a result. */
  datatype Loop = Awaiting(task: Task, outer: Outer) | Left(out: Outcome<RecoveryStatus>, st: St)

  /** The head of the loop: leave with the result of a task that is done, or shield it anew. */
  function Head(task: Task): Loop {
    match task.pc
    case Done(out) => Left(out, task.st)
    case _ => Awaiting(task, Pending)
  }

  datatype Tick = CancelMission | ResumeTask | WakeLoop

  function Settle(task: Task, outer: Outer): Outer {
    if outer == Pending && task.pc.Done? then Settled(task.pc.out) else outer
  }

  /** The loop wakes: a cancellation is swallowed, whoever raised it; any other exception leaves at once. */
  function Wake(task: Task, outer: Outer): Loop {
    match outer
    case Pending => Awaiting(task, outer)
    case CancelledFirst => Head(task)
    case Settled(out) => if out.Raise? && out.exn != Cancelled then Left(out, task.st) else Head(task)
  }

  function Turn(replies: Replies, deadline: nat, loop: Loop, tick: Tick): Loop {
    if loop.Left? then loop
    else
      match tick
      case CancelMission => loop.(outer := if loop.outer == Pending then CancelledFirst else loop.outer)
      case ResumeTask =>
        var task := Step(replies, deadline, loop.task);
        Awaiting(task, Settle(task, loop.outer))
      case WakeLoop => Wake(loop.task, loop.outer)
  }

  /** Cancellations, resumptions of the task and wakings of the loop, in any order. */
  function Protect(replies: Replies, deadline: nat, loop: Loop, schedule: seq<Tick>): Loop
    decreases |schedule|
  {
    if schedule == [] then loop
    else Protect(replies, deadline, Turn(replies, deadline, loop, schedule[0]), schedule[1..])
  }

  function Resumptions(schedule: seq<Tick>): nat {
    if schedule == [] then 0
    else (if schedule[0] == ResumeTask then 1 else 0) + Resumptions(schedule[1..])
  }

  /** The loop is on its way to the task's own end: a settled future holds the result of a task that is done. */
  predicate OnItsWay(replies: Replies, deadline: nat, loop: Loop, end: Task) {
    match loop
    case Awaiting(task, outer) =>
      && Finish(replies, deadline, task) == end
      && (outer == Pending ==> !task.pc.Done?)
      && (outer.Settled? ==> task.pc == Done(outer.out))
    case Left(out, st) => end == Task(Done(out), st)
  }

  /** What the loop has left to wait for. */
  function Rest(deadline: nat, loop: Loop): nat {
    if loop.Left? then 0 else Budget(deadline, loop.task)
  }

  lemma TurnKeepsWay(replies: Replies, deadline: nat, loop: Loop, tick: Tick, end: Task)
    requires OnItsWay(replies, deadline, loop, end)
    ensures OnItsWay(replies, deadline, Turn(replies, deadline, loop, tick), end)
    ensures Rest(deadline, Turn(replies, deadline, loop, tick)) <= Rest(deadline, loop)
    ensures tick == ResumeTask && Rest(deadline, loop) > 0 ==>
              Rest(deadline, Turn(replies, deadline, loop, tick)) < Rest(deadline, loop)
  {
    hide Step, Receive, AfterItem;
    if loop.Awaiting? && !loop.task.pc.Done? {
      StepSpends(replies, deadline, loop.task);
    } else if loop.Awaiting? {
      DoneStays(replies, deadline, loop.task);
    }
  }

  lemma DoneStays(replies: Replies, deadline: nat, task: Task)
    requires task.pc.Done?
    ensures Step(replies, deadline, task) == task && Finish(replies, deadline, task) == task
  {
  }

  /** Whatever the schedule does, the loop stays on its way, and every resumption brings the end nearer. */
  lemma {:induction false} ProtectOutcome(
    replies: Replies, deadline: nat, loop: Loop, schedule: seq<Tick>, end: Task)
    requires OnItsWay(replies, deadline, loop, end)
    ensures OnItsWay(replies, deadline, Protect(replies, deadline, loop, schedule), end)
    ensures Resumptions(schedule) >= Rest(deadline, loop) ==>
              Rest(deadline, Protect(replies, deadline, loop, schedule)) == 0
    decreases |schedule|
  {
    hide Turn, OnItsWay, Budget;
    if schedule == [] {
    } else {
      TurnKeepsWay(replies, deadline, loop, schedule[0], end);
      ProtectOutcome(replies, deadline, Turn(replies, deadline, loop, schedule[0]), schedule[1..], end);
      if Rest(deadline, loop) == 0 {
        StaysAtRest(replies, deadline, Turn(replies, deadline, loop, schedule[0]), schedule[1..], end);
      }
    }
  }

  lemma {:induction false} StaysAtRest(replies: Replies, deadline: nat, loop: Loop, schedule: seq<Tick>, end: Task)
    requires OnItsWay(replies, deadline, loop, end) && Rest(deadline, loop) == 0
    ensures Rest(deadline, Protect(replies, deadline, loop, schedule)) == 0
    decreases |schedule|
  {
    hide Turn, OnItsWay, Budget;
    if schedule == [] {
    } else {
      TurnKeepsWay(replies, deadline, loop, schedule[0], end);
      StaysAtRest(replies, deadline, Turn(replies, deadline, loop, schedule[0]), schedule[1..], end);
    }
  }

  /** A loop whose task has ended leaves when it next wakes. */
  lemma RestLeaves(replies: Replies, deadline: nat, loop: Loop, end: Task)
    requires OnItsWay(replies, deadline, loop, end) && Rest(deadline, loop) == 0
    ensures Turn(replies, deadline, loop, WakeLoop).Left?
  {
    hide Step, Finish;
  }

  /**
   * Recovery is transparent to cancellation: under every schedule, if the loop leaves, it has sent the
   * same commands, at the same times, and gives the same result as one uncancelled, time-bounded
   * `_recover`; it leaves at its first waking once the task has been resumed as often as its own bound
   * allows; and the task keeps that bound.
   */
  lemma RecoveryIgnoresCancellation(
    replies: Replies, cfg: Config, s: St, attempted: bool, schedule: seq<Tick>)
    ensures var deadline := s.clock + cfg.landingTimeout;
            var last := Protect(replies, deadline, Head(Start(s, attempted)), schedule);
            var r := Recover(replies, cfg, s, attempted);
            && (last.Left? ==> last == Left(r.out, r.st))
            && (Resumptions(schedule) >= cfg.landingTimeout + 3 ==> Turn(replies, deadline, last, WakeLoop).Left?)
            && r.st.clock <= deadline
  {
    hide Step, Recover, Protect, Turn;
    var deadline, start := s.clock + cfg.landingTimeout, Start(s, attempted);
    var end := Finish(replies, deadline, start);
    ProtectOutcome(replies, deadline, Head(start), schedule, end);
    FinishIsRecover(replies, cfg, s, attempted);
    FinishInTime(replies, deadline, start);
    if Resumptions(schedule) >= cfg.landingTimeout + 3 {
      RestLeaves(replies, deadline, Protect(replies, deadline, Head(start), schedule), end);
    }
  }

  lemma {:induction false} FinishInTime(replies: Replies, deadline: nat, task: Task)
    requires task.st.clock <= deadline
    ensures Finish(replies, deadline, task).st.clock <= deadline
    decreases Budget(deadline, task)
  {
    if !task.pc.Done? {
      StepSpends(replies, deadline, task);
      StepInTime(replies, deadline, task);
      FinishInTime(replies, deadline, Step(replies, deadline, task));
    }
  }

  lemma StepInTime(replies: Replies, deadline: nat, task: Task)
    requires task.st.clock <= deadline
    ensures Step(replies, deadline, task).st.clock <= deadline
  {
  }
}
