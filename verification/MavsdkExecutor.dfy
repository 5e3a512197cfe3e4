/**
 * `MavsdkExecutor.execute` and the MAVSDK branch of the command line (src/nightjar/mavsdk_executor.py,
 * src/nightjar/cli.py): policy, approval, nonce and flight put together, and what each exit code promises.
 */
module MavsdkExecutor {
  import opened Models
  import opened Policy
  import opened PolicyGrammar
  import Engine = PolicyEngine
  import opened Vehicle
  import opened Executor
  import opened Approval
  import opened Replay
  import opened Options
  import opened FlightTheorems
  import opened ErrorClasses
  import Flight = Session
  import TraceMeaning

  const EXECUTOR_NAME := "mavsdk"

  /** Everything a run of the program meets: the world, the vehicle, and its configuration. */
  datatype Setting = Setting(w: World, h: Hypot, limits: PolicyLimits, env: Env, cfg: Config)

  /** What `execute` leaves behind; `flight` is there once the system creation has been reached. */
  datatype Execution = Execution(db: Db, out: Outcome<()>, flight: Option<Run>)

  /** `execute`: capability and policy first, then approval and nonce, then the vehicle. */
  function ExecuteMission(g: Setting, db: Db, e: Envelope, m: Mission, now: int, faults: Faults): Execution
    requires m.actions != []
  {
    match Validate(g.h, g.limits, m.actions)
    case Raise(exn) => Execution(db, Raise(exn), None)
    case Ok(_) =>
      var (after, authorized) := Authorized(g.w, db, e, m, g.limits, EXECUTOR_NAME, now, faults);
      match authorized
      case Raise(exn) => Execution(after, Raise(exn), None)
      case Ok(p) =>
        var run := Execute(g.env, g.cfg, BoundHome(g.w, p), m.actions, INITIAL);
        Execution(after, run.out, Some(run))
  }

  /** `validate_mission`. */
  method ValidateMission(g: Setting, m: Mission) returns (out: Outcome<()>)
    requires m.actions != []
    ensures out == Validate(g.h, g.limits, m.actions)
  {
    var decision := Engine.Evaluate(g.h, g.limits, m);
    if !decision.approved {
      return Raise(PolicyRejected);
    }
    var unsupported: seq<nat> := [];
    for k := 0 to |m.actions|
      invariant unsupported == [] <==> forall i :: 0 <= i < k ==> Supported(m.actions[i])
    {
      if !Supported(m.actions[k]) {
        unsupported := unsupported + [k];
      }
    }
    if unsupported != [] {
      return Raise(Unsupported);
    }
    return Ok(());
  }

  /** `execute`, against the store and a new session with the vehicle. */
  method RunMission(
    g: Setting, store: SqliteNonceStore, cancellations: nat -> nat, e: Envelope, m: Mission, now: int, faults: Faults)
    returns (out: Outcome<()>, flight: Option<Run>)
    requires m.actions != []
    modifies store
    ensures Execution(store.State(), out, flight) == ExecuteMission(g, old(store.State()), e, m, now, faults)
  {
    hide Validate, Authorized, Execute, BoundHome;
    flight := None;
    out := ValidateMission(g, m);
    if out.Raise? { return; }
    var authorized := store.VerifyAndConsume(g.w, e, m, g.limits, EXECUTOR_NAME, now, faults);
    if authorized.Raise? {
      return Raise(authorized.exn), None;
    }
    var session := new Flight.Session(g.env, g.cfg, cancellations);
    var report;
    out, report := session.Execute(BoundHome(g.w, authorized.value), m.actions);
    flight := Some(Run(session.State(), out, report));
  }

  // ----- the command line

  /** A file load: it works, it raises a class the loader's handler names, or it raises another. */
  datatype Load<+T> = Loaded(value: T) | Unreadable | Broken(exn: Exn)

  datatype Subcommand = ValidateOnly | DryRun | Mavsdk

  datatype Exit = Code(n: int) | Uncaught(exn: Exn)

  /** `dryRun` is what the dry-run executor raises, if anything. */
  datatype Invocation = Invocation(
    command: Subcommand, mission: Load<Mission>, envelope: Load<Envelope>, now: int, faults: Faults,
    dryRun: Option<Exn>)

  datatype Ending = Ending(exit: Exit, db: Db, flight: Option<Run>)

  /** The handlers around the MAVSDK run, in their order. */
  function ExitOf(out: Outcome<()>): Exit {
    match out
    case Ok(_) => Code(0)
    case Raise(exn) =>
      if exn == ApprovalError || exn == ReplayError || exn == StoreError then Code(4)
      else if exn == Unsupported || exn == PolicyRejected then Code(4)
      else if exn == HomeUnavailable then Code(6)
      else if exn == HomeMismatch then Code(7)
      else if exn.IsException() then Code(5)
      else Uncaught(exn)
  }

  function DryRunExit(authorized: Outcome<Payload>, dryRun: Option<Exn>): Exit {
    match authorized
    case Raise(exn) =>
      if exn == ApprovalError || exn == ReplayError || exn == StoreError then Code(4) else Uncaught(exn)
    case Ok(_) => if dryRun.Some? then Uncaught(dryRun.value) else Code(0)
  }

  /** Parsed missions satisfy the schema. */
  predicate Parsed(i: Invocation) {
    i.mission.Loaded? ==> MissionValid(i.mission.value)
  }

  /** `main`, for the `validate` and `run` commands. */
  function Pipeline(g: Setting, i: Invocation, db: Db): Ending
    requires Parsed(i)
  {
    match i.mission
    case Unreadable => Ending(Code(2), db, None)
    case Broken(exn) => Ending(Uncaught(exn), db, None)
    case Loaded(m) =>
      if !Approved(g.h, g.limits, m.actions) then Ending(Code(1), db, None)
      else if i.command == ValidateOnly then Ending(Code(0), db, None)
      else
        match i.envelope
        case Unreadable => Ending(Code(3), db, None)
        case Broken(exn) => Ending(Uncaught(exn), db, None)
        case Loaded(e) =>
          if i.command == DryRun then
            var (after, authorized) := Authorized(g.w, db, e, m, g.limits, "dry-run", i.now, i.faults);
            Ending(DryRunExit(authorized, i.dryRun), after, None)
          else
            var x := ExecuteMission(g, db, e, m, i.now, i.faults);
            Ending(ExitOf(x.out), x.db, x.flight)
  }

  method RunPipeline(g: Setting, store: SqliteNonceStore, cancellations: nat -> nat, i: Invocation)
    returns (exit: Exit, flight: Option<Run>)
    requires Parsed(i)
    modifies store
    ensures Ending(exit, store.State(), flight) == Pipeline(g, i, old(store.State()))
  {
    hide Authorized, ExecuteMission;
    flight := None;
    if i.mission.Unreadable? { return Code(2), None; }
    if i.mission.Broken? { return Uncaught(i.mission.exn), None; }
    var m := i.mission.value;
    var decision := Engine.Evaluate(g.h, g.limits, m);
    if !decision.approved { return Code(1), None; }
    if i.command == ValidateOnly { return Code(0), None; }
    if i.envelope.Unreadable? { return Code(3), None; }
    if i.envelope.Broken? { return Uncaught(i.envelope.exn), None; }
    var e := i.envelope.value;
    if i.command == DryRun {
      var authorized := store.VerifyAndConsume(g.w, e, m, g.limits, "dry-run", i.now, i.faults);
      return DryRunExit(authorized, i.dryRun), None;
    }
    var out;
    out, flight := RunMission(g, store, cancellations, e, m, i.now, i.faults);
    exit := ExitOf(out);
  }

  // ----- what the exit codes promise

  /** The store raises sqlite errors, or is interrupted. */
  ghost predicate StoreFaults(faults: Faults) {
    forall stage :: faults(stage).Some? ==> faults(stage).value == StoreError || !faults(stage).value.IsException()
  }

  predicate SpentBy(db: Db, after: Db, e: Envelope, now: int) {
    && e.payload.nonce !in db.table
    && after.table == db.table[e.payload.nonce := RowOf(e.payload, now)]
  }

  /** The commit took effect and still raised: the nonce is spent and the caller has not been told. */
  predicate LostCommit(db: Db, after: Db, e: Envelope, now: int, faults: Faults) {
    faults(AfterCommit).Some? && SpentBy(db, after, e, now)
  }

  /** The outcomes of `execute`, before any handler. */
  ghost predicate Truthful(x: Execution, db: Db, e: Envelope, now: int, faults: Faults) {
    match x.flight
    case None =>
      && (x.db == db || LostCommit(db, x.db, e, now, faults))
      && x.out.Raise? && (AuthorizationClass(x.out.exn) || !x.out.exn.IsException())
    case Some(run) =>
      && SpentBy(db, x.db, e, now)
      && x.out == run.out
      && (x.out.Raise? ==> !AuthorizationClass(x.out.exn))
      && (x.out.Raise? && HomeClass(x.out.exn) ==> Issued(Takeoff) !in run.st.trace)
      && (x.out.Ok? ==> TraceMeaning.LandingSeen(run.st.trace))
  }

  lemma AuthorizationOutcome(g: Setting, db: Db, e: Envelope, m: Mission, executor: string, now: int, faults: Faults)
    requires StoreFaults(faults)
    ensures var (after, out) := Authorized(g.w, db, e, m, g.limits, executor, now, faults);
            match out
            case Ok(p) => p == e.payload && SpentBy(db, after, e, now)
            case Raise(exn) =>
              && (after == db || LostCommit(db, after, e, now, faults))
              && (exn == ApprovalError || exn == ReplayError || exn == StoreError || !exn.IsException())
  {
    hide Signed, MissionSha, PolicySha;
  }

  lemma BoundHomeClass(w: World, p: Payload)
    ensures HomeOrForeign(BoundHome(w, p))
  {
    hide HomeSha;
  }

  lemma FlightTruthful(g: Setting, bound: Outcome<Home>, actions: seq<Action>)
    requires ForeignEnv(g.env) && HomeOrForeign(bound) && Accepted(g.h, g.limits, actions)
    ensures var run := Execute(g.env, g.cfg, bound, actions, INITIAL);
            && HomeOrForeign(run.out)
            && (run.out.Raise? && HomeClass(run.out.exn) ==> Issued(Takeoff) !in run.st.trace)
            && (run.out.Ok? ==> TraceMeaning.LandingSeen(run.st.trace))
  {
    hide Execute, ForeignEnv;
    AcceptedIsFlyable(g.h, g.limits, actions);
    RunClass(g.env, g.cfg, bound, actions);
    if Execute(g.env, g.cfg, bound, actions, INITIAL).out.Ok? {
      CompletedRun(g.h, g.limits, g.env, g.cfg, bound, actions);
    }
  }

  lemma ExecutionTruthful(g: Setting, db: Db, e: Envelope, m: Mission, now: int, faults: Faults)
    requires ForeignEnv(g.env) && StoreFaults(faults) && ActionsValid(m.actions)
    ensures Truthful(ExecuteMission(g, db, e, m, now, faults), db, e, now, faults)
  {
    hide Authorized, Execute, ForeignEnv, BoundHome, StoreFaults, SpentBy, LostCommit, Approved;
    AuthorizationOutcome(g, db, e, m, EXECUTOR_NAME, now, faults);
    BoundHomeClass(g.w, e.payload);
    if Validate(g.h, g.limits, m.actions).Ok? {
      FlightTruthful(g, BoundHome(g.w, e.payload), m.actions);
    }
  }

  /** No system was created, and nothing spent unless a commit raised after taking effect. */
  predicate Unflown(end: Ending, db: Db, i: Invocation) {
    && end.flight.None? && i.envelope.Loaded?
    && (end.db == db || LostCommit(db, end.db, i.envelope.value, i.now, i.faults))
  }

  /** Nothing was spent and no system created. */
  predicate Untouched(end: Ending, db: Db) {
    end.flight.None? && end.db == db
  }

  /** A system was created under this invocation's nonce, which is spent. */
  predicate Flown(end: Ending, db: Db, i: Invocation) {
    end.flight.Some? && i.envelope.Loaded? && SpentBy(db, end.db, i.envelope.value, i.now)
  }

  /**
   * Exit codes tell the truth. 1 to 4: no system was created and no nonce spent, but for 4 when a commit
   * raised after taking effect (`BlockedYetSpentIff` says exactly when). 5: the nonce is spent.
   * 6 and 7: the nonce is spent, the home was unavailable or did not match, and takeoff was never
   * commanded. 0: the nonce is spent and the landing was seen. Beyond these the program only ends by an
   * exception that is not an `Exception`, or by one from loading its files.
   */
  lemma ExitCodesTellTheTruth(g: Setting, i: Invocation, db: Db)
    requires ForeignEnv(g.env) && StoreFaults(i.faults) && Parsed(i) && i.command == Mavsdk
    ensures var end := Pipeline(g, i, db);
            match end.exit
            case Code(0) => Flown(end, db, i) && TraceMeaning.LandingSeen(end.flight.value.st.trace)
            case Code(1) => Untouched(end, db) && i.mission.Loaded?
            case Code(2) => Untouched(end, db) && i.mission.Unreadable?
            case Code(3) => Untouched(end, db) && i.envelope.Unreadable?
            case Code(4) => Unflown(end, db, i) && i.mission.Loaded?
            case Code(5) => Flown(end, db, i) && end.flight.value.out.Raise?
            case Code(6) =>
              && Flown(end, db, i) && Issued(Takeoff) !in end.flight.value.st.trace
              && end.flight.value.out == Raise(HomeUnavailable)
            case Code(7) =>
              && Flown(end, db, i) && Issued(Takeoff) !in end.flight.value.st.trace
              && end.flight.value.out == Raise(HomeMismatch)
            case Code(_) => false
            case Uncaught(exn) =>
              || (Untouched(end, db) && (i.mission.Broken? || i.envelope.Broken?))
              || (!exn.IsException() && (Unflown(end, db, i) || Flown(end, db, i)))
  {
    hide ExecuteMission, ForeignEnv, StoreFaults, SpentBy, LostCommit, Approved;
    if i.mission.Loaded? && i.envelope.Loaded? {
      ExecutionTruthful(g, db, i.envelope.value, i.mission.value, i.now, i.faults);
    }
  }

  /** The dry run shares the authorization boundary: it simulates only under a nonce it has spent. */
  lemma DryRunSpends(g: Setting, i: Invocation, db: Db)
    requires StoreFaults(i.faults) && Parsed(i) && i.command == DryRun
    ensures var end := Pipeline(g, i, db);
            && end.flight.None?
            && (end.exit == Code(0) ==> i.envelope.Loaded? && SpentBy(db, end.db, i.envelope.value, i.now))
            && (end.exit.Code? && end.exit.n != 0 ==>
                  1 <= end.exit.n <= 4 && (end.db == db || (end.exit.n == 4 && Unflown(end, db, i))))
  {
    hide Authorized, StoreFaults, SpentBy, LostCommit, Approved;
    if i.mission.Loaded? && i.envelope.Loaded? {
      AuthorizationOutcome(g, db, i.envelope.value, i.mission.value, "dry-run", i.now, i.faults);
    }
  }

  /** Once the command line has printed an approval, the executor's own policy check cannot reject. */
  lemma PolicyRejectionUnreachable(g: Setting, db: Db, e: Envelope, m: Mission, now: int, faults: Faults)
    requires ForeignEnv(g.env) && StoreFaults(faults) && ActionsValid(m.actions)
    requires Approved(g.h, g.limits, m.actions)
    ensures ExecuteMission(g, db, e, m, now, faults).out != Raise(PolicyRejected)
  {
    hide Authorized, Execute, ForeignEnv, BoundHome, StoreFaults, SpentBy, LostCommit, Approved;
    ExecutionTruthful(g, db, e, m, now, faults);
    AuthorizationOutcome(g, db, e, m, EXECUTOR_NAME, now, faults);
  }

  /** Exit 1 is exactly policy's verdict: the mission was loaded and is not permitted. */
  lemma RejectedIff(g: Setting, i: Invocation, db: Db)
    requires ForeignEnv(g.env) && StoreFaults(i.faults) && Parsed(i) && IsHypot(g.h)
    ensures Pipeline(g, i, db).exit == Code(1)
       <==> i.mission.Loaded? && !Permitted(g.h, g.limits, i.mission.value.actions)
  {
    hide ExecuteMission, Authorized, ForeignEnv, StoreFaults, Approved, Permitted, IsHypot, ActionsValid;
    if i.mission.Loaded? {
      ApprovedIffPermitted(g.h, g.limits, i.mission.value.actions);
    }
  }

  /**
   * With a store that works, a flight is blocked (exit 4) exactly when the mission holds an action the
   * executor does not support, the approval does not verify, or its nonce was used.
   */
  lemma BlockedIff(g: Setting, i: Invocation, db: Db)
    requires ForeignEnv(g.env) && Parsed(i) && i.command == Mavsdk && i.mission.Loaded? && i.envelope.Loaded?
    requires db.txn.Idle? && forall stage :: i.faults(stage).None?
    requires IsHypot(g.h) && Permitted(g.h, g.limits, i.mission.value.actions)
    ensures Pipeline(g, i, db).exit == Code(4)
       <==> || (exists k :: 0 <= k < |i.mission.value.actions| && !Supported(i.mission.value.actions[k]))
            || Verify(g.w, i.envelope.value, i.mission.value, g.limits, EXECUTOR_NAME, i.now).Raise?
            || i.envelope.value.payload.nonce in db.table
  {
    hide Verify, Execute, ForeignEnv, Approved, Permitted, IsHypot, ActionsValid, BoundHome, SpentBy;
    var m, e := i.mission.value, i.envelope.value;
    ApprovedIffPermitted(g.h, g.limits, m.actions);
    ExecutionTruthful(g, db, e, m, i.now, i.faults);
    VerifyClass(g.w, e, m, g.limits, EXECUTOR_NAME, i.now);
  }

  lemma VerifyClass(w: World, e: Envelope, m: Mission, limits: PolicyLimits, executor: string, now: int)
    ensures var out := Verify(w, e, m, limits, executor, now);
            out == Raise(ApprovalError) || (out == Ok(e.payload) && InWindow(w, e.payload, now))
  {
    hide Signed, MissionSha, PolicySha;
  }

  /**
   * When exit 4 does not mean an unspent nonce: exactly when an accepted mission's approval verified, the
   * transaction committed, and the store raised all the same.
   */
  lemma BlockedYetSpentIff(g: Setting, i: Invocation, db: Db)
    requires ForeignEnv(g.env) && StoreFaults(i.faults)
    requires Parsed(i) && i.command == Mavsdk && i.mission.Loaded? && i.envelope.Loaded?
    ensures Pipeline(g, i, db).exit == Code(4) && Pipeline(g, i, db).db != db
       <==> && Accepted(g.h, g.limits, i.mission.value.actions)
            && Verify(g.w, i.envelope.value, i.mission.value, g.limits, EXECUTOR_NAME, i.now).Ok?
            && Commits(db, i.envelope.value.payload.nonce, i.faults)
            && i.faults(AfterCommit) == Some(StoreError)
  {
    hide Verify, Execute, ForeignEnv, Approved, ActionsValid, BoundHome;
    var m, e := i.mission.value, i.envelope.value;
    ExecutionTruthful(g, db, e, m, i.now, i.faults);
    VerifyClass(g.w, e, m, g.limits, EXECUTOR_NAME, i.now);
    assert e.payload.nonce !in db.table ==>
        db.table[e.payload.nonce := RowOf(e.payload, i.now)] != db.table;
  }

  // ----- each command, exactly

  /** `validate` flies nothing and spends nothing, whatever the other inputs; its exit is policy's verdict. */
  lemma ValidateOnlyIff(g: Setting, i: Invocation, db: Db)
    requires Parsed(i) && IsHypot(g.h) && i.command == ValidateOnly
    ensures var end := Pipeline(g, i, db);
            && end.flight.None? && end.db == db
            && (end.exit == Code(0) <==> i.mission.Loaded? && Permitted(g.h, g.limits, i.mission.value.actions))
            && (end.exit == Code(1) <==> i.mission.Loaded? && !Permitted(g.h, g.limits, i.mission.value.actions))
            && (end.exit == Code(2) <==> i.mission.Unreadable?)
            && (i.mission.Broken? ==> end.exit == Uncaught(i.mission.exn))
  {
    hide ExecuteMission, Authorized, Approved, Permitted, IsHypot, ActionsValid;
    if i.mission.Loaded? {
      ApprovedIffPermitted(g.h, g.limits, i.mission.value.actions);
    }
  }

  /** How `run` ends before it comes to any approval. */
  lemma LoadingIff(g: Setting, i: Invocation, db: Db)
    requires Parsed(i) && IsHypot(g.h) && i.command != ValidateOnly
    requires ForeignEnv(g.env) && StoreFaults(i.faults)
    ensures var end := Pipeline(g, i, db);
            && (end.exit == Code(2) <==> i.mission.Unreadable?)
            && (end.exit == Code(3) <==>
                  i.mission.Loaded? && Permitted(g.h, g.limits, i.mission.value.actions) && i.envelope.Unreadable?)
            && (i.mission.Broken? ==> end.exit == Uncaught(i.mission.exn))
            && (i.mission.Loaded? && Permitted(g.h, g.limits, i.mission.value.actions) && i.envelope.Broken? ==>
                  end.exit == Uncaught(i.envelope.exn))
  {
    hide ExecuteMission, Authorized, Approved, Permitted, IsHypot, ActionsValid, StoreFaults, ForeignEnv;
    if i.mission.Loaded? {
      ApprovedIffPermitted(g.h, g.limits, i.mission.value.actions);
    }
  }

  /**
   * An envelope without a valid signature gets nothing, on either executor: exit 4, no flight, and the table
   * of nonces as it was.
   */
  lemma InvalidSignatureBlocks(g: Setting, i: Invocation, db: Db)
    requires Parsed(i) && IsHypot(g.h) && i.command != ValidateOnly
    requires i.mission.Loaded? && Permitted(g.h, g.limits, i.mission.value.actions) && i.envelope.Loaded?
    requires forall signature ::
               g.w.scheme.decode(i.envelope.value.signature) == Some(signature) ==>
                 !g.w.scheme.valid(signature, SigningBytes(i.envelope.value.payload))
    ensures Pipeline(g, i, db) == Ending(Code(4), db, None)
  {
    hide Verify, SigningBytes, Approved, Permitted, IsHypot, ActionsValid, Execute;
    var m, e := i.mission.value, i.envelope.value;
    ApprovedIffPermitted(g.h, g.limits, m.actions);
    InvalidSignatureRefused(g.w, e, m, g.limits, EXECUTOR_NAME, i.now);
    InvalidSignatureRefused(g.w, e, m, g.limits, "dry-run", i.now);
  }

  /** Once there is a flight its outcome decides the exit code, one to one. */
  lemma FlightExits(g: Setting, i: Invocation, db: Db)
    requires ForeignEnv(g.env) && StoreFaults(i.faults) && Parsed(i) && i.command == Mavsdk
    requires Pipeline(g, i, db).flight.Some?
    ensures var end := Pipeline(g, i, db);
            match end.flight.value.out
            case Ok(_) => end.exit == Code(0)
            case Raise(exn) =>
              end.exit == (if exn == HomeUnavailable then Code(6)
                           else if exn == HomeMismatch then Code(7)
                           else if exn != Cancelled && exn != Interrupt then Code(5)
                           else Uncaught(exn))
  {
    hide ExecuteMission, ForeignEnv, StoreFaults, SpentBy, LostCommit, Approved;
    ExecutionTruthful(g, db, i.envelope.value, i.mission.value, i.now, i.faults);
  }

  /** A mission flies exactly if it is accepted, its approval for "mavsdk" verifies, and the nonce is spent. */
  lemma FliesIff(g: Setting, i: Invocation, db: Db)
    requires Parsed(i) && i.command == Mavsdk && i.mission.Loaded? && i.envelope.Loaded?
    ensures Pipeline(g, i, db).flight.Some?
       <==> && Accepted(g.h, g.limits, i.mission.value.actions)
            && Verify(g.w, i.envelope.value, i.mission.value, g.limits, "mavsdk", i.now).Ok?
            && Commits(db, i.envelope.value.payload.nonce, i.faults) && i.faults(AfterCommit).None?
    ensures var home := BoundHome(g.w, i.envelope.value.payload);
            var run := Execute(g.env, g.cfg, home, i.mission.value.actions, INITIAL);
            Pipeline(g, i, db).flight.Some? ==> Pipeline(g, i, db).flight.value == run
  {
    hide Verify, Execute, Approved, ActionsValid, BoundHome;
    VerifyClass(g.w, i.envelope.value, i.mission.value, g.limits, EXECUTOR_NAME, i.now);
  }

  /** The dry run succeeds exactly if its approval for "dry-run" verifies, its nonce is spent, and nothing raises. */
  lemma DryRunIff(g: Setting, i: Invocation, db: Db)
    requires Parsed(i) && i.command == DryRun && i.mission.Loaded? && i.envelope.Loaded?
    requires IsHypot(g.h) && Permitted(g.h, g.limits, i.mission.value.actions)
    ensures var nonce := i.envelope.value.payload.nonce;
            var end := Pipeline(g, i, db);
            var out := Verify(g.w, i.envelope.value, i.mission.value, g.limits, "dry-run", i.now);
            && (end.exit == Code(0) <==>
                  out.Ok? && Commits(db, nonce, i.faults) && i.faults(AfterCommit).None? && i.dryRun.None?)
            && end.db.table == (if out.Ok? && Commits(db, nonce, i.faults)
                                then db.table[nonce := RowOf(i.envelope.value.payload, i.now)] else db.table)
  {
    hide Verify, Execute, Approved, Permitted, IsHypot, ActionsValid, BoundHome;
    ApprovedIffPermitted(g.h, g.limits, i.mission.value.actions);
    VerifyClass(g.w, i.envelope.value, i.mission.value, g.limits, "dry-run", i.now);
  }
}
