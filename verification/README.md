# Nightjar: a verified model

Nightjar puts a deterministic policy check, a signed approval with a one-time nonce, and a restricted
flight state machine between a proposed drone mission and a vehicle. This project models those parts in
Dafny and proves what they promise, separately and composed.

- `Models`, `Policy`, `PolicyEngine`, `PolicyGrammar`, `PolicyReasons`, `PolicyTheorems`: missions and the
  one-pass policy check, shown equivalent to a grammar plus budgets and its reasons to the faults they name,
  with the geometry that follows from approval.
- `Vehicle`, `Executor`, `Session`, `Recovery`: the executor against an arbitrary environment. `Executor`
  gives each step as a function of the environment's replies; `Session` is the same executor as the source
  runs it, an object whose fields change, proved equal to it method by method; `Recovery` is the protected
  recovery task and the loop around it, one step at a time under a scheduler.
- `Waits`, `Checklist`: what each wait, command, record and recovery comes to, read off the replies; and the
  whole run as one straight list of steps without flags.
- `Additions`, `OneTakeoff`, `PolicyNeeded`: what each step may add to the trace, for any list of actions, and
  exactly which lists keep the executor's flags sound.
- `Monitor`, `ExecutorSafety`, `ExecutorRuns`, `TraceMeaning`: a monitor over the trace of a run, what every
  step does to it, and what its verdicts mean in terms of the trace itself.
- `FlightTheorems`, `Ground`, `AuditTheorem`, `AuditPhases`, `ErrorClasses`: the theorems about whole runs, and about the
  vehicle.
- `JsonValue`, `JsonText`, `JsonRoundTrip`, `JsonSpelling`, `Utf8`, `Canonical`, `HomeBinding`: canonical bytes,
  digests and the integer home.
- `Approval`, `Replay`, `NonceProtocol`: signed approvals, the table of consumed nonces as an object with
  transactions, and any number of processes sharing it.
- `MavsdkExecutor`, `CommandLines`, `EndToEnd`, `Completion`: the composition, alone and side by side, the exit
  codes, what stands behind a takeoff command, and that an approved mission can be flown.

`dafny verify dfyconfig.toml` checks everything.

## How the environment is modelled

Every await consumes one reply of the environment: a command may take effect or not, and return or raise,
in all four combinations; a stream yields an item, ends, or raises; a cancellation of the mission task is a
raise; each reply takes at least one tick. A run is a function of all replies and of the audit sink (for
each write attempt, the exception it raises, if any), so a lemma about every environment is a lemma about
every run. Telemetry booleans have four values, because recovery tests `is False` and `is True` where the
landing wait tests truth. An item that arrives exactly at a deadline counts as arrived. `asyncio.run`,
server shutdown and the choice of log directory change none of this.

Hypotheses are explicit predicates: `IsHypot` (all that is used of `hypot`), `RoundsToNearest` (IEEE 754,
section 4.3), `Faithful` (float printing is injective and yields number tokens), `Correct` (genuine
signatures verify, section 5.1 of RFC 8032, and base64 can be undone), `Unforged` (this envelope's
signature, if valid, was made by the approver), `Physical`, `Truthful` and `Honest` (for `Ground` only: the
vehicle lifts off only on a takeoff, its falsy landing items are true, its acknowledgements are true),
`ForeignEnv` (vehicle, sink and event loop do not raise Nightjar's own exception classes) and `StoreFaults`
(the store raises sqlite errors or is interrupted). That cancelling the future `asyncio.shield` returns does
not cancel the task inside is built into `Recovery.Turn`.
Nothing is assumed of SHA-256: the lemmas conclude equality or exhibit a collision.

Where code and comments differ, the code is followed. The comment at
src/nightjar/mavsdk_executor.py:165-169 says that an audit failure after takeoff never interrupts flight,
but `_verify_home` always writes strictly (line 394), and `takeoff_attempted` is reset by every takeoff
action (line 202). `PolicyNeeded.SafeIffOneTakeoff` says when the comment is right: exactly for missions with
at most one takeoff, which policy guarantees and the mission schema does not.

## Model

| member | source | states |
|---|---|---|
| EndToEnd.TakeoffIsAuthorized | src/nightjar/mavsdk_executor.py:108-227 | Whole chain, any vehicle, sink and store: a takeoff command means the mission is takeoff-holds-land within every budget, the approver asked for exactly this mission, limits and executor (or the hash shows a collision) and is in time, the nonce was unused and is now recorded, the home checked is the approved one to half a unit, and every gate was passed in order before the command. |
| EndToEnd.FlightOf | src/nightjar/cli.py:131-216 | A flight takes place only for an accepted mission, a verified envelope and a nonce newly spent, and is the run against the home that envelope binds. |
| Completion.ApprovedMissionFlies | src/nightjar/cli.py:119-216 | The converse: a permitted takeoff-holds-land mission, an approval built and signed for it and in force, an unused nonce, a working store and a cooperative vehicle end in exit code 0. |
| Completion.CooperativeRunCompletes | src/nightjar/mavsdk_executor.py:140-291 | Against any environment in which nothing raises and every gate is answered within a window that fits the timeouts, every takeoff-holds-land mission completes. |
| Completion.FlightsExist | src/nightjar/mavsdk_executor.py:140-291 | For every takeoff-holds-land mission there is a vehicle with which it completes, so the theorems about completed runs and takeoffs speak of something. |
| Completion.RecoverySucceeds | src/nightjar/mavsdk_executor.py:316-333 | From any state, if nothing raises and touch-down is reported within a third of the landing timeout, recovery ends in landing_confirmed when takeoff was attempted or the first in_air item is exactly True, in disarm_accepted when it is exactly False, and refuses any other item. |
| Waits.RecoveryAloft | src/nightjar/mavsdk_executor.py:331-333 | Recovery after takeoff was attempted lands and waits, all under the landing timeout; its outcome read off the replies. |
| Waits.RecoveryArmed | src/nightjar/mavsdk_executor.py:318-333 | Recovery before it: the next in_air item decides - exactly False disarms, exactly True lands, anything else is refused, a late, ended or broken stream fails. |
| Completion.WaitOk | src/nightjar/mavsdk_executor.py:350-500 | A telemetry loop whose time bound leaves a window ends within it, with an item that passes. |
| FlightTheorems.Cleanup | src/nightjar/mavsdk_executor.py:170-280 | In every run that commanded arm: a falsy in_air item after a land command, or recovery reported disarm_accepted (disarm returned, takeoff never commanded), landing_confirmed (landing seen) or failed; not_required only with the landing seen. |
| Checklist.ExecuteIsChecklist | src/nightjar/mavsdk_executor.py:140-291 | For every mission, vehicle, sink, configuration and home the flag-driven run - events, times, audit modes, recovery, report, outcome - is the run of one straight list of steps in which the mode of each record and the recovery for a failure of each step are written down, and no flag exists. |
| FlightTheorems.DisarmOnlyOnGround | src/nightjar/mavsdk_executor.py:316-329 | For accepted missions each disarm command directly follows an in_air item that is exactly False, and no run holds both a disarm and a takeoff command; from policy only the one takeoff is used. |
| FlightTheorems.AcceptedTakesOffOnce | src/nightjar/policy.py:68-76 | What the executor needs of policy: an accepted mission has exactly one takeoff. |
| FlightTheorems.TakeoffThenLand | src/nightjar/mavsdk_executor.py:225-240 | Every takeoff command is followed by a land command, in failed and interrupted runs too. |
| FlightTheorems.TakeoffOnce | src/nightjar/mavsdk_executor.py:196-232 | A run commands takeoff at most once. |
| Ground.GroundedUnlessReported | src/nightjar/mavsdk_executor.py:253-280 | The vehicle itself: if it lifts off only on a takeoff that took effect and no land has answered, falsy items of the landing wait are true, and acknowledged commands took effect, then a vehicle still in the air when the run ends means that recovery is reported failed or was interrupted. |
| Ground.NothingFalls | src/nightjar/mavsdk_executor.py:316-322 | With at most one takeoff in the mission, a disarm never takes effect while the vehicle is in the air, lost acknowledgements included. |
| Ground.RunAnswered | src/nightjar/mavsdk_executor.py:237-240 | With honest acknowledgements every item of a landing wait comes after a land command that took effect. |
| FlightTheorems.TakeoffGate | src/nightjar/mavsdk_executor.py:175-227 | Each takeoff command is preceded, in order, by a connected item, an in-tolerance home recorded strictly, an arm call that returned, an armed item exactly True, and an in-tolerance home read after arming and recorded strictly, with no takeoff in between. |
| FlightTheorems.UnboundNeverArms | src/nightjar/mavsdk_executor.py:178-182 | If the approval does not bind a home, neither arm nor takeoff is ever commanded. |
| FlightTheorems.CommandsAreAWord | src/nightjar/mavsdk_executor.py:196-240 | The commands of any run are a prefix of connect, set altitude, arm, takeoff, land, and then at most one recovery command: land, or disarm only straight after arm. |
| FlightTheorems.AuditIsAWord | src/nightjar/mavsdk_executor.py:153-291 | The audit attempts of any run: none or mission_started alone if nothing began; otherwise a cut of mission_started, pre-arm check, the numbered started/completed pairs with the post-arm check inside takeoff, that begins with mission_started and is closed by exactly the one terminal record that fits the outcome (by none if an interrupt struck in recovery). |
| FlightTheorems.StrictAuditGatesTakeoff | src/nightjar/mavsdk_executor.py:165-170 | No strict audit attempt follows a takeoff command, and a run in which a strict write raises never commands takeoff. |
| AuditPhases.StrictIffBeforeTakeoff | src/nightjar/mavsdk_executor.py:165-170 | Every audit attempt of an accepted mission other than mission_failed is strict if and only if takeoff has not been accepted before it. |
| AuditPhases.FailureBeforeTakeoffStops | src/nightjar/mavsdk_executor.py:293-296 | An attempt that fails before takeoff was accepted ends the run with that very error (unless the last write or recovery is struck anew), and takeoff is never commanded, before or after it. |
| FlightTheorems.HoldsAtAltitude | src/nightjar/mavsdk_executor.py:229-235 | A hold begins only after an altitude item at or above max(0.9 a, a - tolerance). |
| Waits.ClimbEndsIff | src/nightjar/mavsdk_executor.py:459-467 | An altitude item ends the climb if and only if it is at or above both nine tenths of the target and the target less the tolerance. |
| Waits.AltitudeWait | src/nightjar/mavsdk_executor.py:454-482 | The climb is decided by the first reply that is late by the takeoff timeout, ends or breaks the stream, or is high enough; outcome, time and replies used follow from that reply. |
| Waits.ConnectionWait | src/nightjar/mavsdk_executor.py:436-452 | Likewise for a connected item under the connection timeout. |
| Waits.ArmedWait | src/nightjar/mavsdk_executor.py:412-434 | Likewise for an armed item exactly True under the takeoff timeout. |
| Waits.LandingWait | src/nightjar/mavsdk_executor.py:484-500 | Likewise for a falsy in_air item under the landing timeout. |
| Waits.HomeRead | src/nightjar/mavsdk_executor.py:350-378 | The first healthy item in time is followed at once by the home item, both under one connection timeout; every failure of either has its class. |
| Waits.HomeChecked | src/nightjar/mavsdk_executor.py:380-410 | What cannot be computed raises before the record; the record is strict and says whether the home is within tolerance; a record that fails raises; a home out of tolerance is a mismatch. |
| Waits.HomeNotRead | src/nightjar/mavsdk_executor.py:180-182 | A home that cannot be read ends the check with the error of the read, and leaves no record. |
| Waits.MissingStreams | src/nightjar/mavsdk_executor.py:353-420 | An SDK without the stream fails the wait at once. |
| Waits.SomeoneDecides | src/nightjar/mavsdk_executor.py:444-452 | Every wait is decided by some reply. |
| Waits.CommandSent | src/nightjar/mavsdk_executor.py:174-240 | A command fails only by its reply or by being late; what it put on the trace, lost acknowledgements included. |
| Waits.HoldSlept | src/nightjar/mavsdk_executor.py:234-235 | A hold is slept out unless its reply raises. |
| Waits.RecordWritten | src/nightjar/audit.py:24-84 | Strict writes raise whatever the sink raises; best-effort ones only what is no Exception. |
| FlightTheorems.CompletedRun | src/nightjar/mavsdk_executor.py:184-240 | A run that completes sent exactly the five planned commands, slept exactly the holds in order within the total hold budget, attempted the whole audit script, and saw the landing. |
| FlightTheorems.AcceptedIff | src/nightjar/mavsdk_executor.py:77-94 | validate_mission accepts exactly takeoff, holds, land within every limit and budget. |
| FlightTheorems.RefusedIff | src/nightjar/mavsdk_executor.py:77-94 | Rejected by policy exactly if not permitted; unsupported exactly if permitted and some action is goto or return_home. |
| FlightTheorems.AcceptedIsFlyable | src/nightjar/mavsdk_executor.py:77-94 | Policy and the capability check together leave only takeoff, holds, land. |
| PolicyNeeded.SafeIffOneTakeoff | src/nightjar/mavsdk_executor.py:196-251 | For every list of actions: no vehicle, sink, configuration or home makes a run disarm after a takeoff command if and only if the list has at most one takeoff; the same for a strict audit attempt, and for a strict audit failure, after a takeoff command. |
| PolicyNeeded.TwoTakeoffsSpoil | src/nightjar/mavsdk_executor.py:380-410 | With two takeoffs a run exists in which the strict record of the second home check fails after takeoff was commanded, the failure is the run's error, and recovery disarms. |
| PolicyNeeded.FlagsAloneAreUnsafe | src/nightjar/mavsdk_executor.py:202-226 | The schema does not rule such missions out: a schema-valid mission has a run that disarms after takeoff. |
| OneTakeoff.OneTakeoffSuffices | src/nightjar/mavsdk_executor.py:170-251 | With at most one takeoff, whatever else the mission holds: nothing strict after a takeoff command, and no run holds both a disarm and a takeoff command. |
| OneTakeoff.DisarmNeedsFalse | src/nightjar/mavsdk_executor.py:316-329 | In every run of every mission each disarm command directly follows an in_air item that is exactly False. |
| AuditTheorem.AuditNonInterference | src/nightjar/mavsdk_executor.py:165-170 | For accepted missions, two sinks that differ in any ordinary way once takeoff was accepted give the same run: commands, samples, times, outcome. |
| AuditTheorem.SinkCannotSteer | src/nightjar/audit.py:57-84 | For any mission at all, sinks that agree on the strict attempts and otherwise raise only Exceptions give the same run. |
| AuditTheorem.StrictBeforeTakeoff | src/nightjar/mavsdk_executor.py:293-296 | No strict attempt is made once takeoff has been accepted. |
| Recovery.RecoveryIgnoresCancellation | src/nightjar/mavsdk_executor.py:298-314 | Under every order of cancellations, task resumptions and wakings of the loop: if the loop leaves, it has sent the same commands at the same times and gives the same result as one uncancelled time-bounded recovery; it leaves at its next waking once the task has had its time. |
| Recovery.ProtectOutcome | src/nightjar/mavsdk_executor.py:307-314 | Through every schedule the loop stays on its way to the task's own end, and every resumption brings it nearer. |
| Recovery.FinishIsRecover | src/nightjar/mavsdk_executor.py:316-333 | The task run step by step computes the recovery function. |
| Recovery.FinishInTime | src/nightjar/mavsdk_executor.py:300-305 | The recovery task never runs past its time bound. |
| ErrorClasses.OriginalErrorSurvives | src/nightjar/mavsdk_executor.py:253-280 | A failed run ends with the very error that stopped the try block, unless the last audit write is struck by an exception that is no Exception, which then leaves, or recovery by an interrupt. |
| ErrorClasses.HandlerReports | src/nightjar/mavsdk_executor.py:253-280 | The report is not_required, the status of recovery, failed for whatever recovery raised, or none for an interrupt; and it is what the last best-effort record says. |
| ErrorClasses.RunClass | src/nightjar/mavsdk_executor.py:140-291 | If nothing outside raises Nightjar's own classes, no authorization class leaves a run, and a run that ends in a home class never commanded takeoff. |
| ErrorClasses.RunTakeoffClass | src/nightjar/mavsdk_executor.py:196-232 | A takeoff action that fails with a home class has not attempted takeoff since it armed. |
| ExecutorSafety.RunTakeoffSeen | src/nightjar/mavsdk_executor.py:196-232 | What a takeoff action leaves in any case: commands in order, the two recovery flags to match, gate milestones, records. |
| ExecutorSafety.RunLandSeen | src/nightjar/mavsdk_executor.py:237-240 | The recovery flag is cleared exactly when the landing was seen. |
| ExecutorSafety.CheckHomeSeen | src/nightjar/mavsdk_executor.py:350-410 | A home check passes only with an in-tolerance item and a strict record; a failed one adds at most its own record. |
| ExecutorSafety.RunActionsSeen | src/nightjar/mavsdk_executor.py:184-251 | Invariant of the mission loop: between turns the flags, commands, holds, records and landing agree with the number of actions done; a stop leaves flags that tell recovery the truth. |
| ExecutorRuns.RecoverSeen | src/nightjar/mavsdk_executor.py:316-333 | Recovery adds at most one command, never disarms once takeoff was attempted, and reports only what was acknowledged or seen. |
| ExecutorRuns.TryBlockSeen | src/nightjar/mavsdk_executor.py:174-251 | The try block keeps the loop invariant from the first command on. |
| ExecutorRuns.ExecuteSeen | src/nightjar/mavsdk_executor.py:140-291 | Every property of a run read off at once by a monitor over its trace. |
| TraceMeaning.LandedMeaning | src/nightjar/mavsdk_executor.py:484-490 | The monitor's landing is a real one: a land command, then a falsy item of its wait, no arm since. |
| TraceMeaning.ProgressMeaning | src/nightjar/mavsdk_executor.py:175-227 | The monitor's progress is a real list of positions of the gate milestones in the trace. |
| TraceMeaning.Projections | src/nightjar/mavsdk_executor.py:140-291 | The monitor's commands, records and holds are those of the trace. |
| TraceMeaning.LogHolds | src/nightjar/audit.py:24-54 | The log holds a record exactly if an attempt to write it did not raise. |
| Session.Session.Execute | src/nightjar/mavsdk_executor.py:140-291 | The imperative run, with its fields, flags, loops and handler, equals the function the theorems speak of, whatever cancels recovery; the log holds exactly the records whose write did not raise. |
| Session.Session.TryBlock | src/nightjar/mavsdk_executor.py:174-251 | The try block with its loop over the actions, proved equal to its specification. |
| Session.Session.RunTakeoff | src/nightjar/mavsdk_executor.py:196-232 | The takeoff branch, flag by flag. |
| Session.Session.RunLand | src/nightjar/mavsdk_executor.py:237-240 | The land branch. |
| Session.Session.RunTurn | src/nightjar/mavsdk_executor.py:184-251 | One turn: audit by phase, act, audit by phase. |
| Session.Session.Handle | src/nightjar/mavsdk_executor.py:253-280 | The handler: recovery if required, then the record, then the original error. |
| Session.Session.RecoverProtected | src/nightjar/mavsdk_executor.py:298-314 | The loop around the shielded task; the result is that of the uncancelled recovery for every cancellation schedule. |
| Session.Session.WaitFor | src/nightjar/mavsdk_executor.py:350-500 | The telemetry loops under their time bounds. |
| Session.Session.ReadHome | src/nightjar/mavsdk_executor.py:350-378 | Health, then the first home item, under one bound. |
| Session.Session.VerifyHome | src/nightjar/mavsdk_executor.py:380-410 | Record strictly, then raise on a mismatch. |
| Session.Session.Write | src/nightjar/audit.py:24-84 | The strict writer raises; the best-effort one swallows Exceptions only; a failed write leaves the log alone. |
| PolicyEngine.Evaluate | src/nightjar/policy.py:49-168 | The loop collects exactly the specified reasons; approved agrees with the returned reasons being empty and, given hypot, with the mission being permitted by the grammar and the budgets. |
| PolicyEngine.CheckOwn | src/nightjar/policy.py:68-129 | The per-action checks. |
| PolicyEngine.CheckRemaining | src/nightjar/policy.py:131-142 | The look-ahead after a return or a landing. |
| PolicyEngine.CheckTotals | src/nightjar/policy.py:144-163 | The closing checks. |
| PolicyGrammar.ApprovedIffPermitted | src/nightjar/policy.py:49-168 | For all schema-valid missions and all limits: approved exactly when the actions are takeoff (hold or goto)* (land, return_home, or return_home land) and every limit, total hold, path length with the return leg, goto count and action count is within bounds. |
| PolicyReasons.ReasonsAreFaults | src/nightjar/policy.py:59-163 | A reason (index, kind) is reported exactly when the mission has the fault it names, told from the flight state, the limits, the totals and the path, without the pass. |
| PolicyReasons.ReasonsInOrder | src/nightjar/policy.py:59-163 | The reasons come in the order of the pass; with the row above this fixes the list. |
| PolicyGrammar.PassTotals | src/nightjar/policy.py:86-124 | The accumulators are hold total, goto count, path length over the waypoints, and the last waypoint. |
| PolicyGrammar.SentenceIsLegal | src/nightjar/policy.py:68-142 | Grammar implies that the state machine finds nothing to say. |
| PolicyGrammar.LegalIsSentence | src/nightjar/policy.py:68-142 | A state machine with nothing to say implies the grammar. |
| PolicyTheorems.DeletionKeepsApproval | src/nightjar/policy.py:96-160 | Removing any hold or goto from an approved mission leaves it approved. |
| PolicyTheorems.ShortCut | src/nightjar/policy.py:104-124 | Cutting a waypoint never lengthens the path. |
| PolicyTheorems.Triangle | src/nightjar/policy.py:104-108 | The triangle inequality, from h*h == x*x + y*y and h >= 0 alone. |
| PolicyTheorems.Fence | src/nightjar/policy.py:96-122 | Every point of every straight leg of an approved mission lies within the distance limit. |
| PolicyTheorems.HalfBudgetFence | src/nightjar/policy.py:113-154 | If an approved mission returns home, every waypoint lies within half of the total distance limit. |
| PolicyTheorems.LooserLimitsKeepApproval | src/nightjar/policy.py:49-168 | Limits loosened pointwise never turn approval into rejection. |
| Policy.CollectedDistinct | src/nightjar/policy.py:50-163 | The collected reasons are pairwise distinct as (action index, kind). |
| Policy.DedupRemovesNothing | src/nightjar/policy.py:165-168 | The order-preserving de-duplication removes nothing. |
| Policy.DedupKeepsFirsts | src/nightjar/policy.py:165-168 | On any list the de-duplication keeps each reason once, where it first occurs. |
| Canonical.CanonicalIff | src/nightjar/security.py:12-22 | Two JSON values have equal canonical bytes exactly when they are equal as values, objects as maps, through any nesting. |
| Canonical.ReadCanonical | src/nightjar/security.py:12-22 | A parser of sections 4, 6 and 7 of RFC 8259 over RFC 3629 bytes undoes the printer, up to key order. |
| JsonSpelling.KeysAscend | src/nightjar/security.py:15-21 | Read back, the canonical bytes hold every dict, however deep, with its keys ascending in code-point order. |
| JsonSpelling.LessIff | src/nightjar/security.py:15-21 | The order of keys: proper prefix, or smaller at the first index where they differ. |
| JsonSpelling.TwoKeys | src/nightjar/security.py:12-22 | The very bytes of a dict of two integers, whichever key came first. |
| JsonSpelling.Punctuation | src/nightjar/security.py:15-21 | Literals, brackets, braces, commas and colons, with nothing in between. |
| JsonSpelling.StringSpelled | src/nightjar/security.py:15-21 | A string is its characters' spellings between quotes. |
| JsonSpelling.EscapeTable | src/nightjar/security.py:15-21 | Each character stands for itself but quote, backslash and controls, whose escapes are listed. |
| JsonSpelling.IntegerSpelled | src/nightjar/security.py:15-21 | Integers are decimal, without leading zeros. |
| JsonSpelling.Utf8Table | src/nightjar/security.py:22 | The bytes of each character, by the table of section 3 of RFC 3629. |
| JsonSpelling.BytesSpelled | src/nightjar/security.py:22 | The bytes of a string are those of its characters in turn. |
| JsonRoundTrip.ValueRoundTrip | src/nightjar/security.py:15-21 | Parsing printed text gives the value back and leaves what follows it. |
| JsonText.ReadQuoted | src/nightjar/security.py:15-21 | String escapes are undone. |
| JsonText.IntRead | src/nightjar/security.py:15-21 | Integer digits are undone. |
| JsonValue.NormSame | src/nightjar/security.py:15-21 | Values equal after sorting keys are equal as values. |
| JsonValue.SameNorm | src/nightjar/security.py:15-21 | Values equal as values are identical after sorting keys. |
| JsonValue.SortedUnique | src/nightjar/security.py:15-21 | A sorted object with distinct keys is determined by its members. |
| Utf8.RoundTrip | src/nightjar/security.py:22 | UTF-8 decoding undoes encoding. |
| Canonical.MissionBytesInjective | src/nightjar/security.py:31-34 | Canonical mission bytes determine the mission, id and description included. |
| Canonical.MissionFields | src/nightjar/security.py:31-34 | Which value a hashed mission holds under which key. |
| Canonical.ActionFields | src/nightjar/security.py:31-34 | Which values a hashed action holds under which keys, and its type name. |
| Canonical.LimitsBytesInjective | src/nightjar/security.py:37-40 | Canonical limits bytes determine every limit, home tolerances included. |
| Canonical.LimitsFields | src/nightjar/security.py:37-40 | Which limit the hashed limits hold under which key. |
| HomeBinding.RoundTrip | src/nightjar/home.py:35-45 | With each float operation within relative error 2^-53: round((n / scale) * scale) == n for |n| < 2^51 and both scales. |
| HomeBinding.RoundTripIff | src/nightjar/home.py:35-45 | The bound is exact for what rounding to nearest promises: n survives every such arithmetic if and only if |n| < 2^51. |
| HomeBinding.OddIsLost | src/nightjar/home.py:35-45 | Beyond 2^53 no odd integer survives, since doubles there are even. |
| HomeBinding.HalfUnit | src/nightjar/home.py:35-45 | A coordinate rebuilt from its integer lies within half a unit of the captured one, up to one product and one quotient rounding. |
| HomeBinding.UnitsRoundTrip | src/nightjar/mavsdk_executor.py:335-348 | The home rebuilt from signed integers has those integers again. |
| HomeBinding.RestoredClose | src/nightjar/mavsdk_executor.py:335-348 | The rebuilt home is within half a unit of the captured home in all three coordinates. |
| HomeBinding.HomeBytesInjective | src/nightjar/home.py:47-59 | The hashed home bytes determine the three integers and the source. |
| HomeBinding.HomeFields | src/nightjar/home.py:47-54 | Which integer the hashed home holds under which key. |
| HomeBinding.RoundHalf | src/nightjar/home.py:35-45 | Halfway between two integers the even one is taken. |
| Approval.SigningBytesInjective | src/nightjar/approval.py:86-87 | The signature covers every field: equal signed bytes mean equal payloads. |
| Approval.PayloadFields | src/nightjar/approval.py:86-87 | Which field the signed bytes hold under which key. |
| Approval.VerifyIff | src/nightjar/approval.py:102-157 | For every envelope: verification succeeds if and only if the text decodes to a valid signature of the signed bytes, and window, lifetime, both digests and executor hold; otherwise it is an ApprovalError. |
| Approval.InvalidSignatureRefused | src/nightjar/approval.py:113-127 | Text that is not base64, or stands for no valid signature, is refused whatever else holds. |
| Approval.BuildIff | src/nightjar/approval.py:54-84 | Which requests are built, and what the payload of one that is says, field by field. |
| Approval.SignedVerifiesIff | src/nightjar/approval.py:54-157 | A built and signed payload verifies exactly for its mission, limits and executor (or a collision), exactly while issued - skew <= now < expires, if its lifetime is permitted. |
| Approval.Soundness | src/nightjar/approval.py:102-157 | What verifies and is no forgery was asked for by the approver, for exactly this mission, limits and executor (or a collision), in force now. |
| Approval.MissionBound | src/nightjar/security.py:31-34 | Equal mission digests mean equal missions or exhibit a collision. |
| Approval.LimitsBound | src/nightjar/security.py:37-40 | Equal policy digests mean equal limits or exhibit a collision. |
| Approval.BoundHomeIff | src/nightjar/mavsdk_executor.py:335-348 | Rounding never decides: the bound home is had exactly when the frame is right and the digest is that of the signed integers. |
| Approval.BuiltHomeBinds | src/nightjar/mavsdk_executor.py:335-348 | A payload that was built always binds, to a home within half a unit of the captured one. |
| NonceProtocol.AtMostOneCreation | src/nightjar/replay.py:86-125 | In every interleaving of any number of processes, crashes included, at most one creates a system under a nonce. |
| NonceProtocol.CreationIsRecorded | src/nightjar/mavsdk_executor.py:108-125 | A process that created a system verified its approval inside the window, and its row is in the table. |
| NonceProtocol.RowsArePermanent | src/nightjar/replay.py:64-125 | No committed row is ever lost or changed. |
| NonceProtocol.RowsAreAuthorized | src/nightjar/authorization.py:31-53 | Every row belongs to exactly one process that spent it, whose approval verified, at the recorded time, inside its window; the row names the mission, limits and executor it verified for. |
| CommandLines.OneTakeoffPerNonce | src/nightjar/cli.py:119-219 | Any number of whole command lines interleaved statement by statement, crashes included: at most one takeoff command is ever sent under a nonce. |
| CommandLines.TakeoffIsRecorded | src/nightjar/mavsdk_executor.py:108-125 | The process that sent it runs its own command line's accepted mission under an approval that verified, and its row is in the table. |
| CommandLines.AloneIsPipeline | src/nightjar/cli.py:131-216 | A process left alone, with a store that works, does to the table and the vehicle exactly what its command line does. |
| NonceProtocol.StepIsConsume | src/nightjar/replay.py:100-123 | Every step leaves the table alone or is one whole successful consume: the transactions are as if run one at a time in commit order. |
| NonceProtocol.Reachable | src/nightjar/replay.py:100-125 | The invariant behind these, for every schedule. |
| Replay.SqliteNonceStore.Consume | src/nightjar/replay.py:86-125 | The row is added exactly when no statement fails and the nonce was unused, and success is reported exactly when nothing raises after that commit either; otherwise the table is as before. No transaction stays open. |
| Replay.SqliteNonceStore.VerifyAndConsume | src/nightjar/authorization.py:13-53 | Verification comes first: the table changes only for an envelope that verified. |
| MavsdkExecutor.ExitCodesTellTheTruth | src/nightjar/cli.py:119-219 | MAVSDK command line, vehicle errors not of Nightjar's classes: 1 to 4, no system created and no nonce spent, except by a commit that raised after taking effect (4 only); 5, nonce spent and the flight failed; 6 and 7, nonce spent, home unavailable or mismatched, takeoff never commanded; 0, nonce spent and landing seen. |
| MavsdkExecutor.ValidateOnlyIff | src/nightjar/cli.py:125-138 | The validate command flies nothing and spends nothing; it exits 0 exactly if the mission is loaded and permitted, 1 exactly if loaded and not, 2 exactly if unreadable. |
| MavsdkExecutor.LoadingIff | src/nightjar/cli.py:125-154 | Exit 2 exactly for an unreadable mission, 3 exactly for unreadable authorization material behind a permitted one. |
| MavsdkExecutor.InvalidSignatureBlocks | src/nightjar/cli.py:156-200 | On either executor an envelope without a valid signature ends in exit 4, with no flight and the table as it was. |
| MavsdkExecutor.FlightExits | src/nightjar/cli.py:194-216 | Once there is a flight its outcome decides the exit code, one to one. |
| MavsdkExecutor.FliesIff | src/nightjar/mavsdk_executor.py:96-125 | There is a flight exactly if the mission is accepted, its approval for mavsdk verifies, and the nonce gets spent; it is the run against the bound home. |
| MavsdkExecutor.DryRunIff | src/nightjar/cli.py:156-174 | The dry run exits 0 exactly if its approval for dry-run verifies, the nonce gets spent and nothing raises; the table afterwards in every case. |
| MavsdkExecutor.BlockedYetSpentIff | src/nightjar/cli.py:195-200 | Exit 4 leaves the nonce spent exactly when the mission is accepted, the approval verified, the transaction committed, and the store raised all the same. |
| MavsdkExecutor.DryRunSpends | src/nightjar/cli.py:156-174 | The dry run exits 0 only under a nonce it has spent; exits 1 to 4 leave the table alone, but for 4 after a commit that raised after taking effect. |
| MavsdkExecutor.RejectedIff | src/nightjar/cli.py:131-135 | Exit 1 exactly when the mission was loaded and is not permitted. |
| MavsdkExecutor.BlockedIff | src/nightjar/cli.py:176-200 | With a working store, exit 4 exactly when an action is unsupported, the approval does not verify, or its nonce was used. |
| MavsdkExecutor.PolicyRejectionUnreachable | src/nightjar/cli.py:195-200 | After the command line has approved the mission, the executor's own policy check cannot reject it. |
| MavsdkExecutor.ExecutionTruthful | src/nightjar/mavsdk_executor.py:96-125 | Before any handler: without a flight nothing was spent, unless an error or interrupt struck between the commit and system creation, and the error is an authorization class or no Exception; with a flight the nonce is spent and no authorization class comes out. |
| MavsdkExecutor.ValidateMission | src/nightjar/mavsdk_executor.py:77-94 | Policy, then the loop over the actions for unsupported ones. |
| MavsdkExecutor.RunMission | src/nightjar/mavsdk_executor.py:96-125 | Policy and capability, then approval and nonce, then a new session with the vehicle. |
| MavsdkExecutor.RunPipeline | src/nightjar/cli.py:119-219 | The command line's effects in order, on the shared store. |

## Left out

- MAVSDK, PX4, sockets, the event loop and server shutdown (src/nightjar/mavsdk_executor.py:127-141): environment choices, not code.
- KeyboardInterrupt inside recovery: the source does not catch it there; the run then ends as `Broken`, with no terminal record, and the theorems say so. SystemExit is not modelled.
- SHA-256, Ed25519 and base64 internals: parameters, with hypotheses where a lemma needs one.
- The landing wait inside recovery has a timeout of its own, as long as recovery's and begun later: the outer bound always strikes first, so one deadline stands for both.
- Haversine distance and vertical difference (src/nightjar/home.py:62-87): the tolerance test is an arbitrary predicate on two homes, and a second one says when the distance or the live integers cannot be computed, which raises before the record.
- Float rounding inside the policy check: reals there; rounding is analysed for the home round trip only.
- Float digit printing and signed zero: a float prints as an abstract injective number token. Lone surrogates in strings, which UTF-8 encoding rejects, are not strings of the model.
- HomeBinding.RoundTrip: integers below 2^51 in magnitude, some 225 million degrees. Nothing more follows from the error of rounding to nearest; which integers between 2^51 and 2^53 survive in actual doubles depends on their digits and is not modelled.
- Limits given as int where a float is declared, which would print without a fraction.
- SQLite files, WAL mode, permissions and the busy timeout: the atomic insert with a unique key, the write lock, rollback and crash before commit are what remains. A transaction that waits for the lock simply does not move.
- An audit write that raises after its bytes reached the file: the log of `Session` holds only records whose write did not raise.
- Reason texts, printed messages, exception messages, `captured_at` and the recovery error's type name: reasons are (index, kind) pairs.
- Key loading and schema parsing of the two input files: each is a parameter that was read, was refused by its handler, or raised something else.
- The dry-run executor beyond its exit code, the home snapshot command, the HTTP service, the map client, the PX4 acceptance scripts, the smoke test, the planner wrapper and argument parsing.
