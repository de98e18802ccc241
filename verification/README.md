# SSH Key Manager: verified models of the backend core

These Dafny modules model the parts of the SSH Key Manager backend whose correctness is decided
by the code alone, and prove what that code promises. Run `dafny verify dfyconfig.toml` to check
all of it.

| area | modules |
|---|---|
| key rotation | `RotationProtocol` (the transition system), `RotationSafety` and `RotationWindows` (its invariants), `RotationTheorems` (what follows for every run), `RotationGaps` (runs that go wrong), `RotationEngine` (the service's methods, each proved to perform only protocol actions), `RotationPlan`, `RotationQueue` (a rotation together with its jobs), `RotationHandOff` (what follows for every sequence of events), `RotationWorker` (the worker's methods, each proved to perform only those events) |
| QR encoder | `Galois`, `ReedSolomon`, `QrFormat`, `QrData`, `QrBlocks`, `QrWalk`, `QrMatrix`, `QrCapacity`, `Qr` (the encoder); `QrTiles`, `QrScanner`, `QrPictures` (what a symbol is, from pictures, positions and published tables alone), `QrReading` (that the two agree) |
| cron | `Calendar`, `CronField`, `CronMask`, `CronNext`, `Cron` (from text to time); `CronText`, `CronExpression` (how entries and expressions are written, and what they say) |
| diff | `DiffLcs`, `DiffHunks`, `DiffRender`, `Diff`; `DiffReader` (a reader of the text of a diff) |
| job queue | `JobQueue`, `JobSafety` |
| integrity | `AuditChain`, `Vault`, `AuthorizedKeys`, `KeyFiles` (what an edited file says to its next reader), `LinuxApply` |
| shared | `Options`, `Sequences`, `Arithmetic`, `Bits`, `Text`, `Numerals` |

Code that updates state is a class or a method with loops, proved against a specification
function or an invariant; code that computes a value is a function. The rotation is modelled
twice: as a transition system in which every store write, host change and delivery is one action
and a crash may come between any two, and as the `Engine` class, whose methods follow the
service's own branches and loops. Every engine method extends a log of protocol actions, so
whatever holds of all runs of the protocol holds of every engine. The worker is modelled the same
way, over a system in which steps, queue statements, crashes and operators come in any order.

The network, the clock and every other outcome the code cannot decide are either parameters or
arbitrary choices inside a method. A host's `Apply` fails as it likes, leaving the host wholly as
it was or wholly converged; a successful authentication means that the host accepts the key.
The engine records every such answer, so a step's outcome can be told by what was heard while it
ran: a row is verified because the new key authenticated then and there, and fails only on a
refusal. Each SQL statement is one atomic change of rows, and the partial unique index over queued
and running jobs is part of the queue's invariant.

What comes out as text or as a picture is read back by readers that share no definition with the
code that writes it. The text of a diff is parsed, header numbers included, and applied. A cron
expression is written out of values, names, ranges, stars and steps, and its firing times are
stated on the calendar. A QR symbol is scanned by layout rules, mask pictures and published tables.
An edited authorized_keys file is parsed again.

## Where the code and its documentation part ways

- **Rotations and crashes.** The service promises that a rotation survives being killed halfway
  (backend/internal/service/rotation.go:24-27). Three transitions write twice and do not resume
  where they stopped. Between `SetWave` and `SetRotationState` (770-773) a crash skips a whole
  wave, and the old key is then reported retired while hosts of that wave still accept it
  (`RotationGaps.RetiredButStillAccepted`). Right after `promoting` is written (822) a crash skips
  consumers, and the old key can be removed while one still depends on it
  (`RotationGaps.ConsumerLeftBehind`): exactly when a consumer is still bound to the old key as the
  soak step is taken (`RotationTheorems.OldKeyLeaves`). Between naming the successor of a dry run
  and completing it (531-538) a crash makes the retry carry the dry run out
  (`RotationGaps.DryRunDeploys`): exactly when the planned step finds a successor named
  (`RotationTheorems.DryRunIsDecided`). Even with these crashes no login loses both keys.
- **Plans that are not whole.** A key is only to be retired when it is gone everywhere
  (backend/internal/service/rotation.go:935-937). `Plan` reads the first 1000 assignments (146-149)
  and writes the rotation, its approval and its rows one by one (160-214); a process that dies on
  the way leaves a plan that can be started. A login without a row keeps the old key while the run
  completes and retires it (`RotationGaps.LoginLeftOut`). `RotationTheorems.HonestRetirement` has
  the exact condition, and `RotationPlan.Plan` says when every login has a row.
- **Finished rotations.** `Step` loads the acting user before it looks at the rotation
  (backend/internal/service/rotation.go:433-444), and `failRotation` asks for no state
  (backend/internal/service/worker.go:156-163): a step left over in the queue whose user is gone
  turns a completed or aborted rotation into a failed one (`RotationGaps.FinishedOverwritten`).
  `RotationTheorems.FinishedIsFinal` has all that stays, and exactly when the state does not.
- **The canary percentage.** A comment promises at least one canary for any percentage above zero
  (backend/internal/service/rotation.go:182-184). A fleet so small that the rounded-up slice is
  the whole fleet gets none, such as one host at ten per cent (`RotationPlan.NoCanary`);
  `RotationPlan.CanaryExists` has the exact condition.
- **Cron steps.** `v += step` wraps round in 64 bits, so an entry with an enormous step also sets
  bits it does not denote (`CronField.HugeStepStrays`); `CronField.TameIsExact` says exactly when an
  entry does, and `CronMask.ParseField` exactly when the mask of a field is still right.
- **Unified diffs.** `i+context` overflows for a context near the largest integer, and the diff
  of different texts is then empty; `Diff.Unified` gives the exact condition. Every caller passes
  3 (as in backend/internal/connectors/linux/linux.go:296). The diff compares lines, so it is also
  empty for texts that are not identical but agree up to CRLF endings and a final newline, and for
  no others (`Diff.SameLines`, with an input in `Diff.EndingsAreSilent`).
- **Duplicate keys.** `Remove` takes out the first line with a fingerprint and leaves the rest
  (`AuthorizedKeys.RemoveTakesOne`); pruning calls it once for every listed line and does clear
  them (`LinuxApply.PruneAll`).
- **Job states.** A succeeded, cancelled or dead job is not to run again
  (backend/internal/store/jobs.go:78-85), but `Succeed` and `Fail` have no guard on the state. In
  any run one event changes such a state exactly when a handler of the job, however late, returns
  or fails, and what is written is another state and is not refused by the unique index
  (`JobSafety.FinishedMoves`). So a worker that lost its lease puts a job that succeeded back in
  the queue, and makes one that died succeed (`JobSafety.StaleHandlerMoves`). While leases are
  kept fresh, only a job cancelled under a handler that has not come back can still change, and it
  always can (`JobSafety.FinalUnlessAttended`, with a run in `JobSafety.CancelledJobMoves`); a
  finished job without a handler never changes (`JobSafety.UnattendedIsFinal`). The attempt budget
  holds in every run (`JobSafety.LeasesWithinBudget`).
- **Stranded rotations.** `failRotation` is there so that a dead job does not leave a rotation stuck
  (backend/internal/service/worker.go:154-155), but it is called only for errors that can never
  heal. A started rotation has a live job until it is finished unless one of four things happens
  to a job it still needs: its last attempt ends in any other error, its lease expires on its last
  attempt, an operator cancels it, or its step woke early (`RotationHandOff.NeverStranded`). Three
  workers dying on a job strand it before any step is taken (`RotationHandOff.ThreeDeathsStrand`).
  A step that wakes early asks to be woken again under its own idempotency key, which collapses
  onto itself. The minute tick brings back a soak that is over, however its job was lost
  (`RotationWorker.Worker.TickSoak`), and a rotation still planned can be started again; a rotation
  stranded in any other state stays so until an operator aborts it. `RotationHandOff.LiveExactly`
  is the exact account.
- **Untouched audit logs.** A record is hashed as sent and checked as it reads back
  (backend/internal/audit/verify.go:44-51, 205-234), after a round trip through network addresses
  and binary JSON. An address in another spelling, or an integer a double cannot hold, makes the
  next check report an untouched record as modified (`AuditChain.CapitalAddressBreaks`,
  `AuditChain.BigIntegerBreaks`). `AuditChain.WrittenLogVerifies` says exactly when a log verifies.

## Model

| member | source | states |
|---|---|---|
| `RotationTheorems.AddBeforeRemove` | backend/internal/service/rotation.go:551-1007 | In every reachable state, crashes anywhere included, every login of the rotation accepts the old key until a fresh authentication with the new key succeeded there, and the new key ever after. |
| `RotationTheorems.OldKeyLeaves` | backend/internal/service/rotation.go:974-1006 | The only action that takes the old key from a login is the pruning of its own retirement: it was verified and proven, still has the new key, and the soak is over. The consumers that still depend on the old key are exactly those bound to it when the soak step was taken; every other that held it has the new key; without a crash in promotion there are none. |
| `RotationTheorems.SoakSettles` | backend/internal/service/rotation.go:865-971 | Every soaking or retiring rotation went through a soak step, and no consumer has changed since. |
| `RotationTheorems.HonestRetirement` | backend/internal/service/rotation.go:902-958 | If the old key is marked retired, it is gone from every login it was assigned to if and only if each of them has a row and none is pending or staged; without a crash inside a wave advance every row is retired and its host does not accept the key. |
| `RotationTheorems.CompletedIsSettled` | backend/internal/service/rotation.go:902-971 | A completed run that was not dry retired the key exactly when no row failed and otherwise left it retiring; it has only retired or failed rows. The last two hold up to a crash in promotion and in a wave advance. |
| `RotationTheorems.WaveGate` | backend/internal/service/rotation.go:551-587 | A row leaves pending only while its own wave is staging, with every row of earlier waves verified or failed and the failures of those waves within the threshold. For at most two waves, as every plan has, it holds wherever a crash falls; with more, up to a crash inside a wave advance. |
| `RotationTheorems.TolerableMeans` | backend/internal/service/rotation.go:1016-1028 | The integer percentage is within the threshold exactly when nothing failed or failures * 100 < (threshold + 1) * total. |
| `RotationTheorems.FinishedIsFinal` | backend/internal/service/rotation.go:432-444 | After a rotation finishes it stays finished and no sequence of actions changes a row, a host, a key status or a consumer; its state changes exactly if a leftover step is refused for good, and then reads failed. |
| `RotationTheorems.FailedHandover` | backend/internal/service/rotation.go:846-859 | A consumer that cannot take the new key ends the run with the old key on every login and the new key wherever it was proven. |
| `RotationTheorems.DryRunTouchesNothing` | backend/internal/service/rotation.go:531-538 | A dry run changes no host, no assignment and no consumer and never leaves planning, unless a planned step found a successor already named. |
| `RotationTheorems.DryRunIsDecided` | backend/internal/service/rotation.go:482-490 | From a planned dry run an uninterrupted run can reach the fleet if and only if its row already names a successor. |
| `RotationTheorems.RankNeverGrows` | backend/internal/service/rotation.go:432-479 | No action, crash or operator takes a rotation further from its end: the number of advancing steps still to come never grows. |
| `RotationTheorems.KeysOnHost` | backend/internal/service/deploy.go:505-539 | What any action does to any key on any host: a deployment adds exactly the keys assigned there and not revoked, compromised or destroyed; pruning keeps those and the keys the store does not know, and no other; nothing else changes a host. |
| `RotationTheorems.OtherKeysStay` | backend/internal/service/rotation.go:974-1007 | No action takes a key other than the old one from a host if it is assigned there and not revoked, compromised or destroyed, or if the store does not know it. |
| `RotationTheorems.OtherKeysLast` | backend/internal/service/rotation.go:551-1007 | Over any run from any state, such a key stays installed, assigned and of such a status. |
| `RotationSafety.InvStep` | backend/internal/service/rotation.go:551-1007 | Each single write or effect, in any order the code allows, keeps the safety invariant. |
| `RotationSafety.InvRun` | backend/internal/service/rotation.go:432-479 | The safety invariant holds after every run from a plan. |
| `RotationSafety.MarkedStaged` | backend/internal/service/deploy.go:505-539 | A login that accepts everything it should, with the new key assigned, accepts both keys. |
| `RotationSafety.MarkedRetired` | backend/internal/service/deploy.go:505-539 | A login converged with pruning, and no longer assigned the old key, does not accept it. |
| `RotationWindows.WindowRun` | backend/internal/service/rotation.go:764-862 | Along every run, earlier waves are settled and within the threshold, later waves untouched, the hand-over owed is done or in progress, and a retired key has only retired rows, each up to the crash window that voids it. |
| `RotationGaps.RetiredButStillAccepted` | backend/internal/service/rotation.go:769-775 | A concrete run of two waves with one crash ends completed, the old key retired, and a host of the second wave still accepting it. |
| `RotationGaps.ConsumerLeftBehind` | backend/internal/service/rotation.go:820-831 | A concrete run with one crash after the promoting state removes the old key from a host while an enabled consumer still has only that key. |
| `RotationGaps.DryRunDeploys` | backend/internal/service/rotation.go:526-538 | A concrete dry run with one crash changes a host. |
| `RotationGaps.LoginLeftOut` | backend/internal/service/rotation.go:141-207 | A concrete run without any crash, from a plan that missed a login, ends completed, the old key retired, and that login still accepting it. |
| `RotationGaps.FinishedOverwritten` | backend/internal/service/worker.go:134-163 | A concrete completed rotation whose leftover step is refused reads failed. |
| `RotationEngine.AccessIsKept` | backend/internal/service/rotation.go:22-31 | Whatever methods an engine has been through, every login of its rotation accepts the old key, or the new key after a proof there. |
| `RotationEngine.OthersAreKept` | backend/internal/service/rotation.go:22-31 | Whatever methods an engine has been through, a key other than the old one that was installed, assigned and not withdrawn still is. |
| `RotationEngine.Engine.constructor` | backend/internal/service/rotation.go:160-180 | A planned rotation over any of the logins the key is assigned to starts with its whole state as given, awaiting approval if asked to, and satisfies the invariant. |
| `RotationEngine.Engine.SetRotationState` | backend/internal/store/rotations.go:429-448 | Moves to the new state exactly when the old one is among those allowed, an empty list allowing any; nothing else changes. |
| `RotationEngine.Engine.SetRotationTargetState` | backend/internal/store/rotations.go:530-570 | Changes one row and leaves the counters at the number of rows staged or beyond, verified or beyond, retired, and failed. |
| `RotationEngine.Engine.WaveTargets` | backend/internal/store/rotations.go:602-628 | Lists exactly the rows of the wave in the given state, each once. |
| `RotationEngine.Engine.ListRotationTargets` | backend/internal/store/rotations.go:573-599 | Lists every row once. |
| `RotationEngine.Engine.MaxWave` | backend/internal/store/rotations.go:631-640 | The greatest wave of any row, zero when there is none. |
| `RotationEngine.Engine.Apply` | backend/internal/connectors/connector.go:160-176 | A host ends wholly as it was or wholly converged, never empty; success means every desired key is there and, when pruning, no other key the store knows. Nothing but pruning takes a key away. |
| `RotationEngine.Engine.Verify` | backend/internal/service/rotation.go:788-816 | Success means the host accepts the key. |
| `RotationEngine.Engine.DesiredKeys` | backend/internal/service/deploy.go:505-539 | A key is collected if and only if it is assigned to the login, known, and neither revoked, compromised nor destroyed. |
| `RotationEngine.Engine.StageOne` | backend/internal/service/rotation.go:595-632 | Success leaves the login assigned and converged so that marking it staged is a legal protocol action; it comes from a host that was converged, failure from one that was not or cannot be. |
| `RotationEngine.Engine.AbortOnThreshold` | backend/internal/service/rotation.go:1011-1048 | Aborts the run exactly when the failure rate is above the threshold, and touches nothing but the state. |
| `RotationEngine.Engine.StageWave` | backend/internal/service/rotation.go:551-575 | Every pending row of the wave ends staged or failed, and says what was heard: converged, or not converged or not capable. |
| `RotationEngine.Engine.StepStaging` | backend/internal/service/rotation.go:551-587 | Every pending row of the current wave ends staged or failed, no other row changes, and the run goes on to verifying or is aborted by the threshold. |
| `RotationEngine.Engine.VerifyWave` | backend/internal/service/rotation.go:727-762 | Every staged row of the wave ends verified or failed, no other changes, and the proofs recorded are those of the verified ones; each is verified exactly because the new key authenticated there during the step. |
| `RotationEngine.Engine.StepVerifying` | backend/internal/service/rotation.go:727-785 | An error changes nothing; otherwise the wave is verified, then the next wave is staged, or the run is verified when it was the last, or aborted by the threshold. |
| `RotationEngine.Engine.AdvanceWave` | backend/internal/service/rotation.go:769-775 | Left alone, the two writes together move to staging the next wave. |
| `RotationEngine.Engine.NameKey` | backend/internal/service/rotation.go:509-533 | One fresh pending key is added and recorded as the successor, with the row count as the total. |
| `RotationEngine.Engine.StepPlanned` | backend/internal/service/rotation.go:482-545 | A successor is named unless one already is; a dry run completes if it had to be named, any other run opens staging; no row, host or assignment changes. |
| `RotationEngine.Engine.Swap` | backend/internal/service/rotation.go:820-840 | The new key becomes active, the old retiring, and every enabled consumer of the old key is owed the new one. |
| `RotationEngine.Engine.RebindConsumer` | backend/internal/service/consumers.go:186-203 | Success means the consumer was delivered to, unless it fetches its key itself, and then rebound; failure leaves its binding. No other consumer changes. |
| `RotationEngine.Engine.HandOver` | backend/internal/service/rotation.go:841-859 | With no error exactly the enabled consumers of the old key are bound to the new one and can have its private half; an error comes from a delivery that failed. No other consumer changes. |
| `RotationEngine.Engine.StepPromote` | backend/internal/service/rotation.go:820-862 | Goes on only when every enabled consumer of the old key is bound to the new one, or fails on a failed delivery; no other consumer, no row and no host changes. |
| `RotationEngine.Engine.StepSoak` | backend/internal/service/rotation.go:865-884 | The soak window is opened from the present moment. |
| `RotationEngine.Engine.StepSoakWait` | backend/internal/service/rotation.go:887-898 | Retirement begins exactly when the window has closed; before that nothing changes. |
| `RotationEngine.Engine.VerifyAssignments` | backend/internal/service/deploy.go:247-292 | It succeeds only if every desired key authenticated or has no private half, and fails only if one was refused; the only statuses that change are of desired keys the host accepts that were pending or staged, and they become active. |
| `RotationEngine.Engine.RetireOne` | backend/internal/service/rotation.go:974-1007 | Success leaves the login without the old assignment and converged with pruning, and every remaining key with a private half has authenticated since; failure comes from a host not converged or a key refused. |
| `RotationEngine.Engine.RetireRows` | backend/internal/service/rotation.go:908-933 | Every verified row ends retired or failed, by what was heard of its login, no other changes, and the failure count is zero exactly when no row of the rotation failed. |
| `RotationEngine.Engine.StepRetire` | backend/internal/service/rotation.go:902-971 | The run completes, and the old key is retired if and only if no row failed. |
| `RotationEngine.Engine.Approve` | backend/internal/store/rotations.go:474-489 | Only an awaiting rotation becomes planned. |
| `RotationEngine.Engine.Abort` | backend/internal/service/rotation.go:395-425 | Any unfinished rotation becomes aborted and nothing deployed is removed. |
| `RotationEngine.Engine.FailRotation` | backend/internal/service/worker.go:156-163 | The rotation becomes failed whatever its state was, finished or not, and nothing else changes. |
| `RotationEngine.Engine.Restart` | backend/internal/service/rotation.go:22-27 | After a crash at any point the invariant still holds, so every theorem covers what another worker does next. |
| `RotationEngine.Engine.Step` | backend/internal/service/rotation.go:432-479 | One step: it may be refused before it looks at the rotation, and an error changes nothing and was heard; a requeueing step strictly lowers the rank unless it is an early soak wake-up, which changes nothing; otherwise the run is finished, and was not touched if it already was, or awaits approval. Rows change only as their phase allows, each to the outcome that was heard of it. |
| `RotationPlan.WantRoundsUp` | backend/internal/service/rotation.go:294-296 | The slice is at least one and is the percentage rounded up. |
| `RotationPlan.CanariesGoFirst` | backend/internal/service/rotation.go:275-305 | A target goes first exactly if it is flagged, or if none is flagged, the percentage is positive and leaves the last host out, and one of the hosts that make up the percentage is on it. |
| `RotationPlan.CanaryExists` | backend/internal/service/rotation.go:275-305 | There is a canary if and only if a target is flagged, or the percentage is positive and leaves at least one whole host over. |
| `RotationPlan.NoCanary` | backend/internal/service/rotation.go:182-184 | One unflagged assignment at ten per cent has no canary. |
| `RotationPlan.CanarySet` | backend/internal/service/rotation.go:275-305 | The loops collect exactly the targets that go first: the flagged ones if any, else those of the hosts j with 100 * j < hosts * percent, unless these are all. |
| `RotationPlan.AddRows` | backend/internal/service/rotation.go:187-203 | The rows written so far are those of the first assignments, in their provisional waves, wherever the process dies. |
| `RotationPlan.CollapseWaves` | backend/internal/service/rotation.go:259-271 | Every row ends in wave 0 if the loop finishes; interrupted, each row is as it was or in wave 0. |
| `RotationPlan.PlanWaves` | backend/internal/service/rotation.go:186-215 | Left to finish, one pending row per assignment, the wave decided by the target alone, and neither wave 0 nor the last wave empty. Interrupted, the rows of the first assignments, no canary in wave 1. |
| `RotationPlan.Plan` | backend/internal/service/rotation.go:123-256 | Refuses exactly break-glass, retired and destroyed keys; otherwise a rotation of at most two waves that can be started, with rows for the first `written` assignments: all of them up to a thousand if the process lives, and then those that go first are in wave 0 and the others in wave 1, or all in wave 0. Every assigned login has a row exactly when `written` is all of them. |
| `RotationQueue.EventKeeps` | backend/internal/service/worker.go:127-152 | Every event, a step with crashes anywhere in it included, keeps the protocol's invariant, one live job per state and wave, and no job keyed by a state still to come. |
| `RotationQueue.TraceKeeps` | backend/internal/service/worker.go:127-152 | That invariant holds after every sequence of events from a rotation just planned. |
| `RotationHandOff.EventDecides` | backend/internal/store/jobs.go:105-323 | After any event the rotation has a live job exactly if the event gave it one or did not take all it had; what takes one is readable before the event. |
| `RotationHandOff.LiveExactly` | backend/internal/service/worker.go:127-152 | Over every sequence of events the rotation has a live job if and only if some event queued one and no later event took the last. |
| `RotationHandOff.NeverStranded` | backend/internal/service/worker.go:127-163 | Over every sequence of events a started rotation is finished or has a live job, unless a needed job was lost to a last attempt spent by an error or an expired lease, a cancellation, or an early wake-up. |
| `RotationHandOff.LostEarly` | backend/internal/service/rotation.go:887-898 | A success recorded on the state the rotation is still in is an early wake-up of the soak. |
| `RotationHandOff.StepsAreBounded` | backend/internal/service/rotation.go:432-479 | Over every sequence of events, the steps that moved the rotation on and those still to come are at most 2 * waves + 5. |
| `RotationHandOff.ThreeDeathsStrand` | backend/internal/store/jobs.go:311-323 | Three workers that die on the job of a rotation just started leave it without a live job and without a step taken. |
| `RotationWorker.Worker.constructor` | backend/internal/store/rotations.go:353-380 | A rotation just planned, with no job of its own, starts the empty sequence of events. |
| `RotationWorker.Worker.EnqueueNext` | backend/internal/service/rotation.go:1088-1122 | A live job for the present state and wave exists afterwards; a new row is added exactly when none was live, and a finished rotation adds none. |
| `RotationWorker.Worker.Start` | backend/internal/service/rotation.go:337-365 | Only a planned rotation starts, and then has a live job. |
| `RotationWorker.Worker.Approve` | backend/internal/service/rotation.go:368-390 | Only an awaiting rotation is approved; if the process lives it then has a live job. |
| `RotationWorker.Worker.Abort` | backend/internal/service/rotation.go:395-425 | Any unfinished rotation becomes aborted; its jobs stay. |
| `RotationWorker.Worker.Lease` | backend/internal/jobs/runner.go:243-255 | The best waiting step job is leased, and none exactly when nothing is runnable; a job of the rotation is from then on being run. |
| `RotationWorker.Worker.Reap` | backend/internal/jobs/runner.go:377-402 | Exactly the expired leases are released, whatever their processes are doing. |
| `RotationWorker.Worker.Cancel` | backend/internal/store/jobs.go:283-294 | Only a live job is cancelled, and a process running it is not stopped. |
| `RotationWorker.Worker.TakeStep` | backend/internal/service/worker.go:134-142 | A step asks for more only after moving an unfinished rotation on or waking early, leaves it as it was when it fails, and failed when it fails for good. |
| `RotationWorker.Worker.QueueNext` | backend/internal/service/worker.go:144-148 | Unless the rotation is finished, a live job for its present state exists, and at most one row was added. |
| `RotationWorker.Worker.HandleRotationStep` | backend/internal/service/worker.go:127-152 | After an advancing step of an unfinished rotation a new job, not the running one, is queued for its new state unless the process dies first: idempotency never swallows it. Other jobs are untouched. |
| `RotationWorker.Worker.EndJob` | backend/internal/jobs/runner.go:284-305 | A live job stays live exactly if its error might heal and an attempt is left; no other job changes. |
| `RotationWorker.Worker.TickSoak` | backend/internal/service/worker.go:415-432 | A soak whose window has closed has a live job after the tick, even if an early wake-up lost its own. |
| `RotationWorker.Worker.HasJob` | backend/internal/service/worker.go:127-152 | Whatever the worker's methods have done, in any order, the rotation has a live job exactly if some event queued one and none since took its last. |
| `RotationWorker.Worker.KeepsJob` | backend/internal/service/worker.go:127-152 | If none of those events lost a job still needed, a started rotation is finished or has a live job. |
| `RotationWorker.Worker.IsBounded` | backend/internal/service/rotation.go:432-479 | Whatever fails, dies, wakes early or is run again, at most 2 * waves + 5 steps move the rotation on, and fewer while it is unfinished. |
| `RotationWorker.Worker.RunStep` | backend/internal/service/worker.go:127-152 | Once the job of the step that is due has been handled and its outcome recorded, an unfinished rotation has a live job for its state if and only if the step was not an early wake-up and not the last attempt of a failure that might heal. |
| `Galois.ByteValue` | backend/internal/qr/qr.go:217-225 | A byte's bits are worth 128 down to 1. |
| `Galois.XtimeDoubles` | backend/internal/qr/galois.go:17-25 | One step of the table doubles the number and, when bit 8 comes out, adds 0x11D. |
| `Galois.OrderIs255` | backend/internal/qr/galois.go:11-29 | No power of 2 below the 255th is one in GF(256) modulo 0x11D. |
| `Galois.PowerInjective` | backend/internal/qr/galois.go:16-29 | The first 255 powers are distinct, so the logarithm table is written once per entry. |
| `Galois.LogExists` | backend/internal/qr/galois.go:16-29 | Every nonzero byte is one of those powers, so the logarithm table is complete. |
| `Galois.TimesComm` | backend/internal/qr/galois.go:31-36 | The field product commutes. |
| `Galois.TimesAssoc` | backend/internal/qr/galois.go:31-36 | The field product is associative. |
| `Galois.TimesXor` | backend/internal/qr/galois.go:31-36 | It distributes over xor. |
| `Galois.NoZeroDivisors` | backend/internal/qr/galois.go:31-36 | A product is zero only if a factor is. |
| `ReedSolomon.Tables.constructor` | backend/internal/qr/galois.go:16-29 | The filled tables are exactly the powers of 2 and their logarithms. |
| `ReedSolomon.Tables.Fill` | backend/internal/qr/galois.go:16-29 | The two loops leave 512 powers and the logarithm of every nonzero byte. |
| `ReedSolomon.Tables.GfMul` | backend/internal/qr/galois.go:31-36 | The table product is the schoolbook product of polynomials reduced modulo 0x11D. |
| `ReedSolomon.Tables.GeneratorPoly` | backend/internal/qr/galois.go:40-51 | A monic polynomial of degree n with roots 2^0 to 2^(n-1). |
| `ReedSolomon.Tables.Encode` | backend/internal/qr/galois.go:54-71 | For any data, exactly n bytes, and data followed by them vanishes at 2^0 to 2^(n-1). |
| `ReedSolomon.CodeDistance` | backend/internal/qr/galois.go:54-71 | Two different codewords of at most 255 bytes differ in more than n positions. |
| `ReedSolomon.EcUnique` | backend/internal/qr/galois.go:54-71 | The n bytes are the only ones that complete the data to a codeword. |
| `QrFormat.Bch` | backend/internal/qr/galois.go:75-91 | The value followed by its remainder is a polynomial multiple of the generator. |
| `QrFormat.Constants` | backend/internal/qr/galois.go:93-102 | The generators and the mask of the two fields are 0x537, 0x1F25 and 0x5412. |
| `QrFormat.FormatInfo` | backend/internal/qr/galois.go:93-97 | The fifteen bits, once 101010000010010 is added, name the level (L 01, M 00, Q 11, H 10) and the mask and are a multiple of the format generator. |
| `QrFormat.VersionInfo` | backend/internal/qr/galois.go:99-102 | The eighteen bits begin with the version and are a multiple of the version generator. |
| `QrData.ChooseVersion` | backend/internal/qr/qr.go:121-129 | The least version that holds the data, and none exactly when none of the ten does. |
| `QrData.LengthFits` | backend/internal/qr/qr.go:121-138 | Data that fits a version never overflows its length field. |
| `QrData.BitBuffer.Append` | backend/internal/qr/qr.go:209-213 | The low bits of the value follow what was there, most significant first. |
| `QrData.BitBuffer.Bytes` | backend/internal/qr/qr.go:217-225 | The packed bytes spell exactly the bits. |
| `QrData.SpellInjective` | backend/internal/qr/qr.go:217-225 | Two byte strings that spell the same bits are the same. |
| `QrData.EncodeData` | backend/internal/qr/qr.go:142-168 | Exactly the block table's number of bytes: mode, length, data, terminator, and then 0xEC and 0x11 in turn from the byte after them. |
| `QrData.Terminate` | backend/internal/qr/qr.go:150-157 | At most four zero bits, then zeros up to a byte boundary, never past the capacity. |
| `QrData.Pad` | backend/internal/qr/qr.go:159-166 | Fills to the wanted length with alternating pad bytes and changes nothing before them. |
| `QrData.ParseEncoding` | backend/internal/qr/qr.go:142-168 | Reading mode 0100, a length of 8 bits up to version 9 and of 16 from there, and the bytes gives back the data. |
| `QrBlocks.AddBlocks` | backend/internal/qr/qr.go:177-183 | A group's blocks continue the data without gap or overlap, each with codewords that make it a Reed-Solomon codeword. |
| `QrBlocks.SplitBlocks` | backend/internal/qr/qr.go:175-185 | The blocks have the table's sizes, join back to the data and are each protected. |
| `QrBlocks.Interleave` | backend/internal/qr/qr.go:172-202 | The stream is the column-wise reading of such data blocks and then of their error correction, of the table's total length. |
| `QrBlocks.InterleaveInverts` | backend/internal/qr/qr.go:187-195 | For any block sizes, de-interleaving the column-wise reading gives back every block. |
| `QrBlocks.DeinterleaveStream` | backend/internal/qr/qr.go:172-202 | For any two-group specification, the data comes back from the stream. |
| `QrBlocks.StreamLength` | backend/internal/qr/qr.go:187-200 | The stream has one byte per codeword. |
| `QrBlocks.StreamIsProtected` | backend/internal/qr/qr.go:196-200 | The check bytes of block b are one of each row after the data, b-th of its row, and with them the block vanishes at 2^0, 2^1, ... |
| `QrWalk.WalkIsComplete` | backend/internal/qr/matrix.go:129-165 | For every size, the zig-zag walk meets each module outside column 6 exactly once and none in it. |
| `QrWalk.FreeDistinct` | backend/internal/qr/matrix.go:150-152 | Skipping reserved modules leaves a walk without repetition. |
| `QrWalk.MaskIsTile` | backend/internal/qr/matrix.go:167-186 | Each of the eight masks inverts the modules marked in its picture, repeated from the top left corner. |
| `QrWalk.PlaceData` | backend/internal/qr/matrix.go:129-165 | For every size and reserved grid, the k-th unreserved module of the walk is dark exactly if bit 7 - k % 8 of the number k / 8 of the stream differs from the mark in the mask's picture, bits past the stream being zero; reserved modules keep their colour. |
| `QrWalk.ReadWhatWasPlaced` | backend/internal/qr/matrix.go:129-186 | Reading the same path through the mask gives back the codeword bits in order, then zeros. |
| `QrReading.WalkAt` | backend/internal/qr/matrix.go:129-165 | The k-th module of the walk in closed form: pairs of columns from the right, up and down in turn, stepping over column 6. |
| `QrReading.DataIsTheRest` | backend/internal/qr/matrix.go:22-68 | What is reserved are the corners with their fields, row and column 6, the alignment squares and the version blocks, and nothing else. |
| `QrReading.SpecsArePublished` | backend/internal/qr/qr.go:72-93 | The block table is the published one: data bytes, number of blocks, divided as evenly as they can be with the longer blocks last. |
| `QrReading.SpecsFillTheModules` | backend/internal/qr/qr.go:72-93 | Every level has as many codewords as whole bytes fit into the modules that the patterns and fields of its version leave. |
| `QrReading.FitsIsRoom` | backend/internal/qr/qr.go:121-138 | A message fits exactly if it leaves two bytes of the data, or three from version 10. |
| `QrPictures.FrameIsShown` | backend/internal/qr/matrix.go:7-72 | A symbol that shows every layer drawn looks like the pictures: finders, timing, alignment patterns, dark module, both format and version fields at their listed places. |
| `QrMatrix.DrawFinder` | backend/internal/qr/matrix.go:74-88 | Exactly the 8 by 8 corner inside the symbol gets the finder or its separator; no other module changes. |
| `QrMatrix.DrawFinders` | backend/internal/qr/matrix.go:22-25 | The three corners, and nothing else, are drawn. |
| `QrMatrix.DrawTiming` | backend/internal/qr/matrix.go:28-32 | The two timing lines are drawn over what was there. |
| `QrMatrix.DrawAlignment` | backend/internal/qr/matrix.go:90-97 | Exactly the 5 by 5 square round the centre is drawn, as rings. |
| `QrMatrix.DrawAlignments` | backend/internal/qr/matrix.go:35-43 | A pattern round every pair of centres but the three finder corners. |
| `QrMatrix.DrawDark` | backend/internal/qr/matrix.go:45-46 | The dark module is drawn. |
| `QrMatrix.DrawFormat` | backend/internal/qr/matrix.go:48-57 | Each format bit stands at both of its places. |
| `QrMatrix.FormatIndexInverts` | backend/internal/qr/matrix.go:104-124 | A module carries format bit i exactly when it is one of the two places of bit i, so no two bits share a module. |
| `QrMatrix.DrawVersion` | backend/internal/qr/matrix.go:59-68 | From version 7 each version bit stands at both of its places. |
| `QrMatrix.Column6` | backend/internal/qr/matrix.go:28-32 | Column 6 is never left for data, as the walk needs. |
| `QrCapacity.PatternIsCovered` | backend/internal/qr/matrix.go:22-68 | Every reserved module lies in one of the counted rectangles. |
| `QrCapacity.SpecsFillTheSymbol` | backend/internal/qr/qr.go:72-93 | Every level of a version has the same number of codewords, that of ISO/IEC 18004. |
| `QrCapacity.DataSetIsLargeEnough` | backend/internal/qr/qr.go:72-93 | The unreserved modules of every version are enough for those codewords. |
| `QrCapacity.RoomForCodewords` | backend/internal/qr/matrix.go:129-165 | The walk over unreserved modules visits each once and has room for every bit. |
| `Qr.BuildMatrix` | backend/internal/qr/matrix.go:7-72 | A complete symbol: it looks like the pictures of its version, its fields name the level, the mask and the version with right check bits, and the modules a scanner reads carry the stream. |
| `Qr.SymbolReadsBack` | backend/internal/qr/matrix.go:7-165 | Scanning any complete symbol by the layout rules, knowing only its modules, gives back the data and the level. |
| `Qr.Encode` | backend/internal/qr/qr.go:96-119 | Fails exactly when no version has room for the data; otherwise the smallest symbol that has, in the first mask of least score, and scanning its modules gives back the input. The stream's blocks are protected by the published number of check bytes. |
| `Calendar.CivilIsOrdinal` | backend/internal/cronx/cronx.go:254-262 | Counting days one by one and computing the day number of a date agree. |
| `Calendar.OrdinalIsCivil` | backend/internal/cronx/cronx.go:254-262 | Every valid date is the date of its own day number. |
| `Calendar.DayFormula` | backend/internal/cronx/cronx.go:254-262 | The day of every valid date is the usual closed formula in years that begin in March. |
| `Calendar.WeekdaysRun` | backend/internal/cronx/cronx.go:281-295 | 1 January 1970 was a Thursday, and each day is the next weekday. |
| `Calendar.MonthRunsOn` | backend/internal/cronx/cronx.go:254-258 | Until the first of the next month the month does not change. |
| `CronField.ParseValue` | backend/internal/cronx/cronx.go:215-237 | An accepted value, alias or number, lies in the field's range. |
| `CronField.ParseEntry` | backend/internal/cronx/cronx.go:160-201 | An accepted entry is a non-empty range inside the field with a positive step. |
| `CronField.Sweep` | backend/internal/cronx/cronx.go:203-205 | With 64-bit wrap-around, the loop ends and sets exactly the progression and the bits it strays to. |
| `CronField.TameIsExact` | backend/internal/cronx/cronx.go:203-205 | The loop sets the progression and nothing else if and only if the start is below twice the distance of the step from wrapping. |
| `CronField.HugeStepStrays` | backend/internal/cronx/cronx.go:203-205 | The text `3/9223372036854775807` in the minute field denotes minute 3 only and also sets minute 1. |
| `CronText.ItemIsRead` | backend/internal/cronx/cronx.go:160-237 | Every entry that can be written, names in small or capital letters, is read as its first value, its last and its step; a single value with a step runs to the end of the field. |
| `CronText.AnyMeans` | backend/internal/cronx/cronx.go:54-69 | A star is 0-59, 0-23, 1-31, 1-12 and 0-6 in the five fields. |
| `CronMask.ParseField` | backend/internal/cronx/cronx.go:157-213 | Fails exactly when some comma part does not parse; otherwise a non-empty mask that holds exactly the values some part denotes if and only if whatever a part strays to is denoted by some part; with tame steps it is always right and in range. A field written out of values, names, ranges, stars and steps is accepted, and unless a step strays its mask holds what was written. |
| `CronMask.WrittenDenotes` | backend/internal/cronx/cronx.go:157-213 | A field written from entries denotes exactly what some entry says. |
| `CronNext.MonthIsSilent` | backend/internal/cronx/cronx.go:254-258 | Skipping to the next month passes over no firing. |
| `CronNext.DayIsSilent` | backend/internal/cronx/cronx.go:259-262 | Skipping to the next day passes over no firing. |
| `CronNext.HourIsSilent` | backend/internal/cronx/cronx.go:263-266 | Skipping to the next hour passes over no firing. |
| `CronNext.MatchesWeekdays` | backend/internal/cronx/cronx.go:281-295 | With only the weekday restricted, the days matched are exactly those days of every week, counted from Sunday 7 January 2024. |
| `CronNext.OnlyMondays` | backend/internal/cronx/cronx.go:281-295 | A schedule for Mondays fires only a whole number of weeks from Monday 8 January 2024. |
| `CronNext.Next` | backend/internal/cronx/cronx.go:244-277 | The least whole minute strictly after t at which the schedule fires, and none exactly when no minute before the five-year limit fires; the loop terminates. |
| `CronNext.EveryIsLater` | backend/internal/cronx/cronx.go:245-247 | An interval of a minute or more fires later than t, within a second of the interval. |
| `CronNext.HorizonIsFiveYears` | backend/internal/cronx/cronx.go:249-251 | The limit is 1825 to 1827 days on. |
| `CronNext.HorizonDate` | backend/internal/cronx/cronx.go:249-251 | The limit is the same time on the same date five years on, 29 February becoming 1 March. |
| `Text.FieldsKeepAll` | backend/internal/cronx/cronx.go:82-86 | Splitting an expression loses nothing but white space. |
| `Text.FieldsJoin` | backend/internal/cronx/cronx.go:82-86 | Words between blanks are found again. |
| `Cron.Parse` | backend/internal/cronx/cronx.go:71-154 | Accepts exactly an interval of a minute or more, a known macro, or five fields that each parse, and compiles fields to their meaning. |
| `Cron.ParseMacro` | backend/internal/cronx/cronx.go:120-154 | An interval is refused below a minute; every other macro means its five fields. |
| `CronExpression.MacroFires` | backend/internal/cronx/cronx.go:120-154 | Each macro's fields say the first minute of every hour, day, Sunday, month or year. |
| `Cron.FiresAsSaid` | backend/internal/cronx/cronx.go:281-295 | The compiled schedule fires exactly at the minutes the text says, either day field sufficing when both are restricted. |
| `Cron.WordsSay` | backend/internal/cronx/cronx.go:71-113 | The fields of a written expression say the minutes that were written, a lone star leaving a day field open. |
| `Cron.NextAfter` | backend/internal/cronx/cronx.go:299-309 | From text to time: refused exactly when the text is; an interval on, or the first minute after t that the fields name, or none within the limit. For every written expression that is the first minute said, weekdays counted on the calendar; for each macro the next hour, midnight, Sunday, month or year; after `@every ` the next whole second one interval on. |
| `DiffLcs.Table` | backend/internal/diff/diff.go:90-111 | Every cell of the table is the longest common subsequence length of its two suffixes. |
| `DiffLcs.KeepsAtMost` | backend/internal/diff/diff.go:90-111 | No script between two texts keeps more lines than that length. |
| `DiffLcs.BestIsMinimal` | backend/internal/diff/diff.go:113-132 | A script that keeps that many changes as few lines as any. |
| `DiffLcs.LcsOps` | backend/internal/diff/diff.go:90-132 | The script turns a into b, records right positions, no script from a to b has fewer changes, and of two changes it deletes first exactly if that keeps as many lines. |
| `DiffLcs.OnlyScript` | backend/internal/diff/diff.go:113-132 | There is only one such script. |
| `DiffHunks.Keep` | backend/internal/diff/diff.go:149-159 | Marks exactly the operations within context of a change, in 64-bit arithmetic. |
| `DiffHunks.Group` | backend/internal/diff/diff.go:136-177 | The hunks are the maximal runs of kept operations. |
| `DiffHunks.KeptUnlessOverflow` | backend/internal/diff/diff.go:149-159 | All changes are kept if and only if the first change's position plus the context does not overflow; otherwise there is no hunk. |
| `DiffHunks.HunksHoldClose` | backend/internal/diff/diff.go:136-177 | Unless the sum overflows, the hunks are runs of the script apart from each other that hold exactly the operations at most `context` away from a change. |
| `DiffHunks.HunksArePatch` | backend/internal/diff/diff.go:136-177 | When all changes are kept, applying the hunks at their recorded positions to the old lines gives the new lines. |
| `Diff.Header` | backend/internal/diff/diff.go:37-51 | A hunk's counts are those of its body, and each side starts on the line after what comes before it, even a side without lines. |
| `Diff.Render` | backend/internal/diff/diff.go:37-63 | A hunk is shown as its header and one marked line per operation. |
| `Numerals.DecimalIs` | backend/internal/diff/diff.go:50-51 | A number below ten is its digit, and any other the numeral of its tenth and then its last digit. |
| `Numerals.ValueOfDecimal` | backend/internal/diff/diff.go:50-51 | It is written in digits whose value it is. |
| `DiffRender.TextIsRead` | backend/internal/diff/diff.go:37-63 | The text of any hunks, read line by line, is those hunks: lines that start with a blank or a minus spell the old side, with a blank or a plus the new one, and the numbers of the header are read as numbers. |
| `DiffRender.ShownApplies` | backend/internal/diff/diff.go:37-63 | What was read is applied, with its header's starts and counts checked, just as the hunks are. |
| `Diff.FirstChange` | backend/internal/diff/diff.go:113-132 | The script's first change stands right after the longest common prefix. |
| `Diff.GroupedScript` | backend/internal/diff/diff.go:136-177 | For every pair of line lists: equal lists give no hunk; different ones give hunks that patch a to b exactly when the prefix plus the context does not overflow. |
| `Diff.Unified` | backend/internal/diff/diff.go:18-67 | The text is empty exactly for equal line lists or an overflowing context; otherwise, read back with its labels and headers and applied to the old lines, it gives the new lines. It shows the minimal, deleting-first script with exactly the lines within `context` of a change. |
| `Diff.SameLines` | backend/internal/diff/diff.go:179-191 | Two texts have the same lines if and only if they agree once CRLF is LF and a missing final newline is added. |
| `Diff.LinesOf` | backend/internal/diff/diff.go:179-191 | Lines written one after the other, each with its newline, are the lines of the text. |
| `Diff.EndingsAreSilent` | backend/internal/diff/diff.go:16-22 | A text and its copy with a final CRLF are different and have the same lines. |
| `Diff.Summarise` | backend/internal/diff/diff.go:200-211 | The counts are the lines not in the common subsequence, as few as any script has. |
| `JobQueue.Jobs.Enqueue` | backend/internal/store/jobs.go:105-153 | A live job with the key is returned and nothing is inserted; otherwise one queued row with the defaults. No two live jobs ever share a key. |
| `JobQueue.Jobs.Select` | backend/internal/store/jobs.go:180-186 | Distinct runnable jobs, best first: none left out precedes one chosen unless the limit was not reached. |
| `JobQueue.Jobs.Dequeue` | backend/internal/store/jobs.go:160-202 | Exactly the chosen rows, queued, due and of a kind asked for, become running with one more attempt, locked by the worker now; a row left out with the limit reached has a greater priority number, or the same and no earlier due time; empty exactly when nothing is runnable. |
| `JobQueue.Jobs.Succeed` | backend/internal/store/jobs.go:205-226 | The row succeeds and is unlocked whatever its state was. |
| `JobQueue.Jobs.Fail` | backend/internal/store/jobs.go:231-255 | Queued again after the backoff while attempts remain, dead otherwise; refused only for a missing row or a key taken meanwhile. |
| `JobQueue.Jobs.Kill` | backend/internal/store/jobs.go:262-280 | Dead at once, unless already succeeded or cancelled. |
| `JobQueue.Jobs.Cancel` | backend/internal/store/jobs.go:283-294 | Only a live job is cancelled, its lease left in place. |
| `JobQueue.Jobs.Heartbeat` | backend/internal/store/jobs.go:297-305 | Only the holder of a running job's lease renews it. |
| `JobQueue.Jobs.ReapStalled` | backend/internal/store/jobs.go:311-323 | Exactly the running jobs with an expired lease are released, requeued while attempts remain, and counted. |
| `JobSafety.LeasesWithinBudget` | backend/internal/store/jobs.go:160-323 | Under any interleaving of queue statements a job's attempts equal the times it was leased and never exceed its budget; a queued job has one left. |
| `JobSafety.EventIsAStatement` | backend/internal/jobs/runner.go:257-355 | Everything workers and the reaper do is one of those statements. |
| `JobSafety.OneExecutor` | backend/internal/jobs/runner.go:257-355 | If every handler renews its lease within the limit, no two handlers ever execute one job at once, whatever the interleaving. |
| `JobSafety.AlwaysExclusive` | backend/internal/jobs/runner.go:334-355 | Along such a run every handler still holds its lease or its job was cancelled under it. |
| `JobSafety.FinishedMoves` | backend/internal/store/jobs.go:78-256 | In any run an event changes the state of a succeeded, cancelled or dead job exactly when it is a handler of that job returning or failing, unrefused by the unique index, and writes another state. |
| `JobSafety.CancelledMoves` | backend/internal/jobs/runner.go:257-319 | While leases are fresh, exactly every unrefused return or failure of its handler changes a finished job, and the job was then cancelled. |
| `JobSafety.UnattendedIsFinal` | backend/internal/store/jobs.go:78-85 | A finished job that no handler runs keeps its state in every continuation, late handlers and all. |
| `JobSafety.FinalUnlessAttended` | backend/internal/store/jobs.go:78-85 | After any run with fresh leases, some continuation of the same kind changes a finished job if and only if a handler still runs it, and only a cancelled one. |
| `JobSafety.CancelledJobMoves` | backend/internal/store/jobs.go:205-256 | In a run with fresh leases a job cancelled under its handler becomes succeeded when the handler returns and queued when it fails. |
| `JobSafety.StaleHandlerMoves` | backend/internal/store/jobs.go:205-256 | In a run in which a worker loses its lease, its failure puts a succeeded job back in the queue, and its return makes a dead one succeed. |
| `JobSafety.Backoff` | backend/internal/jobs/runner.go:359-374 | The doubling loop gives base * 2^(attempt-1), capped, plus a jitter of at most a quarter. |
| `JobSafety.Execute` | backend/internal/jobs/runner.go:257-319 | Success, permanent failure, transient failure and a missing handler each end the job in the state promised, a retry due after exactly the backoff or a minute, and touch no other job. |
| `AuditChain.SeparatedIsInjective` | backend/internal/audit/audit.go:210-241 | The separators make a fixed number of clean fields, followed by anything, uniquely readable. |
| `AuditChain.EncodedIs` | backend/internal/audit/audit.go:210-241 | The bytes hashed are these sixteen texts in this order with the unit separator between them. |
| `AuditChain.EncodingIsInjective` | backend/internal/audit/audit.go:210-241 | Records with the same hashed bytes agree on every hashed field. |
| `AuditChain.ChainLists` | backend/internal/audit/verify.go:57-90 | A tenant's chain is its rows of the table, each once and in order. |
| `AuditChain.HeadFixesHistory` | backend/internal/audit/verify.go:57-90 | Two intact chains that end in the same hash have the same length and agree on every hashed field of every record. |
| `AuditChain.Log.Append` | backend/internal/audit/audit.go:108-184 | Refuses exactly an event without an action, or with a detail, an address or a text the database refuses, or an actor type or outcome its checks exclude; otherwise returns the record as hashed, with the defaults filled in, linked to the hash of the tenant's last row, and stores it as it reads back. |
| `AuditChain.Log.Verify` | backend/internal/audit/verify.go:36-98 | Whole exactly when the chain is intact; otherwise the first bad record, after an intact prefix, and whether its link or its content is wrong. |
| `AuditChain.WrittenLogVerifies` | backend/internal/audit/audit.go:108-184 | Any sequence of appends to an empty log verifies for a tenant if and only if every event accepted for it encodes to the same bytes after storage; otherwise an untouched record is reported as modified. |
| `AuditChain.UntouchedVerifies` | backend/internal/audit/verify.go:57-90 | The same on the stored rows: nothing but each event decides it, so it is known before appending. |
| `AuditChain.SurvivesExactly` | backend/internal/audit/verify.go:194-235 | With no separator in its fields, an event survives storage exactly if its address and its detail do. |
| `AuditChain.LinksHold` | backend/internal/audit/audit.go:125-131 | Whatever storage does to their content, records link to their predecessors. |
| `AuditChain.CapitalAddressBreaks` | backend/internal/audit/verify.go:44-51 | An IPv6 address in capitals that reads back in lower case does not survive. |
| `AuditChain.BigIntegerBreaks` | backend/internal/audit/verify.go:220-232 | An integer that reads back as its nearest double does not survive. |
| `Vault.Vault.Unseal` | backend/internal/vault/vault.go:72-90 | Accepts exactly 32-byte keys with a positive version, and current stays the highest version held. |
| `Vault.Vault.Seal` | backend/internal/vault/vault.go:94-102 | Nothing is held afterwards. |
| `Vault.Vault.Encrypt` | backend/internal/vault/vault.go:134-163 | Fails only when sealed; the result opens to the plaintext under its own associated data and under no other. |
| `Vault.Vault.Decrypt` | backend/internal/vault/vault.go:168-196 | Opens what the held keys can open, both boxes sealed under the same associated data, with the source's errors in its order. |
| `Vault.Vault.Rewrap` | backend/internal/vault/vault.go:205-238 | At the current version, same ciphertext and same data key; a value already current is returned as it is. |
| `Vault.RotatingComposes` | backend/internal/service/keys.go:396-400 | An interrupted rotation followed by another is one rotation. |
| `Vault.RotatingKeepsSecrets` | backend/internal/service/keys.go:401-436 | After any part of a rotation every key keeps its ciphertext and decrypts to what it did. |
| `Vault.ResumeCanSucceed` | backend/internal/service/keys.go:396-400 | What a run needs to succeed still holds wherever an earlier one stopped. |
| `Vault.KeyService.MaterialNeedingRewrap` | backend/internal/store/keys.go:403-421 | The lowest keys behind the version, in order, fewer than the limit only when there are no more. |
| `Vault.KeyService.RotateKEK` | backend/internal/service/keys.go:401-436 | Terminates; stored material only moves forward with its meaning kept; success leaves nothing behind and counts what was; it succeeds whenever every data key unwraps. |
| `Vault.KeyService.RewrapBatch` | backend/internal/service/keys.go:422-435 | Each key of the batch is moved forward, or the first that does not unwrap stops the run. |
| `Text.SplitInverts` | backend/internal/keys/authorized.go:73-85 | Splitting at a separator loses nothing and no piece holds it. |
| `AuthorizedKeys.Editor.Parse` | backend/internal/keys/authorized.go:73-110 | One entry per line, kept raw, with the final newline remembered; blank, a comment from its first character, or what the line parser makes of it. |
| `AuthorizedKeys.Editor.Bytes` | backend/internal/keys/authorized.go:140-179 | Writes the entries line by line, edited ones from their parts; `KeyFiles.WrittenReadsBack` says what a reader makes of it. |
| `AuthorizedKeys.ReadWrite` | backend/internal/keys/authorized.go:73-179 | For every file, read then written is the file with CRLF as LF. |
| `KeyFiles.WrittenReadsBack` | backend/internal/keys/authorized.go:73-179 | A file written and parsed again has line for line the same kinds, and the same keys, options and trimmed comments, for every parser that reads options joined by commas, a blank, the key, a blank and the comment back into those parts. |
| `KeyFiles.EditsReadBack` | backend/internal/keys/authorized.go:73-252 | So it has after any sequence of edits. |
| `KeyFiles.UpsertReadsBack` | backend/internal/keys/authorized.go:140-241 | A key put into any file is there for the next reader, before any other line for it, with its options and its trimmed comment. |
| `AuthorizedKeys.Editor.IndexOf` | backend/internal/keys/authorized.go:204-211 | The first key with the fingerprint, or -1 when there is none. |
| `AuthorizedKeys.Editor.Upsert` | backend/internal/keys/authorized.go:220-241 | Updates the first key with the fingerprint or appends one, and reports a change exactly unless the first such key has these options and comment. |
| `AuthorizedKeys.Editor.Remove` | backend/internal/keys/authorized.go:245-252 | Takes out the first key with the fingerprint and nothing else, and reports whether there was one. |
| `AuthorizedKeys.Editor.EqualOptions` | backend/internal/keys/authorized.go:257-267 | True exactly for equal lists. |
| `AuthorizedKeys.EditsKeepOthers` | backend/internal/keys/authorized.go:220-252 | After any sequence of edits, the lines that are not keys with a touched fingerprint survive byte for byte and in order. |
| `AuthorizedKeys.UpsertIdempotent` | backend/internal/keys/authorized.go:216-241 | A second Upsert of the same entry changes nothing and says so. |
| `AuthorizedKeys.UpsertTakesEffect` | backend/internal/keys/authorized.go:220-241 | Afterwards the first key with the fingerprint has the options and comment asked for. |
| `AuthorizedKeys.RemoveTakesOne` | backend/internal/keys/authorized.go:243-252 | Exactly one line with the fingerprint goes, if there is any; duplicates stay. |
| `LinuxApply.UpsertAll` | backend/internal/connectors/linux/linux.go:251-267 | Every desired key is listed afterwards, its first line with its options and comment, and none is lost; every line of another key or kind is unchanged. |
| `LinuxApply.PruneAll` | backend/internal/connectors/linux/linux.go:269-292 | Managed keys no longer wanted are gone, duplicates included; every other key is listed as often as before, and no other line is touched. |
| `LinuxApply.Edit` | backend/internal/connectors/linux/linux.go:251-310 | The file's keys become exactly what the rotation protocol assumes of a converged host, or only the desired ones when others are not preserved; each desired key has its options, every line that is neither desired nor managed is the same bytes in the same order, and a lockout is reported exactly when no key would be left and that is not allowed. |
| `LinuxApply.ManagedFingerprints` | backend/internal/service/deploy.go:544-568 | Paging through the key table misses no key and repeats none; a page that cannot be read leaves nothing. |

## Left out

- Qr.Encode: the penalty rules that score a mask (backend/internal/qr/matrix.go:191-271) are a function parameter, and the proof holds for any; the scanner reads an undamaged symbol, so error correction is shown by code distance only.
- PNG rendering, terminal rendering and the public accessors of a symbol.
- RotationEngine.Engine.Apply: connectors other than the Linux one are represented by the interface's promise, and the shell script behind it by its all-or-nothing effect.
- RotationEngine.Engine.Verify: a successful authentication is taken to mean the host lists the key; connectors without `CanVerify`, where presence or nothing is checked, are not modelled.
- RotationEngine.Engine.VerifyAssignments: whether an authentication succeeds, and whether the private key is held, is arbitrary; the result is determined by the answers alone.
- RotationEngine.Engine.Abort: comes between steps, not in the middle of one; so do approval and the worker's last word on a failed step.
- RotationQueue.EventKeeps: steps of one rotation do not overlap, and one process at a time runs a job, which timely heartbeats ensure.
- RotationPlan.Plan: permissions, scopes and policies; the parameters of a run are constants, not a process-local cache.
- RotationEngine.Engine.WaveTargets: rows come in some order, as they do from RotationEngine.Engine.ListRotationTargets; the order by target name is not modelled, and nothing depends on it.
- RotationEngine.Engine.StageOne: the branch for single-key targets is left out, as below.
- RotationPlan.PlanWaves: rows are keyed by login, and each login belongs to one target.
- Single-key targets (`replaceOne`, `restorePrevious`): the proof of a failed replacement is not read back by the code.
- Operator edits of assignments, keys or consumers during a run; assignment options, snapshots, changesets and per-deployment audit events.
- Failures of the store itself: every statement succeeds, and statements do not overlap.
- Cron.NextAfter: written expressions are without blanks inside a field, and the first minute said is stated when no step is within 64 of wrapping; CronMask.ParseField has the exact condition.
- Cron.Parse: the parsing of a duration is a function parameter; CronNext.Next works at an offset of whole minutes from UTC and from year 1 on.
- CronNext.Next: for an `@every` interval under a minute only the computed time is stated; the parser accepts no such interval.
- Text.ToLower: folds ASCII letters and the two other letters that fold to ASCII, not the rest of Unicode.
- Diff.Unified: line counts stay below half the largest integer.
- JobQueue.Jobs.Succeed: results, progress, errors and logs of a job are not part of a row, nor are tenants; the same holds for the other queue statements.
- JobSafety.OneExecutor: that every handler renews its lease in time is an assumption, since nothing in the code enforces it.
- AuditChain.HeadFixesHistory: assumes an injective hash that is never empty and fields without the separator byte.
- AuditChain.Log.Append: which texts the database refuses, and its treatment of addresses and details, are parameters, so its rules are not derived; the tenant exists; identifiers and times read back as written, and sequence numbers have no gaps.
- Vault.Vault.Encrypt: an ideal cipher that opens only what was sealed under the same key and associated data; random bytes are parameters, and wiping of buffers is not modelled.
- AuthorizedKeys.Editor.Parse: the parsing of one key line is a function parameter.
- KeyFiles.UpsertReadsBack: the parser reads the spelling of the key put in back into its parts, and a line of the file that ends in a carriage return of its own means the same without it; both are assumptions about the parser.
- HTTP handlers, configuration, webhooks, backups, sessions and the other easy members around this core.
