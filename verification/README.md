# Verified model of the vahtisiru hardware-safety relay

vahtisiru watches a GPU, decides whether it is safe, and throttles its power
limit when it is not. This project models that closed loop and the two data
paths beside it, and proves what the parts guarantee together.

| file | what it models |
|---|---|
| `Prelude.dfy`, `Float32.dfy`, `Text.dfy` | fixed-width arithmetic, `f32` without rounding, the string library |
| `Policy.dfy` | validation of operator limits into an immutable policy |
| `Clock.dfy`, `Telemetry.dfy`, `Assessment.dfy` | stamping, validity, freshness, mapping, and the stateless verdict |
| `PowerLimit.dfy` | one power-limit register: classifier, planners, workers |
| `SafetyMachine.dfy` | the hysteresis machine, as functions and as a mutable class |
| `Gate.dfy` | the single-flight gate over every interleaving of callers |
| `Supervisor.dfy` | the supervisor as a transition system with its history |
| `SupervisorSafety.dfy` | no unauthorised release, streak meaning, single flight, foreign caps |
| `SupervisorHealth.dfy` | the release theorem in terms of what was read from the device |
| `SupervisorAgreement.dfy` | claim and hardware, shutdown and restart |
| `SupervisorResponse.dfy` | no lost intent, retries, post-release boundary, failure overlay, software-only mode |
| `SupervisorHistory.dfy` | what the supervisor reports about itself, told from its history alone |
| `SupervisorCadence.dfy` | what one iteration records: which frames are judged when, and when a verdict leads to an attempt |
| `SupervisorDispatch.dfy` | who waits at the gate: no starved Apply, no blocked Release |
| `SupervisorLoop.dfy` | one iteration as a function, proved to be a run of the transition system |
| `SupervisorProgress.dfy` | cooperating devices, workers that return, what a finished task says about the register |
| `SupervisorBraking.dfy` | end to end on the register: exactly when fail-closed telemetry ends in the brake band, and how soon |
| `SupervisorLifting.dfy` | end to end on the register: exactly when healthy telemetry ends at the default, and how soon |
| `SupervisorWitnesses.dfy` | concrete runs: the warning after a release, the release that writes and reports failure |
| `SupervisorProcess.dfy` | the process on mutable state: start-up, loop body, publication feed, shutdown |
| `Queue.dfy` | the bounded queue under every interleaving, and what its callers are told |
| `Wire.dfy`, `Publisher.dfy` | the wire batch; the publisher with overlapping calls and cloned handles |
| `Csv.dfy` | the CSV interchange contract |

A run is any sequence of events from any device register: loop segments, read
results (value, panic, timeout), worker returns (with any mix of readable
limits, completed commands, failed commands that did or did not take effect,
panics), tasks that are seen to finish only later, late readers, signals and
crashes with restarts. The state carries a history of boots, evaluations with
the acquisitions behind them, reported outcomes and dispatch attempts, and the
main results are about that history. Classes are proved equal to the functions
the lemmas speak about.

## Model

| member | source | states |
|---|---|---|
| SupervisorHealth.BrakeLeavesOnlyAfterHealthyReadings | src/daemon.rs:273-429 | in every run, the limit leaves the brake band only by a release worker whose command was spawned in this session, after at least `release_ok_streak` consecutive evaluations that were made while the brake was engaged and whose acquisitions each met every health condition of this session's policy |
| SupervisorSafety.BrakeLeavesOnlyByAuthorisedRelease | src/daemon.rs:273-429 | in every run, a step that takes the limit out of the brake band is the step of a release worker spawned in this session after at least `release_ok_streak` consecutive Ok evaluations made while the brake was engaged |
| SupervisorSafety.AuthorisedRelease | src/daemon.rs:945-976 | the authorisation predicate, spelled out: the spawn lies in the same session with no later command, and the last streak-many engaged evaluations before it are Ok |
| SupervisorSafety.StreakMeaning | src/safety.rs:285-381 | `ok_count` is the saturated length of the maximal all-Ok suffix of evaluations since the brake became engaged or was seeded, and 0 while it is not engaged |
| SupervisorSafety.OneCallAtATime | src/daemon.rs:945-976 | the gate flag is up exactly while one reader or actuation worker is out; the two slots are never both occupied; an occupied apply slot means not engaged, an occupied release slot means engaged |
| SupervisorSafety.OnlyTimeoutsKeepThePermit | src/nvml_gate.rs:39-56 | in every run a read that ends gives its permit back exactly when it did not time out |
| SupervisorSafety.AbandonedReadBlocks | src/nvml_gate.rs:39-56 | after a read was given up no read and no command gets the permit until its driver call returns or the process ends |
| SupervisorSafety.DispatchedIntentsAreEarned | src/safety.rs:388-400 | in every run, at both points where the loop dispatches, a Release intent stands on an engaged brake and a complete streak of this session, an Apply intent on a disengaged brake |
| SupervisorSafety.DeviceMoves | src/gpu.rs:365-395 | the register changes only when a worker acts: from the default band onto the target, or from the brake band onto the default |
| SupervisorSafety.ForeignCapsSurviveEveryRun | src/gpu.rs:414-464 | no run rewrites a foreign sub-default cap or a device without an unambiguous target; other registers only ever hold the original value, the target or the default |
| SupervisorSafety.OkSuffixIsMaximal | src/safety.rs:371-375 | the counted suffix is all Ok and cannot be extended |
| SupervisorAgreement.ClaimMatchesHardware | src/daemon.rs:304-379 | with readable startup queries and truthful commands, whenever both slots are empty `brake_engaged` holds exactly when the limit is within 2 W of the target |
| SupervisorAgreement.ExactlyUntruthfulWritesBreakTheClaim | src/gpu.rs:490-502 | from any state of a truthful run with a worker out: once its result is collected, `brake_engaged` differs from the register exactly when the worker wrote the register and reported failure |
| SupervisorAgreement.StartedAgrees | src/daemon.rs:254-267 | a process that can read the limits starts with a claim that the register bears out, whatever happened before |
| SupervisorAgreement.StartsClaimingExactly | src/daemon.rs:254-267 | a process claims a brake at its start exactly when it can read both limits and they show the relay's own |
| SupervisorAgreement.PlanSaysWhatIsLeft | src/shutdown.rs:119-141 | what the shutdown plan waits for and reports as left behind, both ways, in terms of claim and slots |
| SupervisorAgreement.ShutdownRecords | src/daemon.rs:586-638 | shutdown records exactly the outcome of the task in flight, if it is there or the wait does not time out |
| SupervisorAgreement.ShutdownStartsNothing | src/daemon.rs:536-643 | from any reachable state and for any join result, shutdown attempts no command and leaves a hardware brake in its band unless a release was in flight |
| SupervisorAgreement.RestartRebuildsTheClaim | src/daemon.rs:647-685 | after a completed join, classify-and-seed of the next process rebuilds the claim the old one ended with, the register is unchanged, the streak is 0, and a plan that leaves no brake is right |
| SupervisorAgreement.ShutdownEmptiesSlots | src/daemon.rs:586-638 | an orderly shutdown whose join does not time out leaves no actuation outstanding |
| SupervisorResponse.NoIntentIsLost | src/daemon.rs:921-939 | at the end of every iteration, an Apply or Release wanted with free slots is pending, or an actuation failed since the last attempt |
| SupervisorResponse.RetryWithinTenIterations | src/daemon.rs:752-765 | from free slots, by the next tenth iteration a new dispatch has been attempted or nothing is wanted |
| SupervisorLoop.RetriedWithinTenTicks | src/daemon.rs:752-765 | the same bound counted in passes of the loop body, for any frames and workers |
| SupervisorResponse.PostReleaseBoundary | src/daemon.rs:340-354 | after a completed release the loop re-applies exactly on a fail-closed frame, while the decision returned by `evaluate` also re-applies on a warning; the two agree exactly when the frame is not a warning |
| SupervisorWitnesses.WarningAfterReleaseIsNotReapplied | src/daemon.rs:402-413 | for every braked device and every policy, a run in which healthy readings complete the streak, the release succeeds, and a warning follows: `evaluate` wants Apply, nothing is dispatched, the limit stays at the default |
| SupervisorWitnesses.ReleaseUnderWay | src/daemon.rs:385-413 | from an adopted brake, healthy readings alone lead to the release, for every streak |
| SupervisorWitnesses.WitnessReadings | src/safety.rs:515-562 | a device, a policy and two readings that meet the conditions of those runs |
| SupervisorResponse.CadenceDecisionsAgree | src/daemon.rs:385-413 | at every other point of every run the dispatched intent is the one the evaluation returned |
| SupervisorResponse.SoftwareOnlyNeverActs | src/safety.rs:358-361 | under software-only telemetry no command is ever attempted and the limit never changes, for any register, run length and restarts |
| SupervisorResponse.FailureOverlay | src/safety.rs:402-428 | actuator failure is reported exactly while the last recorded command failed and no healthy verdict followed; failures are counted; the shutdown plan's unresolved flags mean the same |
| SupervisorHistory.SnapshotTellsTheHistory | src/safety.rs:285-448 | in every run the reported claim, policy state, state, standing error and streak are what the recorded boots, verdicts and outcomes say |
| SupervisorHistory.PolicyStateNamesTheVerdict | src/safety.rs:352-381 | between evaluations, with no release recorded since, the policy state names the kind of the last verdict of the session, both ways |
| SupervisorResponse.DispatchIsAnAttempt | src/daemon.rs:921-976 | with free slots, a due or pending intent is either spawned or remembered as blocked, and logged either way |
| SupervisorDispatch.ReleaseIsNeverBlocked | src/daemon.rs:945-976 | in every run each attempted Release gets the permit at once, so only an Apply is ever pending |
| SupervisorDispatch.WantedApplyGoesFirst | src/daemon.rs:275-289 | in every run, an Apply wanted at the start of an iteration with free slots and no failure since is pending, and takes a free gate before the read of that iteration can |
| SupervisorBraking.FailClosedOutcome | src/daemon.rs:273-429 | from every state any run reaches between iterations, with fail-closed or missing telemetry and a cooperating device: after 13 iterations (11 with free slots, 3 with a release under way), and ever after, the limit is in the brake band if and only if no brake is claimed and the limit is the relay's to move or in the band, or one is claimed and the limit is in the band or a successful release waits to be collected |
| SupervisorBraking.DistrustedOutcome | src/safety.rs:489-562 | the same condition and bounds in terms of the acquisitions: no read brings a complete, plausible, timely frame of a real device with both values at or below critical |
| SupervisorBraking.MissingDeviceOutcome | src/daemon.rs:717-718 | with free slots and a free gate, the iteration that finds the device missing puts the brake on, under the same condition, unless a failed Apply waits for its retry |
| SupervisorCadence.IterationAdds | src/daemon.rs:304-413 | what every iteration records, exactly and in order: the retry of a blocked Apply, outcomes of finished tasks each followed by a verdict on a fresh frame, else the verdict on its own frame on the first iteration, every tenth, and at once for an unavailable device, then at most one attempt |
| SupervisorCadence.IterationAttempts | src/daemon.rs:752-765 | with free slots and nothing to retry, a command is attempted exactly when a frame was judged and the want is new, or on the cadence |
| SupervisorCadence.UnavailableDeviceIsJudgedAtOnce | src/daemon.rs:717-718 | in every run an unavailable device is judged in the iteration that finds it, and with free slots and no claim an Apply is attempted in it unless an earlier one has failed and waits for its retry |
| SupervisorCadence.FailuresAreNotRetriedAtOnce | src/daemon.rs:752-765 | in every run, an iteration that collected a failure and has judged nothing since attempts a command only if its own frame changes what is wanted |
| SupervisorBraking.TicksStuck | src/safety.rs:343-347 | a claimed brake with no release that could still move the limit: fail-closed iterations never change the register, whatever the workers do |
| SupervisorBraking.BracedAfterRelease | src/daemon.rs:340-354 | a release under way when telemetry turns fail-closed completes, is collected, and the limit is back in the band within three iterations |
| SupervisorWitnesses.FailedReleaseLosesTheBrake | src/safety.rs:343-347 | for every braked device and policy, a run whose release writes the limit and reports failure: the brake stays claimed, the limit is at the default, and no fail-closed sequence ever brakes it again |
| SupervisorLifting.HealthyOutcome | src/daemon.rs:273-429 | from every state any run reaches between iterations with the relay's brake on the register, free slots and a free gate, with healthy readings and a cooperating device: after ten iterations per evaluation of the streak, and ever after, the limit is the default if and only if the brake is claimed or a wanted apply waits at the gate to claim it |
| SupervisorProgress.ReachableShows | src/gpu.rs:365-395 | in every run a successful apply that is back leaves the limit in the band, a successful release at the default |
| SupervisorLoop.TickIsARun | src/daemon.rs:273-429 | one iteration is a run of the transition system without signal or crash |
| SupervisorProcess.Supervisor.Iterate | src/daemon.rs:273-429 | the loop body on mutable state, in source order, is exactly one `Tick`; it stamps every acquired frame with the session clock, publishes at least one, and all frames ever published carry strictly increasing ids |
| SupervisorProcess.StartSupervisor | src/daemon.rs:152-267 | which start is refused (policy, step interval, device default), and otherwise a loop state under the policy resolved from the queried default, seeded exactly when the register shows the relay's own brake |
| SupervisorProcess.StartsExactly | src/daemon.rs:152-218 | which starts succeed, in terms of configuration, step interval and queried default |
| SupervisorProcess.StartedCadenceIsAdmissible | src/daemon.rs:158-165 | a started process evaluates within its own age and interval limits, and its critical power never exceeds the queried default |
| SupervisorProcess.Supervisor.SpawnIntent | src/daemon.rs:945-976 | one command at most, only with the permit, into the slot of the wanted intent |
| SupervisorProcess.Supervisor.DispatchDueOrPending | src/daemon.rs:921-939 | a pending intent that no longer matches is dropped; a blocked one is kept |
| SupervisorProcess.Supervisor.AcquireRaw | src/daemon.rs:786-806 | busy, timed-out and failed reads count as an unavailable device; a timed-out reader keeps its permit |
| SupervisorProcess.Supervisor.ReassessAfterActuation | src/daemon.rs:736-750 | a completed actuation is recorded, then judged on a freshly read and stamped frame, which is published, before anything is dispatched |
| SupervisorProcess.VerdictOfFrame | src/telemetry.rs:639-677 | whatever the clock stamped before, the verdict on a stamped frame is that of its acquisition |
| SupervisorProcess.Supervisor.PerformOrderlyShutdown | src/daemon.rs:536-643 | the plan and the bounded joins, with no new command |
| SupervisorHealth.OkReadingsAreHealthy | src/safety.rs:489-562 | a reading counts as Ok exactly when its acquisition met every health condition |
| SupervisorHealth.EngagedAreGenuine | src/daemon.rs:786-806 | every evaluation counted towards a release carries the verdict on its own acquisition under the policy of the present session |
| Supervisors.DegradedReadings | src/telemetry.rs:522-556 | an unavailable device always reads as missing, software-only always as simulated |
| Gates.AtMostOnePermit | src/nvml_gate.rs:20-57 | after any interleaving of entries, returns, timeouts and cancellations at most one permit is live, the flag says so, and a caller is admitted exactly when every earlier worker has returned |
| Gates.AbandonedWaitStillBlocks | src/nvml_gate.rs:39-56 | a caller admitted in the past, its wait timed out or cancelled, keeps everyone out until its worker returns, whatever the others do meanwhile |
| Gates.NvmlGate.TryEnter | src/nvml_gate.rs:28-33 | compare-exchange admits exactly when nothing is in flight |
| SafetyMachines.FreshAndRecomputedDecisions | src/safety.rs:296-317 | the snapshot `evaluate` returns and the one `snapshot()` recomputes agree except precisely on a warning right after a release |
| SafetyMachines.RecordedDecisionsAgree | src/safety.rs:319-350 | after recording an outcome the two always agree |
| SafetyMachines.EvaluationIntents | src/safety.rs:352-381 | when an evaluation wants a release, an apply, or the brake at all |
| SafetyMachines.VerdictStates | src/safety.rs:352-381 | which policy state each verdict gives, both ways, and when the reported state differs from it |
| SafetyMachines.OutcomeEffects | src/safety.rs:319-350 | what each actuator outcome changes in the machine |
| SafetyMachines.TransitionsAreChanges | src/safety.rs:402-428 | a transition is announced and counted exactly when the reported state changes |
| SafetyMachines.ReleaseExactlyOnStreak | src/safety.rs:371-375 | over any frame sequence with the brake on, a release is wanted exactly when the all-Ok suffix has reached the streak |
| SafetyMachines.ApplyCompletionWantsRelease | src/safety.rs:322-326 | the machine alone would want a release after an apply exactly when its last verdict was healthy or a full streak stands |
| SafetyMachines.StreakNeedsReassessment | src/safety.rs:322-326 | concrete case: a healthy verdict followed by a completed apply yields Release with no Ok evaluation behind it |
| SafetyMachines.SimulationNeverActs | src/safety.rs:358-361 | a simulated frame wants no command, keeps the claim and costs the streak |
| SafetyMachines.SafetyMachine.Evaluate | src/safety.rs:302-317 | the mutable evaluation computes the transition of the frame's verdict |
| SafetyMachines.SafetyMachine.RecordActuator | src/safety.rs:319-350 | the mutable feedback computes the transition of the outcome |
| PowerLimits.PlannersFollowTheClassifier | src/gpu.rs:416-464 | for readable positive limits with an unambiguous target, classifier, apply plan and release plan cut the register into the same three parts |
| PowerLimits.BandsInWatts | src/safety.rs:758-800 | the classifier in watts, for every combination of readable limits |
| PowerLimits.ApplyPlanInWatts | src/gpu.rs:416-445 | what an apply plans and why it refuses, in watts, for every input |
| PowerLimits.ReleasePlanInWatts | src/gpu.rs:450-464 | what a release plans and why it refuses, in watts, for every input |
| PowerLimits.JobReports | src/gpu.rs:365-395 | a worker reports its panic, else the refusal of its plan, else how the command went |
| PowerLimits.BrakeTargetIsHalf | src/safety.rs:758-764 | the target is half the default, and there is none for defaults of 8 W or less |
| PowerLimits.BandsAreDisjoint | src/safety.rs:756-764 | for any product of default and fraction, however rounded, the brake band and the default band never meet |
| PowerLimits.ApplyThenRelease | src/gpu.rs:365-395 | braking and releasing from at or above the default ends at the default |
| PowerLimits.ApplyJobEffect | src/gpu.rs:365-378 | an apply worker leaves the register alone or moves it from the default band to the target; success means it is in the band |
| PowerLimits.ReleaseJobEffect | src/gpu.rs:383-395 | a release worker leaves the register alone or moves it from the brake band to the default |
| PowerLimits.NvmlActuator.ApplyEmergencyBrake | src/gpu.rs:365-378 | read, plan, at most one command |
| PowerLimits.NvmlActuator.ReleaseEmergencyBrake | src/gpu.rs:383-395 | read, plan, at most one command |
| Assessments.HealthAuthorisation | src/safety.rs:489-562 | assessment and classification say Ok exactly when the source is real, both readings are finite and in range, the source time is not in the future, age and cadence are within limits, power limits exist and both values are below warning |
| Assessments.VerdictsExactly | src/safety.rs:489-562 | every verdict, both ways, in terms of what was read: critical and warning exactly for real, complete, in-range, timely frames over or at the limits; missing, invalid, stale and simulated exactly otherwise |
| Assessments.FrameVerdicts | src/safety.rs:515-562 | the same for any frame with two readable samples, however it was made: the age of each sample counts |
| Assessments.SeverityIsMonotone | src/safety.rs:515-562 | hotter, hungrier, older or more strictly judged telemetry is never judged milder |
| Assessments.ReadingsExistAfterFaultCheck | src/safety.rs:502-513 | the error branch after the fault check is dead |
| Assessments.WorstFaultWins | src/safety.rs:650-664 | missing beats invalid beats stale, whichever channel carries it |
| Assessments.SourceTimeAndSafety | src/time.rs:76-92 | the clock's history changes no verdict; a source time from the future fails closed |
| SafetyPolicies.ResolvedPoliciesAreTheWellFormedOnes | src/safety/policy.rs:68-131 | a policy can come out of `resolve` exactly when it is well formed |
| SafetyPolicies.ResolvedExactly | src/safety/policy.rs:68-131 | which configurations are accepted for which device, and the effective limits and their source |
| SafetyPolicies.RefusedFor | src/safety/policy.rs:68-131 | which reason a refusal names |
| SafetyPolicies.CriticalPowerNeverExceedsTheDevice | src/safety/policy.rs:91-119 | with a known device default the effective critical limit never exceeds it |
| Clock.BatchIdsCountUp | src/time.rs:163-193 | whatever the source times, the i-th frame of a session carries the i-th id |
| Clock.StatusesFollowTheSession | src/time.rs:76-193 | the source-time status of every frame of a session, by its own times and the last source time seen before it |
| Clock.SampleClock.Stamp | src/time.rs:165-193 | stamping advances the sequence by one and remembers the source time |
| Telemetry.AssessWithClock | src/telemetry.rs:639-677 | a frame is assessed against the clock it is stamped by |
| Telemetry.MappedChannels | src/telemetry.rs:720-746 | exactly the four runtime-input channels are mapped, in inventory order |
| Telemetry.MappedValueIsNormalized | src/telemetry.rs:414-481 | a mapped value came from a finite, in-range, fresh reading and lies in [0, 1] |
| Telemetry.LinearScale | src/telemetry.rs:114-133 | a linear scale is affine between its ends and flat beyond them |
| Telemetry.SamplesCarryTheirReadings | src/telemetry.rs:412-448 | every channel of a frame carries its own reading with its own range and age limit; the four validities, exactly |
| Telemetry.MappingCarries | src/telemetry.rs:720-746 | session, id, times, source and cadence of a mapping are those of its frame |
| Telemetry.FreshnessIsOnlyLost | src/telemetry.rs:473-484 | mapping the same frame later never turns a channel valid |
| Wire.MappingToStimulusBatch | src/publish.rs:866-918 | the loop builds the batch of the mapping |
| Wire.BatchIsFaithful | src/publish.rs:866-918 | equal lengths; a mask bit exactly when the channel is valid at mapping time; values in [0, 1] behind it and 0 otherwise; names and validities can be read back |
| Wire.BatchPublishesReadings | src/publish.rs:866-918 | each mask bit exactly when the reading was in range, not from the future and young enough at assessment and now, and behind it the reading as a fraction of 100 degrees, 350 W, 2500 MHz or 100 % |
| Wire.BatchDescribesItself | src/publish.rs:894-918 | session, id, time stamp, identity and the provenance strings of a batch |
| Wire.BatchStatesItsLimits | src/publish.rs:894-905 | the age limits read back from a batch are the ones its channels are held to |
| Wire.UnavailableDevicePublishesNothing | src/telemetry.rs:540-556 | without a device every channel is masked out and every value zero |
| Wire.SoftwareFallbackPublishesEstimates | src/telemetry.rs:522-538 | simulated telemetry carries the documented idle estimates, each valid |
| Wire.ListsAreRecoverable | src/publish.rs:894-905 | splitting the joined channel, validity and threshold strings recovers the lists |
| Wire.MaskOnlyShrinks | src/publish.rs:866-892 | publishing the same frame later reveals no channel that was masked out before |
| Publishers.ClonesCanOvertake | src/publish.rs:747-760 | two cloned publishers sharing a session sequence: ids 0 and 1 are taken in order, offered and received as 1, 0 |
| Publishers.IncreasingExactlyInNumberingOrder | src/publish.rs:746-761 | for any schedule of overlapping calls: ids reach the worker strictly increasing in every run with those calls if and only if the batches are offered in the order in which the numbers were taken |
| Publishers.WorkerSeesIncreasingIds | docs/ipc.md:148-149 | a single producer, whose calls never overlap, is received with strictly increasing ids whatever is lost, for session numbers and for frames with increasing ids |
| Publishers.NumberedIncreasing | src/publish.rs:747-753 | in every run the numbers taken grow in the order of taking, up to the width of the counter: always under a session override, otherwise when the frames handed in carry growing ids |
| Publishers.NumberedFor | src/publish.rs:747-753 | whose session and number a batch carries |
| Publishers.CorpusIpcPublisher.TakeNumber | src/publish.rs:747-754 | the number comes from the sequence all clones share, and is consumed whatever happens next |
| Publishers.CorpusIpcPublisher.Send | src/publish.rs:755-760 | a refused batch is counted as a failed send, any other is offered to the queue |
| Publishers.CorpusIpcPublisher.TryPublish | src/publish.rs:746-761 | an uninterrupted call: number, convert, validate, enqueue; a refused batch still consumes its number |
| Publishers.CorpusIpcPublisher.CloneOf | src/publish.rs:691-697 | a clone is one more handle and shares queue and sequence |
| SensoryQueues.EveryFrameIsAccountedFor | src/publish.rs:529-685 | over any interleaving, offered = received + buffered + dropped by reason, the buffer respects its capacity, and `producers` counts the live handles |
| SensoryQueues.DeliveredInOfferOrder | src/publish.rs:529-566 | received followed by buffered is a subsequence of offered |
| SensoryQueues.DeliveredIncreasing | src/publish.rs:529-566 | a feed with strictly increasing keys is delivered strictly increasing |
| SensoryQueues.PausedConsumerKeeps | src/publish.rs:547-566 | with the consumer paused and no contention, drop-oldest holds exactly the newest frames and reject-newest exactly the oldest |
| SensoryQueues.BufferIsTheNewest | src/publish.rs:557-563 | with receives and handles interleaved in any way, without contention a drop-oldest buffer is always the unbroken tail of what was offered |
| SensoryQueues.DropOldestReportsSuccess | src/publish.rs:557-563 | a full drop-oldest queue answers success, keeps the new frame and counts the lost one |
| SensoryQueues.SlowConsumerExactly | src/publish.rs:529-566 | `SlowConsumer` is answered exactly on contention or by a full connected reject-newest queue |
| SensoryQueues.AnswersExactly | src/publish.rs:529-566 | when an offer is answered with success and when with disconnected, and what it leaves behind |
| SensoryQueues.CountersCount | src/publish.rs:569-588 | over any interleaving the enqueue counter counts the accepted offers and the send-failed counter the failed sends |
| SensoryQueues.PollExactly | src/publish.rs:634-649 | the worker gets the oldest frame, waits while handles live, finishes after the last |
| SensoryQueues.DropOldestHidesItsLosses | src/publish.rs:529-566 | over any interleaving, `SlowConsumer` is answered once per frame rejected or lost to contention and never for those drop-oldest forgot; a success hides a loss exactly when the queue was full under drop-oldest |
| SensoryQueues.FinishedMeansDrained | src/publish.rs:634-649 | the worker sees Finished exactly when nothing is buffered and no handle is left; from then on offered = received + dropped for good |
| SensoryQueues.TryLockWithSpin | src/publish.rs:804-820 | contention is reported exactly when all 128 tries found the lock taken |
| SensoryQueues.SharedQueue.TryEnqueue | src/publish.rs:529-566 | the new queue state and result for every lock outcome, connection state, fill level and policy |
| SensoryQueues.SharedQueue.RecordPublishLoss | src/publish.rs:569-588 | a loss is counted under the lock, or lock-free when it cannot be had |
| SensoryQueues.SharedQueue.PollWorker | src/publish.rs:634-649 | message, idle or finished |
| SensoryQueues.SharedQueue.Disconnect | src/publish.rs:667-685 | dropping the consumer clears the buffer and counts the leftovers |
| TelemetryCsv.RoundTrip | src/telemetry_csv.rs:233-274 | parsing the formatted text of any finite rows returns exactly those rows with nothing skipped |
| TelemetryCsv.EveryDataLineIsAccountedFor | src/telemetry_csv.rs:166-236 | a load fails exactly on a missing or different header; otherwise data lines = rows + skipped + blank lines |
| TelemetryCsv.LineExactly | src/telemetry_csv.rs:181-217 | what any comma-separated list means: a row exactly when it has an unsigned 64-bit number and four finite ones, each for its own column |
| TelemetryCsv.BlankExactly | src/telemetry_csv.rs:181-185 | a line is blank exactly when it is nothing but whitespace |
| TelemetryCsv.LoadErrors | src/telemetry_csv.rs:166-180 | why a load fails |
| TelemetryCsv.FormattedText | src/telemetry_csv.rs:46-60 | the header and the columns of every line, in order |
| Text.TrimExactly | src/telemetry_csv.rs:181-185 | trimming takes away the whitespace at both ends and nothing else |
| TelemetryCsv.LoadedRowsAreFinite | src/telemetry_csv.rs:181-217 | only finite values come out of a file |
| TelemetryCsv.FormatCsv | src/telemetry_csv.rs:267-274 | the loop writes the header and one line per row |
| TelemetryCsv.CollectRows | src/telemetry_csv.rs:219-230 | the loop keeps rows and counts skipped lines as specified |
| TelemetryCsv.ParseCsv | src/telemetry_csv.rs:233-237 | header check, then collection |

## Where code and documentation disagree

- docs/safety.md:83-84 says a warning immediately after a release re-applies the
  brake. The loop dispatches from a recomputed snapshot in which that fact is
  already cleared (src/safety.rs:304-305, src/daemon.rs:402-413), so it does not.
  `SupervisorWitnesses.WarningAfterReleaseIsNotReapplied` is the failing run,
  `SupervisorResponse.PostReleaseBoundary` the exact boundary.
- docs/safety.md:65-71 promises that missing telemetry fails closed to the
  brake. A release command that writes the limit and still reports failure
  (src/gpu.rs:490-502, src/safety.rs:343-347) leaves the brake claimed and the
  limit at the default. From then on fail-closed telemetry does not brake the
  device: `SupervisorWitnesses.FailedReleaseLosesTheBrake` is the failing run,
  `SupervisorBraking.FailClosedOutcome` the exact condition. A restart repairs
  the claim, since start-up reads the register
  (`SupervisorAgreement.StartedAgrees`).
- docs/ipc.md:150-151 says drop-oldest returns `SlowConsumer`. The code returns
  success (src/publish.rs:557-563): `SensoryQueues.DropOldestReportsSuccess`.
  `SensoryQueues.SlowConsumerExactly` says when callers do hear it, and
  `SensoryQueues.DropOldestHidesItsLosses` when a success hides a loss.
- docs/ipc.md:148-149 rules out reordering because there is one producer. The
  publisher itself does not enforce that: it is cloneable and numbers a batch
  before it offers it. `Publishers.ClonesCanOvertake` is the failing run,
  `Publishers.IncreasingExactlyInNumberingOrder` the exact condition.

## Left out

- NVML, `nvidia-smi`, `sudo`, UUID resolution and command vectors: one register with success, failure and effect chosen by the environment; an unresolved GPU is covered by unreadable limits.
- Other writers of the power limit, a default limit that changes, and a command still in flight after process exit: an in-flight command resolves no later than the crash or exit.
- Durations, the async runtime, signals and sockets: timeouts, finished tasks and signals are events. Step and producer counters are taken below 2^64.
- The result of publication inside the loop: it returns promptly and changes no safety state (src/publish.rs:958-966), so an iteration only records which frames it hands over.
- Prometheus, tracing, dashboard, command line, lock files, log reasons, shutdown summaries and error texts.
- Mutex poisoning in the interleavings, JSON encoding and batch validation: validation is an arbitrary verdict; `TryEnqueue` itself covers a poisoned lock.
- `f32` rounding: values are reals plus NaN and infinities. The device-default-too-small error of the policy needs rounding to occur; the brake target is exact because watts stay below 2^24.
- Float printing and parsing in the CSV: a parameter assumed to round-trip on finite values and to print neither comma nor whitespace.
- `row_for_tick`, `at_time`, observability snapshots, units, signal origins and timestamp origins: lookups and labels without further laws.
