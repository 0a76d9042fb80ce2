# ACH agent: a verified model of its protocols

A Dafny model of the parts of the ACH agent whose correctness spans several functions or a whole
run, with proofs about every input, every run or every reachable state.

- **Execution service** (`Execution*.dfy`): many invocations share one reservation per session. An
  owner, a deadline, an explicit cancel, a settlement waiter and one cleanup race over each record.
  Every stretch of code without a suspension is one atomic step; the engine may succeed, reject
  cleanly, fail ambiguously or never answer.
- **OpenCode event interpreter** (`Opencode*.dfy`): a sequence-numbered stream folded into busy
  periods, deliveries, usage and settlements, with a replay for an input id learnt late.
- **Host loop** (`Host*.dfy`): every call of a pass is recorded with an arbitrary answer, for the
  safety rules; the same pass is then played against a world of units and registrations, for
  convergence.
- **Workspace volumes** (`Volume*.dfy`): the unit backend as single calls between which the cluster
  moves on its own, with the retention marks over whole runs.
- **Filesystem swaps** (`Snapshots.dfy`), **process ownership** (`Processes.dfy`), **A2A replies**
  (`Json*.dfy`, `A2A*.dfy`), **cron**, **queue** and **routing keys** (`Cron.dfy`, `Queue.dfy`,
  `Routing.dfy`).

Code that updates objects in place is a class here, code with loops a method with loops; each such
method is proved equal to a function on values or to its promised result, and the results about
runs are proved of these functions. `dafny verify dfyconfig.toml` checks the whole project.

## What the proofs found

- A late receipt is not always harmless (`OpencodeLateReceipt.LateReceiptSettlesAlike`): with nested
  busy periods around the delivery the live path takes the innermost and the replay the outermost.
  Without nesting the two agree, for every stream and every moment.
- A volume may be swept up to one second early, because the mark keeps whole seconds: exactly when
  the sweep comes before the detach time plus the retention, which some run does unless the detach
  falls on a whole second (`VolumeSafety.SweptEarlyIff`, `VolumeSafety.EarlySweepIff`).
- A volume may be marked while mounted if one Workspace exists under both its current and its former
  sandbox name. The exact starts from which no run does so are those of `VolumeSafety.NeverMarkedIff`,
  and of `VolumeSafety.NeverMarkedWhenProtectedIff` where the cluster protects mounted claims.
- A printed reply is extracted exactly when the text holds no fenced block or the block holds the
  whole reply (`A2ARoundTrip.ExtractedIffSearched`). One that quotes fenced code in its own text is
  not (`A2ARoundTrip.AloneExtractedIff`).
- A live unit whose registration has another address keeps it for good; all else converges to its own
  address (`HostRounds.OwnAddressesIff`).
- A recycled pid keeps its old identity in the owned set, so the new process under that pid is not
  recorded (`Processes.EveryDescendantIsRecorded`).
- The pending sweep restarts exactly when the broker answers an exhausted read with nothing at all
  (`Queue.RoundResetsIff`, `Queue.AnEmptyStreamNeverResets`).
- The pair encoding of session keys is injective except for strings that hold a split surrogate pair
  (`Routing.SplitPairsCollide`), so not "over all strings".
- After its swap `_replace_path` may raise when the previous content is a file or link that cannot be
  removed, and may leave a part of a directory without an error; the target is then already the
  staged one (`Snapshots.ReplacePath`).

## Model

| member | source | states |
|---|---|---|
| ExecutionSafety.UnconfirmedWorkHoldsTheSession | runtime/src/ach_runtime/execution/service.py:365-378 | In every reachable state, an invocation whose send may have reached the engine and whose halt is not yet proved holds the reservation of its session; no other invocation of that session and no outside holder does. |
| ExecutionSafety.NoConcurrentNativeWork | runtime/src/ach_runtime/execution/service.py:621-814 | Two invocations of one session never have live native work at once, over every interleaving of owner, deadline, cancel, settlement and cleanup and every way the engine answers. |
| ExecutionSafety.OnceEach | runtime/src/ach_runtime/execution/service.py:302-346 | In every reachable state: the engine was started at most once per record, at most one cleanup was claimed, `started` was resolved at most once, and a retained invocation id has one record. |
| ExecutionSafety.RetryJoins | runtime/src/ach_runtime/execution/service.py:309-315 | A retry with the same data joins the retained record, one with other data is refused, and neither changes anything. |
| ExecutionSafety.FinishedStaysFinished | runtime/src/ach_runtime/execution/service.py:609-619 | Once `terminal_at` is set, state and time of the record never change again, whatever happens later. |
| ExecutionSafety.FirstClaimDecides | runtime/src/ach_runtime/execution/service.py:874-887 | The first claim decides the end of an unfinished invocation: after the deadline it is failed, after an explicit cancel cancelled, or unknown when the halt was not proved, whatever else fires afterwards. |
| ExecutionSafety.OnlyEvictableRecordsLeave | runtime/src/ach_runtime/execution/service.py:1002-1031 | A record leaves the registry only for a start that found it full, and only if it is finished, known, past its window, without reservation and without unfinished cleanup task. |
| ExecutionSafety.OtherEventsKeepTheRegistry | runtime/src/ach_runtime/execution/service.py:1002-1031 | Nothing but a start evicts a record. |
| ExecutionSafety.StartKeepsTheBound | runtime/src/ach_runtime/execution/service.py:1028-1031 | A start never makes the registry larger than the maximum of 1024 and its previous size, also when restores grew it past the bound. |
| ExecutionSafety.StartsAloneStayBounded | runtime/src/ach_runtime/execution/service.py:1002-1031 | A registry grown by starts alone never exceeds 1024 records. |
| ExecutionSafety.DropKeeps | runtime/src/ach_runtime/execution/service.py:1008-1031 | Eviction keeps the order of the others and removes only evictable records. |
| ExecutionSafety.DropShrinksIff | runtime/src/ach_runtime/execution/service.py:1025-1031 | Eviction shrinks the registry by at least one exactly when some record is evictable; a full registry without one refuses the start. |
| ExecutionSafety.StretchKeeps | runtime/src/ach_runtime/execution/service.py:348-528 | Every stretch of every task keeps the record invariant, moves the session lock only as its own reservation moves, and only moves the record onward: no send, proof, claim or resolution is undone. |
| ExecutionSafety.RunKeepsRecords | runtime/src/ach_runtime/execution/service.py:348-814 | The same over whole runs: any later state of a record lies onward of the earlier one. |
| ExecutionSafety.NextKeepsInv | runtime/src/ach_runtime/execution/service.py:302-346 | Every event of the whole service keeps the system invariant, which ties each session lock to exactly one holder. |
| ExecutionSafety.RunKeepsInv | runtime/src/ach_runtime/execution/service.py:348-899 | Every run of events keeps the system invariant. |
| ExecutionSafety.DropTakesTheOldest | runtime/src/ach_runtime/execution/service.py:1022-1031 | Of two evictable records the older one goes first. |
| ExecutionSafety.DropStopsShort | runtime/src/ach_runtime/execution/service.py:1025-1031 | Eviction stops short of the number it needs only when no evictable record is left. |
| ExecutionSafety.EvictableIff | runtime/src/ach_runtime/execution/service.py:1008-1021 | A record can leave exactly when it is finished with a known state, past its window, holds no reservation and no cleanup task of it is unfinished. |
| ExecutionSafety.AdmittedIff | runtime/src/ach_runtime/execution/service.py:309-346 | In every reachable state a start of a new id is admitted exactly when 1024 is not reached or some record can leave; it then adds one untouched record. |
| ExecutionSafety.AdoptedIff | runtime/src/ach_runtime/execution/service.py:1180-1218 | A restored run is adopted exactly when it is finished and its id is not there. |
| ExecutionSafety.OutsideTakes | runtime/src/ach_runtime/execution/service.py:365-378 | A holder outside the invocations gets a session exactly when it is free, and gives back exactly that one. |
| ExecutionRelease.FinishedHoldsNothing | runtime/src/ach_runtime/execution/service.py:779-899 | In every reachable state a run that ended with a known state has given its reservation back and its owner has stopped. |
| ExecutionRelease.LockedIffHeld | runtime/src/ach_runtime/execution/service.py:365-378 | In every reachable state a session is locked exactly when an outside holder or one of its invocations has it: no lock is left behind. |
| ExecutionRelease.RaisedEndsUnknown | runtime/src/ach_runtime/execution/service.py:677-777 | A run whose owner ended with an exception ends unknown. |
| ExecutionEnds.EndsExactly | runtime/src/ach_runtime/execution/service.py:348-814 | In every reachable state, for every stretch: an unfinished run ends at once exactly in the listed cases, in the state that belongs to them, with the answer to its caller and its reservation given back. |
| ExecutionEnds.SettlementDecides | runtime/src/ach_runtime/execution/service.py:779-814 | The outcome that the engine settled is the state the run ends with, whatever happens afterwards. |
| ExecutionEnds.ClaimsExactly | runtime/src/ach_runtime/execution/service.py:646-675 | Which stretches claim the cleanup of an unfinished run, with which end and which answer to the caller. |
| ExecutionEnds.ClaimDecides | runtime/src/ach_runtime/execution/service.py:646-777 | Every first claim decides the end over every later run: its own state, or unknown when the halt is not proved. |
| ExecutionEnds.CleanupDecides | runtime/src/ach_runtime/execution/service.py:737-777 | The cleanup gives the reservation back exactly when both retained tasks ended without error; otherwise the run ends unknown and keeps it. |
| ExecutionEnds.ARunCompletes | runtime/src/ach_runtime/execution/service.py:348-814 | From every reachable state an admitted run whose session is free can be reserved, sent, started and settled; it ends as the engine says, its session free again. |
| ExecutionEnds.AClaimReachesItsEnd | runtime/src/ach_runtime/execution/service.py:646-777 | From every reachable state an unfinished run whose owner has not raised can be brought to its end by the deadline or a cancel, and gives its session back. |
| ExecutionService.Invocation.Resolve | runtime/src/ach_runtime/execution/service.py:526-527 | `started` is set at most once. |
| ExecutionService.Invocation.ReleaseSessionLock | runtime/src/ach_runtime/execution/service.py:889-899 | Reads and clears the reservation and unlocks exactly that lock; without a reservation nothing happens. |
| ExecutionService.Invocation.FailBeforeStarted | runtime/src/ach_runtime/execution/service.py:594-619 | Updates the object in place as the protocol step of the same name; a terminal record is left alone. |
| ExecutionService.Invocation.FinishWithoutEngine | runtime/src/ach_runtime/execution/service.py:530-551 | Finishes a run that never reached the engine and releases its reservation. |
| ExecutionService.Invocation.EnsureCleanup | runtime/src/ach_runtime/execution/service.py:662-675 | Claims the one cleanup, or leaves the claim that is there. |
| ExecutionService.Invocation.OwnerBegin | runtime/src/ach_runtime/execution/service.py:348-378 | The owner up to its first suspension: expired deadline, waiting for the reservation, or reserved. |
| ExecutionService.Invocation.OwnerAcquire | runtime/src/ach_runtime/execution/service.py:365-378 | Taking the reservation and recording it are one stretch; a claimed cleanup keeps it. |
| ExecutionService.Invocation.OwnerHook | runtime/src/ach_runtime/execution/service.py:395-441 | What follows the session hook in each of its endings. |
| ExecutionService.Invocation.OwnerProbe | runtime/src/ach_runtime/execution/service.py:466-489 | The last checks before the send, and the first stretch of `engine.start` in the same step as `possible_send`. |
| ExecutionService.Invocation.OwnerSend | runtime/src/ach_runtime/execution/service.py:489-528 | What follows the send: receipt, cancellation, timeout, clean rejection, ambiguous failure. |
| ExecutionService.Invocation.FailAfterPossibleSend | runtime/src/ach_runtime/execution/service.py:621-644 | A clean rejection releases at once; anything else goes through the halt-confirming cleanup. |
| ExecutionService.Invocation.HoldUntilSettled | runtime/src/ach_runtime/execution/service.py:779-814 | Settlement finishes and releases, unless a cleanup owns the end; a lost settlement claims the cleanup. |
| ExecutionService.Invocation.TimeoutCancel | runtime/src/ach_runtime/execution/service.py:874-887 | The deadline resolves `started` and claims a failed end. |
| ExecutionService.Invocation.ExplicitCancel | runtime/src/ach_runtime/execution/service.py:923-941 | An explicit cancel joins a claimed cleanup, leaves a finished run alone, becomes the deadline when that has passed, and claims a cancelled end otherwise. |
| ExecutionService.Invocation.CleanupTasksBegin | runtime/src/ach_runtime/execution/service.py:730-735 | The first stretches of the two retained cleanup tasks, adjacent and in the order of their creation. |
| ExecutionService.Invocation.CleanupEnd | runtime/src/ach_runtime/execution/service.py:737-777 | The cleanup releases only when both retained tasks finished without error; otherwise the record ends unknown and keeps its reservation. |
| ExecutionService.Invocation.Perform | runtime/src/ach_runtime/execution/service.py:348-899 | Every stretch, performed on the object, equals the protocol step on its value. |
| ExecutionService.Service.Start | runtime/src/ach_runtime/execution/service.py:302-346 | The registry lookup, the capacity check, the new record and its owner, as the protocol event. |
| ExecutionService.Service.Evict | runtime/src/ach_runtime/execution/service.py:1008-1032 | The loop over the registry removes the oldest evictable records first and no more than needed. |
| ExecutionService.Service.ReserveCapacity | runtime/src/ach_runtime/execution/service.py:1002-1032 | Below the bound nothing is evicted; at the bound without an evictable record the start is refused. |
| ExecutionService.Service.AdoptRestoredRun | runtime/src/ach_runtime/execution/service.py:1180-1218 | A restored run is added once, finished, without a capacity check; an id that is there, or an unfinished run, adds nothing. |
| ExecutionService.Service.RunStretch | runtime/src/ach_runtime/execution/service.py:348-899 | A stretch of one invocation changes the shared session lock and nothing of any other record. |
| OpencodePeriods.PeriodsAreLaminar | runtime/src/ach_runtime/engine/opencode.py:392-499 | Over every stream, busy periods start in increasing order and any two are disjoint or nested. |
| OpencodePeriods.ClosedPeriodsAreFinal | runtime/src/ach_runtime/engine/opencode.py:481-499 | Whatever is received later, a closed period changes only in its `used` mark, which is never taken back. |
| OpencodePeriods.SettlementsAreInjective | runtime/src/ach_runtime/engine/opencode.py:501-516 | Settlements map invocations injectively to closed periods, each containing the delivery of its own invocation. |
| OpencodePeriods.DoKeeps | runtime/src/ach_runtime/engine/opencode.py:361-390 | Every event, registration, receipt, cancel and halt keeps the session invariant and all closed periods. |
| OpencodePeriods.ResolveOneKeeps | runtime/src/ach_runtime/engine/opencode.py:501-516 | One round of resolving takes a period at most once and settles by what that period says. |
| OpencodeUsage.BusyFollowsTheLog | runtime/src/ach_runtime/engine/opencode.py:361-390 | The busy periods, marks aside, are a function of the accepted durable events alone. |
| OpencodeUsage.PositionsExact | runtime/src/ach_runtime/engine/opencode.py:439-466 | The reference attribution: exactly the step and compaction terminals that meet a period count for it. |
| OpencodeUsage.PeriodCounts | runtime/src/ach_runtime/engine/opencode.py:439-466 | A period has counted exactly its attributed step terminals and recorded exactly its attributed compaction terminals, in order. |
| OpencodeUsage.AddAllSums | runtime/src/ach_runtime/engine/opencode.py:518-534 | Accumulating gives exactly the sum of the finite values, and no value when there was none. |
| OpencodeAttribution.SettledUsageIsExact | runtime/src/ach_runtime/engine/opencode.py:501-560 | Every counter of a settled invocation is exactly the sum of the finite values of the events attributed to it, and its steps are their number; without any, there is no usage record. Which events these are is said without the interpreter by `OpencodeEvidence.AttributedIff`. |
| OpencodeAttribution.NoEventCountsTwice | runtime/src/ach_runtime/engine/opencode.py:501-549 | An accepted event contributes to the settlement usage of at most one invocation. |
| OpencodeAttribution.EachStartCountsOnce | runtime/src/ach_runtime/engine/opencode.py:416-466 | In every period the counted ends of a step never outnumber its starts, and each recorded compaction consumed exactly one start. |
| OpencodeAttribution.AttributedOnce | runtime/src/ach_runtime/engine/opencode.py:536-549 | Nor does an event count twice for one invocation. |
| OpencodeEvidence.StepsUnderway | runtime/src/ach_runtime/engine/opencode.py:416-447 | A step is underway in a period exactly when an accepted start of it met that period and no later end of it did. |
| OpencodeEvidence.StepPositions | runtime/src/ach_runtime/engine/opencode.py:439-447 | A step terminal counts for a period exactly when it met the period and, by the events before it alone, its step was underway there. |
| OpencodeEvidence.MatchIsBest | runtime/src/ach_runtime/engine/opencode.py:451-461 | A compaction terminal takes the first start of its own input, else the first unnamed one; without an id the first of all. |
| OpencodeEvidence.CompactionPositions | runtime/src/ach_runtime/engine/opencode.py:448-466 | A compaction terminal counts for a period exactly when, by the events before it alone, a start was waiting there that it may take. |
| OpencodeEvidence.DeliveriesKnown | runtime/src/ach_runtime/engine/opencode.py:426-432 | An input counts as delivered in a period exactly when an accepted delivery of it met that period. |
| OpencodeEvidence.TextsKnown | runtime/src/ach_runtime/engine/opencode.py:468-480 | Under each ordinal a period holds the last text that its last step wrote there. |
| OpencodeEvidence.PeriodsKnown | runtime/src/ach_runtime/engine/opencode.py:392-499 | A period is one accepted execution start; it is closed by the first terminal that found it the latest open one, and has the outcome and the error of that terminal: completed, failed with its data, or cancelled when interrupted. |
| OpencodeEvidence.AttributedIff | runtime/src/ach_runtime/engine/opencode.py:536-549 | What counts for a settled input, by the events alone: the step terminals of its period and the compaction terminals charged to it. |
| OpencodeEvidence.SettledUsageByEvents | runtime/src/ach_runtime/engine/opencode.py:501-560 | Over every stream: a settled invocation reports as many steps as step terminals count by the events, and in every field the sum of the finite values of the events that count for it. |
| OpencodeEvidence.SettledResultByEvents | runtime/src/ach_runtime/engine/opencode.py:495-498 | Over every stream: its result spells, ordinal by ordinal, the last texts of the last step of its period. |
| OpencodeEvidence.SettledOutcomeByEvents | runtime/src/ach_runtime/engine/opencode.py:501-513 | Over every stream: it was delivered between the start of its period and the terminal that ended it, and reports what that terminal says, unless a confirmed halt made it cancelled. |
| OpencodeInbox.InputsAreKnown | runtime/src/ach_runtime/engine/opencode.py:562-574 | Over every stream: an unsettled invocation knows exactly whether its input was delivered since it was registered, when last, and whether it waits in the inbox again. |
| OpencodeInbox.NoneIsLeftWaiting | runtime/src/ach_runtime/engine/opencode.py:501-516 | Over every stream: no delivered invocation stays unsettled while a closed period around its delivery is not taken. |
| OpencodeInbox.AcceptedIff | runtime/src/ach_runtime/engine/opencode.py:361-377 | Over every stream: an event is accepted exactly when it is not durable, or is of the session with a positive number beyond those of all accepted ones. |
| OpencodeEndings.OpenOnesRun | runtime/src/ach_runtime/engine/opencode.py:562-574 | Over every stream: an invocation runs from its receipt on and reports nothing until it is settled; a settled one has an end. |
| OpencodeEndings.EndsAsToldTo | runtime/src/ach_runtime/engine/opencode.py:501-516 | Over every stream: an operation settles an invocation exactly when it halts it, refuses it before its receipt, or lets it take a closed period, whose outcome and error it then reports; nothing else changes its end, and its error only a cancel that finds none. |
| OpencodeTexts.ResultsSpellTheLastStep | runtime/src/ach_runtime/engine/opencode.py:495-498 | A settled invocation reports the texts of its period's last step, each ordinal once, in increasing order, or nothing when there was none. |
| OpencodeTexts.PutTextIsUpdate | runtime/src/ach_runtime/engine/opencode.py:468-480 | A later text under the same ordinal replaces the earlier one and leaves the others alone. |
| OpencodeReplay.RedeliveryChangesNothing | runtime/src/ach_runtime/engine/opencode.py:361-390 | Inserting re-deliveries or events of other aggregates anywhere later in a stream leaves the periods, the sequence mark and every settlement unchanged, live and under replay. |
| OpencodeReplay.ReplayIsKept | runtime/src/ach_runtime/engine/opencode.py:576-588 | A replay depends only on the accepted events of the log. |
| OpencodeLateReceipt.LateReceiptSettlesAlike | runtime/src/ach_runtime/engine/opencode.py:576-588 | For every stream and every moment of the receipt, the only unsettled invocation, delivered at most once by then, settles as if its id had been known from the baseline exactly when no two closed periods contain its delivery at that moment. |
| OpencodeLateReceipt.NestingHappens | runtime/src/ach_runtime/engine/opencode.py:392-516 | Such a moment exists in a session that two starts make of a fresh one: the input is delivered, one execution succeeds and the other fails. With the id known at once the invocation completes, with the late receipt it has failed. |
| OpencodeLateReceipt.ReceiptDiffers | runtime/src/ach_runtime/engine/opencode.py:501-516 | With several closed periods around the delivery the late receipt takes the outermost, while the live one took the innermost. |
| OpencodeLateReceipt.ReceiptAgrees | runtime/src/ach_runtime/engine/opencode.py:576-588 | With at most one, the receipt finds the same period, outcome, error, result and usage. |
| OpencodeLateReceipt.InnermostStays | runtime/src/ach_runtime/engine/opencode.py:481-499 | Later events never close a period inside one that is closed. |
| OpencodeSession.NativeSession.RecordAndDispatch | runtime/src/ach_runtime/engine/opencode.py:361-390 | The handler that appends to the log, advances the mark and updates periods and invocations in place equals the interpreter on values. |
| OpencodeSession.NativeSession.ApplyDurableEvent | runtime/src/ach_runtime/engine/opencode.py:392-499 | Every kind of event changes the latest open period, and only it, as specified. |
| OpencodeSession.NativeSession.LatestOpen | runtime/src/ach_runtime/engine/opencode.py:419-419 | The reversed search finds the latest period without an end. |
| OpencodeSession.NativeSession.EndCompaction | runtime/src/ach_runtime/engine/opencode.py:448-466 | The terminal is matched to its own start first, then to an unnamed one; without an id to the oldest. |
| OpencodeSession.NativeSession.UsageForInterval | runtime/src/ach_runtime/engine/opencode.py:536-549 | The period's usage plus the compactions charged to the input. |
| OpencodeSession.NativeSession.ResolvePending | runtime/src/ach_runtime/engine/opencode.py:501-516 | The nested loops settle each waiting invocation by the first closed unused period that contains its delivery. |
| OpencodeSession.NativeSession.ReconcileFromBaseline | runtime/src/ach_runtime/engine/opencode.py:576-588 | Replays the accepted tail of the log until settled, then resolves. |
| OpencodeSession.NativeSession.Register | runtime/src/ach_runtime/engine/opencode.py:1060-1061 | A new invocation starts at the end of the log, without an id. |
| OpencodeSession.NativeSession.ReceiptReturned | runtime/src/ach_runtime/engine/opencode.py:1222-1227 | The prompt receipt sets the id and replays what was recorded since the baseline. |
| OpencodeSession.NativeSession.Refuse | runtime/src/ach_runtime/engine/opencode.py:1217-1219 | A prompt the engine refuses fails and settles its invocation; it never gets an id. |
| OpencodeSession.NativeSession.BeginCancel | runtime/src/ach_runtime/engine/opencode.py:1354-1356 | A cancel records its reason only where no error is known yet. |
| OpencodeSession.NativeSession.ConfirmHalt | runtime/src/ach_runtime/engine/opencode.py:1447-1448 | A confirmed halt settles the invocation as cancelled. |
| HostSafety.PassIsSafe | operator/internal/host/host.go:280-338 | For every listing and every pattern of answers: a removal only of what is released, unlisted and owned, or lost without a registration; a DELETE only after Remove left nothing, or for a unit seen lost under its own registered address with a listed id; a create only of an absent unregistered unit; a registration only of a started one; and nothing at all after a gateway-unavailable answer. |
| HostSafety.NothingAfterAnOutage | operator/internal/host/host.go:302-328 | No create, remove, register or DELETE follows the first gateway-unavailable answer of a pass. |
| HostSafety.SyncWaitsForAdoption | operator/internal/host/host.go:361-405 | One iteration of the loop makes no such call while the listing is adopting, on the inventory path too; otherwise its calls are those allowed for the listing it was given. |
| HostSafety.EveryWorkspaceIsVisited | operator/internal/host/host.go:280-318 | One failing Workspace does not stop the others: unless the gateway is unavailable every running one is looked at and every released one is asked to go. |
| HostSafety.EveryOtherUnitIsAskedToGo | operator/internal/host/host.go:310-330 | Nor the units: once they are listed, each that no Workspace names is asked to go, whichever of the others fail. |
| HostSafety.EnsureRunningSafe | operator/internal/host/host.go:173-221 | The rule for a running Workspace, for all its answers. |
| HostSafety.RetireSafe | operator/internal/host/host.go:224-235 | The rule for a released Workspace, for all its answers. |
| HostSafety.SyncRemembers | operator/internal/host/host.go:361-405 | What an iteration remembers: the epoch of an accepted inventory or of a reconciled listing, and an empty cursor after a failed pass, so that the next listing comes at once. Whether the inventory was sent is said by `HostSafety.InventoryIff`. |
| HostSafety.InventoryIff | operator/internal/host/host.go:377-393 | The inventory is sent exactly when an adopting listing of a new epoch found the Agent and its live units without fault: once, for that epoch, with those units. While adopting, the epoch is taken exactly when that call was answered without fault. |
| HostSafety.AdoptionEnds | operator/internal/host/host.go:341-393 | How such an iteration ends for every answer pattern: its fault, epoch, cursor and gateway flag; a stale epoch is no failure, and the control unit is told of the gateway unless the inventory failed. |
| HostFaults.EveryFaultIsReported | operator/internal/host/host.go:280-338 | For every listing and every answer pattern a pass fails exactly with the faults that its calls met, in their order, a refused registration among them; an outage met at a unit makes it pending. |
| HostSafety.SweepsIffClean | operator/internal/host/host.go:310-338 | A pass ends with the sweep exactly when the Agent was loaded and nothing failed. |
| HostSafety.GatewayReports | operator/internal/host/host.go:263-273 | The control unit is told the availability exactly when it was last told something else, and the told value moves only when the call succeeded. |
| HostSafety.PassNotesTheGateway | operator/internal/host/host.go:287-290 | After a pass with errors the gateway counts as down exactly when the last answer said so; a pass without errors ends with the sweep. |
| HostPending.PendingMeansOnItsWay | operator/internal/host/host.go:275-338 | An error-free pass reports pending exactly when a running Workspace is still on its way or a unit that must not exist is not gone yet. |
| HostConvergence.PassMoves | operator/internal/host/host.go:280-338 | An error-free pass moves every listed name as one visit does and asks every unlisted unit to go, and touches no other name. |
| HostConvergence.VisitMoves | operator/internal/host/host.go:173-235 | What one visit does to the unit and the registration of its own Workspace, and that it does nothing else. |
| HostRounds.RoundDecreases | operator/internal/host/host.go:280-338 | Every round of environment progress and an error-free pass strictly decreases the measure until the listing is reached, and keeps it reached. |
| HostRounds.EveryRunReachesTheListing | operator/internal/host/host.go:173-338 | From any unit states and registrations every run over a fixed listing reaches, within as many rounds as its measure, a state where every running Workspace is started and registered and no released or unlisted unit exists, and stays there. The control unit drops an instance only when its unit is gone or lost. |
| HostRounds.OwnAddressesIff | operator/internal/host/host.go:203-218 | Every such run ends with each running Workspace registered at its own address exactly when it began with no live unit registered at another one, as such a registration is kept. |
| HostRounds.ElsewhereStays | operator/internal/host/host.go:203-218 | Neither a pass nor the environment puts a live unit at another address, or takes it from there. |
| HostRounds.MeasureIsBounded | operator/internal/host/host.go:280-338 | The measure is at most six for every name. |
| HostRuns.RoundExists | operator/internal/host/host.go:280-338 | From every world, and for every listing, the environment can progress and an error-free pass can follow. |
| HostRuns.RunExists | operator/internal/host/host.go:280-338 | So there is a run of every length from every world, and the results about all runs speak of some. |
| HostRuns.PassServed | operator/internal/host/host.go:280-338 | A pass can be answered without errors, call by call, as the world it meets answers. |
| HostLoop.Host.EnsureRunning | operator/internal/host/host.go:173-221 | The method makes exactly the calls of its specification, in order. |
| HostLoop.Host.Retire | operator/internal/host/host.go:224-235 | The method makes exactly the calls of its specification, in order. |
| HostLoop.Host.Reconcile | operator/internal/host/host.go:280-338 | Both loops of a pass, stopped by the first gateway outage. |
| HostLoop.Host.Pass | operator/internal/host/host.go:280-338 | A pass, then the gateway flag and the report to the control unit. |
| HostLoop.Host.SyncGateway | operator/internal/host/host.go:263-273 | The reported availability moves only when the report succeeded. |
| HostLoop.Host.Sync | operator/internal/host/host.go:361-405 | One iteration: list, then inventory, refusal to act while adopting, or a pass; epoch, cursor and pending as the code leaves them. |
| VolumeSafety.MountedIsNeverMarked | operator/internal/openshell/volumes.go:69-127 | Over every run of the sequential loop, with the cluster moving between any two calls and calls failing half-way: a volume mounted by an existing sandbox carries no detached-at mark. |
| VolumeSafety.NeverMarkedIff | operator/internal/openshell/openshell.go:193-218 | No run marks a mounted volume exactly when every Workspace that starts under both sandbox names has no gateway record under the current one, and, if its pod there mounts the volume, no claim that could be marked. |
| VolumeSafety.NeverMarkedWhenProtectedIff | operator/internal/openshell/openshell.go:193-218 | In a cluster that keeps a claim as long as a sandbox mounts it, exactly one more kind of such start is safe: the former sandbox has the volume mounted and its claim is being deleted. |
| VolumeSafety.SweptVolumesWereUnused | operator/internal/openshell/volumes.go:131-154 | The sweep deletes only an unmounted volume whose mark is as old as the retention; over the whole run, also one that began with marked claims, it was last mounted more than the retention minus one second ago. |
| VolumeSafety.SweptEarlyIff | operator/internal/openshell/volumes.go:112-154 | A volume in use until it was detached is swept before its retention has passed exactly when the sweep's clock is below the detach clock plus the retention; never later, however it was used. |
| VolumeSafety.EarlySweepIff | operator/internal/openshell/volumes.go:112-154 | Some run sweeps a volume early that was detached at a given moment exactly when the retention is not zero and the moment is not a whole second. |
| VolumeSafety.MarkHasItsDetach | operator/internal/openshell/volumes.go:112-127 | Every mark was stamped by a detach of the run, or the run began with it and never mounted the volume. |
| VolumeSafety.MarkMeansUnused | operator/internal/openshell/volumes.go:112-127 | A mark bounds the last use: whatever mounted the volume did so before the mark's second was over. |
| VolumeSafety.MarkArises | operator/internal/openshell/volumes.go:112-127 | A mark is set only when the addressed sandbox of the Workspace was confirmed absent and nothing mounts the volume, with the time of that moment. |
| VolumeSafety.MarkStays | operator/internal/openshell/volumes.go:101-107 | Only the Workspace's next sandbox takes a mark away, and nothing moves it. |
| VolumeSafety.SweepKeepsForItsDays | operator/internal/openshell/volumes.go:131-144 | A sweep runs at most once per interval; it keeps for the retention days with type volume and for no time otherwise. |
| VolumeSafety.FailedListingIsTriedAgain | operator/internal/openshell/volumes.go:132-140 | A sweep whose listing failed does not count: the next one is not put off. |
| VolumeSafety.SandboxIsMade | operator/internal/openshell/openshell.go:434-468 | A create makes a sandbox only where there is none, and takes over a pod that is there with what it mounts. |
| VolumeSafety.TwoNamesBreakIt | operator/internal/openshell/openshell.go:193-218 | From every other start under both names some run marks a volume that a sandbox still mounts, with or without that protection. |
| VolumeSafety.NextKeeps | operator/internal/openshell/openshell.go:484-525 | Every step of the loop and of the cluster keeps the invariant and the order of time. |
| VolumeBackend.Backend.SandboxFor | operator/internal/openshell/openshell.go:193-218 | Which of the two names is addressed, by three reads between which the cluster moves. |
| VolumeBackend.Backend.Remove | operator/internal/openshell/openshell.go:484-525 | What Remove reports gone is gone under both names, save a pod without record of a Workspace that began under both, and the volume it leaves is marked or being deleted; what it reports as remaining is being deleted or has no record any more. It fails exactly with its last call, and reports gone exactly when that call was the detach. |
| VolumeBackend.Backend.EnsureUnit | operator/internal/openshell/openshell.go:375-468 | A sandbox created with the volume finds its claim unmarked. One is created exactly when the last call was a create that did not fail. |
| VolumeBackend.Backend.PrepareVolume | operator/internal/openshell/volumes.go:69-109 | A missing claim is made, a marked one loses its mark, a dying one is refused. |
| VolumeBackend.Backend.MarkDetached | operator/internal/openshell/volumes.go:112-127 | A claim is stamped once, and not while it is being deleted. |
| VolumeBackend.Backend.Sweep | operator/internal/openshell/volumes.go:131-154 | After a sweep that ran to its end no claim is left alone whose retention had passed when it began. It runs exactly when it is due and its listing did not fail, and ends early exactly with a deletion that failed. |
| Snapshots.ReplaceWorkspaceContents | runtime/src/ach_runtime/execution/snapshots.py:211-235 | For every content and every pattern of failures: the Workspace shows exactly what was staged, or is exactly as before, with the transaction directory kept; and it is replaced exactly when no name collides and no operation fails. |
| Snapshots.Swap | runtime/src/ach_runtime/execution/snapshots.py:218-235 | Both rename loops with their rollbacks. |
| Snapshots.MoveAll | runtime/src/ach_runtime/execution/snapshots.py:223-230 | The loop of renames stops at the first failure with exactly the moved names moved. |
| Snapshots.MoveBack | runtime/src/ach_runtime/execution/snapshots.py:231-235 | Undoing in reverse order restores every moved child. |
| Snapshots.ReplacePath | runtime/src/ach_runtime/execution/snapshots.py:262-274 | The handoff target is the staged one or untouched. After the swap there is an error exactly when the previous content is a file or link that cannot be removed; of a directory a part may stay behind without an error. |
| Snapshots.RemovePath | runtime/src/ach_runtime/execution/snapshots.py:296-300 | A file or link is removed or raises; a directory never raises, and what cannot be removed of it stays. |
| Snapshots.InstallRestoredHome | runtime/src/ach_runtime/engine/base.py:345-358 | The restored HOME is in place and the old one kept, or nothing changed. |
| Snapshots.InstallManagedBatch | runtime/src/ach_runtime/execution/snapshots.py:304-340 | The three managed directories are replaced together, each by a copy or an empty directory, or not at all; nothing beside them changes. |
| Snapshots.InstallKinds | runtime/src/ach_runtime/execution/snapshots.py:322-337 | The installing loop with its list of changed kinds and its rollback. |
| Snapshots.Rollback | runtime/src/ach_runtime/execution/snapshots.py:331-337 | Undoing the changed kinds in reverse order gives back exactly what was there. |
| Processes.Kernel.Descendants | runtime/src/ach_runtime/engine/base.py:174-204 | The search terminates and returns exactly the processes reachable by parent links from the roots that still match, without these, for every table that changes between any two reads. |
| Processes.Worklist | runtime/src/ach_runtime/engine/base.py:193-204 | The worklist finds each reachable process once. |
| Processes.ClosedHoldsPath | runtime/src/ach_runtime/engine/base.py:193-204 | A set closed under children holds everything reachable. |
| Processes.EveryDescendantIsRecorded | runtime/src/ach_runtime/engine/base.py:265-269 | After a refresh every descendant's pid is recorded, under its own identity unless the pid was recorded before, which keeps the older one. |
| Processes.OwnedProcessGroup.Refresh | runtime/src/ach_runtime/engine/base.py:265-269 | Ownership only grows, by exactly the descendants found. |
| Processes.OwnedProcessGroup.Signalled | runtime/src/ach_runtime/engine/base.py:279-285 | Every recorded identity that is alive when it is read gets the signal, in order, and no other. |
| Processes.OwnedProcessGroup.KillAndConfirm | runtime/src/ach_runtime/engine/base.py:287-320 | True exactly when no recorded identity was alive at its last observation. Unless a look found everything gone, every identity known by then, with the descendants found since, that is alive at its read is killed, and without force asked to terminate first; each window makes all the searches it allows. |
| Processes.SignalledIff | runtime/src/ach_runtime/engine/base.py:279-285 | A round of signals reaches exactly the recorded identities that are alive at their own reads. |
| Processes.SignalledInOrder | runtime/src/ach_runtime/engine/base.py:279-285 | One after the other, so none is signalled twice. |
| Processes.ActiveIff | runtime/src/ach_runtime/engine/base.py:174-192 | A search starts from exactly the recorded processes whose own read still shows them. |
| Processes.ScannedIff | runtime/src/ach_runtime/engine/base.py:174-192 | It sees exactly what the reads of the listed processes show. |
| Processes.AliveIff | runtime/src/ach_runtime/engine/base.py:271-285 | A process is the recorded one while its pid has the same start time; a zombie is not alive. |
| Processes.NoneLive | runtime/src/ach_runtime/engine/base.py:271-277 | The list of live processes is empty exactly when no recorded one was seen alive. |
| A2AScan.ScanningUndoesPrinting | runtime/src/ach_runtime/channels/a2a.py:56-78 | For every JSON object, with any nesting, layout and string escapes (sections 2 to 7 of RFC 8259), the scanner started at its first character stops at its last, whatever follows. |
| A2AScan.ValuePasses | runtime/src/ach_runtime/channels/a2a.py:56-78 | The scanner passes over every printed value at unchanged depth. |
| A2AScan.ItemsScan | runtime/src/ach_runtime/channels/a2a.py:61-70 | Escaped quotes and backslashes never end a string. |
| A2AScan.FindMatchingBrace | runtime/src/ach_runtime/channels/a2a.py:56-78 | The loop equals the scanner. |
| JsonUnique.ShowDecides | runtime/src/ach_runtime/channels/a2a.py:93-97 | A JSON text is printed by one tree only, down to its whitespace, escapes and the spelling of its numbers. |
| A2ADecoder.DecoderExists | runtime/src/ach_runtime/channels/a2a.py:93-97 | So a library that decodes every printed text to its meaning exists, whatever strings with escapes are read as: the assumption of the results below can be met. |
| A2ATerminal.LastMemberCounts | runtime/src/ach_runtime/channels/a2a.py:93-97 | A decoded object has exactly the keys of its members, each with the value of its last one. |
| A2ARoundTrip.ExtractedIffSearched | runtime/src/ach_runtime/channels/a2a.py:81-99 | Between prose and a tail without an object a printed reply is extracted exactly when the text has no fenced block or the block holds all of the reply; otherwise nothing is. |
| A2ARoundTrip.AloneExtractedIff | runtime/src/ach_runtime/channels/a2a.py:81-99 | A printed reply with nothing around it is extracted exactly when its own print holds no fenced block. |
| A2ARoundTrip.FencedIff | runtime/src/ach_runtime/channels/a2a.py:83-86 | There is a fenced block exactly when the text holds two fence marks that do not overlap. |
| A2ARoundTrip.TheReplyIsExtracted | runtime/src/ach_runtime/channels/a2a.py:81-99 | Any prose, a printed reply and a tail of which no opener closes and decodes to an object give that reply back whenever the text has no fenced block or the block holds all of the reply. |
| A2ARoundTrip.TheFencedReplyIsExtracted | runtime/src/ach_runtime/channels/a2a.py:83-99 | So does a reply in the first fenced block, after any prose and with any language mark, words and layout around it, if what surrounds it in the block adds no fence mark and no later object. |
| A2ARoundTrip.TheReplyIsDelivered | runtime/src/ach_runtime/channels/a2a.py:102-120 | A printed reply of the documented shape that is searched in whole is validated to exactly its text and thoughts. |
| A2ARoundTrip.ObjectOpens | runtime/src/ach_runtime/channels/a2a.py:34-34 | An object matches the opener exactly when its first key is the word action. |
| A2ARoundTrip.ValueShut | runtime/src/ach_runtime/channels/a2a.py:87-88 | No opener begins inside a printed value without such an object, not even inside its strings. |
| A2ARoundTrip.AFenceHidesTheReply | runtime/src/ach_runtime/channels/a2a.py:84-88 | A fenced block without an object hides everything outside it. |
| A2ARoundTrip.QuotedCodeLosesTheReply | runtime/src/ach_runtime/channels/a2a.py:83-88 | So a reply whose text is a fenced piece of code is lost, whatever it says and whatever the code is. |
| A2ARoundTrip.CutOffIsOpen | runtime/src/ach_runtime/channels/a2a.py:56-78 | A printed object that is cut off before its last character never closes. |
| A2ASearch.SearchIff | runtime/src/ach_runtime/channels/a2a.py:87-99 | The search gives a value exactly when some opener is an object of that value and no later opener is an object; openers that never close or decode to anything else are passed over. |
| A2ASearch.ExtractIff | runtime/src/ach_runtime/channels/a2a.py:81-99 | So does the extraction, in what is searched. |
| A2ARoundTrip.ValidatedIff | runtime/src/ach_runtime/channels/a2a.py:102-120 | A value is a reply exactly when it is an object with the action, a text that is not blank, perhaps thoughts, both strings, and no other member. |
| A2ATerminal.FindOpeners | runtime/src/ach_runtime/channels/a2a.py:87-87 | The matches of the opener, each search starting where the last match ended, are all of them. |
| A2ATerminal.Extract | runtime/src/ach_runtime/channels/a2a.py:81-99 | The loop from the last match backwards equals the extraction. |
| Cron.CronScheduler.Turn | runtime/src/ach_runtime/channels/cron.py:53-71 | A turn keeps the merge of the tick streams and fires at least one tick. |
| Cron.CronScheduler.Run | runtime/src/ach_runtime/channels/cron.py:48-71 | After any number of turns each channel fired exactly its ticks before its next one, in one order of time. |
| Cron.TurnMerges | runtime/src/ach_runtime/channels/cron.py:63-71 | What is due comes after everything fired before and before everything that is left. |
| Cron.MergedUpTo | runtime/src/ach_runtime/channels/cron.py:48-71 | Every tick up to the last fired time has fired, after a long delay too. |
| Cron.FiredOnce | runtime/src/ach_runtime/channels/cron.py:63-71 | No tick fires twice, and fired times never decrease. |
| Queue.AcksOnlyAfterStart | runtime/src/ach_runtime/channels/queue.py:125-173 | Over every run a message is acknowledged only after its run started or its entry came back without fields. |
| Queue.StartsAreAcked | runtime/src/ach_runtime/channels/queue.py:133-173 | Over every run whatever was started, or came back without fields, was acknowledged next. |
| Queue.RoundHandlesAll | runtime/src/ach_runtime/channels/queue.py:96-131 | A round handles every pending entry that the broker gave back, if the sweep is due, and then every message that arrived, each once and in order; a run starts exactly where its outcome says so. |
| Queue.BatchIsTheNextTen | runtime/src/ach_runtime/channels/queue.py:115-120 | What the broker is asked for and taken to answer: the next ten pending entries after the cursor, or all of them if they are fewer. |
| Queue.SweepVisitsOnce | runtime/src/ach_runtime/channels/queue.py:111-131 | Between two resets of the cursor the sweep visits every entry that stays pending throughout exactly once, in increasing order. |
| Queue.AnEmptyStreamNeverResets | runtime/src/ach_runtime/channels/queue.py:121-131 | If the broker answers an exhausted read with the stream and no entries, the cursor never returns and nothing at or below it is visited again. |
| Queue.RoundResetsIff | runtime/src/ach_runtime/channels/queue.py:111-123 | A round takes the cursor back exactly when the sweep is due, nothing that is pending lies after the cursor, and the broker answers the read of it with nothing at all. |
| Queue.QueueConsumer.ConsumePendingOnce | runtime/src/ach_runtime/channels/queue.py:111-131 | The loop over one batch moves the cursor entry by entry as specified. |
| Queue.QueueConsumer.ConsumeOnce | runtime/src/ach_runtime/channels/queue.py:96-109 | A stretch of the sweep, then the new messages. |
| Queue.QueueConsumer.HandleMessage | runtime/src/ach_runtime/channels/queue.py:144-173 | A delivery whose run did not start stays pending. |
| Routing.PairsWrittenAlike | runtime/src/ach_runtime/channels/routing.py:112-115 | Two pairs are encoded alike exactly when their strings agree UTF-16 unit by unit, for all strings. |
| Routing.PairKeyIsInjective | runtime/src/ach_runtime/channels/routing.py:112-115 | The pair encoding is injective over all strings without a split surrogate pair. |
| Routing.SplitPairsCollide | runtime/src/ach_runtime/channels/routing.py:112-115 | Over all strings it is not: an astral character and its two lone surrogates are encoded alike. |
| Routing.EveryUnitSpelled | runtime/src/ach_runtime/channels/routing.py:112-115 | How each UTF-16 unit is written: printable ones as they are, five short escapes, quote and backslash escaped, four lower-case hexadecimal digits for all others. |
| Routing.PairSpelled | runtime/src/ach_runtime/channels/routing.py:112-115 | The pair is an array of two strings without blanks. |
| Routing.SessionModeSeparates | runtime/src/ach_runtime/channels/routing.py:102-119 | In session mode two events share a Workspace exactly when they agree on default Workspace and session, up to that spelling, for every two events and channels. Each event renders its templates in its own context, so one session template may give two sessions. |
| Routing.GitlabKeyDecides | runtime/src/ach_runtime/channels/routing.py:53-58 | A GitLab default key decides channel and project id, whatever the channel name holds, because the normalized id has no colon. |
| Routing.NoColonInDecimal | runtime/src/ach_runtime/channels/gitlab.py:60-68 | A normalized id holds no colon. |
| Routing.DecimalDecides | runtime/src/ach_runtime/channels/gitlab.py:60-68 | A normalized id decides the number. |
| Routing.DefaultKeysSeparateSources | runtime/src/ach_runtime/channels/routing.py:53-64 | Default keys of different sources never meet; outside GitLab and GitHub they decide the channel. |
| Routing.DefaultSessionIff | runtime/src/ach_runtime/channels/routing.py:67-89 | For every event and channel: which events have a default session, and that a missing field is rejected. |
| Routing.A2aSession | runtime/src/ach_runtime/channels/routing.py:85-88 | An A2A event uses its context, and its task only without one. |
| Routing.DefaultSessionsSeparate | runtime/src/ach_runtime/channels/routing.py:67-89 | Two events of one source share their default session exactly when they are about the same merge request, issue, pull request or tick. |
| Routing.RoutedIff | runtime/src/ach_runtime/channels/routing.py:102-127 | An event is routed exactly when session and Workspace key can be had, each from its override or else its default. |
| Routing.DefaultWorkspaceIff | runtime/src/ach_runtime/channels/routing.py:53-64 | Which events have a default Workspace. |
| Routing.GithubKeyDecides | runtime/src/ach_runtime/channels/routing.py:59-63 | A GitHub default key decides the repository for one channel name. |

## Left out

- Transport: HTTP, SSE framing, gRPC, subprocess launch, readiness polling. Their calls appear as answers that are arbitrary.
- Task scheduling: the fairness of the session lock and of the event loop. Any waiting owner may be served next; only the two cleanup tasks created back to back keep their first stretches adjacent, as the ready queue is first in, first out.
- Wall-clock details: jitter, backoff, sleeps and the stall poll. Clocks are arbitrary and never run backwards; deadlines and windows are outcomes of steps.
- Execution service: configuration, frozen and closed guards of `start`, hook environments, reporting metadata and error texts; they refuse before, or describe after, the modelled steps.
- Execution service: `close`, snapshot and restore beyond the adopted runs, and retiring a session, which replaces its lock; runs are those of one generation of a session.
- OpenCode: malformed durable records, loss of the event stream, settlement confirmation and the graceful part of `cancel`. A cancel is its error text, and a halt that settles.
- OpenCode: usage counters are real numbers; a sum that would overflow to infinity is skipped by the code and cannot occur here.
- OpenCode: the usage read on cancel or retire; only settlement usage is attributed.
- OpencodeModel.PutText: the texts of a step are kept sorted as they arrive, where the code sorts when it joins.
- Host: the status conditions for refused creates and the gateway, and the informer cache behind `load`; they change no unit and no registration.
- Host: one sequential loop per Agent is a premise; the runner that starts loops is not part of this model.
- HostRounds.EveryRunReachesTheListing: rounds are error-free, units do not fail by themselves, a listing names a Workspace once, and a listing does not change while the environment and the passes work it off.
- HostConvergence.PassMoves: the control unit removes exactly the registration that a DELETE names, and does not list the Workspace anew in between.
- Volumes: a create by the gateway is atomic: it leaves a record, a pod without one, or nothing, at once. A pod that appeared later without a record would escape the read that confirms an absence.
- Volumes: the names of claims and sandboxes are taken to be distinct for distinct Workspaces, as their hashes are meant to be; a claim's read and its patch are one call.
- Volumes: durations beyond the range of 64-bit nanoseconds, about 106751 days.
- VolumeBackend.Backend.EnsureUnit: refusals before the volume is touched, the Service of a sandbox and the removal of an orphaned pod, which leave claims and marks alone.
- Snapshots: the undo steps succeed and leave nothing of what they remove, as the promise presupposes; what a rename does to a name that is taken does not arise, since every target is proved free.
- Snapshots: what is staged and what is set aside are directories of their own here, where on disk they lie inside the transaction's entry; that entry itself is kept as one node.
- Snapshots.InstallManagedBatch: copying a directory is one operation that succeeds or fails; the removal of the transaction directory is not modelled.
- Processes: the process-group fallback without a process directory, and the moment between a read and the signal that follows it.
- A2ARoundTrip.TheReplyIsExtracted: the JSON decoder is a parameter that is assumed to decode printed texts to their meaning; numbers keep their spelling.
- A2A: the executor bridge, authorization and agent cards.
- Cron: ticks are instants, compared as integers. The code compares datetimes of one time zone by wall time, so in the hour that an autumn change repeats two channels of that zone may fire in another order.
- Cron: a schedule is any strictly increasing sequence of ticks; admission and its failures do not change which ticks fire.
- Queue: message ids are positive numbers in place of the broker's two-part ids; calls to the broker that raise end the round and are retried.
- Routing: template rendering is a parameter; rate keys and the normalization of webhook payloads are not modelled.
- `engine/pi.py`, configuration schemas, render mappers, sandbox policy, channel authentication and the facade proxies: access rules and field-by-field checks that would only add easy members.
