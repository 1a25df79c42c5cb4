# turncall: what its core keeps

A Dafny model of the parts of turncall where one call, one campaign or one migration is
more than one function, with proofs about whole runs of them.

- **Guided procedures** (`Procedures`, `ProcedureGraph`, `ProcedureWindow`,
  `ProcedurePreview`, `ProcedureState`, `ProcedureRuns`, `ProcedureFinish`, `ProcedureOutcomes`,
  `ProcedureVisits`). A procedure is a graph of steps an
  agent follows on a call. The graph rule with its worklist loop, the layered preview, the
  state a reported move changes, and what every sequence of moves keeps: above all that a
  call whose procedures the rule accepts can always still finish all of them.
- **Campaign dialling** (`Schedule`, `Dialer`, `DialerRows`, `DialerSafety`, `DialerCalls`, `DialerSlots`,
  `DialerRetries`, `DialerBounds`, `DialerSettlers`, `DialerControls`, `DialerEndings`,
  `DialerStale`, `DialerPass`). Any number of workers, the janitor, calls that end, leases that
  lapse and the campaign's controls, as a transition system whose steps are committed
  transactions or single requests; a worker may die between any two. The guarded updates are
  those of the campaign repository; `DialerRows` says of each change of a target's row which
  step may make it and what it leaves, without them. The log of the model records what happened, and the
  theorems are about it: who is asked for when, how often, how soon again, and who owns a
  reservation. `DialerPass` is the worker's own code, step by step, against that system.
- **Secrets at rest** (`Documents`, `DocumentPlaces`, `ConfigSecrets`, `ConfigPlaces`,
  `ToolSecrets`, `SealedRows`, `SealMigration`, `SealPlaces`, `SealUpgrade`, `SealRoundTrip`). The masking walker, the sealing walker and
  the migration's frozen copy, each written out as it is and each proved equal to one walk
  over a shape, and place by place; then the paged rewriting of tables and the two directions of the migration.
- **Three stateful pieces of the evals and the audio path** (`LoopbackBot`, `Ambience`,
  `Transcript`).

## Where the code does less than its documentation says

- A retry is written by an update that checks that the target is `calling`, not which call it
  is on, and settling reads before it writes. Two workers settling the same ending can
  therefore send a target back to `pending` while its next call rings, and dial it once more
  than its rule allows. The model keeps the read and the write apart. The bound of
  max(1, the largest `max_attempts`) holds in every run whose settling passes do not overlap
  (`DialerSettlers`), and over all runs exactly when no rule allows a second attempt
  (`DialerStale.BoundedIffNeverAgain`); otherwise each stale retry may add one dial
  (`DialerBounds.DialsAreBounded`).
- `next_open` documents the next instant the window opens. Where a spring-forward gap makes a
  day's end come before its start it answers an instant outside the window. It is the least
  open instant exactly when that is not so for the day it picks (`Schedule.NextOpenIsLeast`).
  The dial's own check still holds: a target is never claimed outside its window.
- The graph rule asks that every step be reachable by moves, and an ending may have moves of
  its own. A call stops at an ending, so a step behind one can be accepted and never visited
  (`ProcedureVisits.AcceptedButNeverVisited`); `VisitedIffOpen` says which steps are.
- The teardown of an eval iteration leaves a pipeline running exactly when the task that runs
  the iteration is itself cancelled in its first wait for that pipeline, the shielded one. In
  the second wait the cancellation goes to the pipeline, and the wait goes on.

## Model

| member | source | states |
|---|---|---|
| ProcedureGraph.ReachedFrom | src/turncall/domain/procedure_graph.py:154-171 | the worklist loop ends and has reached exactly what some number of moves leads to from the start, missing steps included |
| ProcedureGraph.CheckProcedure | src/turncall/domain/procedure_graph.py:78-232 | answers a problem if and only if it holds of the graph: it is the first of its kind there, with the step, the move target or the two ids it names, and all the rule asks for before it is met; answers none exactly when the procedure meets the rule |
| ProcedureGraph.OneProblemHolds | src/turncall/domain/procedure_graph.py:236-246 | of all problems one at most holds of a procedure, so the answer is fixed by the graph |
| ProcedureGraph.NoProblemIffWellFormed | src/turncall/domain/procedure_graph.py:236-246 | no check finds a problem if and only if ids are unique, there is one start, every move lands, there is an ending, the caps hold, every step is reachable, and kinds, escalations and tools are as the rule asks |
| ProcedureGraph.ProceduresRefusal | src/turncall/domain/procedure_graph.py:53-76 | answers no refusal if and only if the names differ and every procedure meets that rule; otherwise names the first procedure at fault, its name before its graph, and the one problem that holds of that |
| ProcedureWindow.NextLayer | src/turncall/domain/procedure_window.py:124-135 | one layer of the search, in the order the frontier lists its moves, each new step once |
| ProcedureWindow.StepsAhead | src/turncall/domain/procedure_window.py:115-136 | the layered search returns the layers 1 to depth one after the other, none for a negative depth |
| ProcedureWindow.PreviewIsExact | src/turncall/domain/procedure_window.py:115-136 | the preview holds exactly the existing steps, other than the current one, that at most depth moves lead to, each once |
| ProcedureWindow.ShownNextToNearer | src/turncall/domain/procedure_window.py:124-135 | each is paired with a step one move nearer that has a move to it |
| ProcedureWindow.NearestFirst | src/turncall/domain/procedure_window.py:115-136 | the preview never goes from a farther step to a nearer one |
| ProcedurePreview.OnlyPreview | src/turncall/domain/procedure_window.py:115-136 | the preview is the only list that holds each existing step in reach once and in this order: reading the current step and then the preview, each step with its moves in order, steps come as the first move to each does, and each is paired with the step that move is made from |
| ProcedureWindow.PreviewGrows | src/turncall/domain/procedure_window.py:115-136 | the preview of a depth is a prefix of that of any larger depth |
| ProcedureWindow.PreviewSaturates | src/turncall/domain/procedure_window.py:115-136 | from the number of steps on, the preview is what the rule's reachability loop computes, minus the step it starts from |
| ProcedureState.AtCallStart | src/turncall/domain/procedure_state.py:42-50 | the loop over the procedures that start with the call builds the call's first state |
| ProcedureState.PlacedIsOrderly | src/turncall/domain/procedure_state.py:107-121 | placing a good run keeps every procedure listed once and each run finished exactly at an ending, and starts that procedure and no other |
| ProcedureRuns.AcceptedIff | src/turncall/domain/procedure_state.py:143-194 | a move is accepted if and only if the procedure is not finished and it either runs, and the move is to another existing step that a refusal would name as allowed, or does not, and the move is to its start step on request; then the procedure stands at that step |
| ProcedureOutcomes.OutcomeTells | src/turncall/domain/procedure_state.py:143-194 | for every state, procedure and step: the outcome names the step asked for, has a kind if and only if it is accepted, that of the step reached, and is a stay if and only if the step asked for is the current one |
| ProcedureOutcomes.KindTellsTheEnd | src/turncall/domain/procedure_state.py:182-188 | of procedures the rule accepts, the kind answered is that of the step with that id, and the move finishes its procedure if and only if that kind is an ending's |
| ProcedureOutcomes.TellsWhereItStood | src/turncall/domain/procedure_state.py:151-194 | in an orderly state the outcome names the step the procedure stood at, running or finished, and none if and only if it has not started |
| ProcedureOutcomes.RefusalTells | src/turncall/domain/procedure_state.py:154-181 | a refusal names that step and what is allowed: nothing of a procedure finished or unknown, the start of one to be started on request, else the step's moves in order and the way back |
| ProcedureOutcomes.StateTells | src/turncall/domain/procedure_state.py:107-121 | an accepted move replaces its procedure's run by one a step longer, shorter or new, in its place, last, or at the end of the finished if the step is an ending |
| ProcedureOutcomes.CallStartTells | src/turncall/domain/procedure_state.py:42-50 | a call begins with its procedures at their start steps, in their order, finished if that is an ending |
| ProcedureRuns.MoveIsUndone | src/turncall/domain/procedure_state.py:163-188 | in every orderly state a move within a procedure that does not finish it is undone by the move to the step it left: that one is accepted, and the state is exactly what it was |
| ProcedureRuns.RefusedChangesNothing | src/turncall/domain/procedure_state.py:143-194 | a refused or stayed move answers the very state it was given |
| ProcedureRuns.MoveLeavesOthers | src/turncall/domain/procedure_state.py:107-121 | any move leaves every other procedure's run, path and relative order as they were |
| ProcedureRuns.MoveKeepsOrder | src/turncall/domain/procedure_state.py:143-194 | any move keeps the invariant |
| ProcedureRuns.EveryCallIsOrderly | src/turncall/domain/procedure_state.py:42-50 | after any sequence of moves from a call's start: no procedure twice or both running and finished; every path starts at the start, follows declared moves, never stands still and passes no ending before its last step; a run is finished exactly when it stands at an ending |
| ProcedureRuns.FinishedForGood | src/turncall/domain/procedure_state.py:107-121 | the finished runs only ever grow at their end |
| ProcedureFinish.AdvertisedIsAccepted | src/turncall/domain/procedure_state.py:164-194 | in every reachable state the targets the window lists, those a refusal names and those accepted are the same but for the current step, which stays; the step's own moves are listed as onward and the step before as back |
| ProcedureFinish.WalkBack | src/turncall/domain/procedure_state.py:163-174 | from anywhere the run can go back to its start step, one accepted move for each step of its path |
| ProcedureFinish.WalkOn | src/turncall/domain/procedure_state.py:171-188 | along a way that repeats nothing every next step is an accepted move, and the run ends where the way does |
| ProcedureFinish.NoDeadEnds | src/turncall/domain/procedure_state.py:143-194 | no dead ends: after any moves whatever in a call whose procedures the rule accepts, some finite sequence of accepted moves finishes every procedure |
| ProcedureVisits.VisitedIffOpen | src/turncall/domain/procedure_state.py:107-121 | a call can visit a step if and only if moves lead to it from the start without passing an ending |
| ProcedureVisits.AcceptedButNeverVisited | src/turncall/domain/procedure_graph.py:154-171 | a graph the rule accepts, every step of it reachable by moves, with a step behind an ending that no call can visit |
| Schedule.ComputeNextOpen | src/turncall/campaigns/schedule.py:45-66 | the eight-day loop always returns, the window of the first allowed day that is not over |
| Schedule.NowIsInWindow | src/turncall/campaigns/schedule.py:45-66 | in every zone, the answer is never before now, and is now only inside the window |
| Schedule.NothingPassedOver | src/turncall/campaigns/schedule.py:45-66 | in every zone, no instant in the window from now on is earlier than the answer |
| Schedule.NextOpenIsLeast | src/turncall/campaigns/schedule.py:45-66 | the answer is the least instant from now on that lies in the window of an allowed day if and only if the window of the day it picks does not close before it opens |
| Schedule.NextOpenIsMonotone | src/turncall/campaigns/schedule.py:45-66 | a later now never opens earlier, in every zone |
| Schedule.NextOpenIsIdempotent | src/turncall/campaigns/schedule.py:45-66 | asking at the answer changes nothing, under the same condition and only then |
| Schedule.SwallowedByTheGap | src/turncall/campaigns/schedule.py:92-93 | a zone with a spring-forward gap and a window in it for which the answer lies outside the window |
| DialerRows.EveryStepKeeps | src/turncall/storage/repositories/campaign_repo.py:228-487 | every step of every process keeps to one diagram of a target's row: for each change of status which step makes it, from what, and the whole row it leaves; a row changes in no other way, and none comes or goes |
| DialerRows.ReclaimTells | src/turncall/storage/repositories/campaign_repo.py:448-487 | an abandoned claim is pending again, an abandoned placing has failed, and a claim within the timeout is left alone |
| DialerRows.CancelTells | src/turncall/storage/repositories/campaign_repo.py:516-545 | cancelling a campaign that is not over cancels every target not yet at the carrier and no other |
| DialerRows.LeaseTells | src/turncall/services/limits.py:150-169 | a lapsed lease frees its slot and the next renewal of a call that rings takes it again, no other slot changing |
| DialerRows.EndCallTells | src/turncall/campaigns/dialer.py:144-186 | a call's ending is recorded as it ended, once, and its slot is given back; no other call changes |
| DialerRows.EveryStepKeepsStatus | src/turncall/storage/repositories/campaign_repo.py:489-545 | the campaign's status changes exactly by the controls that its status allows, each to its own; a resumed campaign that never started is queued again |
| DialerSafety.EveryRunIsSafe | src/turncall/campaigns/dialer.py:241-294 | over every interleaving: no two workers at the carrier for one target, and what a target's row says agrees with whether the carrier was asked for it |
| DialerSafety.NeverTwoAtTheCarrier | src/turncall/storage/repositories/campaign_repo.py:293-312 | so no target is at two workers' carriers at once |
| DialerSafety.AskedAgainOnlyAfterRetry | src/turncall/campaigns/dialer.py:25-31 | between two asks of the carrier for one target lies a retry of it, of the first ask's own call if and only if the retry is not stale |
| DialerSafety.FinalForGood | src/turncall/storage/repositories/campaign_repo.py:392-408 | a final status is never left, and no target comes or goes, whatever steps follow |
| DialerCalls.OncePerCall | src/turncall/campaigns/dialer.py:195-224 | under one call id: reserved, claimed, placing, asked, then given back or ringing, in that order, each at most once, and never both of the last two |
| DialerCalls.AskedUnderItsOwnPlacing | src/turncall/campaigns/dialer.py:252-258 | each ask of the carrier follows its own move of that target to placing, which follows a claim at an instant inside the target's window |
| DialerCalls.EveryReservationHasOneOwner | src/turncall/campaigns/dialer.py:195-224 | at every moment a reservation is exactly one of: with one worker, left by a dead one, given back, or a placed call's |
| DialerSlots.EverySlotHasAnOwner | src/turncall/services/limits.py:185-229 | every slot taken is a ringing call's or stands behind a reservation not yet given back; every ringing call and every dial on its way to the carrier has its slot unless its lease lapsed |
| DialerRetries.AskedAgainOnEvidence | src/turncall/campaigns/dialer.py:144-186 | the carrier is asked again only once a recorded call for that target ended with a reason the policy dials again, the earlier ask's own call if and only if that was not settled from a stale read |
| DialerBounds.DialsAreBounded | src/turncall/campaigns/schedule.py:69-89 | over every run a target is asked for at most max(1, the largest max_attempts) times, and once more for each retry written from a stale read |
| DialerSettlers.DialsAreBoundedInTurn | src/turncall/campaigns/schedule.py:69-89 | in every run in which settling passes do not overlap no retry is stale, and a target is asked for at most max(1, the largest max_attempts) times |
| DialerSettlers.DialsAreBoundedByOneSettler | src/turncall/campaigns/schedule.py:69-89 | so it is in every run in which one worker does all the settling, however many dial |
| DialerStale.OnceUnderNeverAgain | src/turncall/campaigns/schedule.py:69-89 | where no rule allows a second attempt the carrier is asked once at most for each target, over every run |
| DialerStale.OneDialTooMany | src/turncall/storage/repositories/campaign_repo.py:353-365 | for any campaign with a rule of two attempts or more, a run whose clocks never go back that asks once more often than the rule allows, while the last call it allows, recorded and not ended, rings |
| DialerStale.BoundedIffNeverAgain | src/turncall/campaigns/schedule.py:69-89 | for a target whose window opens at arbitrarily late instants, every run keeps the bound max(1, the largest max_attempts) if and only if no rule allows a second attempt; the same of every run whose clocks never go back |
| DialerBounds.RetriedNoSooner | src/turncall/campaigns/dialer.py:144-186 | the claim after a retry comes no sooner than the instant set: when the window opens after the rule's spacing from the settling |
| DialerStale.StaleRetryDialsALiveTarget | src/turncall/storage/repositories/campaign_repo.py:353-365 | one such campaign, two attempts a minute apart on customer_did_not_answer: the carrier is asked a third time while the second call rings |
| DialerControls.StoppedStartsNoDial | src/turncall/storage/repositories/campaign_repo.py:286-312 | while paused, and for good once cancelled or completed, no target is claimed and none is moved to placing |
| DialerControls.AskedAfterStopWasPlacing | src/turncall/storage/repositories/campaign_repo.py:516-545 | after a pause or cancel the carrier is asked only for targets that were placing already |
| DialerControls.CompletedHasNoneOpen | src/turncall/storage/repositories/campaign_repo.py:426-445 | in every run a completed campaign has no target that could still be dialled |
| DialerEndings.EveryEndingTells | src/turncall/campaigns/dialer.py:144-186 | in every run a completed target has a recorded call whose ending the policy does not dial again, and a cancelled one belongs to a cancelled campaign |
| DialerPass.Project.DialNext | src/turncall/campaigns/dialer.py:189-224 | one dial, with any steps of other processes in each of its gaps: the steps it took are exactly those of its outcome, the outcome is what it met on its way, and an admitted reservation is a placed call's if one was placed and else given back |
| DialerPass.Project.ClaimNext | src/turncall/storage/repositories/campaign_repo.py:228-340 | claims some waiting, due target of a running campaign, or none exactly when there is none; deferred exactly when its window is not open: it is then pending, unclaimed, its dials as they were, and due at the least instant its window is open (unless a gap swallows that window); else it is claimed as of now, inside its window; no other target changes |
| DialerPass.Project.HandTargetBack | src/turncall/campaigns/dialer.py:297-326 | a dial that was not made leaves its target as before the claim, or ended suppressed or failed as the refusal says; a target no longer with a worker and every other target are left alone |
| DialerPass.Project.Record | src/turncall/campaigns/dialer.py:279-294 | a target still placing is calling under this call id once its record is heard to commit; otherwise, whatever the others do in between, it is with no worker any more once giving up is saved |
| DialerPass.Project.Settle | src/turncall/campaigns/dialer.py:144-186 | reads every calling target whose call has ended, each once, and writes them one by one; each that no other process moved meanwhile ends pending at the first open instant after the rule's spacing if its ending has a rule that allows one more dial, and else completed |
| DialerPass.FreedOrRang | src/turncall/campaigns/dialer.py:189-224 | in every run a reservation given back or ringing was taken, and is not both |
| Documents.WalkTwice | src/turncall/domain/config_secrets.py:137-176 | walking with one function and then another is one walk with the two in turn, at every nesting of failovers |
| Documents.WalksAgree | src/turncall/domain/config_secrets.py:137-176 | two functions that agree on the values reached give the same document |
| Documents.UnchangedWhenKept | src/turncall/domain/config_secrets.py:137-176 | a walk changes nothing if and only if it keeps every value it reaches |
| ConfigSecrets.AllWalkTheSame | alembic/versions/e6c2a8f4b0d9_seal_secrets_at_rest.py:33-95 | for every JSON value and function: masking, sealing and the migration's frozen walker reach the places of one shape, and the last two are the same function |
| DocumentPlaces.WalkAtPlace | src/turncall/domain/config_secrets.py:137-176 | at every place a shape reaches, by its path, a walk puts what its function makes of what was there |
| DocumentPlaces.WalkElsewhere | src/turncall/domain/config_secrets.py:137-176 | and everywhere else the document is as it was |
| ConfigPlaces.SanitizeHides | src/turncall/domain/config_secrets.py:21-69 | masking puts the mask at every secret's place, but for a null one and the id of the AWS key, and at every header's and variable's, and changes nothing else |
| ConfigPlaces.MapSecretsInPlace | src/turncall/domain/config_secrets.py:137-176 | mapping puts in each secret's place what its function makes of that secret, and changes nothing else, an empty string included |
| ConfigSecrets.SanitizeIsIdempotent | src/turncall/domain/config_secrets.py:21-69 | masking twice is masking once |
| ConfigSecrets.SanitizeAfterMap | src/turncall/domain/config_secrets.py:137-176 | a mapped config masks to what the plain one does, except at aws.access_key_id |
| ConfigSecrets.RoundTrip | src/turncall/domain/config_secrets.py:137-176 | mapping with f and then g gives a config back if and only if that gives back each of its secrets, none of them lost to an empty string |
| ToolSecrets.KeepMaskedToolSecrets | src/turncall/domain/config_secrets.py:90-111 | each masked tool gets the secret of its name from the first earlier list that holds a real one (the last such tool in it), all else is as it came, and the indexes returned are exactly those still masked, in order |
| ToolSecrets.OneSecretAtMost | src/turncall/domain/config_secrets.py:98-103 | that secret is one at most |
| SealedRows.SealThenUnseal | alembic/versions/e6c2a8f4b0d9_seal_secrets_at_rest.py:199-236 | a sealed value is never sealed again and always opens, to the value itself unless that was sealed under the key already |
| SealedRows.MapAtWalks | alembic/versions/e6c2a8f4b0d9_seal_secrets_at_rest.py:98-111 | the reach of each column (config, inline target, dynamic config, text) walks that column's shape |
| SealedRows.SkippedHoldsNothing | alembic/versions/e6c2a8f4b0d9_seal_secrets_at_rest.py:114-121 | a row the page query leaves out is one no function could change |
| SealedRows.HoldsIff | alembic/versions/e6c2a8f4b0d9_seal_secrets_at_rest.py:263-273 | a value holds a wanted secret if and only if one of its secrets is wanted |
| SealMigration.PageSplits | alembic/versions/e6c2a8f4b0d9_seal_secrets_at_rest.py:245-260 | a page short of the limit is all that is left, and a full one is followed by what the query after its last id finds |
| SealMigration.Rewrite | alembic/versions/e6c2a8f4b0d9_seal_secrets_at_rest.py:292-311 | for every table, page size and conversion: fails if and only if some selected row holds a secret that cannot be converted; else the column is the pointwise map of every row, and the selected rows were each seen once, by id |
| SealUpgrade.Count | alembic/versions/e6c2a8f4b0d9_seal_secrets_at_rest.py:276-289 | counts the selected rows that hold a wanted secret |
| SealUpgrade.Database.Upgrade | alembic/versions/e6c2a8f4b0d9_seal_secrets_at_rest.py:331-351 | with a key every stored secret, in its place, is marked and opens under the key to what it was, or is as it was if it did open already, and nothing else changes; without one it refuses if and only if some secret is stored, and changes nothing |
| SealUpgrade.Database.Downgrade | alembic/versions/e6c2a8f4b0d9_seal_secrets_at_rest.py:354-370 | with a key it goes through if and only if the key opens every marked secret; each marked one, in its place, is then what the key opens it to, and each plain one and all else is as it was; without one it refuses if and only if one is marked; a refusal changes nothing, nor does it where none is marked |
| SealRoundTrip.UpgradeIsIdempotent | alembic/versions/e6c2a8f4b0d9_seal_secrets_at_rest.py:215-221 | upgrading again changes nothing |
| SealRoundTrip.DowngradeGoesThrough | alembic/versions/e6c2a8f4b0d9_seal_secrets_at_rest.py:354-370 | after an upgrade every stored secret is sealed under the key, so a downgrade with it never fails |
| SealRoundTrip.DowngradeRestores | alembic/versions/e6c2a8f4b0d9_seal_secrets_at_rest.py:354-370 | upgrade and downgrade restore everything stored if and only if no stored secret opened under the key already, to anything but itself |
| SealRoundTrip.UpAndDown | alembic/versions/e6c2a8f4b0d9_seal_secrets_at_rest.py:331-370 | the same of the two methods run one after the other |
| LoopbackBot.EveryRunKeeps | src/turncall/evals/bot_server.py:127-181 | over every interleaving at the awaits: one connection at most is on its way to a pipeline, and the caller past its waits has closed with the pipeline done, unless it left at once, cancelled in the first of them |
| LoopbackBot.OnePipelineAtMost | src/turncall/evals/bot_server.py:127-157 | at most one pipeline is ever started, and none once close has begun |
| LoopbackBot.NoPipelineLeftRunning | src/turncall/evals/harness.py:168-187 | when the finally has ended no pipeline runs, then or later, unless the caller was itself cancelled in its first wait for the pipeline |
| LoopbackBot.LeftRunningIffInterrupted | src/turncall/evals/harness.py:233-255 | the step that ends the finally leaves a pipeline running if and only if it cancels the caller in its first wait for a pipeline that runs |
| LoopbackBot.InterruptedLeavesItRunning | src/turncall/evals/harness.py:248-252 | a run that ends so |
| LoopbackBot.BuildErrorTells | src/turncall/evals/bot_server.py:132-162 | in every run there is an error to raise if and only if the connection sent no flags or its build raised, and then no pipeline was ever started |
| LoopbackBot.Iteration.BuildEnded | src/turncall/evals/bot_server.py:140-154 | a build that ends starts the one pipeline unless it failed or the bot is closing, and leaves an error to raise exactly if it failed |
| LoopbackBot.Iteration.Finally | src/turncall/evals/harness.py:168-187 | the finally waits for a pipeline that runs, else closes at once, whether the harness ended or its caller was cancelled |
| Ambience.SpeechBeforeAmbience.ProcessFrame | src/turncall/orchestrator/ambience.py:155-178 | the frame goes on in its direction, the voice with its audio, rate and channels as speech unless it is silence, any other untouched; a stop follows it if and only if the silence since the last speech is first past the threshold at this frame |
| Ambience.NothingLostOrInvented | src/turncall/orchestrator/ambience.py:155-178 | but for the stops the output is the input, each frame once, in order, with its audio |
| Ambience.StopsAreApart | src/turncall/orchestrator/ambience.py:155-178 | between two stops somebody spoke |
| Transcript.BotTurns | src/turncall/evals/result_mapping.py:65-92 | one line for each reply heard, or written if none was heard, in order, with the written text beside it exactly where it differs |
| Transcript.SayingsInOrder | src/turncall/evals/result_mapping.py:80-82 | the replies are exactly the events of their kind that say something, each once and in their order |
| Transcript.ScoredInOrder | src/turncall/evals/result_mapping.py:117-121 | the scored turns are exactly those that ran, each once and in their order |
| Transcript.TurnByTurn | src/turncall/evals/result_mapping.py:116-140 | before each scored turn stand exactly the earlier turns' lines and one reply for each of them, as far as there are any; then come its own line, its words or else its keys, and the next reply |
| Transcript.TranscriptFromScript | src/turncall/evals/result_mapping.py:95-140 | the scored turns' blocks, each the caller's line and one reply at most, then the replies left over |
| Transcript.NothingLostOrInvented | src/turncall/evals/result_mapping.py:95-140 | the caller's lines are exactly the scored turns', the bot's lines exactly the replies, each in order |

## Left out

- All wording: windows, refusals, results and error texts; a move is the id of its step, a
  refusal the problem it names. The formats an escalation's arguments must have are one flag of
  the action, and whether a procedure reads at all is one flag of the procedure.
- Time-zone data: a zone is any assignment of instants in which each day's times lie between its
  midnight and the next one's. Within a day the times may be in any order.
- Dialer: one campaign; which due target is claimed is left open (the code takes the one due
  longest, then list order). The calls-per-second window of a number is not modelled beside the
  live-call slots, nor is a limit's size: whether a reservation is admitted is the environment's.
- Dialer: a commit whose outcome the worker does not hear is modelled where the dial is recorded
  or given up, not at the move to `placing`.
- Dialer: a settling transaction's writes are taken one target at a time, which allows more
  interleavings than the code does. Provider callbacks are the step that ends a call.
- Dialer: a settling pass's two queries, for the calling targets and for their calls' endings,
  are one read.
- DialerPass.Project: one dial and one settling, not the loop of `advance` around them, whose end
  depends on what other processes add. The limit's `retry_after_ms` is not modelled.
- Fernet is a pair of functions of which one opens what the other closed; a token's randomness is
  not modelled, so two encryptions of one value are equal here.
- SealUpgrade.Database.Upgrade: the widening of two columns is a flag, without the lengths it is
  for, and a refusal names no table. One transaction around a migration is taken as given: a
  conversion that fails leaves the tables as they were.
- ToolSecrets.KeepMaskedToolSecrets: a tool is a name, a secret that is a string if there is
  one, and the rest; a tool without a name, at which the code raises, is not modelled.
- LoopbackBot: a caller cancelled while the server stops is taken to leave at once, where the code
  lets the server stop first. uvicorn, the harness and the pipeline are steps of the environment; closing a
  socket is one step, and nothing is said of how long anything takes.
- Ambience.SpeechBeforeAmbience.ProcessFrame: durations are reals, not floating point, and what
  counts as silence is any function of the audio.
- Transcript: a keypress is kept as its keys, not as the sentence that renders them; a turn's
  index is never negative.
- Fetching ambience, event emission, the CLI, the API, all other migrations and all adapters.
