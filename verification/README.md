# Conductor verification

A Dafny model of five parts of Conductor, a desktop application and MCP server that runs coding agents in terminals,
with the properties they are for proved over every input or every run.

- **Daemon supervision** (`DaemonSupervision`, `SupervisedProcesses`, `SupervisorOutcomes`, `DaemonSupervisor`,
  `ProjectController`, `ProjectOutcomes`, `OpenProject`). The supervisor's coroutines share a generation, a child and
  a retry count, and yield only at awaits. They are modelled as tasks whose program counter is the await they are
  suspended at; calls, exits, probe answers and timers come in any order. The project controller, which replaces
  supervisors and shells through one promise tail, runs on top of it.
- **Transcripts and terminal feeding** (`TranscriptTail`, `AgentsConsole`, `TerminalFeed`, `TranscriptProgress`,
  `RenderedView`, `TerminalWriter`). Chunks and backfills of a pty stream arrive late, twice or never. The accumulator
  bounds what is kept, the view model merges it, and the feed turns states into terminal writes. The stream itself is
  a function of agent, generation and position that no decision reads.
- **Cost ledger** (`CostLedger`, `CostStore`, `CostColumns`). Events are deduplicated by turn and by source, folded
  into rollups, recomputed by grouping, refolded read-only, repaired from legacy stores, and watched against a budget.
- **Readers** (`JsonScanner`, `LogCursor`, `ClaudeTurnCost`). The scanner that finds a JSON object in a log body is
  checked against the whole grammar of RFC 8259, the log cursor ids against percent-encoding (section 2.1 of RFC 3986)
  of UTF-8.
- **Placement, ownership and trees** (`Balancer`, `RoomiestSeat`, `LiveSessionHost`, `DashboardTree`,
  `DashboardNodes`).

Code that updates fields is a class here, and each of its methods is proved to be a step of a specification on values;
loops are loops with invariants. The properties are then lemmas about the specification: what never happens, and what
has to happen (the modules named after outcomes and progress). `dafny verify dfyconfig.toml` checks everything.

## What the proofs show about the code

Some properties one would expect do not hold. Each is stated with a concrete run, and with the exact condition under
which it does hold.

- *Healthy does not imply a process.* In every reachable state a healthy supervisor has no tracked process exactly if it
  is stopping, a start of the current generation is still reaping the process it replaces, or the process was lost before
  the entry into healthy, between the last probe and its answer (`HealthyHasProcessIff`, with the runs of
  `HealthyDuringStopAndReplacement` and `HealthyWithoutProcess`; `HealthyTracksIff` is the step into healthy).
- *Two processes can be alive at once.* When a process is spawned, another one is alive beside it exactly if some process
  is still within one of the two graces of its termination, or has outlived both (`SecondProcessIff`). So it happens when a
  start is called during a stop (`StartOverlapsStop`), also after an awaited stop, when a superseded start is still reaping
  (`StartOverlapsSupersededStart`), and after a SIGKILL that went unanswered. A caller that begins no start while a live
  process is being terminated has one process at most, if SIGKILL is answered (`PatientCallersHaveOneProcess`). What holds
  without condition is that every process but one is known gone or being terminated (`AtMostOneUnattended`).
- *View model and terminal can part from the stream* in exactly two cases (`StepStaysGoodIff`, `GoodThroughoutIff`): an
  empty tail or chunk of a newer generation over shown text (`StaleDisplayIsRendered`), and a chunk from position 0 longer
  than the retention bound that is cut inside the held slice and ends before it (`CutIntoHeldIsMissed`). The first case
  reaches the terminal only if a roster update emits a state before a delivery or selection does (`StaleIff`). For the
  terminal itself, with states skipped while its view is inactive, the exact condition is on the rendered
  states: each is part of its generation's stream and none starts inside the one before and ends before it
  (`TerminalIsRightIff`).
- *Whether a cost log folds depends on its order* (`SuccessDependsOnOrder` is an example). Every log with the same events
  folds exactly if any two events with the same turn or the same source are the same once identified; all of them then give
  the same rollups (`EveryOrderFoldsIff`). And *the read-only refold is stricter than the fold* (`ReadOnlyAgrees`,
  `ReadOnlyIsStricter`).
- *A pure JSON body does not always flow straight through*, as the comment on `extractEmbeddedJson` has it: not when a
  string in it quotes the marker with a brace after it (`PureObjectFlowsThroughIff`). The model follows the code.
- *The host's keys can collide*, exactly when one project id is the other, a colon and some text, and the names make up for
  it (`KeysCollideIff`, with the example of `KeysCanCollide`); the second agent is then refused, never shared with. The
  registry's ids are UUIDs (`packages/core/src/registry/registry.ts:81`), so this takes an id from elsewhere, as
  `CO_PROJECT_ID` can give one (`apps/desktop/src/main/index.ts:159`).

## Model

| member | source | states |
|---|---|---|
| DaemonSupervision.SupervisionIsSafe | apps/desktop/src/main/daemon-supervisor.ts:284-517 | In every interleaving of calls, process exits and errors, probe answers and timers: every spawn is of the current generation, while not stopping, with nothing tracked; at most one start or restart of the current generation is under way; every process is the tracked one, known gone or being terminated; and no more respawns than `maxRetries` follow the last entry to healthy or fresh start |
| DaemonSupervision.AtMostOneUnattended | apps/desktop/src/main/daemon-supervisor.ts:362-417 | Over any run, two processes that are neither known gone nor being terminated are the same process |
| DaemonSupervision.StepKeepsInv | apps/desktop/src/main/daemon-supervisor.ts:284-517 | Each step, whichever coroutine it resumes, keeps the joint invariant of generation, tracked child, tasks, retries and notes |
| DaemonSupervision.NoSpawnAfterStop | apps/desktop/src/main/daemon-supervisor.ts:323-333 | From a stop on, until something calls start again, nothing is spawned and nothing is tracked, whatever exits, answers or timers come |
| DaemonSupervision.QuietStep | apps/desktop/src/main/daemon-supervisor.ts:323-333 | A supervisor with nothing tracked and no current start or restart stays so and spawns nothing on any event but a start |
| DaemonSupervision.ResumptionLowersRank | apps/desktop/src/main/daemon-supervisor.ts:420-517 | Each resumption of a coroutine ends it or lowers a measure over retries left, program point and polls left |
| DaemonSupervision.EveryTaskEnds | apps/desktop/src/main/daemon-supervisor.ts:420-517 | A start, stop or restart episode is over once it has been resumed as often as its measure, no matter what runs in between |
| DaemonSupervision.OthersUndisturbed | apps/desktop/src/main/daemon-supervisor.ts:284-517 | An event that does not resume a coroutine leaves where it is suspended, and its right to go on in the same generation, alone |
| DaemonSupervision.BackoffIsBounded | apps/desktop/src/main/daemon-supervisor.ts:476-478 | The total backoff of n attempts is at most n times the cap and at most base times (2^n - 1) |
| DaemonSupervision.EpisodeWaitsWithinBounds | apps/desktop/src/main/daemon-supervisor.ts:420-451 | In every reachable state an active restart episode has made between 1 and `maxRetries` attempts and has waited within both bounds for them |
| DaemonSupervision.Config.Polls | apps/desktop/src/main/daemon-supervisor.ts:458-474 | The polls of one health wait: at least one, enough to cover the timeout, and none that starts after it |
| DaemonSupervision.HealthyTracksIff | apps/desktop/src/main/daemon-supervisor.ts:465-470 | The step into healthy leaves a tracked process exactly when that process was not lost while the last probe was awaited |
| DaemonSupervision.HealthyWithoutProcess | apps/desktop/src/main/daemon-supervisor.ts:465-470 | A run that ends healthy with no process: an exit between the last probe and its answer |
| DaemonSupervision.StartOverlapsStop | apps/desktop/src/main/daemon-supervisor.ts:323-333 | One run with two processes alive: a start called while a stop is still terminating the first |
| SupervisedProcesses.HealthyHasProcessIff | apps/desktop/src/main/daemon-supervisor.ts:284-517 | In every reachable healthy state nothing is tracked exactly if the supervisor is stopping, a start of the current generation is reaping the process it replaces, or the process was lost before the entry into healthy; and a tracked process is not known gone |
| SupervisedProcesses.HealthyDuringStopAndReplacement | apps/desktop/src/main/daemon-supervisor.ts:284-333 | Runs for the first two reasons: `start` and `stop` forget the child at once and change the status only after terminating it |
| SupervisedProcesses.SecondProcessIff | apps/desktop/src/main/daemon-supervisor.ts:481-517 | Whenever an event of any run spawns a process, another one is alive beside it exactly if some process not known gone is within one of the two graces of its termination, whoever awaits it, or outlived both |
| SupervisedProcesses.PatientCallersHaveOneProcess | apps/desktop/src/main/daemon-supervisor.ts:481-517 | Over any run in which no start begins while a live process is being terminated and every SIGKILL is answered within its grace, two processes are never alive at once |
| SupervisedProcesses.StartOverlapsSupersededStart | apps/desktop/src/main/daemon-supervisor.ts:284-333 | One run with two processes alive though the stop before the last start has settled: a superseded start is still reaping |
| SupervisorOutcomes.LossRestarts | apps/desktop/src/main/daemon-supervisor.ts:409-432 | In every reachable healthy state, losing the tracked process leaves the supervisor restarting, on its first retry, with exactly one restart under way that waits for the base backoff or the cap; with no retries allowed it leaves it failed |
| SupervisorOutcomes.OtherLossIsNoted | apps/desktop/src/main/daemon-supervisor.ts:409-416 | Any other loss is noted and forgets the process if it was tracked, and changes nothing else |
| SupervisorOutcomes.LateExitIsSeen | apps/desktop/src/main/daemon-supervisor.ts:395-400 | The exit of a process already reported lost by an error is still seen, and changes nothing else |
| SupervisorOutcomes.BackoffEndsInRespawn | apps/desktop/src/main/daemon-supervisor.ts:431-434 | The next resumption of a current backoff adds one process, tracked, noted as a respawn and probed with all polls, and changes no status or count |
| SupervisorOutcomes.BackoffDoubles | apps/desktop/src/main/daemon-supervisor.ts:476-478 | The backoff starts at the base and doubles up to the cap |
| SupervisorOutcomes.RestartEndsIff | apps/desktop/src/main/daemon-supervisor.ts:420-451 | In every reachable state a current restart ends healthy exactly when its probe was answered, and failed exactly when as many respawns as allowed have been made and the last was given up and terminated; given up before that it goes on with one retry more and the next backoff |
| SupervisorOutcomes.CrashLoopFails | apps/desktop/src/main/daemon-supervisor.ts:409-451 | A lost daemon whose respawns are never answered is respawned exactly `maxRetries` times and has then failed with nothing tracked, whatever exits or resumes in between, once the restart was resumed often enough |
| SupervisorOutcomes.RespawnComesUp | apps/desktop/src/main/daemon-supervisor.ts:431-444 | A respawn answered within its polls, after any number of failed ones, leaves the supervisor healthy with the retries forgotten |
| SupervisorOutcomes.StartComesUp | apps/desktop/src/main/daemon-supervisor.ts:341-353 | After any run, a start that finds nothing tracked and whose probe is answered within the polls leaves the supervisor healthy with a new process for its project |
| SupervisorOutcomes.StartGivesUp | apps/desktop/src/main/daemon-supervisor.ts:341-360 | A start whose probes all fail has failed after exactly as many probes as there are polls, its process terminated, killed and forgotten |
| SupervisorOutcomes.StartJoinsIff | apps/desktop/src/main/daemon-supervisor.ts:284-288 | A start changes nothing exactly when one is in flight or its project's process is healthy and tracked |
| SupervisorOutcomes.StartReplaces | apps/desktop/src/main/daemon-supervisor.ts:289-308 | A start that finds another process lets go of it at once and terminates it before anything else |
| SupervisorOutcomes.ReapedStartSpawns | apps/desktop/src/main/daemon-supervisor.ts:307-316 | When that is over it spawns for its project, unless superseded |
| SupervisorOutcomes.StartInFlightIff | apps/desktop/src/main/daemon-supervisor.ts:284-295 | In every reachable state the start in flight is one of the current generation that has not settled, and every current start under way is the one in flight |
| SupervisorOutcomes.LossEndsWait | apps/desktop/src/main/daemon-supervisor.ts:458-463 | A wait whose process was lost asks no further probe |
| SupervisorOutcomes.SupersededOnlyTerminates | apps/desktop/src/main/daemon-supervisor.ts:346-451 | A superseded start or restart changes nothing any more but the process whose termination it awaits |
| SupervisorOutcomes.GraceEscalates | apps/desktop/src/main/daemon-supervisor.ts:481-517 | Whoever awaits it, a termination is over once the process exited, kills it after the first grace and gives it up after the second |
| SupervisorOutcomes.StopTakesDown | apps/desktop/src/main/daemon-supervisor.ts:323-334 | After any run a stop forgets the process at once, terminates it, kills it only if it does not exit in time, and has then stopped; without a process it has stopped at once |
| SupervisorOutcomes.RestartCallStarts | apps/desktop/src/main/daemon-supervisor.ts:336-339 | A restart call is a stop after which its project is started |
| DaemonSupervisors.DaemonSupervisor.Start | apps/desktop/src/main/daemon-supervisor.ts:284-316 | Returns the start in flight or a healthy same-project one; otherwise begins a new generation, reaping the old child first |
| DaemonSupervisors.DaemonSupervisor.Stop | apps/desktop/src/main/daemon-supervisor.ts:323-339 | Supersedes everything, forgets the child and terminates it; as the first half of a restart it goes on to start |
| DaemonSupervisors.DaemonSupervisor.OnExit | apps/desktop/src/main/daemon-supervisor.ts:395-417 | The first exit of a process is seen once, whether or not an error came before it |
| DaemonSupervisors.DaemonSupervisor.OnError | apps/desktop/src/main/daemon-supervisor.ts:398-417 | An error counts as the loss of the process once |
| DaemonSupervisors.DaemonSupervisor.Resumed | apps/desktop/src/main/daemon-supervisor.ts:284-517 | Any resumption of a suspended start, restart episode or stop is a step of the protocol, so all that is proved of runs holds of the object |
| ProjectControllers.ProjectsAreExclusive | apps/desktop/src/main/open-project.ts:158-220 | Under any interleaving of opens, reopens, shutdowns, retries, stop requests and supervisor events: bodies begin in call order and at most one has not settled; every supervisor but the live one has been stopped and is quiet; and over all supervisors together at most one process is unattended, the live one's |
| ProjectControllers.PairBuiltAfterTeardown | apps/desktop/src/main/open-project.ts:180-208 | A supervisor or shell is created only in a state where every earlier supervisor's awaited stop and every earlier shell's close have settled |
| ProjectControllers.RetiredNeverSpawns | apps/desktop/src/main/open-project.ts:158-178 | A supervisor that was torn down spawns nothing ever after, whatever is called |
| ProjectControllers.CallAtTurnSettles | apps/desktop/src/main/open-project.ts:158-220 | Whatever happens in between and whichever way its awaits turn out, the call at its turn is settled once it has been moved on as often as its measure; the next call is then at its turn |
| ProjectControllers.EveryCallCanSettle | apps/desktop/src/main/open-project.ts:209-220 | No reachable state is stuck: with each await turning out as an arbitrary choice says, moving on the first unsettled call settles every call already made |
| ProjectOutcomes.OpenSettles | apps/desktop/src/main/open-project.ts:180-220 | Over any run an open settles well exactly when neither a creation nor an awaited start of its throws. Then a supervisor and a shell created by it are live, the supervisor has spawned for its project and no other, the shell was started after it, and the project is bound unless it was dismissed meanwhile; otherwise neither is left and no project is bound. A reopen does the same for the project bound at its turn |
| ProjectOutcomes.ReopenWithoutProject | apps/desktop/src/main/open-project.ts:285-294 | A reopen with no project bound at its turn settles at once and changes nothing |
| ProjectOutcomes.ShutdownSettles | apps/desktop/src/main/open-project.ts:296-301 | Over any run a shutdown settles well with neither supervisor nor shell left, every stop and close before it settled |
| ProjectOutcomes.CallsAreKept | apps/desktop/src/main/open-project.ts:209-220 | No call is lost, doubled or reordered: the chained bodies are those of the calls made |
| ProjectOutcomes.RetryStarts | apps/desktop/src/main/open-project.ts:261-270 | A retry does nothing without live supervisor and project, joins a start in flight, and otherwise, with nothing tracked, spawns for the bound project |
| ProjectOutcomes.StopRequestStops | apps/desktop/src/main/open-project.ts:303-305 | A stop request leaves the live supervisor stopping and quiet, its process being terminated, and still live |
| ProjectOutcomes.DismissalUnbinds | apps/desktop/src/main/open-project.ts:255-259 | Dismissing the project leaves pair and calls alone; retries and reopens then do nothing |
| ProjectControllers.AdvanceLowersRank | apps/desktop/src/main/open-project.ts:180-208 | Each settled await moves a body towards being settled, whichever way it turned out, and touches no other body |
| ProjectControllers.ControllerStepKeepsInv | apps/desktop/src/main/open-project.ts:120-305 | Every step keeps the invariant tying the fields, the running body, the supervisors and the shells together |
| OpenProject.ProjectController.ShowNoProject | apps/desktop/src/main/open-project.ts:255-259 | Forgets the project at once, without the tail |
| OpenProject.ProjectController.RetryDaemon | apps/desktop/src/main/open-project.ts:261-280 | Starts the live supervisor at once, when there is one and a project |
| OpenProject.ProjectController.RequestDaemonStop | apps/desktop/src/main/open-project.ts:303-305 | Stops the live supervisor at once, without forgetting it |
| OpenProject.ProjectController.Begin | apps/desktop/src/main/open-project.ts:209-220 | A body begins only when the one before it in the tail has settled |
| OpenProject.ProjectController.Advance | apps/desktop/src/main/open-project.ts:158-208 | Any settled await, of a teardown's stop or close or of a start, is a step of the protocol |
| TranscriptTail.AdvanceIsRetain | packages/core/src/pty/transcript-tail.ts:165-212 | Appending a chunk, with boundaries found incrementally over a 16-unit overlap, keeps exactly what retaining the whole joined text at once would keep |
| TranscriptTail.RecallIsRemember | packages/core/src/pty/transcript-tail.ts:177-187 | The boundary positions kept across appends are those of the last boundaries of the whole history |
| TranscriptTail.ScanFindsLast | packages/core/src/pty/transcript-tail.ts:177-187 | Scanning the 16 units carried over plus the chunk finds the last boundary that ends in the chunk, also one split between chunks |
| TranscriptTail.TrackedStartIsCut | packages/core/src/pty/transcript-tail.ts:189-212 | The kept absolute positions choose the same cut as searching the text |
| TranscriptTail.BoundariesDoNotOverlap | packages/core/src/pty/transcript-tail.ts:36-39 | No two replay boundaries of a kind overlap, so successive matches miss none |
| TranscriptTail.BoundaryTablesAreWellFormed | packages/core/src/pty/transcript-tail.ts:36-39 | The two escape-sequence patterns have the shape the boundary proofs need |
| TranscriptTail.LastBoundaryAtOrAfter | packages/core/src/pty/transcript-tail.ts:41-51 | The match loop returns the last boundary at or after a position, or -1 |
| TranscriptTail.RetainTranscriptTail | packages/core/src/pty/transcript-tail.ts:86-103 | Keeps a suffix within the hard bound that starts at the last alternate-screen entry, else the last clear, else the soft window |
| TranscriptTail.TranscriptTailAccumulator.Append | packages/core/src/pty/transcript-tail.ts:165-175 | The new snapshot is the retention of the old tail joined with the chunk, at its stream position |
| TranscriptTail.TranscriptTailAccumulator.Replace | packages/core/src/pty/transcript-tail.ts:146-163 | Restarts from a text at an offset, retained and with its boundaries recorded |
| TranscriptTail.TranscriptTailAccumulator.Clear | packages/core/src/pty/transcript-tail.ts:136-144 | Empties the tail at a position |
| TranscriptTail.TranscriptTailAccumulator.RecordBoundaries | packages/core/src/pty/transcript-tail.ts:177-187 | Updates carry and last boundary positions as remembering the longer history would |
| AgentsConsole.LiveChunkResult | apps/desktop/src/shared/agents-console-vm.ts:192-247 | For a true chunk of the current generation: `gap` exactly when it starts beyond the frontier; when applied at a positive offset the frontier becomes the maximum of itself and the chunk's end; redelivering held text changes nothing; `ignored` changes nothing |
| AgentsConsole.TrueChunk | apps/desktop/src/shared/agents-console-vm.ts:192-247 | Every outcome of a non-empty true chunk, with the state it leaves: still one true slice |
| AgentsConsole.ApplySegmentKeepsCoherent | apps/desktop/src/shared/agents-console-vm.ts:284-352 | With a true segment the view model holds again one segment equal to the stream at its offset, its frontier not retreating, and covered text changes nothing |
| AgentsConsole.ContradictionRestarts | apps/desktop/src/shared/agents-console-vm.ts:249-265 | A live chunk that contradicts what is held wins: the text before it survives when held from the stream's start, else the transcript restarts at it |
| AgentsConsole.MergeTwo | apps/desktop/src/shared/agents-console-vm.ts:284-324 | Merging a held and a new segment gives their union when they touch, else both in order |
| AgentsConsole.MergedIsSlice | apps/desktop/src/shared/agents-console-vm.ts:297-316 | The merge of two touching true slices is a true slice |
| AgentsConsole.RetainIsSlice | apps/desktop/src/shared/agents-console-vm.ts:284-352 | What retention leaves of a true slice is a true, non-empty slice ending where it ended |
| AgentsConsole.ConsoleUsesConsolePolicy | apps/desktop/src/shared/agents-console-vm.ts:11-28 | The console's own bounds and patterns meet the assumptions the proofs make of a policy |
| AgentsConsole.AgentsConsoleVM.SelectAgent | apps/desktop/src/shared/agents-console-vm.ts:144-166 | Selecting, also the same agent again, forgets the transcript and generation |
| AgentsConsole.AgentsConsoleVM.ClearSelectedTranscript | apps/desktop/src/shared/agents-console-vm.ts:168-178 | Clears the transcript but keeps agent and generation |
| AgentsConsole.AgentsConsoleVM.SetTranscriptTail | apps/desktop/src/shared/agents-console-vm.ts:180-190 | A tail of an older generation or another agent is ignored; a newer one clears what is held first |
| AgentsConsole.AgentsConsoleVM.AppendChunk | apps/desktop/src/shared/agents-console-vm.ts:192-240 | Classifies and applies a live chunk as its specification, whose effect on true chunks is proved |
| AgentsConsole.AgentsConsoleVM.ResetPrefixForLiveChunk | apps/desktop/src/shared/agents-console-vm.ts:249-265 | The text to keep before a contradicting chunk, or none when there is no contradiction |
| AgentsConsole.AgentsConsoleVM.ContiguousPrefixBefore | apps/desktop/src/shared/agents-console-vm.ts:267-282 | The held text running without a gap from the stream's start to a position |
| AgentsConsole.AgentsConsoleVM.ApplyTranscriptSegment | apps/desktop/src/shared/agents-console-vm.ts:284-324 | Adds, sorts, merges in place, keeps the newest run and retains it |
| AgentsConsole.AgentsConsoleVM.MergeSegments | apps/desktop/src/shared/agents-console-vm.ts:297-316 | The merging loop over the sorted segments computes the specified merge |
| AgentsConsole.AgentsConsoleVM.NewestContiguousSuffix | apps/desktop/src/shared/agents-console-vm.ts:326-338 | The backward loop finds the newest run without a gap |
| AgentsConsole.AgentsConsoleVM.ApplyAccumulatorSnapshot | apps/desktop/src/shared/agents-console-vm.ts:340-352 | Segments and shown transcript become the accumulator's snapshot |
| AgentsConsole.AgentsConsoleVM.Update | apps/desktop/src/shared/agents-console-vm.ts:88-141 | A roster update leaves the transcript alone and emits the state |
| TerminalFeed.TerminalShowsTheStream | apps/desktop/src/renderer/agents-terminal-helpers.ts:208-286 | For any order, duplication or loss of true chunks and backfills that meets no hazard, what was written since the last reset is one contiguous slice of the rendered generation's stream ending exactly at the transcript's end |
| TerminalFeed.GoodThroughoutIff | apps/desktop/src/renderer/agents-terminal-helpers.ts:208-286 | Over any run, terminal, view model and stream agree throughout exactly when no input was a hazard, a condition on the input and the state before it |
| TerminalFeed.StepStaysGoodIff | apps/desktop/src/shared/agents-console-vm.ts:180-247 | One input keeps the agreement exactly when it is neither an empty delivery of a newer generation over shown text nor a chunk from 0 cut into the held slice that ends before it |
| TerminalFeed.DeliveryStaysGoodIff | apps/desktop/src/shared/agents-console-vm.ts:180-247 | The same for tails and chunks alone |
| TerminalFeed.RenderKeepsSyncedIff | apps/desktop/src/renderer/renderer.ts:1165-1194 | Feeding a true state keeps the terminal in step exactly when the state does not start inside the last one and end before it; so the noop branch is right because the frontier does not retreat |
| TerminalFeed.FeedOfTrueSlices | apps/desktop/src/renderer/agents-terminal-helpers.ts:220-258 | On true slices the decision depends only on where they start and end |
| TerminalFeed.SegmentsAreAlwaysTrue | apps/desktop/src/shared/agents-console-vm.ts:180-352 | After any run of true chunks and tails, hazards included, what is held is nothing or one segment equal to the current generation's stream at its offset, within the bound |
| TerminalFeed.QuietStepStaysGood | apps/desktop/src/shared/agents-console-vm.ts:144-178 | Selecting, clearing and roster updates never break the agreement |
| TerminalFeed.TailOutcome | apps/desktop/src/shared/agents-console-vm.ts:180-190 | A true tail emits exactly when it is for the selected agent, not of an older generation and not empty; and then what it does to shown text, generation and frontier |
| TerminalFeed.ChunkOutcome | apps/desktop/src/shared/agents-console-vm.ts:192-240 | What a true chunk does to shown text, generation and frontier |
| TerminalFeed.ShortChunksAreSafe | apps/desktop/src/shared/agents-console-vm.ts:192-240 | The cutting hazard needs a chunk longer than the retention bound |
| TerminalFeed.StaleDisplayIsRendered | apps/desktop/src/shared/agents-console-vm.ts:180-190 | A four-input run after which the terminal shows the old generation's text as the new one's |
| TerminalFeed.CutIntoHeldIsMissed | apps/desktop/src/shared/agents-console-vm.ts:242-265 | A three-input run after which the terminal shows text beyond the transcript's end |
| TranscriptProgress.TailMovesFrontier | apps/desktop/src/shared/agents-console-vm.ts:180-190 | Every true non-empty tail for the selected agent that is not of an older generation is applied and shown; the frontier becomes its end, or the maximum of both when text of its generation was held; what tail and held text cover together is held, as the bound allows. Any other tail changes nothing shown |
| TranscriptProgress.ChunkMovesFrontier | apps/desktop/src/shared/agents-console-vm.ts:192-240 | The same for chunks: a gap exactly beyond the frontier or at the middle of a new generation, ignored exactly when nothing is added, else applied and shown with the frontier moved |
| TranscriptProgress.ChunkKeepsStart | apps/desktop/src/shared/agents-console-vm.ts:192-240 | An applied chunk loses nothing held before it, unless it restarts or the bound forces a cut |
| TranscriptProgress.GapIsHealed | apps/desktop/src/shared/agents-console-vm.ts:180-240 | After any run, when a chunk was refused as a gap, a backfill that reaches its end, whatever comes in between, is shown and moves the frontier to that end or beyond, and the chunk is no gap any more |
| TranscriptProgress.StreamIsShown | apps/desktop/src/shared/agents-console-vm.ts:144-240 | After any run, selecting another agent and delivering its stream in order, in pieces of any length, shows it to its end |
| TranscriptProgress.SelectStartsOver | apps/desktop/src/shared/agents-console-vm.ts:144-166 | Selecting shows the agent with nothing held; the same agent keeps its generation, another begins at 0 |
| TranscriptProgress.GenerationNeverFalls | apps/desktop/src/shared/agents-console-vm.ts:144-196 | While an agent stays selected, also by selecting it again, its generation never falls, and deliveries once out of date are ignored ever after |
| RenderedView.TerminalIsRightIff | apps/desktop/src/renderer/renderer.ts:1165-1194 | Over any run of true inputs, with states skipped while the view is inactive or the font not loaded and the latest one rendered on activation, the terminal is right throughout exactly when each rendered state is part of its generation's stream and does not start inside the last rendered one and end before it |
| RenderedView.FaithfulRendersShowTheStream | apps/desktop/src/renderer/renderer.ts:1165-1194 | So the terminal is right throughout, whatever is skipped, when no rendered state was emitted stale or retreats; a condition that does not mention the streams |
| RenderedView.RenderIsRightIff | apps/desktop/src/renderer/renderer.ts:1165-1194 | For one rendered state, true or not, the same in both directions |
| RenderedView.StaleIff | apps/desktop/src/shared/agents-console-vm.ts:180-247 | Exactly when the display is left behind by a newer generation: from an empty delivery of it until the next state that is not a roster update |
| TerminalWriter.TerminalInputGuard.IsSuppressed | apps/desktop/src/renderer/agents-terminal-helpers.ts:95-116 | Input is held back exactly while some replay write is neither done nor failed |
| TerminalWriter.TerminalInputGuard.SuppressUntilDone | apps/desktop/src/renderer/agents-terminal-helpers.ts:95-116 | A write is pending until released; one that throws is released at once |
| TerminalWriter.TerminalInputGuard.Done | apps/desktop/src/renderer/agents-terminal-helpers.ts:95-116 | A callback releases its own write once, however often it comes |
| TerminalWriter.TermWriter.ApplyFeed | apps/desktop/src/renderer/agents-terminal-helpers.ts:264-286 | The terminal's text becomes what the decision says, and a replay is marked only when there is text to write |
| CostLedger.RollupsDependOnEventSet | packages/core/src/dispatch/cost-projector.ts:696-750 | Any two logs with the same set of events that both fold give equal agent and task rollups, whatever their order or repetition |
| CostLedger.FoldIsTotals | packages/core/src/dispatch/cost-projector.ts:598-650 | The fold of a log is the closed-form total over the set of its events with the turn left out where a source id identifies them |
| CostLedger.IncrementalIsRecompute | packages/core/src/dispatch/cost-projector.ts:200-226 | Rollups kept one event at a time equal grouping and summing the stored observations |
| CostLedger.ReadOnlyFoldAndRecomputeAgree | packages/core/src/dispatch/cost-projector.ts:355-386 | Whenever the read-only refold succeeds the fold does too, and refold, fold and recompute agree on every total and count |
| CostLedger.ReadOnlyAgrees | packages/core/src/dispatch/cost-projector.ts:323-386 | The read-only refold succeeds exactly when the fold does and no event repeats a source id at a turn stored with other content |
| CostLedger.ReadOnlyIsStricter | packages/core/src/dispatch/cost-projector.ts:328-336 | A three-event log that folds but that the read-only refold rejects |
| CostLedger.EveryOrderFoldsIff | packages/core/src/dispatch/cost-projector.ts:696-750 | Every log with the same events, in any order and repetition, folds exactly if any two of them with the same turn or the same source are equal once identified; and then all give the same rollups |
| CostLedger.SuccessDependsOnOrder | packages/core/src/dispatch/cost-projector.ts:696-750 | An example that meets it not: three events that fold in one order and conflict in another |
| CostLedger.DuplicateIsKnown | packages/core/src/dispatch/cost-projector.ts:802-836 | An event taken for a duplicate adds nothing to the set of identified events |
| CostColumns.RowsAreColumnSums | packages/core/src/dispatch/cost-projector.ts:839-870 | Every log that folds has a row for an agent or task exactly when some event is for it, and each of the eleven columns is, on its own, the sum of one field, or the count of those that report it, over the distinct events for it |
| CostColumns.DistinctSaysPayload | packages/core/src/dispatch/cost-projector.ts:752-775 | What the distinct events say is what the payloads say, field by field; the token total is the reported one, else input plus output when both are reported |
| CostColumns.FirstEventFillsRows | packages/core/src/dispatch/cost-projector.ts:839-870 | The two rows after a first event, in the terms of its payload |
| CostColumns.WatchedTotalIsSum | packages/core/src/dispatch/dispatch-store.ts:415-456 | After any run of calls the total that budgets are watched by is the sum of the costs of the task's distinct events |
| CostColumns.RecordedOrRefused | packages/core/src/dispatch/dispatch-store.ts:415-456 | A call throws exactly for an invalid payload, a conflict, or a total entering the band of a budget with a threshold above a hundred percent; otherwise the log grows by the event and, exactly when the total enters the band, by one that names task, agent, provider, total, cap and threshold |
| CostColumns.BackfillRestoresCounts | packages/core/src/dispatch/cost-projector.ts:165-197 | From a store whose count columns say anything, as when they were just added, backfill restores exactly the rollups of the fold |
| CostStore.NearBudgetFiresOnce | packages/core/src/dispatch/dispatch-store.ts:415-456 | Under a fixed budget, over any run of calls, a task has one near-budget event exactly when cap and threshold are positive and its final total is in the band, otherwise none |
| CostStore.ZeroInBand | packages/core/src/dispatch/policy.ts:68-90 | A zero total is in the band exactly for a positive cap with a threshold of at most zero, which is why such budgets never fire |
| CostStore.RunsAreReplayable | packages/core/src/dispatch/dispatch-store.ts:415-456 | After any run of calls, refolding the log gives the tables and the near-budget rows that the calls left |
| CostStore.RecordCostStaysReplayable | packages/core/src/dispatch/dispatch-store.ts:415-456 | Each call keeps log and tables in agreement, also one that throws and leaves the store as it was |
| CostStore.BackfillRestoresTheFold | packages/core/src/dispatch/cost-projector.ts:150-198 | From rollups without observations, whatever they say, backfill establishes exactly the fold of the whole log, or fails when it does |
| CostStore.BackfillIsIdentityOnFolds | packages/core/src/dispatch/cost-projector.ts:150-198 | On every ledger some log folds to, backfill changes nothing |
| CostStore.RefreshCountsIsIdentity | packages/core/src/dispatch/cost-projector.ts:170-198 | The three count columns recomputed from the observations are the ones the fold kept |
| CostStore.SumCounts | packages/core/src/dispatch/cost-projector.ts:839-870 | A rollup's three counts are the numbers of its observations that report the column |
| CostStore.CostTables.RecordCostObservation | packages/core/src/dispatch/cost-projector.ts:696-750 | Inserts, recognises a duplicate by turn or by source, or conflicts, as specified |
| CostStore.CostTables.AddToRollup | packages/core/src/dispatch/cost-projector.ts:839-870 | Adds an observation to one rollup row, creating it when absent |
| CostStore.CostTables.Apply | packages/core/src/dispatch/cost-projector.ts:613-625 | Folds one stored event; a bad envelope or conflict changes nothing |
| CostStore.CostTables.Replay | packages/core/src/dispatch/cost-projector.ts:598-650 | Folding a stored log succeeds exactly when every envelope matches its payload and the fold of the payloads succeeds, with its result |
| CostStore.CostTables.BackfillCostObservationState | packages/core/src/dispatch/cost-projector.ts:150-198 | The rebuilding loops compute the specified backfill |
| CostStore.CostTables.RecomputeCostRollupsFromObservations | packages/core/src/dispatch/cost-projector.ts:200-226 | Visiting the rows in any order gives the grouped sums |
| CostStore.CostTables.NextCostTurn | packages/core/src/dispatch/dispatch-store.ts:458-463 | The least turn not below the proposed one that lies beyond every stored turn of the seat |
| CostStore.ReadOnlyRollupsFromEvents | packages/core/src/dispatch/cost-projector.ts:355-386 | The loop over maps computes the read-only refold, failing where it fails |
| CostStore.DispatchStore.RecordCost | packages/core/src/dispatch/dispatch-store.ts:415-456 | One transaction: all of it, or on any throw the log and tables as they were |
| JsonScanner.MarkedObjectIsExtracted | packages/core/src/dispatch/codex-source.ts:1100-1107 | For every JSON object in any layout: noise without the marker, marker, brace-free gap, printed object and any suffix give exactly the printed object; cut off within the object, what there is of it |
| JsonScanner.ObjectEndIsExact | packages/core/src/dispatch/codex-source.ts:1113-1130 | From its brace the scanner ends an object at its last character whatever follows, and finds no end in any proper prefix; braces, quotes and escapes in strings included |
| JsonScanner.UnmarkedObjectIsExtracted | packages/core/src/dispatch/codex-source.ts:1100-1107 | Without a marker the first object after brace-free noise is extracted exactly |
| JsonScanner.PureObjectFlowsThroughIff | packages/core/src/dispatch/codex-source.ts:1092-1107 | A body that is only an object is returned whole exactly when the marker does not occur in it or no brace follows the marker |
| JsonScanner.QuotedMarkerIsMisread | packages/core/src/dispatch/codex-source.ts:1092-1107 | An object that quotes the marker before a brace is not returned whole |
| JsonScanner.QuotingObjectIsMisread | packages/core/src/dispatch/codex-source.ts:1092-1107 | There is such an object |
| JsonScanner.MarkerFirstOccurs | packages/core/src/dispatch/codex-source.ts:1100-1103 | The marker does not overlap itself: after marker-free noise its first occurrence is the real one |
| JsonScanner.Scan | packages/core/src/dispatch/codex-source.ts:1113-1130 | A reported end lies within the text and is a closing brace |
| JsonScanner.ScanAppend | packages/core/src/dispatch/codex-source.ts:1113-1130 | Scanning is compositional: it may stop after any part and go on from the state reached |
| JsonScanner.JsonIsNeutral | packages/core/src/dispatch/codex-source.ts:1113-1130 | Within an object no printed value closes it or changes the scanner's state |
| JsonScanner.MatchBalancedObjectEnd | packages/core/src/dispatch/codex-source.ts:1113-1130 | The loop over depth, string and escape flags computes the scan |
| JsonScanner.ExtractEmbeddedJson | packages/core/src/dispatch/codex-source.ts:1100-1107 | Computes the specified extraction |
| JsonScanner.IndexOf | packages/core/src/dispatch/codex-source.ts:1100-1103 | The least occurrence of a pattern from a position on |
| LogCursor.ParseBuiltId | packages/core/src/dispatch/codex-source.ts:734-747 | Parsing a built id gives the cursor back exactly when neither name is empty, the row number is not negative and the label is neither empty nor has a colon; otherwise nothing matches; it never throws |
| LogCursor.IdsAreInjective | packages/core/src/dispatch/codex-source.ts:734-736 | Ids differ whenever table, column, row number or label do, whatever these contain |
| LogCursor.DecodeEncode | packages/core/src/dispatch/codex-source.ts:749-755 | Percent-decoding undoes percent-encoding on every name, and encoded names have no colon |
| LogCursor.CharRoundTrip | packages/core/src/dispatch/codex-source.ts:749-755 | The UTF-8 bytes of every scalar value, percent-encoded, decode to it and take exactly their own length |
| Balancer.PlacementIsOrderFree | packages/core/src/dispatch/balancer.ts:240-320 | For candidates with distinct provider and account a decision depends on which are offered, not on their order |
| Balancer.RankingIsSortedHealthy | packages/core/src/dispatch/balancer.ts:263-303 | `ranked` is strictly sorted and holds exactly the healthy candidates, each once |
| Balancer.FloatingIsWithinMargin | packages/core/src/dispatch/balancer.ts:343-362 | A floating seat goes to the best healthy candidate or one within the margin of it; it leaves a healthy last seat exactly when another leads it by more than the margin |
| Balancer.RefusedOnlyWithoutHealth | packages/core/src/dispatch/balancer.ts:264-292 | No placement exactly when unpinned and no candidate is healthy; every candidate is then listed |
| Balancer.MovesAtMostOnce | packages/core/src/dispatch/balancer.ts:343-362 | Placing again and again with each result fed back, the seat moves at most once and stays |
| Balancer.BounceNeedsSwing | packages/core/src/dispatch/balancer.ts:343-362 | Going from one healthy seat to another and back needs the score difference to swing by more than twice the margin |
| Balancer.SteadySeatsNeverReturn | packages/core/src/dispatch/balancer.ts:343-362 | While scores stay within half a margin of usual values the seat never returns to one it has left |
| Balancer.PinIsNeverOverridden | packages/core/src/dispatch/balancer.ts:253-261 | A pin fixes the provider whatever health, last seat or margin are |
| Balancer.PinnedIsOrderFree | packages/core/src/dispatch/balancer.ts:396-424 | A pinned seat's account does not depend on order or repetition of the candidates |
| Balancer.BestHealthyIsBest | packages/core/src/dispatch/balancer.ts:406-421 | The running best is a healthy candidate that none beats by score, then account |
| Balancer.SoonestIsEarliest | packages/core/src/dispatch/balancer.ts:446-460 | The reset reported with a refusal is the earliest that parses, and absent only when none does |
| Balancer.ScoreCreditsTheReset | packages/core/src/dispatch/balancer.ts:193-204 | The score lies between nominal free share and 100, never falls as time passes, is 100 exactly when unused or reset, and nominal exactly when the reset is unknown or a horizon away |
| Balancer.RankingIsUnique | packages/core/src/dispatch/balancer.ts:295-301 | The comparator leaves one order: two rankings of the same candidates are equal |
| Balancer.PlaceAgent | packages/core/src/dispatch/balancer.ts:240-320 | The scoring loop, sort and hysteresis compute the specified decision |
| Balancer.AccountForPinnedProvider | packages/core/src/dispatch/balancer.ts:396-424 | The loop computes the specified account |
| Balancer.WithSoonestReset | packages/core/src/dispatch/balancer.ts:446-460 | The loop computes the specified reset |
| Balancer.BindingProviderHeadroom | packages/core/src/dispatch/balancer.ts:518-542 | An account is healthy exactly when available and observed; the most used window, first kind among equals, speaks for it |
| Balancer.BindingIsUnique | packages/core/src/dispatch/balancer.ts:518-535 | With one window per kind the binding one is determined, whatever the order read in |
| RoomiestSeat.FloatsToRoomiest | packages/core/src/dispatch/balancer.ts:263-362 | Over the candidates' own use and reset, a seat that is not pinned and has a healthy candidate goes to the one that none beats by room, then provider, then account, unless its last seat is healthy and no candidate is roomier by more than the margin; with role and tier |
| RoomiestSeat.NoneMuchRoomier | packages/core/src/dispatch/balancer.ts:343-362 | No healthy candidate is roomier than the chosen one by more than the margin, and none at all without a seat to hold |
| RoomiestSeat.RankingListsRoom | packages/core/src/dispatch/balancer.ts:263-318 | The ranking lists each healthy candidate once with its own room over five hours, use and reset, ordered by room, provider and account |
| RoomiestSeat.CreditIsProportional | packages/core/src/dispatch/balancer.ts:193-204 | What is counted of the use is in proportion to the part of the horizon still to wait |
| RoomiestSeat.PinOfRole | packages/core/src/dispatch/balancer.ts:365-374 | A role is pinned by its own entry, else by that of what precedes its first colon unless empty |
| RoomiestSeat.PinnedIsRoomiest | packages/core/src/dispatch/balancer.ts:376-424 | A pinned seat goes to the roomiest healthy account of the provider, the least among equals, else to its least account, else to the default; model and effort are the pin's where given, else the tier's |
| RoomiestSeat.RefusalTellsAll | packages/core/src/dispatch/balancer.ts:279-292 | A refusal comes exactly when unpinned with no candidate available and known; it lists every seat in order and the earliest reset that any candidate tells |
| DashboardTree.EveryAgentAppears | apps/desktop/src/shared/dashboard-vm.ts:68-124 | For any ids and parent links every roster entry appears in the forest |
| DashboardTree.OnlyAgentsAppear | apps/desktop/src/shared/dashboard-vm.ts:68-124 | Nothing else appears |
| DashboardTree.ForestIsPermutationIff | apps/desktop/src/shared/dashboard-vm.ts:68-124 | With unique ids the flattened forest is a permutation of the roster exactly when following parents always leaves the roster |
| DashboardTree.NonRootTopAppearsTwice | apps/desktop/src/shared/dashboard-vm.ts:118-122 | An entry rendered late though its parent is in the roster is rendered again beneath that parent |
| DashboardTree.KidsAppear | apps/desktop/src/shared/dashboard-vm.ts:87-112 | Every entry whose parent is rendered off the current path appears below |
| DashboardTree.CountInNode | apps/desktop/src/shared/dashboard-vm.ts:87-112 | With acyclic links an agent is rendered once in the tree of each of its ancestors and of itself |
| DashboardTree.VisitLowers | apps/desktop/src/shared/dashboard-vm.ts:87-112 | Each level of the recursion leaves fewer ids to visit, so it ends for any links |
| DashboardTree.BuildNode | apps/desktop/src/shared/dashboard-vm.ts:87-112 | The recursion with its set of rendered ids computes the node and adds exactly its ids |
| DashboardTree.IndexAgents | apps/desktop/src/shared/dashboard-vm.ts:72-84 | The loops compute children by parent in roster order and the roots |
| DashboardTree.BuildTree | apps/desktop/src/shared/dashboard-vm.ts:68-124 | The loops compute the specified forest |
| DashboardNodes.ForestSaysRight | apps/desktop/src/shared/dashboard-vm.ts:87-112 | At every path of the forest: a node that repeats one above it is a leaf of unknown status; any other has its agent's status, unknown if there is none, and below it exactly the agents that name it as parent, in roster order |
| DashboardNodes.TreesAreInOrder | apps/desktop/src/shared/dashboard-vm.ts:85-124 | The trees are those of the roots in roster order, then of agents whose parent is in the roster, in roster order |
| LiveSessionHosting.ClaimsAreExact | packages/mcp/src/live-session-host.ts:134-186 | In every reachable state the two sets hold exactly the keys of attempts between claim and release, none shared; so an attempt is refused exactly when a name is blank or a holder has one of its keys |
| LiveSessionHosting.HostedIff | packages/mcp/src/live-session-host.ts:140-229 | In every reachable state a call is hosted exactly when nothing throws, no name is blank, no attempt holds one of its keys, and neither agent nor pane has an active session; it then has its keys, session and registration under the trimmed names, and nothing else has changed |
| LiveSessionHosting.TrimKeepsTheMiddle | packages/mcp/src/live-session-host.ts:145-166 | Trimming cuts blanks only, from both ends, and leaves nothing exactly of blanks |
| LiveSessionHosting.HolderIsUndisturbed | packages/mcp/src/live-session-host.ts:187-351 | Whatever other attempts do, a holder keeps its claims and its session row, and its roster row neither comes nor goes |
| LiveSessionHosting.OnlyTheCreatorUnregisters | packages/mcp/src/live-session-host.ts:241-256 | A roster row disappears only through an attempt on that agent that created it, and only when the agent has no session row left |
| LiveSessionHosting.FlagsSayWhatTheCallDid | packages/mcp/src/live-session-host.ts:182-222 | The claim flags are true exactly when the call recorded the session and created the roster row |
| LiveSessionHosting.FlagsStay | packages/mcp/src/live-session-host.ts:182-256 | No later event changes them |
| LiveSessionHosting.FailureRestores | packages/mcp/src/live-session-host.ts:230-276 | With nothing else in between, an attempt that fails at any point, with a rollback that does not throw, leaves sets and stores as they were |
| LiveSessionHosting.CloseAndRollbackRestore | packages/mcp/src/live-session-host.ts:279-351 | With nothing else in between, hosting, closing and rolling back the registration leaves sets and stores as they were |
| LiveSessionHosting.StepKeepsHostInv | packages/mcp/src/live-session-host.ts:134-353 | Every step keeps sets and attempts in agreement |
| LiveSessionHosting.FailureRestoresAmidOthers | packages/mcp/src/live-session-host.ts:230-276 | The same amid any events of other attempts before and after the failure, for an attempt that recorded its session: its keys and session row are free and its agent is registered exactly if it was before the call |
| LiveSessionHosting.EarlyFailureReleases | packages/mcp/src/live-session-host.ts:182-276 | An attempt that fails before it records a session never touches the stores, and its rollback releases the keys it claimed and nothing else, whatever others did |
| LiveSessionHosting.CloseRestoresAmidOthers | packages/mcp/src/live-session-host.ts:279-351 | Closing amid events of other attempts frees keys and session row and keeps the agent registered; rolling the registration back at once restores what was there before the call |
| LiveSessionHosting.LateRollbackRestores | packages/mcp/src/live-session-host.ts:316-349 | A rollback of the registration at any time removes exactly a row the call created for an agent that has no session then |
| LiveSessionHosting.EventsAreLocal | packages/mcp/src/live-session-host.ts:134-353 | What an event does for one attempt stays within that attempt's keys, session row and roster row |
| LiveSessionHosting.KeysCollideIff | packages/mcp/src/live-session-host.ts:168-169 | Two different pairs of project and name have one key exactly when one project id is the other, a colon and some text, and the other name is that text, a colon and the one name |
| LiveSessionHosting.KeysAreExact | packages/mcp/src/live-session-host.ts:168-169 | So keys tell projects and names apart when project ids have no colon |
| LiveSessionHosting.KeysCanCollide | packages/mcp/src/live-session-host.ts:168-169 | An example: agents of two different projects with the same key |
| LiveSessionHosting.LiveSessionHost.HostSession | packages/mcp/src/live-session-host.ts:140-229 | Up to the first await: refuse, or claim, record and create with the flags set as far as it got |
| LiveSessionHosting.LiveSessionHost.RecordSession | packages/mcp/src/live-session-host.ts:193-200 | Refuses a second session of an agent and a second agent of a pane |
| LiveSessionHosting.LiveSessionHost.Connected | packages/mcp/src/live-session-host.ts:229-236 | A connection hosts the session; its failure begins the rollback |
| LiveSessionHosting.LiveSessionHost.RollBackSetup | packages/mcp/src/live-session-host.ts:237-276 | Releases what was claimed, ends the session it recorded, removes the row it created |
| LiveSessionHosting.LiveSessionHost.Close | packages/mcp/src/live-session-host.ts:288-292 | A second close does nothing |
| LiveSessionHosting.LiveSessionHost.FinishClosing | packages/mcp/src/live-session-host.ts:292-315 | Ends the session, then releases both keys, also when ending throws |
| LiveSessionHosting.LiveSessionHost.EndSession | packages/mcp/src/live-session-host.ts:241-249 | Only the agent's session on this pane can be ended |
| LiveSessionHosting.LiveSessionHost.RollbackRegistration | packages/mcp/src/live-session-host.ts:316-349 | Removes the row it created only when the agent has no session row |
| ClaudeTurnCost.ParseOfConcatenation | packages/core/src/dispatch/claude-source.ts:289-322 | Parsing a concatenation equals combining the parses, wherever it is cut |
| ClaudeTurnCost.CombineIsMonoid | packages/core/src/dispatch/claude-source.ts:289-322 | Combining is associative with the empty parse as unit |
| ClaudeTurnCost.CostIsTheLastUnlessUsageFollows | packages/core/src/dispatch/claude-source.ts:289-322 | The reported cost is that of a cost record with neither usage nor cost after it, and absent when there is none |
| ClaudeTurnCost.TokensAreSums | packages/core/src/dispatch/claude-source.ts:331-346 | Each token field is the sum of its values in the usages that have it, and absent when none has |
| ClaudeTurnCost.FoundIff | packages/core/src/dispatch/claude-source.ts:289-322 | There is a result exactly when some line has a usage or a cost |
| ClaudeTurnCost.ParseClaudeTranscriptTurnCost | packages/core/src/dispatch/claude-source.ts:289-322 | The loop computes the specified parse |

## Left out

- Floating point: costs, percentages and scores are real numbers, so rounding is not modelled.
- Text order: account names and window kinds are ranks in the collation order; distinct texts that collate as equal are not modelled.
- Times that have to be parsed come with the result of the parse; `Date.parse` itself is not modelled.
- SQLite, schema migration and decoding of payloads: tables are maps with their keys, and a throwing transaction restores the state before it, log included.
- Real processes, sockets, timers, Electron, IPC, xterm and the network are outcomes of steps; `healthIntervalMs` of 0, for which the source would poll without bound, is excluded.
- Spawning and path resolution in the supervisor are taken to return; the source does not handle it when they throw.
- Listeners that call back into the supervisor from `onStatus`, and the status detail text, are not modelled.
- AgentsConsole.AgentsConsoleVM.Update: does not model the roster, connection and status it sets, only that the transcript stays and a state is emitted, because no transcript decision reads them.
- TerminalWriter.TermWriter.ApplyFeed: does not model a terminal write that throws or calls back before it returns; the guard's own methods do.
- The read-only identities of the cost ledger are tuples, where the source joins strings with NUL; ids that contain NUL are not modelled.
- LogCursor.ParseBuiltId: does not model row numbers beyond the integers JavaScript represents exactly, nor names with unpaired surrogates, which `encodeURIComponent` rejects.
- JsonScanner.MarkedObjectIsExtracted: does not model `JSON.parse` of the extracted text.
- ClaudeTurnCost.ParseOfConcatenation: does not model splitting and parsing lines; a line is given as what could be read from it, and a slice is cut between lines.
- OpenProject.ProjectController.RetryDaemon: does not model the result it returns or the shell's reconnection.
- OpenProject.ProjectController.ShowNoProject: does not model the stopped status and the path it pushes.
- ProjectControllers.PairBuiltAfterTeardown: does not say that earlier processes have exited; a stop settles after its last grace also when SIGKILL was not answered, and does not wait for a start that is still discarding its process.
- OpenProject: resolving paths, the registry, the picker, status forwarding and reconnection after the daemon becomes healthy.
- LiveSessionHosting: the server, its tools and the context stores; an attempt sees only whether a call into them throws.
- The OAuth usage client with its backoff, the usage readers with their field aliases, the ordering of Codex candidates, stale bucket filtering and placement from the store: each only adds members that read off one body.
- Renderer, settings, navigation, mail and review view models, reports and the configuration cascade: plumbing with shallow properties.
- Balancer.PlaceAgent: does not model the reason texts of decisions and exclusions, nor the tier table, whose result for each provider is an input.
- DashboardTree: the derivation of an agent's status from its live flags, and the fleet statistics; statuses are an input.
