# Verified model of the Z180 emulator's replay timeline, memory and devices

This project models the parts of the emulator whose correctness spans many operations, and proves what
they are for.

**Record, replay, seek.** A live run logs every host-bus access, host input, output drain and step, and
keeps a bounded store of checkpoints. The machine itself is an arbitrary deterministic strategy over bus
answers (`Machine`), so the theorems hold for every such machine and every host bus, failing ones included.
`Transcript` proves that a played-back step repeats the live one, and `Accesses` the converse: what a playback
accepts is exactly what the step asks for. `Journals` says what it means that a journal describes a run, and
proves that replay follows it and that a position is valid exactly when the run was there. `Timelines` is the class with its journals, position, mode and checkpoint store and a ghost
history of the run: every operation keeps them in agreement, a seek succeeds exactly for positions of the
run and restores them exactly, the write search is right and leaves no trace. `Thinning` bounds the distance
of the checkpoints that remain after evictions. `Recordings` proves that an import accepts exactly the
recordings that describe a run, unless their replay hides a bus failure, that the exception is real on a
machine with the control path of `try_step`, and that an export is always accepted. `Scenarios` puts the
operations together: the run is what the CPU and the host make of any operations, and if no step hides a bus
failure any point of it can be returned to. `PendingErrors` drops that condition: it describes runs in which
steps hide bus failures, proves that replay follows them too, and says exactly from which checkpoints a seek
still arrives.

**One step.** `Stepping` models the control path of `try_step` over arbitrary decoder and handler programs,
and proves what a step that succeeds charges and leaves, the rollback of failed instructions, exactly when a
whole step hides a bus failure, and that some do.

**Physical memory.** `PhysicalMemory` proves that the page table with its recycled stores is a flat
address space: no aliasing, writes and remaps change only what they name, failed remaps change nothing, and a
configuration is accepted exactly when its regions fit together. It also says which of the images that the
loader accepts are flat address spaces, and that some are not.

**Devices.** `Timers`, `SerialUnits` and `DeviceTime` describe what elapsed cycles do and prove the closed
form of the reload timers and that device time is additive. `Peripherals.Devices` is the register file with
the devices behind it: every register read and write, pin, push, pop, time advance and reset is proved to
keep the cached request mask and the cached page bases equal to what the registers say. `DeviceEffects` and
`GuestEffects` say what that means by registers, pins and fields alone: which request is which bit, what
elapsed cycles do, what every access of the guest leaves and gives. `Ledgers` keeps the books of each serial
direction: every byte has left, is on its way in its place, or is noted as lost by the operation that lost it.

**Copies.** `DmaChannel` proves what one service of the DMA controller moves through either channel, between
memories or through ports, as an ordered byte copy, and what it costs. `BlockTransfer` does the same for whole
runs of LDIR and LDDR through the memory management unit, the 65536 bytes of BC = 0 included, with the device
time they take. `Copying` is the ordered copy over memory and an arbitrary host bus, and says when it is a
block move, when a fill, and what a port hears.

**Decimal arithmetic.** `DecimalArithmetic` proves that chains of ADC or SBC with DAA compute decimal sums
and differences of any length.

Three behaviours of the code are worth knowing, and the model has them. A failed stack push of a TRAP makes
`try_step` return normally with the failure pending (`Stepping` proves when); a checkpoint taken right after
such a step does not hold the pending error, so no later step can be replayed from it
(`PendingErrors`). The test of a loaded memory image does not ask that RAM pages be aligned or keep apart
(`PhysicalMemory.ApartIff`). On the Z80180 the guest may overwrite RDR while a received byte is in it
(`Peripherals.Devices.WriteRdr`).

The modules build on each other in this order: `Basics`, `Machine`, `Transcript`, `ReplayBuses`, `Journals`,
`Accesses`, `Thinning`, `Checkpoints`, `WriteSearch`, `Timelines`; `Stepping`; `Recordings`, `Scenarios`,
`PendingErrors`; `PhysicalMemory`, `Copying`; `Registers8`, `Ledgers`, `SerialUnits`, `IoRegisters`, `Timers`,
`DeviceTime`, `DeviceState`, `DeviceEffects`, `GuestEffects`, `Peripherals`, `DmaChannel`, `BlockTransfer`;
`DecimalArithmetic`. Check everything with `dafny verify dfyconfig.toml`.

## Model

| member | source | states |
|---|---|---|
| `Scenarios.RecordThenReturn` | crates/z180-replay/src/timeline.rs:87-389 | records the operations before and after, up to the first step that hides a bus failure; it goes on to the return exactly when no step does, a condition on the CPU, the host and the operations alone, and the return then succeeds: machine, position and bus cursor are what the operations before made of them, the whole run is kept, and the host was called for recorded accesses only |
| `Scenarios.Record` | crates/z180-replay/src/timeline.rs:87-184 | any interleaving of `apply`, `drain` and `try_step` (failing host calls included): journal, machine, position and host are, operation by operation, what the functional run of the CPU against the host makes of them, one entry of the run each; it goes on to the end exactly when no step hides a bus failure |
| `Scenarios.RunAppends` | crates/z180-replay/src/timeline.rs:87-184 | the run of two lists of operations is the run of the first and then of the second, entries included |
| `Scenarios.CleanAppends` | crates/z180-replay/src/timeline.rs:87-184 | operations hide no failure exactly when the first part hides none and the rest hides none from there |
| `PendingErrors.AnyReturn` | crates/z180-replay/src/timeline.rs:87-389 | any operations before and after, hidden bus failures included: a seek, with no error pending by then, back to where those before had led arrives if and only if it has to repeat no attempt or its checkpoint was taken where no error was pending; then machine and position are what the operations before made of them |
| `PendingErrors.SeekArrivesIff` | crates/z180-replay/src/timeline.rs:357-389 | the same for any position of a described run: the checkpoints that fail are exactly those taken right after a step that hid a failure, and only for positions a step or more past them |
| `PendingErrors.RedoArrivesIff` | crates/z180-replay/src/timeline.rs:381-388 | replay from a place of the run with any error pending arrives at a later position if and only if it repeats no attempt or the run had the same error pending there |
| `PendingErrors.WrongErrorDiverges` | crates/z180-replay/src/timeline.rs:434-481 | with another error pending than the run had, the next replayed attempt is never that of the journal |
| `PendingErrors.RedoFollows` | crates/z180-replay/src/timeline.rs:381-388 | on any machine, replay from any place of a run with its pending error arrives at every later position, and with the error that was pending there |
| `PendingErrors.RunStands` | crates/z180-replay/src/timeline.rs:87-184 | whatever is applied, drained and stepped, hidden failures included, the journal goes on describing the run, operation by operation |
| `PendingErrors.StepReplays` | crates/z180-replay/src/timeline.rs:155-184 | a live step with or without an error pending, and its playback, do the same; the pending error becomes the failure of the last record |
| `PendingErrors.PlaceExtends` | crates/z180-replay/src/timeline.rs:155-184 | what the journal said of the run stays true when the journal grows |
| `PendingErrors.RecordedIsDescribed` | crates/z180-replay/src/timeline.rs:155-184 | a run without hidden failures is the special case in which nothing is pending |
| `PendingErrors.TimelineStands` | crates/z180-replay/src/timeline.rs:155-184 | the run of a timeline that is recording is described, and may go on with hidden failures |
| `PendingErrors.EveryOtherHides` | crates/z180-core/src/lib.rs:543-563 | where every opcode traps and memory takes no writes, every other step hides its failure and the one after it throws it |
| `PendingErrors.LeadsNowhere` | crates/z180-replay/src/timeline.rs:357-389 | an instance: four steps of that machine with a checkpoint at every third; the last position is valid, but the seek does not arrive |
| `Timelines.Timeline.Seek` | crates/z180-replay/src/timeline.rs:270-279 | succeeds if and only if the recorded run was at the target; then state, position and cursor are those of that entry; a failed seek changes nothing; no live call; at most the checkpoint spacing is re-executed |
| `Timelines.Timeline.SeekInternal` | crates/z180-replay/src/timeline.rs:357-389 | loads the newest usable checkpoint and replays; it succeeds exactly when the functional description `RedoSeek` does and then arrives there, with or without a bus error pending before or left pending on the way |
| `Timelines.Timeline.ChooseCheckpoint` | crates/z180-replay/src/timeline.rs:361-369 | the search from the back finds the newest checkpoint not past the target in attempts or actions |
| `Timelines.Timeline.ValidatePosition` | crates/z180-replay/src/timeline.rs:391-423 | accepts exactly the positions of `ValidPosition` |
| `Timelines.Timeline.Start` | crates/z180-replay/src/timeline.rs:47-67 | outside setup an error that changes nothing; in setup the journals are emptied, recording begins at position zero and checkpoint 0 is stored if the state can be saved at all; from a state that loads again, the invariant holds |
| `Timelines.Timeline.Apply` | crates/z180-replay/src/timeline.rs:87-105 | live: the stimulus acts, is logged with its outcome, and the run grows by one entry; otherwise an error that changes nothing |
| `Timelines.Timeline.DrainOutput` | crates/z180-replay/src/timeline.rs:107-130 | live: the output is taken, logged with what it yielded, and the run grows by one entry; otherwise an error that changes nothing |
| `Timelines.Timeline.TryStep` | crates/z180-replay/src/timeline.rs:132-141 | setup: an error; live: a recorded step; playback: exactly the next recorded attempt, its result or its recorded host failure, or an error at the end |
| `Timelines.Timeline.TryStepLive` | crates/z180-replay/src/timeline.rs:155-184 | position, journals, result, pending error and checkpoint store after a live step are those of the machine run against the host; the invariant is kept when no failure was hidden |
| `Timelines.Timeline.LogAttempt` | crates/z180-replay/src/timeline.rs:156-180 | a failed host call is logged with the index of the last bus record |
| `Timelines.Timeline.JournalIsTrue` | crates/z180-replay/src/timeline.rs:155-184 | the journal of a timeline says what the machine does, bus record by bus record |
| `Timelines.Timeline.StoreCheckpoint` | crates/z180-replay/src/timeline.rs:197-222 | an empty save is an error that changes nothing; otherwise the new checkpoint is appended; a full store first loses the evictable one, never checkpoint 0 |
| `Timelines.Timeline.MaybeStoreCheckpoint` | crates/z180-replay/src/timeline.rs:186-195 | a checkpoint is stored exactly at multiples of the interval |
| `Timelines.Timeline.ReplayActionsUntil` | crates/z180-replay/src/timeline.rs:496-539 | succeeds exactly when the functional replay of the actions does, and leaves the machine there |
| `Timelines.Timeline.ReplayBoundaryActions` | crates/z180-replay/src/timeline.rs:483-494 | replays all actions recorded at this step boundary |
| `Timelines.Timeline.ReplayNextAttempt` | crates/z180-replay/src/timeline.rs:434-481 | succeeds exactly when the functional replay of the next attempt does, pending bus errors included, and leaves machine, position and pending error there; the journals and the host stay |
| `Timelines.Timeline.FindFirstWrite` | crates/z180-replay/src/timeline.rs:281-323 | errors for setup, invalid or reversed positions; otherwise the answer is right in the sense of `WriteSearch.Answers`; on every outcome state, position, mode, cursor and journals are as before and the host is not called |
| `Timelines.Timeline.FindFirstWriteProbe` | crates/z180-replay/src/timeline.rs:325-355 | the probe seeks the start, watches the window and returns the answer for the attempts of the range |
| `Timelines.Timeline.New` | crates/z180-replay/src/timeline.rs:4-35 | zero interval and fewer than two checkpoints are rejected in this order; otherwise a timeline in setup |
| `Timelines.Timeline.PositionAtAttempt` | crates/z180-replay/src/recording.rs:56-64 | the position right after the attempt, that of checkpoint 0 for attempt 0, nothing past the end |
| `Timelines.Timeline.RecordedEnd` | crates/z180-replay/src/recording.rs:66-73 | the last entry of the run |
| `Timelines.SpacingKept` | crates/z180-replay/src/timeline.rs:186-222 | recording keeps the checkpoints evenly spaced and the newest one less than an interval behind |
| `Timelines.LiveStepRecorded` | crates/z180-replay/src/timeline.rs:155-184 | a live step that hid no failure extends the recorded run, and the stored checkpoints still belong to it |
| `Timelines.SeekIsShort` | crates/z180-replay/src/timeline.rs:357-389 | the attempts that a seek re-executes are fewer than the spacing of the checkpoints |
| `Timelines.ProbeSees` | crates/z180-replay/src/timeline.rs:337-354 | what the probe drains after an attempt decides the answer for that attempt |
| `Transcript.PlaybackRepeatsLive` | crates/z180-replay/src/bus.rs:82-263 | for any machine and any host: playing back the records of a live step, wherever they sit in a longer transcript, repeats it in core, notes and outcome, and uses up exactly its records |
| `Transcript.FailedCallIsLast` | crates/z180-core/src/access.rs:29-77 | only the last record of a step can be a failed call, and then the step fails or hides the failure; a step without a failed call returns normally |
| `Transcript.NoCallAfterFailure` | crates/z180-core/src/access.rs:98-129 | with a bus error pending a step makes no further call, live or played back, and ends the same way |
| `Transcript.PlaybackIgnoresSuffix` | crates/z180-replay/src/bus.rs:82-140 | a playback that does not diverge never looks past the records it consumes |
| `Transcript.DivergenceIsReported` | crates/z180-replay/src/bus.rs:82-140 | a divergence that is pending is what the step throws or hides |
| `Accesses.PlaybackAcceptsIff` | crates/z180-replay/src/bus.rs:82-140 | a playback does not diverge if and only if the records go on with what the step, by itself, asks for when it gets these answers |
| `Accesses.PlayedIsMade` | crates/z180-replay/src/bus.rs:82-140 | the records that a playback consumes are the accesses that the step makes, one by one, and core, notes and result are those of the step on these answers |
| `Accesses.MadeIsPlayed` | crates/z180-replay/src/bus.rs:82-140 | records that the step asks for are played back to their end |
| `Accesses.DivergesAtFirst` | crates/z180-replay/src/bus.rs:82-140 | a playback that diverges has consumed what the step asks for up to the access that it names, which is the next one, and the record there does not answer it |
| `Accesses.FailedCourse` | crates/z180-core/src/access.rs:27-90 | after a failed call a step asks for nothing more and reports no guest access |
| `Accesses.RunIsTrue` | crates/z180-replay/src/timeline.rs:434-540 | in a recorded run the journal says, entry by entry, what the machine does: outcomes of actions, accesses, notes and result of attempts |
| `Accesses.EveryRecordIsMade` | crates/z180-replay/src/timeline.rs:434-481 | every bus record of a recorded run is an access that the CPU makes there |
| `ReplayBuses.ReplayBus.Access` | crates/z180-replay/src/bus.rs:143-263 | playback answers from the transcript and never calls the host; any other mode calls the host once and logs the answer |
| `ReplayBuses.ReplayBus.PlaybackRead` | crates/z180-replay/src/bus.rs:82-112 | a record of exactly this access gives its byte, or its failure with its index, and is used up; any other record, or none, is a divergence that names both accesses and leaves the cursor |
| `ReplayBuses.ReplayBus.PlaybackWrite` | crates/z180-replay/src/bus.rs:114-140 | the same for writes: address and value must be those recorded |
| `ReplayBuses.ReplayBus.BeginPlayback` | crates/z180-replay/src/bus.rs:34-52 | succeeds exactly for a cursor inside the transcript |
| `ReplayBuses.ReplayBus.BeginLive` | crates/z180-replay/src/bus.rs:23-32 | empties the transcript |
| `ReplayBuses.ReplayBus.RestoreMode` | crates/z180-replay/src/bus.rs:54-66 | sets mode and cursor |
| `ReplayBuses.Z180.TryStep` | crates/z180-core/src/lib.rs:428-599 | a step over the shared bus is the strategy run live or against the transcript |
| `Machine.ObserveAllAppend` | crates/z180-core/src/debug.rs:174-184 | the debug layer sees notes one after another |
| `Journals.ValidPositionIff` | crates/z180-replay/src/timeline.rs:391-423 | `validate_position` accepts a position if and only if the recorded run was there |
| `Journals.ValidOnWalk` | crates/z180-replay/src/timeline.rs:391-423 | the positions that `validate_position` accepts are exactly those of the walk through the whole journal, hidden failures or not |
| `Journals.WasAtOnce` | crates/z180-replay/src/timeline.rs:87-184 | the run was at a position at one entry only |
| `Journals.ReplayFollows` | crates/z180-replay/src/timeline.rs:381-388 | replay from any entry of the run to a later position of the run arrives there |
| `Journals.RedoToIs` | crates/z180-replay/src/timeline.rs:434-540 | a replay that hides no failure arrives where the replay with its pending errors does |
| `Journals.AttemptFollows` | crates/z180-replay/src/timeline.rs:434-481 | replaying the next attempt from an entry ends right after that attempt of the run |
| `Journals.ActionsFollow` | crates/z180-replay/src/timeline.rs:496-539 | replaying actions from an entry follows the run |
| `Journals.RecordAttempt` | crates/z180-replay/src/timeline.rs:155-184 | attempting a step live and logging it extends the recorded run |
| `Journals.RecordAction` | crates/z180-replay/src/timeline.rs:87-130 | applying a stimulus or draining an output and logging it extends the recorded run |
| `Journals.ChainIndex` | crates/z180-replay/src/timeline.rs:87-184 | the index of an entry is the number of attempts and actions before it |
| `Journals.ChainSound` | crates/z180-replay/src/timeline.rs:155-184 | every state of a run loads again, the clock never runs back, the cursor stays inside the transcript |
| `Journals.ActionsSplit` | crates/z180-replay/src/timeline.rs:413-421 | actions before an entry belong to its step or earlier ones, those after it to its step or later ones |
| `Journals.NextAttemptAlike` | crates/z180-replay/src/timeline.rs:434-481 | whatever the debug layer holds, a lenient replay goes the way the run went |
| `Checkpoints.SeekArrives` | crates/z180-replay/src/timeline.rs:357-389 | whichever checkpoints are retained, seeking any valid position arrives at the entry the run had there, re-executing fewer attempts than separate two neighbours |
| `Checkpoints.ChosenArrives` | crates/z180-replay/src/timeline.rs:361-389 | the result of a seek does not depend on which usable checkpoint it starts from |
| `Checkpoints.StoreKeeps` | crates/z180-replay/src/timeline.rs:197-222 | storing a checkpoint at the end of a run, with or without eviction, leaves a good store |
| `Checkpoints.StoreSurvives` | crates/z180-replay/src/timeline.rs:197-222 | a store stays good when the run goes on |
| `Checkpoints.StoreSpaced` | crates/z180-replay/src/timeline.rs:186-222 | storing at a multiple of the interval keeps the spacing |
| `Thinning.FindEvictable` | crates/z180-replay/src/timeline.rs:204-214 | the first index, other than 0, whose removal leaves the smallest gap |
| `Thinning.SmallestGapIsSmall` | crates/z180-replay/src/timeline.rs:204-214 | that gap is at most twice the newest attempt divided by the number of candidates (averaging over two telescoping chains) |
| `Thinning.StoreKeepsSpacing` | crates/z180-replay/src/timeline.rs:186-222 | checkpoint 0 stays, attempts strictly increase, and neighbours stay within the interval or the averaging bound |
| `Thinning.SpacingBound` | crates/z180-replay/src/timeline.rs:186-222 | neighbours are at most max(I, 2T/(m-1)) attempts apart |
| `WriteSearch.AnswerMeans` | crates/z180-replay/src/timeline.rs:281-355 | `None`: no attempt of the range completed a guest write into the window; `Some`: the earliest attempt that did, and such a write |
| `WriteSearch.FirstHitIsFirstWrite` | crates/z180-replay/src/timeline.rs:343-346 | under a write watch the first hit among the drained events is the first write |
| `WriteSearch.RingIsExactOrSaysSo` | crates/z180-core/src/debug.rs:174-184 | the event ring holds every event of the step or the loss flag is set |
| `WriteSearch.RingKeepsNewest` | crates/z180-core/src/debug.rs:174-184 | the ring holds the newest events, as many as it has room for, and the flag says exactly whether some were lost |
| `WriteSearch.EventsTell` | crates/z180-core/src/access.rs:50-88 | a memory access becomes an event, with its own cycle, place and byte, if and only if a watch for its direction covers its address |
| `WriteSearch.FirstWriteExists` | crates/z180-core/src/access.rs:50-88 | a write is found exactly when one was completed in the window |
| `WriteSearch.NotesAreLive` | crates/z180-core/src/access.rs:50-88 | the notes of a recorded attempt are those its live step reported |
| `WriteSearch.NotesStay` | crates/z180-replay/src/timeline.rs:281-355 | and stay the same however the recording goes on |
| `Recordings.ImportRecording` | crates/z180-replay/src/recording.rs:102-218 | unless its replay from checkpoint 0 hides a bus failure, a recording is accepted if and only if it describes a run (journal, checkpoints, saved position), and the timeline then holds that run in playback at the saved position; in every case it is accepted exactly when `Accepts` holds; no live call; every bus record is then an access that the CPU makes |
| `Recordings.AcceptsIff` | crates/z180-replay/src/recording.rs:102-218 | what an import tests holds exactly of the recordings that describe a run, unless the replay hides a failure; a recording whose replay does describes none; and in a recording that describes a run every bus record is the access that the CPU makes, and every outcome the one it comes to |
| `Recordings.HiddenFailureAccepted` | crates/z180-replay/src/recording.rs:190-217 | the exception is real: from any step whose playback returns normally with an error pending, the recording of that one step passes every test, but describes no run |
| `Recordings.HiddenStepAccepted` | crates/z180-replay/src/recording.rs:102-218 | every live step that hides a bus failure is such a step, and the recording is what a timeline logs of it |
| `Recordings.FailedTrapAccepted` | crates/z180-core/src/lib.rs:543-563 | so is every step with the control path of `try_step` that comes to an instruction whose TRAP fails to push |
| `Recordings.TrappingAccepted` | crates/z180-core/src/lib.rs:543-563 | an instance on such a machine: its first step is recorded, and the recording is accepted although it describes no run |
| `Recordings.TrappingCpuIsLawful` | crates/z180-core/src/lib.rs:543-563 | that machine keeps all the laws that replay asks of a machine |
| `Recordings.ExportThenImport` | crates/z180-replay/src/recording.rs:77-218 | the recording of any started timeline is accepted, every bus record is used, and the new timeline stands at the same position and machine state with the same run behind it |
| `Recordings.ExportRecording` | crates/z180-replay/src/recording.rs:77-97 | an error in setup; otherwise the fields of the timeline, which describe exactly its run |
| `Recordings.FaithfulIsShaped` | crates/z180-replay/src/recording.rs:133-183 | every recording that describes a run passes the static checks |
| `Recordings.StoreIsGood` | crates/z180-replay/src/recording.rs:187-205 | what the validating replay compared makes every checkpoint state the one its position had in the run |
| `Recordings.FaithfulOnce` | crates/z180-replay/src/recording.rs:190-217 | a recording describes at most one run |
| `Recordings.FaithfulValidates` | crates/z180-replay/src/recording.rs:192-205 | from every entry of its run a recording that describes one replays to the last attempt and agrees with every checkpoint on the way |
| `Recordings.ValidateRebuilds` | crates/z180-replay/src/recording.rs:192-205 | what the validating replay accepts without hiding a failure is a run, and its checkpoints are states of that run |
| `Recordings.RunHidesNothing` | crates/z180-replay/src/recording.rs:192-205 | the replay of a run hides no failure |
| `Recordings.CheckShape` | crates/z180-replay/src/recording.rs:107-183 | the checks that need no machine succeed exactly for well-shaped recordings |
| `Recordings.CheckAttempts` | crates/z180-replay/src/recording.rs:137-149 | the attempt index is accepted exactly when attempts, actions, records and cycles grow within bounds |
| `Recordings.ReplayEverything` | crates/z180-replay/src/recording.rs:184-213 | the validating replay succeeds exactly when the functional one (`Validate`) reaches the last attempt, the remaining actions replay, and every bus record has been used |
| `Recordings.ReplayAndCompare` | crates/z180-replay/src/recording.rs:193-205 | one attempt is accepted exactly when it replays and no checkpoint there holds another state |
| `Stepping.FailedInstructionRollsBack` | crates/z180-core/src/lib.rs:491-585 | a failed instruction restores registers, EI shadow and PC-watch count, charges no cycles, and is reported by the same step; its failure is hidden if and only if the stack push of a TRAP failed |
| `Stepping.FailedStep` | crates/z180-core/src/lib.rs:428-599 | a whole step hides a failure if and only if DMA did not fail, nothing was acknowledged, the CPU neither halted nor slept, and the push of the TRAP failed; a step that throws has charged its completed DMA only and has rolled back its instruction |
| `Stepping.StepSucceeds` | crates/z180-core/src/lib.rs:428-599 | a step that succeeds charges and returns the cycles of its DMA and of what it came to after it: interrupt, HALT, the three cycles of SLP, or the instruction, each with the core that it left |
| `Stepping.InstructionSucceeds` | crates/z180-core/src/lib.rs:491-599 | the same of an instruction: its handler, or the operand read and the push of its TRAP |
| `Stepping.TrapHidesFailure` | crates/z180-core/src/lib.rs:520-563 | such a step exists: a machine and a host where the push fails, the step returns the cycles of a TRAP, and the next step throws |
| `Stepping.HiddenFailureSurfacesNext` | crates/z180-core/src/lib.rs:428-446 | a hidden failure is thrown by the next step, before any bus call |
| `Stepping.CheckpointForgetsHiddenFailure` | crates/z180-core/src/lib.rs:543-563 | why hidden failures are excluded: a replay from a checkpoint between the two steps never agrees with the log |
| `Stepping.SeqRuns` | crates/z180-core/src/lib.rs:428-599 | running a sequence of parts is running the first and then the rest, unless its failure ends the step |
| `Stepping.ChargesNothing` | crates/z180-core/src/lib.rs:746-756 | only `finish_step` advances the clock |
| `PhysicalMemory.Memory.MapRegion` | crates/z180-core/src/memory.rs:156-227 | succeeds if and only if base and size are aligned, the range lies in the space, ROM has its bytes, and nothing answers there yet unless it may be replaced; otherwise the first of the four errors, and nothing changes; on success the range reads as zeros, as the data, or from the bus, every other address keeps its cell, and no two RAM pages share storage |
| `PhysicalMemory.Memory.FreeIff` | crates/z180-core/src/memory.rs:184-191 | nothing answers in a range of pages if and only if none of them is mapped |
| `PhysicalMemory.Memory.New` | crates/z180-core/src/memory.rs:123-145 | succeeds if and only if the width is 20 to 24, every region is aligned, in range and has its ROM bytes, and no two have an address in common; then the flat address space is that of the regions; otherwise the error is that of the first region that cannot be mapped |
| `PhysicalMemory.ConfiguredAt` | crates/z180-core/src/memory.rs:123-148 | of regions that fit together each has its contents on all of its addresses |
| `PhysicalMemory.NoErrorIff` | crates/z180-core/src/memory.rs:156-192 | no region is reported exactly when all of them can be mapped together |
| `PhysicalMemory.OverlapTakesPage` | crates/z180-core/src/memory.rs:183-192 | a region overlaps an earlier one exactly when one of its pages is taken |
| `PhysicalMemory.Memory.MapErrorIs` | crates/z180-core/src/memory.rs:156-192 | on a configured memory the tests of `map_region` find exactly what is wrong with one more region |
| `PhysicalMemory.Memory.Write` | crates/z180-core/src/memory.rs:294-322 | changes its own address if that is RAM and nothing else; the bus is told, or a ROM write reported, exactly for such cells |
| `PhysicalMemory.Memory.Read` | crates/z180-core/src/memory.rs:270-292 | returns the flat cell, or asks the bus; the fallback branches are dead |
| `PhysicalMemory.Memory.Peek` | crates/z180-core/src/memory.rs:324-345 | returns the flat cell without the bus |
| `PhysicalMemory.Memory.Poke` | crates/z180-core/src/memory.rs:347-359 | changes its own address if that is RAM and nothing else |
| `PhysicalMemory.Memory.ReclaimUnreferencedStores` | crates/z180-core/src/memory.rs:240-268 | mark and clear: exactly the stores no page points into are dropped |
| `PhysicalMemory.ReclaimKeepsCells` | crates/z180-core/src/memory.rs:240-268 | dropping unreferenced stores changes no address |
| `PhysicalMemory.InsertStore` | crates/z180-core/src/memory.rs:229-238 | the first free slot is reused, or one slot appended if none is free; the other stores stay |
| `PhysicalMemory.FindSlot` | crates/z180-core/src/memory.rs:229-238 | finds the first free slot |
| `PhysicalMemory.WriteChangesOne` | crates/z180-core/src/memory.rs:294-322 | a byte stored through one RAM page shows at no other address |
| `PhysicalMemory.RegionMapped` | crates/z180-core/src/memory.rs:156-227 | replacing a range of pages changes the flat address space in that range only and keeps RAM pages apart |
| `PhysicalMemory.Memory.RamRegions` | crates/z180-core/src/memory.rs:361-386 | lists exactly the maximal runs of RAM pages, in order |
| `PhysicalMemory.RunsCoverRam` | crates/z180-core/src/memory.rs:361-386 | a page is RAM if and only if a listed run covers it |
| `PhysicalMemory.Memory.RamSegment` | crates/z180-core/src/memory.rs:404-437 | succeeds exactly for the base of a run, with its store and length |
| `PhysicalMemory.Memory.RamBytes` | crates/z180-core/src/memory.rs:388-402 | the i-th byte of the segment is `peek(base + i)` |
| `PhysicalMemory.RunInStore` | crates/z180-core/src/memory.rs:404-437 | a run lies contiguously in one store |
| `PhysicalMemory.Memory.IsValid` | crates/z180-core/src/memory.rs:440-468 | accepts exactly memories of a legal size whose pages lie inside their stores; an accepted one is a flat address space if and only if its pages are aligned and its RAM pages keep apart, as those of every constructed or remapped memory are |
| `PhysicalMemory.AcceptedIsValid` | crates/z180-core/src/memory.rs:440-468 | the same of any accepted image |
| `PhysicalMemory.ApartIff` | crates/z180-core/src/memory.rs:470-478 | RAM pages keep apart if and only if no byte of a store shows at two addresses |
| `PhysicalMemory.TwoPagesAccepted` | crates/z180-core/src/memory.rs:440-468 | instances: two RAM pages over one store are accepted wherever the second begins; they share bytes exactly when it begins inside the first |
| `Timers.TicksMeetClosedForm` | crates/z180-core/src/peripherals/prt.rs:13-48 | from count c and reload R, n enabled ticks leave c-n, or R-((n-c-1) mod (R+1)) once n > c; TIF rises exactly when the count was decremented to zero; a disabled channel stands still |
| `Timers.AfterNext` | crates/z180-core/src/peripherals/prt.rs:13-48 | the closed form steps like the loop |
| `Timers.TicksAdd` | crates/z180-core/src/peripherals/prt.rs:13-48 | ticks add up |
| `SerialUnits.TransmitAdds` | crates/z180-core/src/peripherals/asci.rs:226-246 | the transmitter over a and then b cycles is the transmitter over a+b |
| `SerialUnits.LineAdds` | crates/z180-core/src/peripherals/asci.rs:221-271 | the same for a whole channel with status and RDR |
| `SerialUnits.TransmitKeepsStream` | crates/z180-core/src/peripherals/asci.rs:226-246 | time loses, adds and reorders no outgoing byte |
| `DeviceTime.FinishAdds` | crates/z180-core/src/lib.rs:746-756 | charging a and then b cycles equals charging a+b for FRC, both PRTs, both ASCI channels, CSI/O, pending requests and the cycle count |
| `DeviceTime.StepAdds` | crates/z180-core/src/lib.rs:746-756 | the same with the ticks given |
| `Ledgers.LoseBalances` | crates/z180-core/src/peripherals/asci.rs:160-271 | a loss takes exactly the named bytes out of those on their way, notes each of them, and leaves all others in order |
| `Ledgers.OneLess` | crates/z180-core/src/peripherals/asci.rs:160-271 | losing one byte leaves the other survivors as they were |
| `Ledgers.DepartedInOrder` | crates/z180-core/src/peripherals/asci.rs:221-271 | what has left is the beginning of what entered and was not lost; every byte has left, is on its way or is noted as lost |
| `DeviceState.OverrunIsNoted` | crates/z180-core/src/peripherals/asci.rs:248-267 | an overrun sets OVRN and notes exactly one more byte as lost, the one in the shifter; otherwise time loses nothing and leaves OVRN alone |
| `DeviceState.FilledIsGood` | crates/z180-core/src/access.rs:296-301 | a byte written to TDR is the newest on its way out; a byte still in TDR is lost, and so is the new one if the channel is stopped, and no other |
| `DeviceState.ControlledIsGood` | crates/z180-core/src/peripherals/asci.rs:189-208 | a CNTLA write loses exactly what is in a shifter that it turns off |
| `DeviceState.StoppedIsGood` | crates/z180-core/src/peripherals/asci.rs:209-220 | IOSTOP loses exactly what is in TDR, the shifters and the FIFO; what went out stays out |
| `DeviceState.AbortedIsGood` | crates/z180-core/src/peripherals/asci.rs:160-169 | an aborted reception loses exactly what the shifter and the FIFO hold, and keeps the status right |
| `DeviceState.TimeKeepsChannel` | crates/z180-core/src/peripherals/asci.rs:221-271 | elapsed time keeps status, FIFO bound and RDR right, and every byte stays in its place in its ledger or is noted as lost |
| `DeviceState.TimeKeepsRequests` | crates/z180-core/src/lib.rs:746-756 | a request mask that was up to date is up to date after any number of cycles |
| `DeviceState.LineStep` | crates/z180-core/src/peripherals/asci.rs:4-21 | a push or a pop changes no request |
| `DeviceState.ResetIsOk` | crates/z180-core/src/lib.rs:346-420 | after a reset registers, channels and request mask agree |
| `Peripherals.Devices.FinishStep` | crates/z180-core/src/lib.rs:746-756 | every device advances by these cycles, told by registers and fields: FRC by a tenth, each enabled timer by the closed form of a twentieth with its flag, each transmitter sends shifter and TDR when their cycles are over, each receiver hears its byte or overruns, the CSI/O ends its transfer, and bits 0 and 1 of the mask ask accordingly; IOSTOP holds the serial units; it is additive, and the request mask and the MMU map stay fresh |
| `DeviceEffects.ElapsedIs` | crates/z180-core/src/lib.rs:746-756 | the additive step of all devices is what registers and fields tell |
| `DeviceEffects.TransmitIs` | crates/z180-core/src/peripherals/asci.rs:226-242 | the transmitter case by case: when the byte in the shifter goes out, when the one in TDR follows, what is left of the cycles |
| `DeviceEffects.ChannelRan` | crates/z180-core/src/peripherals/asci.rs:221-273 | a channel after n cycles: output, shifter, FIFO, RDR, OVRN, RDRF and TDRE |
| `DeviceEffects.TimersHaveRun` | crates/z180-core/src/peripherals/prt.rs:13-48 | both timers after n cycles: count, flag, remainder, enables |
| `DeviceEffects.FrameIs` | crates/z180-core/src/peripherals/asci.rs:86-121 | the cycles of a frame from the numbers in the registers |
| `DeviceEffects.TransferIs` | crates/z180-core/src/peripherals/csio.rs:26-33 | the cycles of a CSI/O transfer from the number in CNTR |
| `Peripherals.Devices.MaskIsRight` | crates/z180-core/src/peripherals/prt.rs:4-12 | the invariant fixes every bit of the request mask by registers and pins: timer 0 and 1, DMA 0 and 1, CSI/O, ASCI 0 and 1 |
| `Peripherals.Devices.PagesAreRight` | crates/z180-core/src/access.rs:318-334 | and every page base by the numbers in CBAR, BBR and CBR |
| `Peripherals.Devices.AdvanceDevices` | crates/z180-core/src/lib.rs:746-756 | the calls of `finish_step`, in their order, together are `Finish` |
| `Peripherals.Devices.RunTimers` | crates/z180-core/src/peripherals/prt.rs:13-48 | the nested tick loop is `Ticks` |
| `Peripherals.Devices.AdvanceAsci` | crates/z180-core/src/peripherals/asci.rs:221-271 | both channels advance unless IOSTOP is set, as `DeviceEffects.ChannelRan` tells, and the two request bits are recomputed |
| `Peripherals.Devices.AdvanceTransmitter` | crates/z180-core/src/peripherals/asci.rs:226-246 | the loop sends what the transmitter function says, which `DeviceEffects.TransmitIs` tells case by case |
| `Peripherals.Devices.AdvanceReceiver` | crates/z180-core/src/peripherals/asci.rs:248-267 | the receiver is `Receive`; an overrun sets OVRN and notes the byte of the shifter as lost |
| `Peripherals.Devices.AdvanceCsio` | crates/z180-core/src/peripherals/csio.rs:89-113 | the CSI/O advances, its request is recomputed when a transfer ends, and nothing else changes |
| `Peripherals.Devices.AdvanceFrc` | crates/z180-core/src/lib.rs:746-751 | the free-running counter loses one for every ten cycles, modulo 256 |
| `Peripherals.Devices.UpdateAsciRequests` | crates/z180-core/src/peripherals/asci.rs:141-159 | the two ASCI bits are recomputed from status, FIFO, pins and enables; the other bits stay |
| `Peripherals.Devices.SyncAsciStatus` | crates/z180-core/src/peripherals/asci.rs:128-140 | RDRF says that the FIFO holds a byte, TDRE that TDR does not |
| `Peripherals.Devices.StartAsciTransmit` | crates/z180-core/src/peripherals/asci.rs:170-188 | a full TDR moves into an idle shifter exactly when the transmitter is on and not stopped |
| `Peripherals.Devices.AbortAsciReceive` | crates/z180-core/src/peripherals/asci.rs:160-169 | drops the shifter, and with the flag the FIFO and the error bits |
| `Peripherals.Devices.WriteTdr` | crates/z180-core/src/access.rs:296-301 | the byte enters the outgoing ledger; a byte that was in TDR is noted as lost, and the new one if IOSTOP is set; everything stays fresh |
| `Peripherals.Devices.WriteCntla` | crates/z180-core/src/peripherals/asci.rs:189-208 | what it stores, clears, aborts and starts; only a byte in a shifter that is turned off is noted as lost |
| `Peripherals.Devices.WriteCntlb` | crates/z180-core/src/access.rs:281-290 | resumes an unclocked reception and nothing else |
| `Peripherals.Devices.WriteStat` | crates/z180-core/src/access.rs:291-295 | the enables change, RDRF, TDRE and errors do not; on channel 1 CTS1E aborts a CSI/O reception |
| `Peripherals.Devices.WriteAsext` | crates/z180-core/src/access.rs:302-307 | stores the register and applies a carrier loss that is already latched |
| `Peripherals.Devices.WriteRdr` | crates/z180-core/src/access.rs:243-250 | the Z8S180 keeps an unread byte; the Z80180 lets the guest overwrite it |
| `Peripherals.Devices.ReadRdr` | crates/z180-core/src/access.rs:145-154 | returns the oldest received byte, unless the guest wrote over it, and takes it from the FIFO |
| `Peripherals.Devices.ReadStat` | crates/z180-core/src/access.rs:135-144 | reading STAT0 takes back the carrier interrupt, and its latch once the carrier is back |
| `Peripherals.Devices.AsciRxPush` | crates/z180-core/src/peripherals/asci.rs:4-18 | accepted exactly when the receiver is on, not inhibited and idle; then the byte enters the incoming ledger |
| `Peripherals.Devices.AsciTxPop` | crates/z180-core/src/peripherals/asci.rs:19-21 | returns the oldest byte that went out |
| `Peripherals.Devices.SetAsciCts` | crates/z180-core/src/peripherals/asci.rs:22-28 | sets the pin and brings the requests up to date |
| `Peripherals.Devices.SetAsciDcd` | crates/z180-core/src/peripherals/asci.rs:29-44 | a rising edge on channel 0 is latched, asks for an interrupt and may abort reception |
| `Peripherals.Devices.SetNmi` | crates/z180-core/src/interrupts.rs:30-36 | a rising edge is latched and clears the DMA main enable |
| `Peripherals.Devices.WriteCntr` | crates/z180-core/src/peripherals/csio.rs:46-81 | starts a transfer exactly when sending is turned on; never both directions at once; the request stays fresh |
| `Peripherals.Devices.WriteTrd` | crates/z180-core/src/access.rs:310-312 | stores the byte and takes back the end of the transfer |
| `Peripherals.Devices.ReadTrd` | crates/z180-core/src/access.rs:155-159 | returns the byte and takes back the end of the transfer |
| `Peripherals.Devices.CsioRxPush` | crates/z180-core/src/peripherals/csio.rs:4-22 | accepted exactly when reception is on and idle |
| `Peripherals.Devices.CsioTxPop` | crates/z180-core/src/peripherals/csio.rs:23-25 | returns the oldest byte that went out |
| `Peripherals.Devices.WriteTcr` | crates/z180-core/src/access.rs:277-278 | the writable bits change, the flags stay, and bits 0 and 1 of the mask are timer 0 and timer 1 with their enables |
| `Peripherals.Devices.ReadTcr` | crates/z180-core/src/access.rs:160-163 | arms the flags that are set |
| `Peripherals.Devices.WriteTmdr` | crates/z180-core/src/access.rs:234-242 | a counter can be written only while its channel stands still |
| `Peripherals.Devices.ReadTmdr` | crates/z180-core/src/access.rs:164-184 | the low byte latches the high one, which the next high read returns; an armed flag is cleared |
| `Peripherals.Devices.WriteDstat` | crates/z180-core/src/access.rs:251-266 | an enable changes only when its write bit is low, turning one on turns the main enable on; requests stay fresh |
| `Peripherals.Devices.WriteMmu` | crates/z180-core/src/access.rs:275-276 | the page bases are recomputed and match the closed form |
| `Peripherals.Devices.RecomputeMmuPages` | crates/z180-core/src/access.rs:318-334 | all sixteen page bases equal the closed form over CBR, BBR and CBAR |
| `Peripherals.Devices.MmuTranslate` | crates/z180-core/src/lib.rs:649-652 | the page offset is kept, the page is relocated modulo 256, the address has twenty bits |
| `Peripherals.Devices.WriteIcr` | crates/z180-core/src/access.rs:313-316 | IOSTOP empties transmitters, shifters and FIFOs, keeps what the host has not taken, and notes every byte it loses |
| `Peripherals.Devices.StopAsciForIostop` | crates/z180-core/src/peripherals/asci.rs:209-220 | both channels stop and their requests are recomputed |
| `Peripherals.Devices.StorePlain` | crates/z180-core/src/access.rs:222-235 | a register without an effect is stored and every summary stays fresh |
| `Peripherals.Devices.ClearDe0` | crates/z180-core/src/peripherals/dma.rs:91-95 | the enable of DMA channel 0 is cleared and its request stays fresh |
| `Peripherals.Devices.ClearDe1` | crates/z180-core/src/peripherals/dma.rs:141-144 | the same for channel 1 |
| `Peripherals.Devices.ReadInternalIo` | crates/z180-core/src/access.rs:130-187 | every read gives, told register by register, the bits that can be read, the pins, or the latched counter byte, and has exactly the effect of its register: latches, armed flags, carrier, FIFO, end of transfer; a received byte is the oldest one; the whole request mask is that of registers and pins |
| `Peripherals.Devices.WriteInternalIo` | crates/z180-core/src/access.rs:216-317 | every write leaves, told register by register and bit by bit, exactly the stored byte and what follows from it in both serial channels, the CSI/O and the latches; the whole request mask is that of registers and pins; the ledgers note exactly the losses it causes; a register the variant lacks stays |
| `GuestEffects.CntlaIs` | crates/z180-core/src/peripherals/asci.rs:189-208 | what a write to CNTLA leaves, from the channel as a value to its fields |
| `GuestEffects.TdrIs` | crates/z180-core/src/access.rs:296-301 | what a write to TDR leaves |
| `GuestEffects.CntlbIs` | crates/z180-core/src/access.rs:281-290 | what a write to CNTLB leaves |
| `GuestEffects.CntrIs` | crates/z180-core/src/peripherals/csio.rs:46-81 | what a write to CNTR leaves |
| `GuestEffects.PlainIs` | crates/z180-core/src/access.rs:222-235 | which bits a plain store changes |
| `GuestEffects.ReadableIs` | crates/z180-core/src/access.rs:130-134 | which bits of a register can be read |
| `GuestEffects.HearIs` | crates/z180-core/src/peripherals/asci.rs:4-18 | what a byte that starts to come in leaves |
| `Peripherals.Devices.Reset` | crates/z180-core/src/lib.rs:346-420 | reset values, the data and DMA registers that survive, and fresh summaries |
| `Peripherals.Devices.constructor` | crates/z180-core/src/lib.rs:269-344 | a new machine has reset registers and fresh summaries |
| `DmaChannel.Dma.ServiceDma` | crates/z180-core/src/peripherals/dma.rs:203-270 | both channels, by the numbers in the registers: whose turn it is, how many bytes one service moves, where byte i comes from and goes to by the two mode bits and modulo 2^20, where SAR0, DAR0, MAR1 and the counts end, the enables, the edges and the cycles; the request mask stays fresh throughout |
| `DmaChannel.Dma.ServiceDma0` | crates/z180-core/src/peripherals/dma.rs:203-234 | channel 0 by the numbers in the registers: it moves bytes exactly when it is its turn, between memories at once, or through a port or a fixed address on request; addresses, count, enable, edge and cycles; else a zero count clears DE0 and channel 1 gets its turn |
| `DmaChannel.TurnsAre` | crates/z180-core/src/peripherals/dma.rs:203-278 | whose turn it is and for how many bytes, from the bits to the numbers |
| `DmaChannel.BurstIs` | crates/z180-core/src/peripherals/dma.rs:13-96 | what a burst of channel 0 does, from the bits to the numbers |
| `DmaChannel.PassIs` | crates/z180-core/src/peripherals/dma.rs:97-150 | what a burst of channel 1 does, from the bits to the numbers |
| `DmaChannel.Dma.Burst` | crates/z180-core/src/peripherals/dma.rs:228-250 | the loop of n transfers of channel 0: copy, registers, edge and cycles in closed form |
| `DmaChannel.Dma.TransferByte` | crates/z180-core/src/peripherals/dma.rs:13-96 | one byte of channel 0 between memory, ports and the host bus: the copy, the registers, and six cycles plus the wait states of both ends, plus one for each carry into bit 16 when memory has none |
| `DmaChannel.OneMoreByte` | crates/z180-core/src/peripherals/dma.rs:13-96 | copy and cost of n+1 bytes are those of n and one more |
| `DmaChannel.CrossingsNext` | crates/z180-core/src/peripherals/dma.rs:59-80 | the closed form counts a move exactly when it carries into bit 16 |
| `DmaChannel.BurstMoves` | crates/z180-core/src/peripherals/dma.rs:203-234 | where no byte is read after it has been overwritten every RAM byte of the destination ends as the source byte was at the start |
| `DmaChannel.Dma.ServiceDma1` | crates/z180-core/src/peripherals/dma.rs:252-269 | channel 1 with a port outside the internal window: the ordered copy to or from the port, MAR, BCR, DE1, edge and the closed-form cost; without a request or count it moves nothing |
| `DmaChannel.Dma.Burst1` | crates/z180-core/src/peripherals/dma.rs:258-266 | the loop of n transfers of channel 1 |
| `DmaChannel.Dma.TransferByte1` | crates/z180-core/src/peripherals/dma.rs:97-150 | one byte of channel 1 through its port: copy, registers and cycles |
| `DmaChannel.PortOneMore` | crates/z180-core/src/peripherals/dma.rs:97-150 | copy and cost of n+1 bytes are those of n and one more |
| `DmaChannel.PortSends` | crates/z180-core/src/peripherals/dma.rs:97-150 | the port is told the bytes along the walk of MAR in order, and memory stays as it is |
| `DmaChannel.PortStores` | crates/z180-core/src/peripherals/dma.rs:97-150 | byte i that the port answers ends in RAM at step i of the walk |
| `DmaChannel.Dma.SetDreq` | crates/z180-core/src/peripherals/dma.rs:4-12 | a rising edge stays pending until its channel is served |
| `Copying.CopyMoves` | crates/z180-core/src/peripherals/dma.rs:13-96 | an ordered copy whose reads are not overtaken by its writes is a block move |
| `Copying.CopyFills` | crates/z180-core/src/instructions/extended.rs:191-213 | an ordered copy that reads what it has just written fills the destination with the first byte |
| `Copying.CopyKeeps` | crates/z180-core/src/peripherals/dma.rs:13-96 | a copy changes only RAM it writes to |
| `Copying.PortHears` | crates/z180-core/src/peripherals/dma.rs:97-150 | an ordered copy from local memory into a port tells it the bytes in order |
| `Copying.PortFills` | crates/z180-core/src/peripherals/dma.rs:97-150 | an ordered copy from a port stores its answers, one per place |
| `Copying.SparedStays` | crates/z180-core/src/peripherals/dma.rs:13-96 | what is loaded from an address that a copy does not write, or that is not RAM, stays the same |
| `BlockTransfer.Machine.RunToEnd` | crates/z180-core/src/instructions/extended.rs:191-213 | LDIR or LDDR whose opcode is not left to the host bus and is not overwritten by it, when no interrupt comes between its steps, ends after n steps (n = BC, or 65536): ordered copy through the MMU and the host bus, registers and flags in closed form, 14(n-1)+12 cycles plus waits, and all devices advanced by exactly that, told by registers and fields |
| `BlockTransfer.DecodesIff` | crates/z180-core/src/instructions/extended.rs:191-213 | the four opcodes: 0xed and 0xa0, eight more downwards, sixteen more repeated |
| `BlockTransfer.RanIs` | crates/z180-core/src/instructions/extended.rs:191-213 | registers, flags and cycles of a whole run in numbers |
| `BlockTransfer.SteppedIs` | crates/z180-core/src/instructions/extended.rs:191-213 | registers, flags and cycles of one step in numbers |
| `BlockTransfer.MappedIs` | crates/z180-core/src/lib.rs:649-652 | the physical address from the numbers in CBAR, BBR and CBR |
| `BlockTransfer.WholeRunKeeps` | crates/z180-core/src/instructions/extended.rs:191-213 | a run of 65536 bytes writes everywhere, so it keeps its opcode exactly when both opcode bytes are in memory that is not RAM |
| `BlockTransfer.CopyWholeSpace` | crates/z180-core/src/instructions/extended.rs:191-213 | a reset machine with LDIR in ROM and BC = 0: 65536 steps, 1703934 cycles, HL and DE back where they were |
| `BlockTransfer.RunMoves` | crates/z180-core/src/instructions/extended.rs:191-213 | through an MMU that keeps pages apart, a run whose destination does not begin inside the source still to be read is a block move |
| `BlockTransfer.RunFills` | crates/z180-core/src/instructions/extended.rs:191-213 | one whose destination begins one byte further on fills the destination with the first byte |
| `BlockTransfer.RunMeets` | crates/z180-core/src/instructions/extended.rs:191-213 | a step reads what an earlier one wrote exactly when the lead of DE over HL is the distance between them |
| `BlockTransfer.Machine.Step` | crates/z180-core/src/lib.rs:428-599 | one step of a block transfer on a running machine, interrupts enabled or not as long as none is taken, with DMA off or idle: registers, byte, cycles, EI shadow and elapsed device time |
| `BlockTransfer.Machine.PendingMaskableSource` | crates/z180-core/src/interrupts.rs:55-79 | the first of the ten sources, in their order, that asks for an interrupt, if one does |
| `BlockTransfer.AskedIff` | crates/z180-core/src/interrupts.rs:55-79 | an interrupt is asked for if and only if one of the ten sources asks |
| `BlockTransfer.Machine.ExecuteBlock` | crates/z180-core/src/instructions/extended.rs:191-213 | the handler: one byte, three registers, the flags, and PC back by two while bytes are left |
| `BlockTransfer.AfterNext` | crates/z180-core/src/instructions/extended.rs:191-213 | the closed form after n+1 steps is one more step after n |
| `BlockTransfer.OpcodeStays` | crates/z180-core/src/instructions/extended.rs:191-213 | as long as no destination byte is an opcode byte in RAM the instruction fetched stays the same |
| `DecimalArithmetic.Alu.AddDecimal` | crates/z180-core/src/instructions.rs:131-147 | ADC and DAA from the lowest byte up: the decimal sum modulo 100^n, the final carry is the decimal carry |
| `DecimalArithmetic.Alu.SubDecimal` | crates/z180-core/src/instructions.rs:148-167 | SBC and DAA from the lowest byte up: the decimal difference modulo 100^n, the final carry is the borrow |
| `DecimalArithmetic.DaaAfterAdd` | crates/z180-core/src/instructions.rs:350-380 | after adding two decimal bytes DAA leaves the decimal sum and the decimal carry |
| `DecimalArithmetic.DaaAfterSub` | crates/z180-core/src/instructions.rs:350-380 | after subtracting two decimal bytes DAA leaves the decimal difference and the borrow |
| `DecimalArithmetic.Alu.Add8` | crates/z180-core/src/instructions.rs:131-147 | result and carry are the nine-bit sum, H the half carry, P/V the signed overflow |
| `DecimalArithmetic.Alu.Sub8` | crates/z180-core/src/instructions.rs:148-167 | result and carry are the difference and the borrow, H the half borrow, P/V the signed overflow |
| `DecimalArithmetic.Alu.Daa` | crates/z180-core/src/instructions.rs:350-380 | the adjusted accumulator and all flags |

## Left out

- The encodings of save states and recordings: a codec is a pair of functions of which only the round trip is assumed, a recording is its fields.
- Run-time borrow errors, allocation failures, byte limits and retention checks: they depend on the allocator, not on the protocol.
- `try_run`: it only repeats `try_step`.
- Timelines.Timeline.TryStep: the class invariant ends with a step that hid a failed stack push of a TRAP; what the timeline does after one is stated over the functional run (`PendingErrors`).
- Timelines.Timeline.Apply: the channel checks of `execute_stimulus` are part of the arbitrary machine.
- Recordings.ImportRecording: a recording whose replay hides a bus failure may be accepted although it describes no run; `HidesFailure` is that condition, `TrappingAccepted` an instance.
- Timelines.Timeline.Start: from a state that cannot be loaded again (an interrupt mode above 2) recording starts, but its replay is not promised.
- The external address mapper.
- Peripherals.Devices.WriteInternalIo: registers are records of eight bits in a sequence that every store replaces, not a byte array written in place; the two values of each channel are pairs.
- Peripherals.Devices.FinishStep: cycle counts are unbounded, so the saturating additions of the source never saturate.
- Peripherals.Devices.ReadInternalIo: the decoding of ports and the host call that precedes it are not part of the class; `Transcript` covers the calls.
- DmaChannel.Dma.ServiceDma: a port in the window of the internal registers is excluded, because it can rewrite the registers of the transfer that uses it, and so is a host call that fails during a transfer.
- DmaChannel.Dma.ServiceDma1: the same two exclusions.
- DmaChannel.Dma.ServiceDma0: the same two exclusions.
- BlockTransfer.Machine.RunToEnd: an interrupt that is taken between two steps and DMA between them are excluded, as are a transfer that overwrites its own opcode, an opcode that the host bus answers, and failing host calls; the levels of the interrupt lines stay as they are; instruction tracing and the PC watch are not modelled there.
- Interrupt acknowledge, priorities and vectors; the opcode map, the other instructions and their timing tables.
- Watch identifiers, instruction traces and other debugger state beyond events and memory watches.
- Bindings, command line, debugger, test harnesses and browser code.
