# A verified model of the AYTHER runtime's replay, evidence, storage and audio protocols

The AYTHER runtime replays recorded takes of a game and lets a person inspect them: play, pause,
step forward and back. While it replays it streams evidence (facts and PCM) that a separate tool
audits, it saves states and configuration, and it drives a swapchain and an audio backend. This
project models the parts where those components promise something over whole runs, and proves it.

- **The replay inspector.** `InspectionState` is the phase machine and `InspectionOrders` says exactly
  when it gives each order, `Checkpoints` the byte-budgeted
  ring, the store behind it and the recovery plan, and `ReplaySession` the session that produces,
  restores and silently re-simulates frames over an abstract deterministic Engine (`ReplayScripts`
  holds runs of it). The main theorem
  is `ReplaySession.Run`: over every script of keys, frames, rejected restores, timed-out
  recoveries and lost presentations, each picture shown for frame k is the picture the plain
  left-to-right replay shows for k. `Cadence` is the turn of each frame.
- **The evidence stream.** `SilentGate` keeps silent production out and declares it,
  `ObservationWriter` batches facts and coalesces PCM under one message sequence, `AudioChunks` says
  what a chunk means sample by sample, `AudioIntegrity` is the audit, and `Coalescing` proves that
  what the writer merges means, and audits, the same as what it was given.
- **Formats and saves.** `Bytes` holds the little-endian fields and the 32-bit FNV-1a checksum,
  whose every step is shown to be a bijection; `MusicBundle` and `SaveStates` are the two binary
  formats, `BundleStore` the transactional save over a small file system, and `PlayerConfigText`
  the printer and the parser of the configuration.
- **Resources and audio.** `Swapchain` builds and destroys handles under any answers of the driver
  and issues move-only frame tokens; `MusicPcmBackend` stops, drains, confirms and publishes
  generations; `RestorePosition` is the 64-bit position arithmetic; `Throttle`, `AudioDiagnostics`
  and `MusicWarnings` are the two warning aggregators.

Objects whose methods update fields are classes, their methods proved against pure functions of the
old state or against the property itself; the lemmas about those functions carry the theorems over
runs.

## What the model shows about the code

Some promises hold only under a condition, and the lemma that says so gives it exactly.

- A music bundle file whose three sizes add up to the payload only modulo 2^64 passes every check of
  the decoder, which then copies past the end of the payload. `RunsPastThePayload` says exactly
  which files do, and `AnyPayloadCanBeCrafted` gives such a header for any payload.
- A step back re-simulates at most K frames if and only if the last grid frame below it was last
  completed by playback and its checkpoint neither refused nor evicted (`StepBackCost`). Stepping
  never captures, so a take walked by steps re-simulates from its start (`WalkThenStepBack`); a run
  without a step forward, whose captures are exported and fit the budget, always keeps the bound
  (`PlayedTakeStepsBackCheaply`).
- A take interrupted before its frame 0 has no position, which is read as 0. If a recovery then
  stops at frame 0, resuming asks for frame 0 again and the session fails: `Turn` gives the exact
  condition, and `InterruptedBeforeFrameZero` a run that meets it.
- A PCM message whose bytes no longer fit the 64-bit total is written without taking its sequence,
  so the next terminal repeats that number (`SendTerminal`). While everything taken in fits, every
  run, failed or not, numbers its messages 2, 3, 4, … (`Run` of `ObservationWriter`).
- A bundle whose pack revision has 2^32 bytes or more is refused when read back (`RoundTrip` of
  `MusicBundle`), so saving it never succeeds (`Save`).
- A save that is stopped after moving the old bundle aside leaves it in the backup alone, and the
  next save removes that backup before it publishes: a stop there loses the bundle. `Save` says
  exactly when a save does that, and `Run` of `BundleStore` what holds of every run without one.
- A configuration whose names hold a control character other than newline, carriage return and tab
  is saved and then refused at the line of that name (`RoundTrip` of `PlayerConfigText`).
- After a fence was reset for a submit that failed, every begin of that swapchain waits forever until
  it is rebuilt or shut down (`EndFrame`, `BeginFrame`, `Call`).
- At a source rate of 2^64-1 the rounding threshold wraps to 0 and every position is rounded up
  (`RoundsToNearest`, `LargestRateMovesZero`, `RestoreThereAndBack`).
- A warning shares its key with another condition if and only if its identity or its detail holds a
  NUL; for the audio diagnostics, which refuse empty parts, a NUL at the very start of the identity
  or the very end of the cause is harmless (`KeyIsTheCondition` of both aggregators).

The header comment of `PlaybackCadence` calls a frame late when it completes more than one period
after its turn; the code compares against the turn of the next frame, which is one period later
than that reading, and the model follows the code.

## Model

| member | source | states |
|---|---|---|
| `InspectionState.InspectionController.Key` | src/replay_inspection/inspection_state.cpp:66-132 | the new state and the orders of a key in every phase are those of the pure transition the run theorems are about |
| `InspectionState.InspectionController.FrameCompleted` | src/replay_inspection/inspection_state.cpp:134-157 | a completed frame moves the position, serves a waiting pause and ends the take as the transition says |
| `InspectionState.InspectionController.RecoveryFinished` | src/replay_inspection/inspection_state.cpp:159-178 | each outcome of a recovery leads where the transition says |
| `InspectionState.InspectionController.PresentationInterrupted` | src/replay_inspection/inspection_state.cpp:180-187 | a loss drops the target, stops the take and keeps its cause |
| `InspectionState.InspectionController.PresentationRecovered` | src/replay_inspection/inspection_state.cpp:189-196 | a recovered presentation stays paused at the position |
| `InspectionState.InspectionController.TakeSlotReached` | src/replay_inspection/inspection_state.cpp:198-204 | the next take starts only while its end is pending |
| `InspectionState.InspectionController.Cancel` | src/replay_inspection/inspection_state.cpp:206-211 | a cancellation closes from any phase |
| `InspectionState.StepIsSound` | src/replay_inspection/inspection_state.cpp:66-211 | every allowed event keeps the invariant, confirms, advances and pauses only when it leaves the state that allows it, and after the end orders nothing but a close |
| `InspectionState.RunIsSound` | src/replay_inspection/inspection_state.cpp:66-211 | the same over every disciplined run, with the whole trace of orders |
| `InspectionState.ReachableStates` | src/replay_inspection/inspection_state.cpp:103-178 | in every reachable state a target exists exactly while recovering, is a frame of the take one step from the position, and a frame that may start is one of the take and not after its natural end |
| `InspectionState.ReachableTraces` | src/replay_inspection/inspection_state.cpp:56-204 | over every run the linear result is confirmed at most once, the take advanced at most once, and two pauses of the audio always have a resume between them |
| `InspectionState.ResumeBetweenPauses` | src/replay_inspection/inspection_state.cpp:56-64 | what it means for a trace to alternate: between two pauses there is a resume |
| `InspectionState.NothingAfterTheEnd` | src/replay_inspection/inspection_state.cpp:134-211 | from any point of a run on: after the natural end no frame starts, after closing or failing only `close` is ordered |
| `InspectionState.StepKeepsPlace` | src/replay_inspection/inspection_state.cpp:134-178 | the position moves only by a completed frame or a presented recovery |
| `InspectionOrders.OrderedExactly` | src/replay_inspection/inspection_state.cpp:56-211 | for every allowed event and every order: exactly when that order is given, frame, notice and event name included |
| `InspectionOrders.OrdersInTurn` | src/replay_inspection/inspection_state.cpp:56-157 | no order is repeated, the linear result is confirmed first, and a frame is presented before its audio pauses |
| `InspectionOrders.NextPhase` | src/replay_inspection/inspection_state.cpp:47-211 | for every allowed event and every phase: exactly when that phase follows |
| `InspectionOrders.NextView` | src/replay_inspection/inspection_state.cpp:69-75 | the overlay toggles on I alone, a step marks the take inspected, a loss keeps its cause |
| `InspectionOrders.NextEnd` | src/replay_inspection/inspection_state.cpp:143-151 | the natural end is the last frame, and the end stays pending until its slot |
| `InspectionOrders.NextTarget` | src/replay_inspection/inspection_state.cpp:121-131 | the target is the frame stepped to, until the recovery ends |
| `InspectionOrders.OrderedInRun` | src/replay_inspection/inspection_state.cpp:47-211 | over every disciplined run an order is in the trace exactly when some event asks for it |
| `InspectionOrders.ConfirmedExactly` | src/replay_inspection/inspection_state.cpp:143-157 | over every disciplined run the linear result is confirmed if and only if the take is the last and its last frame arrives in playback |
| `InspectionOrders.AdvancedExactly` | src/replay_inspection/inspection_state.cpp:103-118 | over every disciplined run the take is advanced if and only if its slot comes at the end, or a toggle cannot go on and it is not the last |
| `Checkpoints.CheckpointRing.StoreInitial` | src/replay_inspection/checkpoint_ring.cpp:18-26 | the initial checkpoint is first, has the new size, and the others stay as they were |
| `Checkpoints.CheckpointRing.Store` | src/replay_inspection/checkpoint_ring.cpp:28-46 | accepts exactly what fits beside the initial checkpoint, evicts and inserts as specified, and keeps the total equal to the sum and within budget |
| `Checkpoints.CheckpointRing.LatestAtMost` | src/replay_inspection/checkpoint_ring.cpp:48-54 | the scan finds the last entry at or below the frame |
| `Checkpoints.LatestIsGreatest` | src/replay_inspection/checkpoint_ring.cpp:48-54 | that entry is the greatest stored frame at or below, and there is none exactly when all are above |
| `Checkpoints.EvictsOldestOnly` | src/replay_inspection/checkpoint_ring.cpp:32-36 | eviction drops a run of the oldest checkpoints, never the initial one, and one fewer would not have been enough |
| `Checkpoints.KeptIsOk` | src/replay_inspection/checkpoint_ring.cpp:32-36 | eviction keeps order and initial entry and makes room whenever the new checkpoint fits beside the initial one |
| `Checkpoints.StoredIsOk` | src/replay_inspection/checkpoint_ring.cpp:28-46 | after a store: sorted, initial entry kept, total and set of frames exactly one entry more than was kept |
| `Checkpoints.RingRun` | src/replay_inspection/checkpoint_ring.cpp:18-46 | over every run of stores the initial entry is never lost, the total stays within budget, nothing unstored appears, and if everything fits nothing is evicted |
| `Checkpoints.RestoreIsNearest` | src/replay_inspection/recovery_planner.cpp:5-14 | with an initial checkpoint a restore plan always exists and starts at the nearest stored frame below the target |
| `Checkpoints.StoreAccounts` | src/replay_inspection/checkpoint_ring.cpp:28-46 | a store adds at most its size, and while all that was asked for fits together nothing is refused or evicted |
| `Checkpoints.ReplayCost` | src/replay_inspection/recovery_planner.cpp:5-14 | with grid frames alone stored, a restore re-simulates at most K frames if and only if the last grid frame below the target is stored |
| `Checkpoints.CheckpointStore.Capture` | src/audio_qa_inspection.cpp:100-155 | a capture is kept exactly when it was exported and fits, no other state changes, and the store's keys stay the ring's frames |
| `Checkpoints.CheckpointStore.KeepWhatTheRingKept` | src/audio_qa_inspection.cpp:144-150 | the erase loop leaves exactly the frames the ring kept, each with its own state |
| `ReplaySession.ReplaySession.Produce` | src/audio_qa_runtime_session.cpp:1098-1122 | exactly when a frame is produced, and that it is one Engine step on its recorded input; a frame completed for the first time is not stored yet |
| `ReplaySession.ReplaySession.Restore` | src/audio_qa_inspection.cpp:157-196 | an accepted restore puts the Engine in the stored state; a rejected core leaves it untouched, a later rejection leaves its position unknown |
| `ReplaySession.ReplaySession.Resimulate` | src/audio_qa_runtime_session.cpp:1440-1446 | replaying from the plain replay's state keeps it the plain replay's state, also when a step throws or the limit passes midway; without a throw, exactly where it stops |
| `ReplaySession.ReplaySession.Reach` | src/audio_qa_runtime_session.cpp:1403-1447 | reaching a goal ends at the goal in the plain replay's state for exactly the planned number of steps; without a throw, exactly when it gets there and where it stops otherwise |
| `ReplaySession.ReplaySession.Rearm` | src/audio_qa_runtime_session.cpp:1347-1393 | a re-arm makes the position unknown; a failed one leaves no usable session |
| `ReplaySession.ReplaySession.ReturnTo` | src/audio_qa_runtime_session.cpp:1460-1468 | going back to the confirmed position, or not at all |
| `ReplaySession.ReplaySession.Recover` | src/audio_qa_runtime_session.cpp:1396-1469 | a presented recovery shows exactly the plain replay's picture of the target, a restored one stands at the confirmed frame; without a throw, exactly which outcome it has, the return to the confirmed frame included |
| `ReplaySession.ReplaySession.Apply` | src/audio_qa_runtime_session.cpp:1656-1753 | carrying out orders presents only the session's own frame, and ends the loop exactly on the orders that end it |
| `ReplaySession.ReplaySession.KeepCheckpoint` | src/audio_qa_runtime_session.cpp:1941-1949 | a captured checkpoint is the plain replay's state after its frame; a refused capture and the evicted frames are accounted as lost |
| `ReplaySession.CaptureAccounts` | src/audio_qa_runtime_session.cpp:1941-1949 | while all captures are exported and fit the budget together, nothing is lost |
| `ReplaySession.ReplaySession.StepBackCost` | src/audio_qa_runtime_session.cpp:1403-1445 | in every reachable state a restore re-simulates at most K frames if and only if the last grid frame below was last completed by playback and not refused or evicted |
| `ReplaySession.ReplaySession.Turn` | src/audio_qa_runtime_session.cpp:1911-1950 | a turn of playback produces, shows and completes the next frame and keeps its checkpoint if that is on the grid and fits, and fails exactly when the step throws, the loop has failed, or an interruption before frame 0 left the session at frame 0 |
| `ReplaySession.ReplaySession.Navigate` | src/audio_qa_runtime_session.cpp:1966-1986 | a recovery turn keeps the invariant, gives the controller exactly the outcome of the recovery, and captures nothing |
| `ReplaySession.ReplaySession.PressKey` | src/audio_qa_runtime_session.cpp:1815-1824 | a key changes only the controller, by its transition, and what is shown |
| `ReplaySession.ReplaySession.LosePresentation` | src/audio_qa_runtime_session.cpp:1862-1871 | a loss changes only the controller, by its transition |
| `ReplaySession.ReplaySession.RegainPresentation` | src/audio_qa_runtime_session.cpp:1872-1877 | a recovered presentation shows the frame the session is at |
| `ReplaySession.ReplaySession.Handle` | src/audio_qa_runtime_session.cpp:1813-1992 | while the loop goes on, each stimulus gives the controller exactly the event it stands for, ends the loop exactly on the orders that end it, and fails exactly as a turn fails |
| `ReplaySession.ReplaySession.Run` | src/audio_qa_runtime_session.cpp:1758-1994 | over every script, every picture shown, every stored checkpoint and the Engine itself are those of the plain replay, and the session stands at the controller's position while the take goes on; no step forward means no frame completed unplayed; the controller is a disciplined run of the events its script stands for, and what was confirmed is what that run confirms |
| `ReplayScripts.PlayTake` | src/audio_qa_runtime_session.cpp:1885-1950 | a new take played by turns that neither throw nor close produces and shows every frame in order, ends naturally at its last one, confirms if it is the last take, and keeps every grid frame's checkpoint if they are exported and fit |
| `ReplayScripts.PlayToTheNext` | src/audio_qa_runtime_session.cpp:1894-1903 | at the end of a take that is not the last, the next turn gives way to the next take |
| `ReplayScripts.PauseShows` | src/replay_inspection/inspection_state.cpp:84-87 | a pause between frames stays on the frame last shown and shows it again |
| `ReplayScripts.PauseBeforeFirst` | src/replay_inspection/inspection_state.cpp:134-146 | a pause asked for before frame 0 lets it be produced and stays there |
| `ReplayScripts.StepShows` | src/audio_qa_runtime_session.cpp:1966-1986 | a step of a paused take ends paused at the next frame with that frame on the screen |
| `ReplayScripts.ConfirmedInSession` | src/audio_qa_runtime_session.cpp:1656-1753 | over every run of the loop on a new session the linear result is confirmed if and only if the take is the last and its last frame arrived in playback |
| `ReplayScripts.PlayedTakeStepsBackCheaply` | src/audio_qa_runtime_session.cpp:1758-1994 | every run without a step forward whose captures are exported and fit the budget keeps every restore within K frames |
| `ReplayScripts.WalkThenStepBack` | src/audio_qa_runtime_session.cpp:1966-1986 | a take walked n frames by steps alone pays n Engine steps for the step back, whatever the budget and for any K above 1 |
| `ReplayScripts.InterruptedBeforeFrameZero` | src/audio_qa_runtime_session.cpp:1862-1950 | a run of losing the presentation before frame 0, a step that times out after frame 0 and a resume, which fails the session |
| `Cadence.PlaybackCadence.FrameCompleted` | src/replay_inspection/inspection_state.cpp:42-54 | the accumulated turn and the late answer are those of an account that only counts frames since an anchor |
| `Cadence.PlaybackCadence.Play` | src/audio_qa_runtime_session.cpp:1951-1963 | with a window a late frame restarts the turn where it completed; without one the turn goes on |
| `Cadence.NeverDrifts` | src/replay_inspection/inspection_state.cpp:42-54 | after every frame started at its turn, the turn is within one period of the completion, either way, exactly unless the frame is late and there is no window |
| `Cadence.ExactCadence` | src/replay_inspection/inspection_state.cpp:42-54 | n frames in a row that restart nothing move the turn exactly n periods |
| `Cadence.KeepsTheRate` | src/replay_inspection/inspection_state.cpp:42-54 | however long such a run, its last completion is within one period of the recorded rate |
| `Cadence.Run` | src/audio_qa_runtime_session.cpp:1905-1963 | over every run the class follows the account and answers late exactly when it does |
| `Cadence.StartFrameNow` | src/replay_inspection/inspection_state.cpp:29-34 | playback starts a frame exactly from its turn on; a waiting pause at once; no other phase at all |
| `SilentGate.SilentProductionGate.ReceiveFact` | src/audio_qa_inspection.cpp:52-69 | a fact is forwarded, or counted and summed into its producer's slot |
| `SilentGate.EveryFactCounts` | src/audio_qa_inspection.cpp:52-69 | over every run, facts forwarded and facts counted as excluded are all facts |
| `SilentGate.SilentProductionGate.TakeExclusions` | src/audio_qa_inspection.cpp:71-82 | gives the declared interval of each slot in order and empties all of them |
| `SilentGate.DeclaredMeansGrowing` | src/audio_qa_inspection.cpp:55-79 | for any nonzero numbering an interval is declared exactly when the excluded sequences grew strictly, from its first to its last |
| `SilentGate.SlotIsSummary` | src/audio_qa_inspection.cpp:55-65 | in every interleaving a slot sums up its own producer's exclusions since the last take |
| `SilentGate.TakeDeclaresGrowth` | src/audio_qa_inspection.cpp:71-82 | the two together, over every run |
| `SilentGate.RunPartitions` | src/audio_qa_inspection.cpp:52-82 | for a producer numbering from 1, at every point each emitted number is in exactly one place: forwarded, declared or held |
| `SilentGate.ForwardedAndDeclaredPartition` | src/audio_qa_runtime_session.cpp:1475-1485 | once the exclusions are taken, forwarded numbers and declared intervals partition everything emitted |
| `SilentGate.SegmentIsResumesBefore` | src/audio_qa_runtime_session.cpp:153-170 | in every interleaving the segment of a PCM block is the number of resumes before the gate forwarded it |
| `ObservationWriter.StreamingObservationWriter.SendBatch` | src/audio_qa_runtime_session.cpp:247-272 | the halving loop terminates with a nonempty batch sent or the writer invalid, and an encoder that only finds batches too large never invalidates it |
| `ObservationWriter.StreamingObservationWriter.FlushFacts` | src/audio_qa_runtime_session.cpp:246-278 | a flush sends every buffered fact in order; the `!written` branch has nothing to catch |
| `ObservationWriter.StreamingObservationWriter.FlushPcm` | src/audio_qa_runtime_session.cpp:326-342 | exactly when the pending PCM goes out: it has length, fits, the write succeeds and the total holds it |
| `ObservationWriter.StreamingObservationWriter.PostPcm` | src/audio_qa_runtime_session.cpp:330-341 | a PCM message takes the next sequence, exactly unless the byte total overflows |
| `ObservationWriter.StreamingObservationWriter.TakeFact` | src/audio_qa_runtime_session.cpp:86-117 | while valid, facts sent followed by the buffer are all facts accepted, in order |
| `ObservationWriter.StreamingObservationWriter.SendStatus` | src/audio_qa_runtime_session.cpp:121-135 | a status is sent exactly when the evidence is valid, it encodes and the write goes through; it takes the next sequence, and failing to send it does not end the evidence |
| `ObservationWriter.StreamingObservationWriter.SendTerminal` | src/audio_qa_runtime_session.cpp:139-151 | the terminal is sent exactly when it encodes and the write goes through, valid evidence or not; it takes the next sequence, and repeats the number of an overflowed PCM message |
| `ObservationWriter.StreamingObservationWriter.AdvanceSegment` | src/audio_qa_runtime_session.cpp:166-169 | opens exactly the segments that begin at or before the block |
| `ObservationWriter.StreamingObservationWriter.CutAtLimit` | src/audio_qa_runtime_session.cpp:177-193 | the cut chunk is well formed and is the part below the limit; the divisibility check never fails |
| `ObservationWriter.StreamingObservationWriter.Append` | src/audio_qa_runtime_session.cpp:195-232 | exactly when a chunk is taken, that it joins the pending one whenever it may, and that what was sent plus what is pending carries exactly one chunk more |
| `ObservationWriter.StreamingObservationWriter.ConsumePcm` | src/audio_qa_runtime_session.cpp:161-235 | exactly when a block is accepted: the writer was valid, it was copied, and nothing of it counts, nothing is pending, it may be appended, or the pending chunk can be sent; it is given its segment, cut and coalesced |
| `ObservationWriter.StreamingObservationWriter.PendingEncodes` | src/audio_qa_runtime_session.cpp:326-331 | the pending chunk is always well formed, so the encoder only refuses an empty or oversize one |
| `ObservationWriter.StreamingObservationWriter.Run` | src/audio_qa_runtime_session.cpp:86-342 | a run nothing stands in the way of succeeds; over every run of calls, failed or not, messages of every kind are numbered 2, 3, 4, … while the bytes taken in fit 64 bits; when the final flush succeeds they do, facts out are facts in, and PCM out means sample by sample the PCM taken in below the limits |
| `ObservationWriter.RepeatsMeans` | src/audio_qa_runtime_session.cpp:332-337 | after an overflow the numbering is broken exactly once another message went out |
| `ObservationWriter.BytesSurvive` | src/audio_qa_runtime_session.cpp:217-232 | coalescing loses and adds no byte |
| `AudioChunks.CheckWellFormed` | tools/audio_qa/audio_chunk.cpp:40-84 | the loops decide exactly the conditions of a well-formed chunk |
| `AudioChunks.PayloadSize` | tools/audio_qa/audio_chunk.cpp:12-38 | a payload of the expected size is its frames times the bytes of one, within the maximum |
| `AudioChunks.AppendsExactly` | src/audio_qa_runtime_session.cpp:195-216 | chunks are joined exactly when the second goes on where the first ends and both together keep within one message |
| `AudioChunks.MergedWellFormed` | src/audio_qa_runtime_session.cpp:195-232 | merging two chunks that may be appended keeps every condition of a well-formed chunk |
| `AudioChunks.MergedSamples` | src/audio_qa_runtime_session.cpp:222-227 | a merged chunk means the samples of its parts, one after the other |
| `AudioChunks.MergedCausesOk` | src/audio_qa_runtime_session.cpp:228-231 | the merged causes are those of both, each once, within the limit |
| `AudioChunks.CutMeans` | src/audio_qa_runtime_session.cpp:182-193 | a cut chunk is well formed and means the samples below the limit |
| `AudioChunks.BytesPerFrame` | src/audio_qa_runtime_session.cpp:183-188 | the payload of a well-formed chunk always divides by its frames |
| `AudioChunks.GroupMeans` | src/audio_qa_runtime_session.cpp:195-232 | any group merged step by step is well formed and means the samples of its chunks in order |
| `AudioIntegrity.AuditAudioIntegrity` | tools/audio_qa/audio_integrity.cpp:44-159 | complete exactly when every block is right; otherwise the verified blocks are the longest good prefix and the issue is the first thing wrong after it, explained by the blocks' own fields |
| `AudioIntegrity.IssueIsExplained` | tools/audio_qa/audio_integrity.cpp:59-140 | for every kind of issue, its range and its numbers: it is reported for a block if and only if the fields of that block and the one before make it so, the earlier checks holding |
| `AudioIntegrity.JoinRangeIsNotEmpty` | tools/audio_qa/audio_integrity.cpp:101-112 | a gap reports exactly the samples between two blocks, an overlap exactly those they share or repeat, and there are some |
| `AudioIntegrity.JoinAnswer` | tools/audio_qa/audio_integrity.cpp:27-42 | exactly when two blocks continue a segment and when they start another |
| `AudioIntegrity.AuditEffects` | tools/audio_qa/audio_integrity.cpp:120-140 | finds the first wrong effect, or counts the boundaries |
| `AudioIntegrity.GoodMeans` | tools/audio_qa/audio_integrity.cpp:67-140 | a good prefix is one whose identity, format, timeline, numbering, joins and effects all hold, and conversely |
| `AudioIntegrity.SegmentsAreIntervals` | tools/audio_qa/audio_integrity.cpp:142-147 | in per-segment mode reported segments strictly increase and each interval is as long as its blocks together |
| `Coalescing.BoundaryJoin` | tools/audio_qa/audio_integrity.cpp:27-42 | a message joins the next exactly as its last chunk joins the next first chunk |
| `Coalescing.JoinsSurvive` | src/audio_qa_runtime_session.cpp:195-232 | every gap, overlap or reordering between chunks is found between messages, and no other |
| `Coalescing.SamplesSurvive` | src/audio_qa_runtime_session.cpp:195-232 | the messages mean exactly the samples of the chunks, in order |
| `Coalescing.IntervalsSurvive` | tools/audio_qa/audio_integrity.cpp:142-147 | the reported intervals are the same for messages and for chunks |
| `Coalescing.EffectsSurvive` | tools/audio_qa/audio_integrity.cpp:120-140 | effects inside their chunks stay inside the messages |
| `Coalescing.AuditSurvives` | tools/audio_qa/audio_integrity.cpp:44-159 | a stream that audits complete chunk by chunk does so message by message with the same intervals, and a join fault of the chunks is never hidden |
| `Bytes.LeRoundTrip` | src/music_state_bundle_store.h:108-119 | a field reads back as it was written whenever it fits its width |
| `Bytes.AppendLe` | src/save_state_store.cpp:31-37 | the append loop writes the little-endian field |
| `Bytes.ReadLe` | src/save_state_store.cpp:39-48 | the read loop gives the value of the field |
| `Bytes.ComputeChecksum` | src/save_state_store.cpp:21-29 | the accumulator loop computes the checksum |
| `Bytes.PrimeIsInvertible` | src/music_state_bundle_store.h:120-127 | multiplying by the FNV prime loses nothing in 32 bits |
| `Bytes.KnownFields` | src/music_state_bundle_store.h:108-119 | fields are little-endian |
| `Bytes.KnownChecksums` | src/save_state_store.cpp:21-29 | the checksum has the published values of 32-bit FNV-1a for nothing and for the letter a |
| `Bytes.ChecksumSeesOneByte` | src/music_state_bundle_store.h:120-127 | changing one byte of a payload always changes its checksum |
| `MusicBundle.EncodeBundle` | src/music_state_bundle_store.h:128-141 | the encoder writes the format |
| `MusicBundle.DecodeBundle` | src/music_state_bundle_store.h:147-172 | the decoder reads it, with the wrap of the size sum |
| `MusicBundle.FileIs` | src/music_state_bundle_store.h:106-141 | a bundle file byte by byte: its letters, version 1, the three lengths, the checksum, and the three parts in order |
| `MusicBundle.RoundTrip` | src/music_state_bundle_store.h:128-172 | decoding what was encoded gives it back if and only if the revision's length fits 32 bits, and refuses it otherwise |
| `MusicBundle.OnlyEncodingsLoad` | src/music_state_bundle_store.h:147-172 | a file that loads is the encoding of what it loads as |
| `MusicBundle.OneByteIsSeen` | src/music_state_bundle_store.h:147-172 | any one-byte change of an encoded bundle is refused |
| `MusicBundle.CutIsSeen` | src/music_state_bundle_store.h:147-172 | any cut suffix is refused |
| `MusicBundle.RunsPastThePayload` | src/music_state_bundle_store.h:155-170 | the decoder copies past the payload if and only if magic, version and checksum are right and the sizes reach 2^64 and wrap to the payload's length |
| `MusicBundle.AnyPayloadCanBeCrafted` | src/music_state_bundle_store.h:155-170 | sizes 2^64-1, one more than the length and 0 do so for any payload |
| `SaveStates.EncodeState` | src/save_state_store.cpp:50-60 | the encoder writes the format |
| `SaveStates.LoadState` | src/save_state_store.cpp:123-164 | the loader reads it, legacy files included |
| `SaveStates.FileIs` | src/save_state_store.cpp:50-60 | a state file byte by byte: its letters, version 1, the length, the checksum and the state |
| `SaveStates.RoundTrip` | src/save_state_store.cpp:50-60 | a saved state loads as it was saved |
| `SaveStates.OnlyEncodingsLoad` | src/save_state_store.cpp:123-164 | a versioned file that loads is an encoding |
| `SaveStates.OneByteIsSeen` | src/save_state_store.cpp:123-164 | a one-byte change after the magic is refused; inside the magic the file becomes a legacy state |
| `SaveStates.CutIsSeen` | src/save_state_store.cpp:123-164 | a proper prefix is refused exactly when it is empty or keeps the magic |
| `BundleStore.MusicStateBundleStore.Prepare` | src/music_state_bundle_store.h:64-81 | a temporary is ready exactly when it was written, read back and decodes |
| `BundleStore.MusicStateBundleStore.Publish` | src/music_state_bundle_store.h:82-101 | the move aside, the publish and its rollback keep the old or the new file complete after every step |
| `BundleStore.MusicStateBundleStore.Save` | src/music_state_bundle_store.h:53-103 | for every pattern of failures and a stop after any step, the path holds the old or the new bundle or is empty with the old one in the backup, exactly unless the backup was all there was and is removed; `Saved`, exactly characterised, means the new one is there and loads |
| `BundleStore.MusicStateBundleStore.Run` | src/music_state_bundle_store.h:53-103 | over every run of saves stopped anywhere, none of which exposes the backup, the disk holds the first bundle or one saved since |
| `PlayerConfigText.EscapeString` | src/player_config.cpp:108-122 | the loop escapes as specified |
| `PlayerConfigText.ReadString` | src/player_config.cpp:73-106 | the loop reads a quoted string as specified, refusing what it cannot |
| `PlayerConfigText.ReadArray` | src/player_config.cpp:124-145 | the loop splits an array as specified |
| `PlayerConfigText.LoadChecked` | src/player_config.cpp:189-278 | the line loop reads a text as specified, with the line of the first error; a missing, unopenable or unreadable file has the source's status |
| `PlayerConfigText.QuotedRoundTrip` | src/player_config.cpp:73-122 | a printed string reads back if and only if its control characters are the escaped ones |
| `PlayerConfigText.ArrayRoundTrip` | src/player_config.cpp:124-145 | a printed array splits into its elements again |
| `PlayerConfigText.UnsignedRoundTrip` | src/player_config.cpp:34-44 | a printed 32-bit number reads back |
| `PlayerConfigText.ReadIsWrite` | src/player_config.cpp:228-265 | a key is read exactly when it is new and its value readable, and sets its own field alone |
| `PlayerConfigText.DuplicateIsRefused` | src/player_config.cpp:228-233 | a key that was read is refused the second time, known or not |
| `PlayerConfigText.UnknownIsIgnored` | src/player_config.cpp:235-261 | an unknown key changes nothing |
| `PlayerConfigText.LinesChangePlaces` | src/player_config.cpp:211-265 | two lines with different keys can change places |
| `PlayerConfigText.Words` | src/player_config.cpp:34-71 | exactly which texts are numbers and switches |
| `PlayerConfigText.KnownTexts` | src/player_config.cpp:108-122 | digits count from the left, and the escapes are those five |
| `PlayerConfigText.VersionDecides` | src/player_config.cpp:271-277 | a file loads exactly up to format version 1 |
| `PlayerConfigText.LinesRoundTrip` | src/player_config.cpp:210-215 | printed lines are the lines read |
| `PlayerConfigText.RoundTrip` | src/player_config.cpp:206-334 | loading what was saved gives the same configuration with its mask set if and only if both names are clean, and otherwise the line of the first that is not |
| `Swapchain.DestroyOwned` | src/vulkan_backend/vk_swapchain.cpp:350-383 | destroys everything a state owns, complete or not, once each, and nothing else |
| `Swapchain.Build` | src/vulkan_backend/vk_swapchain.cpp:244-348 | for every pattern of answers: a complete state, or nothing left behind |
| `Swapchain.AcquiredFrame.Move` | src/vulkan_backend/vk_swapchain.cpp:23-53 | a move takes the token and leaves the source without one |
| `Swapchain.VkSwapchain.Init` | src/vulkan_backend/vk_swapchain.cpp:55-84 | exactly when it succeeds; a failure leaves every field and handle as it was |
| `Swapchain.VkSwapchain.Rebuild` | src/vulkan_backend/vk_swapchain.cpp:86-111 | exactly when it succeeds; then the old handles are gone, the new ones are others and the driver's, and a failure changes nothing |
| `Swapchain.VkSwapchain.Shutdown` | src/vulkan_backend/vk_swapchain.cpp:113-128 | every handle the swapchain created is destroyed, and no token stays current |
| `Swapchain.VkSwapchain.BeginFrame` | src/vulkan_backend/vk_swapchain.cpp:130-181 | exactly when a token is issued and when the wait never returns; the token is accepted and carries, field by field, the current frame's handles and command buffer and the image, view and extent of the acquired index |
| `Swapchain.VkSwapchain.EndFrame` | src/vulkan_backend/vk_swapchain.cpp:183-242 | an accepted token is spent whatever the calls answer; any other changes nothing; the fence is left unsignalled exactly when a submit failed after its reset |
| `Swapchain.VkSwapchain.OneTokenAccepted` | src/vulkan_backend/vk_swapchain.cpp:385-390 | of all tokens ever issued at most the last is accepted, and only while its frame is open |
| `Swapchain.VkSwapchain.Call` | src/vulkan_backend/vk_swapchain.cpp:55-242 | after any call the live handles are exactly those owned, a token not accepted before it is never accepted again, and a stuck fence stays stuck until a rebuild or a shutdown |
| `Swapchain.Run` | src/vulkan_backend/vk_swapchain.cpp:23-242 | over every run of calls with any holder offered and tokens moved in between, no two holders have an accepted token, one not accepted is never accepted again, and the live handles are exactly those owned |
| `Swapchain.RunThenShutdown` | src/vulkan_backend/vk_swapchain.cpp:55-242 | over every run then shut down: nothing created is left and no token ever issued is accepted |
| `MusicPcmBackend.MusicPcmBackend.Enqueue` | src/music_pcm_backend.h:17-24 | samples join the queue exactly while delivering, under the one active generation |
| `MusicPcmBackend.MusicPcmBackend.InvalidateAndDrain` | src/music_pcm_backend.h:34-41 | a drain discards exactly the queue |
| `MusicPcmBackend.MusicPcmBackend.ConfirmDrained` | src/music_pcm_backend.h:43-50 | only a performed drain is confirmed, not before its request |
| `MusicPcmBackend.MusicPcmBackend.PublishGeneration` | src/music_pcm_backend.h:52-62 | a later generation starts empty, at or after the stop, exactly from a confirmed drain |
| `MusicPcmBackend.MusicPcmBackend.Rollback` | src/music_pcm_backend.h:64-71 | a stop can only be taken back under its own generation |
| `MusicPcmBackend.MusicPcmBackend.Consume` | src/music_pcm_backend.h:73-79 | nothing comes out while stopped; otherwise all queued samples, of the generation the output names |
| `MusicPcmBackend.MusicPcmBackend.Conservation` | src/music_pcm_backend.h:17-79 | samples enqueued are samples consumed, discarded or still queued |
| `MusicPcmBackend.Run` | src/music_pcm_backend.h:17-79 | over every run the outputs, the discarded batches and the queue split the enqueued samples in order, each under its own generation, and generations never decrease |
| `RestorePosition.RoundsToNearest` | src/music_restore_position.h:51-54 | restoring rounds to a nearest position if and only if the rate is below 2^64-1 or the remainder is at least half |
| `RestorePosition.LargestRateMovesZero` | src/music_restore_position.h:54-54 | at the largest rate position 0 becomes 1 |
| `RestorePosition.TiesGoUp` | src/music_restore_position.h:51-54 | below the largest rate the result is the exact position plus one half, rounded down |
| `RestorePosition.RefusedExactly` | src/music_restore_position.h:47-50 | exactly which inputs are refused, the last being a product that does not fit 64 bits |
| `RestorePosition.RestoreKeeps` | src/music_restore_position.h:55-68 | every field of a restored position |
| `RestorePosition.NoOverflow` | src/music_restore_position.h:47-54 | an accepted product and its rounded cursor both fit 64 bits |
| `RestorePosition.Monotone` | src/music_restore_position.h:51-54 | a later cursor is never restored earlier |
| `RestorePosition.RestoreThereAndBack` | src/music_restore_position.h:45-69 | restoring to an equal or higher rate and back gives the cursor again, with the exact exception at the largest rate |
| `Throttle.Conservation` | src/audio_diagnostic.cpp:24-68 | emitted, waiting and lost pushes are all pushes of the key; while none is lost the groups followed by what waits are the pushes in order |
| `Throttle.NothingLost` | src/music_warning.h:90-123 | with times that do not decrease every push is in exactly one group or waiting |
| `Throttle.LossIsGoingBack` | src/audio_diagnostic.cpp:36-41 | a push loses what waits exactly when its time is before the last emission |
| `Throttle.CloseEmptiesAll` | src/audio_diagnostic.cpp:53-68 | after a close nothing waits, and the groups are all the pushes |
| `Throttle.PushEmitsExactly` | src/audio_diagnostic.cpp:30-50 | a push emits exactly when it is the key's first, its time is before the last emission, or the period has passed, alone in the first two cases and else with all that waits |
| `Throttle.LastEmission` | src/music_warning.h:96-111 | the last emission is the time of the last call that moved it |
| `Throttle.EmissionsAreApart` | src/audio_diagnostic.cpp:42-50 | two pushes of a key that both emit are at least the minimum period apart |
| `AudioDiagnostics.AudioDiagnosticAggregator.Push` | src/audio_diagnostic.cpp:24-51 | an aggregate comes out exactly when the key's throttle emits, and sums up that group and no other key's |
| `AudioDiagnostics.AudioDiagnosticAggregator.Close` | src/audio_diagnostic.cpp:53-68 | one aggregate for each key with something waiting, of all of it, and nothing waits afterwards |
| `AudioDiagnostics.EmitAll` | src/audio_diagnostic.cpp:57-66 | the close loop lists each pending key once |
| `AudioDiagnostics.KeyIsTheCondition` | src/audio_diagnostic.cpp:6-22 | no other accepted condition has a diagnostic's key if and only if its identity holds no NUL after its first character and its cause none before its last |
| `MusicWarnings.MusicWarningAggregator.Push` | src/music_warning.h:90-111 | an aggregate comes out exactly when the key's throttle emits, and is the summary of that group: its last warning, its size and the times of its ends |
| `MusicWarnings.MusicWarningAggregator.Close` | src/music_warning.h:113-123 | one summary for each key with something waiting, and nothing waits afterwards |
| `MusicWarnings.KeyIsTheCondition` | src/music_warning.h:138-145 | no other condition has a warning's key if and only if neither its identity nor its detail holds a NUL |
| `ConditionKeys.NulCollides` | src/music_warning.h:138-145 | every NUL inside an identity or a detail can be taken for the separator |

## Left out

- The Engine is an abstract deterministic step, and the take one that can be inspected. A failing step is taken to change nothing, and the
  HD audio a restore brings back (with its pending requests) is not part of the compared state.
- C++ exceptions that are not a step's, mutexes and memory orders: each call is one atomic step, and
  a run is any interleaving of calls.
- Wrap-around of 32- and 64-bit counters (sequences, serials, generations, frame numbers) beyond the
  places named above; ring budgets of 2^63 bytes or more.
- Checkpoints.CheckpointStore.Capture: the byte size of a checkpoint, with the PCM its pool shares,
  is a parameter.
- SilentGate.SilentProductionGate.ReceiveFact: the timing tap is not modelled.
- AudioIntegrity.AuditAudioIntegrity: reading a block file is a given answer, decoded or unreadable.
- ObservationWriter.StreamingObservationWriter.Run: the fact encoder, the size limit of a message,
  SHA-256 and the channel's answers are arbitrary functions.
- BundleStore.MusicStateBundleStore.Run: each operation fails without effect or takes effect whole;
  a disk that reorders writes behind the program is not modelled.
- MusicBundle.DecodeBundle: what the code does past the end of the payload is undefined; the model
  answers `OutOfRange` there.
- PlayerConfigText.RoundTrip: the text of a gain is a given pair of inverse functions, and the file
  steps of saving (temporary, rename) are not repeated; nor are those of a save state.
- Swapchain.VkSwapchain.BeginFrame: surface formats, how an extent is chosen and the recording of
  commands are not modelled; each driver call is an answer, and submitted work always finishes.
- Rendering, windows, input routing, presentation health, packs, status messages, the terminal text,
  command lines and the native runtime: plumbing, or facts one branch settles.
- Floating-point geometry and clocks (`aspect_fit`, `TakeClock`, `av_sync`): rounding decides them.
