# SnakeTron: the replication core, verified

SnakeTron is a multiplayer snake game. A server actor runs the simulation and publishes a numbered stream of
messages; every client replays that stream, predicts ahead of it with its own input, and is checked against it by
fingerprints. The same replay contract carries replay archives, highlight clips and the trace checker. This project
models that core in Dafny and proves what it promises: over every run, every message order, every poll schedule and
every clip, not over examples.

## How the model is built

- **The game itself is a parameter.** `Simulation.Rules` is a record of functions over an arbitrary state type: one
  simulation quantum, scheduling a command, applying a replicated delta, and so on. `Simulation.Lawful` lists the
  facts assumed of them throughout, and the theorems hold for every record that satisfies it. The facts are read off
  `common/src/game_state.rs`: a completed state no longer ticks and its step succeeds without events (3163-3177); a
  successful step adds one to the tick (3207-3212, 3808); scheduling touches neither the clock nor completion
  (2963-2987); a delta either applies in full or not at all (2359-2366) and does not move the tick; the simulation
  epoch is changed by match-start events only (2869-2874, 4067-4084); dropping the RNG is invisible to the clock. The
  tick duration is at least 1 ms, because `run_until` divides by it.
- **Some theorems ask a little more, in their own `requires`.** The clip theorems ask that the RNG be invisible to
  movement-only replay (3517-3535), through a relation under which states are interchangeable; the trace theorems ask
  that a step emit gameplay events and snapshots only; the theorems about input speak of any view of a state that
  scheduling extends by its command and that steps and the RNG leave alone, which is what a log of everything scheduled
  is. `Witness.LawsAreConsistent` exhibits one game, with a queue, a generator that matters and steps that can fail,
  that meets the laws and these conditions together, and `Witness.ClipShowsTheMeal` and
  `Witness.UnrecordedRebuildAborts` put it through the clip and trace definitions.
- **State that the source updates in place is a class**: `EngineModel.GameEngine`, `SnakeModel.Snake`,
  `Playback.HighlightPlayback`, `Scenario.ScenarioPlayback`, `Fnv.SyncHasher`. Each method is proved to do to the
  whole object what a function of `EngineSpec`, `SnakeBody`, `BoostFuel`, ... does to its value, and the theorems over
  runs are about those functions.
- **A loop that may not end has the outcome `Hang`.** `tick_forward` on a completed state succeeds without moving, and
  the catch-up loop of `advance_and_apply_replicated_message` looks at the tick only. `Replication.HangMeansForever`
  shows that `Hang` is exactly that non-termination.
- Clocks, timestamps and the transport are parameters. So are the AI policy of scripted scenarios and the arena's
  obstacle set in the flood fill.
- `as u32` casts are written out (`EngineSpec.AsU32`), as are the saturating operations and two's complement. Ticks
  and counters are otherwise unbounded naturals.

| file | what it holds |
|---|---|
| Simulation, Replication | rules of the game as a parameter; the one catch-up contract and its algebra |
| EngineSpec, Engine | the engine as a value, and the mutable engine proved equal to it |
| StreamSafety, Alarms, Prediction, PredictedInput, Polling, Emission, Recovery | theorems over whole runs of the engine |
| ServerReplay, TraceRecording, IdlePolls | the determinism checker: what its verdict means, and which traces pass |
| Recording, Timeline, Playback, ClipPlayback, Scenario, ScenarioDrivers | archives, clips, highlight and scenario playback |
| SnakeBody, BodyReaders, BoostFuel, Snake | the compressed body, everything that reads it, fuel and movement |
| GridSearch | the AI's breadth-first searches and the flood fill |
| SyncEncoding, Sorting, SyncView, SyncLayout, Fnv, SyncHash | the fingerprint: layout, canonical order, hash, writer |
| Arithmetic, Witness | division facts; a concrete game and the inputs that break expectations |

## What falls short, and exactly when

- **Late events hang.** A delta whose tick lies beyond the completion of the game makes the catch-up loop spin
  forever. `Replication.CatchUpExact` gives the exact condition, `Witness.LateEventHangs` an input.
- **The lag report and the poll disagree past 32 bits of ticks.** The poll wraps, the report saturates.
  `Polling.LagAfterPoll` is the exact condition, on the engine before the poll, under which none is reported after it;
  `Witness.WrappedClockLeavesLag` is an input that fails it.
- **Past 32 bits of ticks the schedule of polls shows.** `Polling.PollScheduleExact` is the exact condition under which
  one poll at the latest timestamp does what the whole schedule does, `Witness.WrappedClockShowsPolls` an input that
  fails it.
- **Client command identities start over after 2^32 commands.** `Prediction.IdsCollideExactly` says exactly which two
  share an identity; `Witness.IdentitiesRepeat` is a run with such a pair.
- **An unrecorded rebuild can abort a healthy trace's replay.** The checker polls only where the trace has a record. If
  the server rebuilt its prediction in a poll that left none, the checker rebuilds later, from further back, and may
  run into a failing step that the server never took. `IdlePolls.RecordedTraceReplays` shows that nothing else can keep
  such a trace from passing, `Witness.UnrecordedRebuildAborts` is an input.
- **The last command sequence number cannot be recovered.** `process_command` wraps where
  `replay_scheduled_command` refuses. `Recovery.RecoveryRefines` is an if-and-only-if;
  `Witness.LastSequenceIsUnrecoverable` is an input.
- **A clip may show a message it was not verified with**, namely a first message recorded as sequence 0 of the anchor
  tick: `Playback.SkippedExactly`, `Witness.AnchorMessageIsPlayedButNotVerified`. Clips cut from recordings never hold
  one, so `ClipPlayback.FramesAreTheGame` needs no such condition.
- **A clip that overhangs an unfinished recording fails its own verification**, unless its fingerprint collides with
  that of the recorded end, an earlier tick; no other clip cut from a coherent recording fails:
  `ClipPlayback.CutClipVerifiesExactly`, with `Witness.OverhangingClipFails` as an input.
- **A reversing step eats the body.** The compressed step means "new head, tail gone" exactly when it does not
  reverse: `SnakeBody.StepRefinesExactly`. The turn guard excludes reversal for whole lives: `SnakeBody.BodyIsTrail`.
- **A body of one point contains nothing** according to `contains_point`, though its expanded cells hold that point:
  `BodyReaders.CollisionQueries`.
- The comment on `sync_hash` says that equal hashes mean equal states. The hash is 64 bits wide, so what is proved is
  that the hashed stream is faithful (`SyncView.StreamsAgreeExactly`) and that one changed byte always changes the
  hash (`Fnv.OneByteAlwaysShows`). Lists of 2^32 items or more have their length truncated in the stream; faithfulness
  is stated for shorter ones.

## Model

| member | source | states |
|---|---|---|
| Replication.AdvanceAndApply | common/src/game_engine.rs:30-59 | the loop over a cloned candidate computes the transactional application of one message: an admitted snapshot replaces, a fingerprint probe only catches up, a delta catches up and then applies in full or errs |
| Replication.MessageAppliesAtItsTick | common/src/game_engine.rs:30-59 | a snapshot is taken exactly when it stands on its message's tick and is admitted; a probe only catches up; a delta is applied to the state of its own tick |
| Replication.HangMeansForever | common/src/game_engine.rs:51-53 | the outcome `Hang` holds if and only if every number of iterations of the unguarded loop leaves the tick short of the target |
| Replication.CatchUpExact | common/src/game_engine.rs:51-53 | catch-up equals stepping that stops at completion, except that completion short of the target, and only that, hangs |
| Replication.FinishFromStop | common/src/game_engine.rs:30-59 | stopping a replay at an intermediate tick and resuming gives what an uninterrupted replay gives, failures and hangs included |
| Replication.FinishResumes | common/src/game_engine.rs:30-59 | the same for a replay already part way through its messages |
| EngineModel.GameEngine.FromState | common/src/game_engine.rs:253-274 | a restored engine: prediction anchored on the state without its RNG, given next command sequence, clean sync status |
| EngineModel.GameEngine.ProcessServerEvent | common/src/game_engine.rs:379-510 | the whole new engine for any message: refusal, staleness, gap accounting, probes, reconciliation; a failing message changes nothing but the sync status; `Alarms.StatusReportsStream` says what that status means |
| EngineModel.GameEngine.NoteTransport | common/src/game_engine.rs:379-510 | exactly the messages at or below the watermark are stale; a jump past the next number counts the missed ones and asks for a resync |
| EngineModel.GameEngine.NoteProbe | common/src/game_engine.rs:379-510 | every counter of a probe, as `Alarms.StatusReportsStream` reads them off the delivered messages |
| EngineModel.GameEngine.ProcessLocalCommand | common/src/game_engine.rs:323-359 | without a player nothing happens; otherwise the next wrapped sequence is issued at the predicted tick, remembered and scheduled into the prediction |
| EngineModel.GameEngine.DiscardLocalCommand | common/src/game_engine.rs:365-376 | the identity is gone, the rest keep their order, a rebuild is due even if it was absent, and the result says whether it was there |
| EngineModel.GameEngine.RebuildPredictedState | common/src/game_engine.rs:525-589 | prediction is re-derived from the committed state and the outstanding commands up to the capped wall tick, or held, or left alone when current; `PredictedInput.DueRebuildShowsInput`, `PredictedInput.RebuildReachesWall` and `Emission.RebuildPlaysFullRules` say what it then shows |
| EngineModel.GameEngine.RunUntil | common/src/game_engine.rs:593-666 | committed runs to the lagged target and emits labelled events, then prediction is rebuilt if due and runs movement-only to the capped target; errors keep the committed progress; `Emission.PollPublishes` says what is emitted |
| EngineModel.GameEngine.AuthoritativeSchedulerLagMs | common/src/game_engine.rs:671-689 | the reported lag with its saturations |
| EngineModel.GameEngine.ProcessCommand | common/src/game_engine.rs:691-721 | the authoritative identity: later of the client's and the server's tick, wrapped counter, scheduled on both states |
| EngineModel.GameEngine.ReplayScheduledCommand | common/src/game_engine.rs:727-796 | all five admission conditions, catch-up to the acceptance tick, re-anchored prediction, refusal at the last sequence number |
| EngineModel.GameEngine.ApplyPreMatchReadinessEvent | common/src/game_engine.rs:300-320 | only readiness events, only at tick 0 |
| EngineSpec.Assigned | common/src/game_engine.rs:691-721 | the assigned tick is the later of the client's tick and the actor's, under the actor's next sequence; client identity and command are kept |
| Alarms.StatusReportsStream | common/src/game_engine.rs:379-510 | in every run of a fresh engine, from the delivered messages alone: the alarm is up if and only if, since the last applied snapshot, a message failed, a snapshot was refused, a number was jumped, a rejection was fenced or two processed probes in a row mismatched; `consecutive_mismatches` counts the mismatches since the last matching probe or applied snapshot, `missed_messages` the numbers jumped; gaps, stale messages, probes and mismatches are counted exactly, and first mismatch, last probe, watermark and furthest server tick are what they say |
| PredictedInput.DueRebuildShowsInput | common/src/game_engine.rs:556-586 | after every successful due rebuild of a started, unfinished game the prediction was given what the committed state was given and then all pending commands, in issue order |
| PredictedInput.PollShowsInput | common/src/game_engine.rs:593-666 | so does a poll that finds a rebuild due, on top of the state it commits |
| PredictedInput.IssuingShowsCommand | common/src/game_engine.rs:323-359 | a command is issued exactly when there is a player; it carries the predicted tick, the player and no server identity, joins the pending ones, and the prediction shows it at once |
| PredictedInput.AcceptingShows | common/src/game_engine.rs:691-721 | an accepted command lands on both halves |
| PredictedInput.PredictionShowsInput | common/src/game_engine.rs:323-796 | in every run of a client or of a server: a rebuild is due, or the prediction shows the committed state followed by pending commands in issue order, none from elsewhere |
| PredictedInput.PredictionHasNoGenerator | common/src/game_engine.rs:525-666 | in no reachable engine does the predicted state hold a random generator |
| PredictedInput.RebuildReachesWall | common/src/game_engine.rs:517-589 | a successful rebuild of a started game brings the prediction to the wall tick or its cap, or to the end of the game |
| PredictedInput.PollReachesWall | common/src/game_engine.rs:593-666 | so does a successful poll, which leaves no rebuild due |
| Emission.PollPublishes | common/src/game_engine.rs:593-647 | with s_k the state after k committed steps, a successful poll ends on s_n and emits, in order, exactly the events of each step from s_k to s_(k+1) with their own sequence numbers: each under the tick of s_(k+1), which is the starting tick plus k plus 1, a snapshot under the tick of the state it holds |
| Emission.RunPublishes | common/src/game_engine.rs:614-647 | the same for every run of steps, failing ones included: the state left is that of the failing step |
| Emission.ReceiverStandsOnLabel | common/src/game_engine.rs:630-647 | a receiver that is not past a published delta and applies it stands on the tick the emitting step reached |
| Emission.RebuildPlaysFullRules | common/src/game_engine.rs:556-586 | a due rebuild is a run of full steps from the committed state without its generator and with all pending input |
| Emission.PollPredictsByMovement | common/src/game_engine.rs:649-666 | a poll with no rebuild due moves the prediction by movement-only steps alone |
| StreamSafety.StreamSafe | common/src/game_engine.rs:379-510 | for any loss, duplication and reordering of a numbered log, interleaved with any local activity: whenever no resync is pending, the committed state is the lossless, in-order, exactly-once replay of the log from the anchor through the watermark |
| StreamSafety.HoldsServerHistory | common/src/game_engine.rs:379-510 | on a coherent log, that is the server's own history up to the watermark, wherever the client joined |
| StreamSafety.ReplicasAgree | common/src/game_engine.rs:379-510 | two clients on different unreliable channels agree at equal watermarks |
| StreamSafety.FailedMessageIsTransactional | common/src/game_engine.rs:379-510 | a message errs exactly when its snapshot is refused or its application fails; then state, prediction and input are untouched and a resync is pending |
| StreamSafety.GoodChannelNeverResyncs | common/src/game_engine.rs:379-510 | a client that receives a log in order, with any local activity in between, whose messages apply, whose probes carry the reached hash and whose rejections fence nothing, never asks for a resync and ends at the watermark in the state the log leads to |
| Prediction.PredictionNeverRunsAway | common/src/game_engine.rs:517-589 | in every reachable engine prediction is due for a rebuild or leads the committed tick by at most the lag window plus the free-run margin |
| Prediction.SpeculativeIsOutstanding | common/src/game_engine.rs:323-376 | after any run the speculative list is exactly the commands issued and not yet scheduled, rejected, retracted or superseded, in issue order |
| Prediction.IdsCollideExactly | common/src/game_engine.rs:323-359 | two commands issued in any run share an identity if and only if they have the same player and predicted tick and a multiple of 2^32 commands lies between them |
| Prediction.LocalIdsUnique | common/src/game_engine.rs:323-359 | so until 2^32 commands are issued no two share an identity |
| Prediction.SequenceCounts | common/src/game_engine.rs:323-359 | the sequence counter is the wrapped number of commands ever issued, and each command carries its own count |
| Prediction.RetractionLeavesNoResidue | common/src/game_engine.rs:365-376 | issue, predict any number of frames, retract: the next rebuild is the one of an engine that never issued the command |
| Polling.PollsReachFurthest | common/src/game_engine.rs:593-666 | any schedule of polls, with any order, repeats and wrapping, commits and emits what one run to the furthest of its targets does |
| Polling.PollScheduleExact | common/src/game_engine.rs:593-666 | one poll at the latest timestamp commits what the schedule commits if and only if no poll aims past it and past the starting tick, or the game is complete there; then the events agree too |
| Polling.PollScheduleIndependence | common/src/game_engine.rs:593-666 | so while the wall clock fits 32 bits of ticks, any timestamps in any order and with repeats act as one poll at the latest |
| Polling.LagAfterPoll | common/src/game_engine.rs:671-689 | after a successful poll the reported lag is zero if and only if, before it, the wall clock fits 32 bits of ticks, or the game completes on the way, or the clock stands on the last tick of a 32-bit turn, or the engine already is at the saturated target |
| Polling.PollCommitsUpToLag | common/src/game_engine.rs:593-640 | in range, a successful poll of a running game commits every tick up to the lag behind the wall and none beyond |
| Polling.LagIsWorkAhead | common/src/game_engine.rs:671-689 | the lag reported before such a poll is the simulated time it commits |
| Polling.RunToCompose | common/src/game_engine.rs:614-640 | a run of committed steps can be cut at any tick: same state, same events, same failure |
| Recovery.AcceptIsProcessCommand | common/src/game_engine.rs:691-721 | the actor's acceptance is the engine's `process_command`, tick and sequence included |
| Recovery.AdvanceIsRunUntil | common/src/game_engine.rs:593-666 | the actor's advance is a successful `run_until`, to the target the clock gives |
| Recovery.RecoveryRefines | common/src/game_engine.rs:727-796 | a successor that replays the decisions of a lost actor accepts them all if and only if the counter does not run out, and then lags it by stepping alone |
| Recovery.RecoveredActorIsIdentical | common/src/game_engine.rs:727-796 | from a checkpoint: same next sequence, and the same committed state once it reaches the lost actor's tick |
| Recovery.ReplayAdmitsExactly | common/src/game_engine.rs:727-796 | a decision is replayed if and only if its sequence is the next, its user the client's, its acceptance not past and not after its tick, the game gets there and the counter can move on; one not admitted changes nothing, one replayed is scheduled on the state of its acceptance and on a re-anchored prediction |
| Recovery.ReadinessOnlyBeforeTheMatch | common/src/game_engine.rs:300-320 | readiness counts if and only if it is a readiness event at tick 0; otherwise nothing changes |
| ServerReplay.Replay | common/src/replay.rs:215-370 | the loop over the timeline, with its mutable engine, two queues and early stops, computes the verdict of the item-by-item check |
| ServerReplay.VerdictIsExact | common/src/replay.rs:215-370 | the verdict is `Deterministic` if and only if the trace is faithful item by item to a blind re-drive and records precisely the events it emits |
| ServerReplay.AbortMeansUndrivable | common/src/replay.rs:215-370 | a trace aborts the checker only if its timestamps, commands and readiness alone cannot drive an engine to its end |
| ServerReplay.MatchOne | common/src/replay.rs:242-370 | one item against the engine: commands, readiness, fingerprints, heartbeats, schedules and gameplay events in queue order |
| ServerReplay.GameplaysExactly | common/src/replay.rs:229-240 | of what a poll emits exactly the snapshots are dropped and the rest is queued in order |
| TraceRecording.CheckerIsTwin | common/src/replay.rs:215-370 | when every poll left a record, whatever the clock did and whether or not steps can fail, the checker ends with the recorder's engine and queues |
| TraceRecording.RecordedPollsVerdict | common/src/replay.rs:215-370 | so the verdict is `Deterministic` exactly when every emitted event was published, and `Divergent` otherwise |
| IdlePolls.RecordedTraceReplays | common/src/replay.rs:215-370 | with unrecorded polls and a steady clock, a trace with all its events published replays as `Deterministic` if and only if its timestamps and commands alone can drive an engine to its end; it can otherwise only abort, and only if a rebuild of the prediction went unrecorded and a step can fail |
| IdlePolls.CheckerShadows | common/src/replay.rs:229-240 | without an unrecorded rebuild the checker lags the recorder by one pending run of committed steps and one of predicted steps, and agrees with it in all else |
| IdlePolls.CheckerFollows | common/src/replay.rs:229-240 | in every trace with a steady clock the checker lags the recorder's committed state by one pending run and holds exactly the unpublished events and schedules, unless its own prediction failed to step |
| Recording.StateAtTick | common/src/highlight.rs:192-226 | the loops compute validation, nearest anchor, replay of the cut, hold or step |
| Recording.ArchiveIsChecked | common/src/highlight.rs:137-197 | the checks of an archive, spelled out: both versions, a first anchor, anchors strictly ordered on their own ticks with valid states, messages strictly ordered by tick and sequence, nothing outside the span; an archive that fails one, or a target outside it, errs |
| Recording.NearestAnchor | common/src/highlight.rs:206-211 | the last anchor at or before the target, or none exactly when all are later |
| Recording.CutsAreExact | common/src/highlight.rs:213-218 | on an ordered log both partition points separate exactly the reflected from the unreflected, and the due from the not yet due, and never cross |
| Recording.AnchorIndexExact | common/src/highlight.rs:192-226 | on a coherent recording replay from the nearest anchor is interchangeable with replay from the first, for every target tick, failures included; outside the recording it errs |
| Recording.ExactAnchorsGiveEqualStates | common/src/highlight.rs:192-226 | with exactly coherent anchors the answers are equal |
| Recording.ReplayedExactlyOnce | common/src/highlight.rs:213-221 | the messages replayed are those lexicographically after the anchor and at or before the target, same-tick ones included, and no identity occurs twice |
| Recording.VerifiesExactly | common/src/highlight.rs:232-242 | on a coherent recording verification succeeds if and only if the archive is valid and replaying the whole log from the first anchor ends with the recorded fingerprint |
| Recording.WantedIsSlice | common/src/highlight.rs:576-584 | filtering the messages of a window keeps one contiguous slice of the log |
| Recording.CutClipVerifies | common/src/highlight.rs:568-590 | a clip whose window the recording covers passes its own verification |
| ClipPlayback.CutClipVerifiesExactly | common/src/highlight.rs:377-401 | it passes if and only if the window lies inside the recording, or the recorded game ended complete, or the fingerprint of the overhanging replay collides with that of the recorded end at a different tick |
| ClipPlayback.FramesAreTheGame | client/src/scenario.rs:243-337 | every frame shown of a clip cut from a coherent recording is interchangeable with the recorded state of that tick, or with the final state during post-roll |
| ClipPlayback.SessionShowsTheGame | client/src/scenario.rs:243-346 | so whatever a viewer does with such a clip, a session that does not fail ends on a state interchangeable with the recorded one of the tick asked for last |
| Playback.HighlightPlayback.constructor | client/src/scenario.rs:274-285 | a playback starts on the initial state, before every message, with nothing shown |
| Playback.HighlightPlayback.Reset | client/src/scenario.rs:288-293 | back to the first frame, event list and log position included |
| Playback.HighlightPlayback.AdvanceOne | client/src/scenario.rs:317-337 | the whole new object for one tick: due messages, hold or step, cursor; a failure keeps the cursor and leaves what was applied before it |
| Playback.TickedIsFrame | client/src/scenario.rs:317-337 | from the frame of a fresh batch replay one tick leads to the next such frame, and fails exactly when, and as, that frame does |
| Playback.HighlightPlayback.SeekToTick | client/src/scenario.rs:339-346 | the whole new object for a seek: clamp, rewind only when the target lies behind, advance until it is reached or a tick fails |
| Playback.AnyPathShowsFreshFrame | client/src/scenario.rs:288-346 | for every sequence of advances and seeks: the playback shows what one fresh seek to the tick asked for last shows, in state, log position, cursor and events, and fails exactly when, and as, one fresh seek to the furthest tick asked for fails |
| Playback.FreshSeekShowsFrames | client/src/scenario.rs:317-346 | a fresh seek shows the frame of a fresh batch replay and succeeds exactly when that replay can show every frame on the way |
| Playback.HighlightPlayback.Play | client/src/scenario.rs:288-346 | a session on the live object does what the session on values does |
| Playback.Open | client/src/scenario.rs:243-286 | opening succeeds exactly for a verified clip whose replay reaches the window |
| Playback.SkippedExactly | client/src/scenario.rs:251-262 | verification skips at most one message that playback shows, and exactly when it sits at sequence 0 of the anchor tick |
| Playback.FramesAreArchiveStates | client/src/scenario.rs:317-337 | otherwise every frame is the state the verified archive has at that tick |
| Scenario.ScenarioPlayback.AdvanceOne | common/src/scenario.rs:319-359 | a scene that is over stays; otherwise every driver decides in turn on what its predecessors left, the full rules step, and events are stamped with the new tick; a failing step leaves the drivers' commands and its half-made state; `ScenarioDrivers.QuantumActs` spells this out |
| ScenarioDrivers.QuantumActs | common/src/scenario.rs:319-359 | in one quantum the scene is given, in driver order, one turn per driver whose policy wants one, decided on the state its predecessors left, for the tick before the step, as one million plus its user's count; each counter grows by its user's turns; the step is taken from the state they leave, and its events follow the earlier ones under the tick it reached; a failing step keeps the turns |
| ScenarioDrivers.SessionIsNumbered | common/src/scenario.rs:311-370 | after any session with any rewinds, what the scene was given since its pose is a list of turns, each numbered one million plus its user's count so far, and every counter is its user's count, up to the 32-bit caps |
| Scenario.ScenarioPlayback.SeekToTick | common/src/scenario.rs:363-370 | a seek in either direction does what clamping, rewinding and advancing do to the scene as a value, and a failing one leaves the scene its failing quantum broke |
| Scenario.AnyPathIsOneSeek | common/src/scenario.rs:311-370 | for every sequence of advances and seeks: the scene is that of one fresh seek to the tick asked for last, AI sequence numbers and events included, and the session fails exactly when one fresh seek to the furthest tick asked for fails |
| Scenario.SceneOfItsTick | common/src/scenario.rs:311-370 | so a scene is determined by the tick it stands on |
| Scenario.ScenarioPlayback.Play | common/src/scenario.rs:311-370 | a session on the live object does what the session on values does |
| SnakeBody.StepRefinesExactly | common/src/snake.rs:459-514 | the compressed step is "one new head cell, last cell gone unless growing" on the cell list if and only if it does not reverse |
| SnakeBody.StepRefines | common/src/snake.rs:459-514 | such a step keeps the compression proper: aligned, no two consecutive points equal, a genuine turn at every interior point |
| SnakeBody.BodyIsTrail | common/src/snake.rs:439-514 | through any life of guarded turns, meals and steps the body is the most recent part of the head's trail, length plus pending growth is conserved, and the travel direction is the one last stepped |
| SnakeBody.Lived | common/src/game_state.rs:3856-3884 | the turn guard keeps every reachable snake proper and unable to reverse |
| SnakeBody.TurnIsTakenExactly | common/src/game_state.rs:3856-3884 | a turn is taken if and only if it reverses neither the pending nor the travelled direction, and moves nothing |
| SnakeModel.Snake.StepForward | common/src/snake.rs:459-514 | the in-place step does what the functional step does, refines the step on cells for a proper living snake, and leaves dead or one-point snakes alone |
| BodyReaders.CollisionQueries | common/src/snake.rs:516-524 | `contains_point` is membership in the cells; skipping the head it is membership among the cells after the first |
| BodyReaders.Length | common/src/snake.rs:539-551 | the sum of Manhattan distances plus one is the number of cells |
| BodyReaders.ExpandedBodyCells | common/src/highlight.rs:1161-1178 | the walked set is the set of cells of the body |
| BodyReaders.BodyCellBehindHead | client/src/render.rs:1720-1756 | the cell so many steps behind the head, clamped to the tail, with the axis of a real run through it |
| BoostFuel.FuelIsConserved | common/src/snake.rs:216-403 | in any order of events and across lives, fuel in the tank plus fuel spent plus fuel discarded is fuel stored plus fuel granted, where a packet is booked as what fits below capacity; fuel stays whole quanta within capacity, speed matches activity, a dead snake holds nothing |
| BoostFuel.Collected | common/src/snake.rs:216-230 | a living snake below capacity ends a non-zero whole-quantum packet at the lesser of charge plus amount and capacity, and that is reported; in every other case nothing changes and nothing is reported |
| BoostFuel.PacketsFill | common/src/snake.rs:216-230 | after any run of packets the charge is the lesser of capacity and the initial charge plus the sum of the valid packets |
| BoostFuel.ActiveQuantumIsFunded | common/src/snake.rs:321-342 | between quanta exactly an active boost funds the next quantum, at the price of one quantum's fuel unless unlimited; boost ends, and is reported to end, exactly when that empties the tank |
| BoostFuel.UnlimitedStaysFull | common/src/game_state.rs:2034-2041 | in an unlimited match a living snake's tank is full at every moment of every run and nothing is ever spent |
| BoostFuel.ResolutionConverges | common/src/snake.rs:254-267 | after resolution boost is on exactly when it is wanted, the snake lives and there is fuel; an edge is reported exactly on a change |
| BoostFuel.OneQuantum | common/src/game_state.rs:3250-3515 | in every quantum, whatever deaths and respawns fall between reservation and collection or after finalization: boost follows the latest intent while there is fuel, outlasts the quantum exactly when no life boundary fell into it and fuel is left or was collected, and intent survives |
| BoostFuel.EveryQuantum | common/src/game_state.rs:3250-3515 | over any run of quanta and lives, an active boost always has fuel for the next quantum |
| BoostFuel.MovementIsExact | common/src/snake.rs:350-382 | for any schedule of gains of at most one cell per quantum no quantum is worth two cells, credit stays below one cell, and cells moved plus credit account for every unit gained; no assertion fires while one cell's worth fits 32 bits |
| BoostFuel.MovesAreWholeCells | common/src/snake.rs:350-382 | cells moved are the whole part of the accumulated credit however the speed varied |
| SnakeModel.Snake.CollectBoostCharge | common/src/snake.rs:216-230 | consumed exactly by a living snake below a valid capacity for a non-zero whole-quantum amount; then charge and report are the lesser of charge plus amount and capacity, otherwise nothing changes |
| SnakeModel.Snake.ResolveBoost | common/src/snake.rs:254-308 | activity moves towards intent, or stays, under all validity conditions |
| SnakeModel.Snake.ReserveBoostQuantum | common/src/snake.rs:321-330 | a living, boosting, funded snake pays one quantum unless the tank is unlimited |
| SnakeModel.Snake.FinalizeBoostDepletion | common/src/snake.rs:334-342 | boost ends exactly when it is active on an empty tank |
| SnakeModel.Snake.ResetBoostAndMovement | common/src/snake.rs:395-403 | a new life clears movement, activity and fuel, or refills an unlimited tank, and keeps the intent |
| SnakeModel.Snake.AccrueMovementCredit | common/src/snake.rs:350-382 | at most one cell is consumed and the rest is kept |
| GridSearch.FindNearestFood | common/src/ai.rs:175-219 | the search returns a food of least distance among those in the arena, the first food if none is, the centre if there is no food |
| GridSearch.FindPathToBase | common/src/ai.rs:304-347 | the goal cell of least distance in the arena, or the middle of the goal if none is inside |
| GridSearch.NearestGoal | common/src/ai.rs:190-218 | breadth-first search finds a goal of least Manhattan distance, and nothing exactly when there is none in bounds |
| GridSearch.ReachableCells | common/src/highlight.rs:1097-1127 | everything found is reachable by free cells; below the limit everything reachable is found; the limit is overrun by at most three |
| SyncEncoding.UniquelyDecodable | common/src/fingerprint.rs:91-336 | a value followed by anything can be read off its bytes in one way only, for every layout built of blocks, pairs, counted lists and tagged choices |
| SyncEncoding.LittleEndianSpells | common/src/fingerprint.rs:66-80 | the bytes written spell the number, least significant first |
| SyncView.StreamsAgreeExactly | common/src/fingerprint.rs:91-336 | states with equal streams agree on every sync-critical field up to the order of food, pads, queued commands and map iteration; with unique pad and command identifiers, that order never shows in the stream |
| SyncLayout.StreamIsLaidOut | common/src/fingerprint.rs:91-336 | the stream is, number by number, the flat layout of the source: every field, its width, its place, presence bytes, counts and tags |
| SyncLayout.KeysAreLexicographic | common/src/fingerprint.rs:150-189 | collections are ordered as tuples: food by x then y, maps by key then value, pads by identifier, commands by tick, user and sequence |
| Sorting.SortIsCanonical | common/src/fingerprint.rs:150-189 | equal sorted lists come from equal collections, and with distinct keys equal collections sort to equal lists |
| SyncHash.SyncHash | common/src/fingerprint.rs:91-336 | the writes of `sync_hash`, in the source's order and for collections of any size, hash exactly the stream |
| SyncHash.OrderNeverShows | common/src/fingerprint.rs:168-189 | states that differ only in the order of their collections have equal fingerprints |
| Fnv.SyncHasher.WriteU8 | common/src/fingerprint.rs:55-58 | the state stays the FNV digest of everything written |
| Fnv.SyncHasher.WriteNumber | common/src/fingerprint.rs:66-80 | the little-endian bytes of the number are appended |
| Fnv.MixIsInvertible | common/src/fingerprint.rs:55-58 | one hashing step is a bijection of the 64-bit state for every byte, with an explicit inverse on both sides |
| Fnv.OneByteAlwaysShows | common/src/fingerprint.rs:41-84 | streams of equal length that differ in exactly one byte never collide |
| Fnv.KnownDigest | common/src/fingerprint.rs:41-58 | the digest of a single zero byte is the one FNV-1a publishes |
| Witness.LawsAreConsistent | common/src/game_state.rs:3163-3177 | one concrete game satisfies every assumed law and what the clip and trace theorems ask beside them |
| Witness.LateEventHangs | common/src/game_engine.rs:51-53 | an event after the end of a completed game never returns |
| Witness.AnchorMessageIsPlayedButNotVerified | client/src/scenario.rs:251-262 | a clip that verifies and is then played back as a different state |
| Witness.WrappedClockShowsPolls | common/src/game_engine.rs:593-640 | past 32 bits of ticks two polls commit more than the later poll alone |
| Witness.WrappedClockLeavesLag | common/src/game_engine.rs:671-689 | a poll ten ticks into the second turn of the counter leaves a reported lag of 2^32 - 501 ms |
| Witness.ClipShowsTheMeal | common/src/highlight.rs:377-401 | the clip theorems meet all their conditions on a concrete recording, whose clip verifies and shows the meal at its tick |
| Witness.OverhangingClipFails | common/src/highlight.rs:377-401 | a clip cut two ticks past an unfinished recording does not verify |
| Witness.LastSequenceIsUnrecoverable | common/src/game_engine.rs:727-796 | the decision with the last sequence number is made and cannot be replayed |
| Witness.IdentitiesRepeat | common/src/game_engine.rs:323-359 | a run of 2^32 + 1 commands on one predicted tick whose first and last share an identity |
| Witness.UnrecordedRebuildAborts | common/src/replay.rs:215-370 | a trace of a healthy server, all events published, whose replay aborts after an unrecorded rebuild |

## Left out

- The body of a simulation quantum, of command scheduling and of delta application, arena geometry, spawning, scoring, combos and the RNG: they are the parameter `Rules`, constrained by `Lawful` only.
- The command queue's heap, tombstones and duplicate suppression: inside `Rules.schedule`.
- Overflow of ticks, counters of the sync status and 16-bit coordinates near the ends of their types, and the overflow panics of debug builds: naturals and integers are unbounded except where the source casts, wraps or saturates.
- The event log, game identifiers, JSON getters and diagnostic strings of the engine, and clearing the resync flag from outside.
- A client that drives `run_until`: the web client never does, and `StreamSafe` is about clients that receive, issue, retract and predict.
- Publishing a message with stream number 0, and deduplicated schedules inside server traces: outside the stream and trace theorems, inside the engine model.
- Trace files, trace format versions and splitting records into a timeline; the counters and texts of the replay report; the client-side trace replay and the comparison of two traces.
- Comparison of recorded events through JSON: modelled as equality of events.
- IdlePolls.RecordedTraceReplays: assumes timestamps that never go back and a wall clock within 32 bits of ticks, as the recording server's loop has them, because an unrecorded poll at a later time leaves nothing to catch up with; `TraceRecording.RecordedPollsVerdict` needs neither.
- PredictedInput.PredictionShowsInput: is about engines that accept commands or issue them, not both, as servers and clients do; one that did both would show accepted commands among its own.
- TraceRecording.CheckerIsTwin: is about recorders whose command counter starts at 0, as the replaying engine's does.
- SyncView.StreamsAgreeExactly: faithfulness is stated for collections shorter than 2^32, whose length survives the cast, and canonicity for distinct pad identifiers and server command identities, without which the source's unstable sorts leave the order open.
- Seeking in an empty window: the source's clamp panics there, so both seek methods require a window that is not empty.
- Highlight scoring, window selection, trap caching and slow motion; the AI's move scoring around its searches.
- Matchmaking, the WebSocket server, persistence, the web client, bots, load tests, rendering and the tutorial.
