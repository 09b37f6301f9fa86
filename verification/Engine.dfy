/** The client/server engine: one mutable object driven by server messages, local
    input, clock polls and crash-recovery replay. */
module EngineModel {
  import opened Simulation
  import opened Replication
  import opened EngineSpec

  lemma WithoutGrows(commands: seq<CommandMessage>, i: nat, id: CommandId)
    requires i < |commands|
    ensures Without(commands[..i + 1], id) ==
            Without(commands[..i], id) + (if commands[i].clientId == id then [] else [commands[i]])
  {
    assert commands[..i + 1] == commands[..i] + [commands[i]];
    WithoutAppend(commands[..i], [commands[i]], id);
  }

  /** Removing an identity shortens the list exactly when it was there. */
  lemma {:induction false} WithoutLength(commands: seq<CommandMessage>, id: CommandId)
    ensures |Without(commands, id)| <= |commands|
    ensures |Without(commands, id)| != |commands| <==> exists c :: c in commands && c.clientId == id
    decreases |commands|
  {
    if commands != [] {
      WithoutLength(commands[1..], id);
      assert forall c :: c in commands <==> c == commands[0] || c in commands[1..];
    }
  }

  class GameEngine<S(!new)> {
    const rules: Rules<S>
    const committedLagMs: nat
    var committedState: S
    var predictedState: Option<S>
    var localPlayerId: Option<nat>
    var commandCounter: nat
    var localCommandSeq: nat
    var speculativeCommands: seq<CommandMessage>
    var syncStatus: SyncStatus
    var predictionNeedsRebuild: bool

    /** The whole state of the engine as one value. */
    function View(): (e: Engine<S>)
      reads this
    {
      Engine(committedState, predictedState, committedLagMs, localPlayerId, commandCounter,
             localCommandSeq, speculativeCommands, syncStatus, predictionNeedsRebuild)
    }

    constructor FromState(r: Rules<S>, s: S, nextCommandSequence: nat)
      ensures rules == r && View() == Restored(r, s, nextCommandSequence)
    {
      rules := r;
      committedLagMs := COMMITTED_LAG_MS;
      committedState := s;
      predictedState := Some(r.dropRng(s));
      localPlayerId := None;
      commandCounter := nextCommandSequence;
      localCommandSeq := 0;
      speculativeCommands := [];
      syncStatus := FRESH_SYNC;
      predictionNeedsRebuild := false;
    }

    method ProcessLocalCommand(command: Command) returns (o: Outcome<CommandMessage>)
      modifies this
      ensures (View(), o) == Issued(rules, old(View()), command)
    {
      if localPlayerId.None? { return Err; }
      var predictedTick := if predictedState.Some? then rules.tick(predictedState.value) else 0;
      localCommandSeq := AsU32(localCommandSeq + 1);
      var message := CommandMessage(CommandId(predictedTick, localPlayerId.value, localCommandSeq), None, command);
      speculativeCommands := speculativeCommands + [message];
      if predictedState.Some? {
        predictedState := Some(rules.schedule(predictedState.value, message));
      }
      return Ok(message);
    }

    /** `Vec::retain` over the speculative commands. */
    method RetainOthers(id: CommandId)
      modifies this`speculativeCommands
      ensures speculativeCommands == Without(old(speculativeCommands), id)
    {
      var commands, i := speculativeCommands, 0;
      speculativeCommands := [];
      while i < |commands|
        invariant 0 <= i <= |commands| && speculativeCommands == Without(commands[..i], id)
      {
        WithoutGrows(commands, i, id);
        if commands[i].clientId != id {
          speculativeCommands := speculativeCommands + [commands[i]];
        }
        i := i + 1;
      }
      assert commands[..i] == commands;
    }

    method DiscardLocalCommand(id: CommandId) returns (removed: bool)
      modifies this
      ensures View() == Discarded(old(View()), id)
      ensures removed <==> exists c :: c in old(speculativeCommands) && c.clientId == id
    {
      var before := |speculativeCommands|;
      WithoutLength(speculativeCommands, id);
      RetainOthers(id);
      removed := |speculativeCommands| != before;
      predictionNeedsRebuild := true;
    }

    /** Watermark and gap accounting; `stale` asks the caller to skip the message. */
    method NoteTransport(m: EventMessage<S>) returns (stale: bool)
      modifies this`syncStatus
      ensures stale <==> Stale(old(syncStatus), m)
      ensures syncStatus == if stale
                            then old(syncStatus).(staleSkipped := old(syncStatus).staleSkipped + 1)
                            else Noted(old(syncStatus), m)
    {
      if m.streamSeq > 0 {
        var last := syncStatus.lastStreamSeq;
        if m.event.Snapshot? || last == 0 {
          syncStatus := syncStatus.(lastStreamSeq := m.streamSeq);
        } else if m.streamSeq <= last {
          syncStatus := syncStatus.(staleSkipped := syncStatus.staleSkipped + 1);
          return true;
        } else {
          if m.streamSeq > last + 1 {
            syncStatus := syncStatus.(gapCount := syncStatus.gapCount + 1,
                                      missedMessages := syncStatus.missedMessages + (m.streamSeq - last - 1),
                                      needsResync := true);
          }
          syncStatus := syncStatus.(lastStreamSeq := m.streamSeq);
        }
      }
      if m.tick > syncStatus.lastServerTick {
        syncStatus := syncStatus.(lastServerTick := m.tick);
      }
      return false;
    }

    method NoteProbe(m: EventMessage<S>, candidate: S)
      requires m.event.TickHash?
      modifies this`syncStatus
      ensures syncStatus == Probed(old(syncStatus), m.tick, m.event.serverTs, rules.syncHash(candidate) == m.event.hash)
    {
      var matched := rules.syncHash(candidate) == m.event.hash;
      syncStatus := syncStatus.(lastProbeTick := Some(m.tick), lastProbeMatched := Some(matched),
                                totalProbes := syncStatus.totalProbes + 1, lastServerTs := Some(m.event.serverTs));
      if matched {
        syncStatus := syncStatus.(consecutiveMismatches := 0);
      } else {
        syncStatus := syncStatus.(totalMismatches := syncStatus.totalMismatches + 1,
                                  consecutiveMismatches := syncStatus.consecutiveMismatches + 1);
        if syncStatus.firstMismatchTick.None? {
          syncStatus := syncStatus.(firstMismatchTick := Some(m.tick));
        }
        if syncStatus.consecutiveMismatches >= 2 {
          syncStatus := syncStatus.(needsResync := true);
        }
      }
    }

    method ProcessServerEvent(m: EventMessage<S>) returns (o: Outcome<()>)
      requires Lawful(rules)
      modifies this
      ensures (View(), o) == Received(rules, old(View()), m)
    {
      if m.event.Snapshot? && (rules.tick(m.event.state) != m.tick || !rules.admitted(m.event.state)) {
        syncStatus := syncStatus.(needsResync := true);
        return Err;
      }
      var stale := NoteTransport(m);
      if stale { return Ok(()); }

      var advanced := AdvanceAndApply(rules, committedState, m);
      match advanced {
        case Err =>
          syncStatus := syncStatus.(needsResync := true);
          return Err;
        case Hang =>
          return Hang;
        case Ok(candidate) =>
          if m.event.TickHash? {
            NoteProbe(m, candidate);
            committedState := candidate;
            return Ok(());
          }
          committedState := candidate;
      }
      match m.event {
        case CommandScheduled(c) => RetainOthers(c.clientId);
        case CommandScheduledV2(c, _) => RetainOthers(c.clientId);
        case CommandRejected(Some(id), fence) =>
          RetainOthers(id);
          if fence.Some? { syncStatus := syncStatus.(needsResync := true); }
        case _ =>
      }
      predictionNeedsRebuild := true;
      if m.event.Snapshot? {
        speculativeCommands := [];
        syncStatus := syncStatus.(needsResync := false, consecutiveMismatches := 0);
      }
      return Ok(());
    }

    method RebuildPredictedState(ts: int) returns (o: Outcome<()>)
      requires Lawful(rules)
      modifies this`predictedState, this`predictionNeedsRebuild
      ensures (View(), o) == Rebuilt(rules, old(View()), ts)
    {
      var elapsed := Elapsed(rules, committedState, ts);
      if elapsed < 0 {
        if predictionNeedsRebuild {
          predictedState := Some(rules.dropRng(committedState));
          predictionNeedsRebuild := false;
        }
        return Ok(());
      }
      var target := PredictionTarget(rules, View(), elapsed);
      if rules.complete(committedState) {
        predictedState := Some(rules.dropRng(committedState));
        predictionNeedsRebuild := false;
        return Ok(());
      }
      if predictionNeedsRebuild || predictedState.None? || target > rules.tick(predictedState.value) {
        var candidate := rules.dropRng(committedState);
        ghost var base := candidate;
        var i := 0;
        while i < |speculativeCommands|
          invariant 0 <= i <= |speculativeCommands|
          invariant ScheduleAll(rules, candidate, speculativeCommands[i..]) == ScheduleAll(rules, base, speculativeCommands)
        {
          candidate := rules.schedule(candidate, speculativeCommands[i]);
          i := i + 1;
        }
        ghost var start := candidate;
        while !rules.complete(candidate) && rules.tick(candidate) < target
          invariant RunTo(rules, candidate, false, target).state == RunTo(rules, start, false, target).state
          invariant RunTo(rules, candidate, false, target).failed == RunTo(rules, start, false, target).failed
          decreases target - rules.tick(candidate)
        {
          match rules.step(candidate, false)
          case Stepped(n, _) => candidate := n;
          case StepFailed(_) => return Err;
        }
        predictedState := Some(candidate);
        predictionNeedsRebuild := false;
      }
      return Ok(());
    }

    /** Step the committed state to `target`, collecting labelled events. */
    method AdvanceCommitted(target: nat) returns (out: seq<Labelled<S>>, failed: bool)
      requires Lawful(rules)
      modifies this`committedState
      ensures var run := RunTo(rules, old(committedState), false, target);
              committedState == run.state && failed == run.failed && (!failed ==> out == run.events)
    {
      out := [];
      ghost var goal := RunTo(rules, committedState, false, target);
      while !rules.complete(committedState) && rules.tick(committedState) < target
        invariant var rest := RunTo(rules, committedState, false, target);
                  goal == Run(rest.state, out + rest.events, rest.failed)
        decreases target - rules.tick(committedState)
      {
        match rules.step(committedState, false) {
          case StepFailed(partial) =>
            committedState := partial;
            return out, true;
          case Stepped(n, events) =>
            committedState := n;
            var labelled := Label(rules, rules.tick(n), events);
            out := out + labelled;
        }
      }
      return out, false;
    }

    method AdvancePredicted(target: nat) returns (failed: bool)
      requires Lawful(rules) && predictedState.Some?
      modifies this`predictedState
      ensures var run := RunTo(rules, old(predictedState).value, true, target);
              predictedState == Some(run.state) && failed == run.failed
    {
      ghost var goal := RunTo(rules, predictedState.value, true, target);
      while !rules.complete(predictedState.value) && rules.tick(predictedState.value) < target
        invariant predictedState.Some?
        invariant var rest := RunTo(rules, predictedState.value, true, target);
                  goal.state == rest.state && goal.failed == rest.failed
        decreases target - rules.tick(predictedState.value)
      {
        match rules.step(predictedState.value, true) {
          case StepFailed(partial) =>
            predictedState := Some(partial);
            return true;
          case Stepped(n, _) =>
            predictedState := Some(n);
        }
      }
      return false;
    }

    method RunUntil(ts: int) returns (o: Outcome<seq<Labelled<S>>>)
      requires Lawful(rules)
      modifies this
      ensures (View(), o) == Polled(rules, old(View()), ts)
    {
      var elapsed := Elapsed(rules, committedState, ts);
      if elapsed < 0 { return Ok([]); }
      var wall := WallTick(rules, committedState, elapsed);
      var out, failed := AdvanceCommitted(LaggedTarget(rules, committedState, committedLagMs, ts));
      if failed { return Err; }
      if predictionNeedsRebuild {
        var rebuilt := RebuildPredictedState(ts);
        if !rebuilt.Ok? { return Err; }
      }
      if predictedState.Some? {
        var stuck := AdvancePredicted(Min(wall, MaxPredictedTick(rules, View())));
        if stuck { return Err; }
      }
      return Ok(out);
    }

    method AuthoritativeSchedulerLagMs(ts: int) returns (ms: nat)
      ensures ms == SchedulerLagMs(rules, View(), ts)
    {
      var start := rules.startMs(committedState);
      if start.None? || rules.complete(committedState) || ts < start.value { return 0; }
      var tickMs := Max(1, rules.tickMs(committedState));
      var wall := Min((ts - start.value) / tickMs, U32_RANGE - 1);
      var lagged := SaturatingSub(wall, committedLagMs / tickMs);
      return SaturatingSub(lagged, rules.tick(committedState)) * tickMs;
    }

    method ProcessCommand(m: CommandMessage) returns (c: CommandMessage)
      modifies this
      ensures (View(), c) == Accepted(rules, old(View()), m)
    {
      var scheduledTick := Max(m.clientId.tick, rules.tick(committedState));
      var receivedOrder := commandCounter;
      commandCounter := AsU32(commandCounter + 1);
      c := CommandMessage(m.clientId, Some(CommandId(scheduledTick, m.clientId.userId, receivedOrder)), m.command);
      committedState := rules.schedule(committedState, c);
      if predictedState.Some? {
        predictedState := Some(rules.schedule(predictedState.value, c));
      }
    }

    /** Recovery's catch-up loop: a completed game must not be asked to go on. */
    method CatchUpCommitted(acceptedAt: nat) returns (reached: bool)
      requires Lawful(rules)
      modifies this`committedState
      ensures var run := RunTo(rules, old(committedState), false, acceptedAt);
              committedState == run.state && reached == (!run.failed && acceptedAt <= rules.tick(run.state))
    {
      ghost var goal := RunTo(rules, committedState, false, acceptedAt);
      while rules.tick(committedState) < acceptedAt
        invariant RunTo(rules, committedState, false, acceptedAt).state == goal.state
        invariant RunTo(rules, committedState, false, acceptedAt).failed == goal.failed
        decreases acceptedAt - rules.tick(committedState)
      {
        if rules.complete(committedState) { return false; }
        match rules.step(committedState, false) {
          case Stepped(n, _) =>
            committedState := n;
          case StepFailed(partial) =>
            committedState := partial;
            return false;
        }
      }
      return true;
    }

    method ScheduleRecovered(c: CommandMessage) returns (o: Outcome<()>)
      modifies this
      ensures (View(), o) == Recovered(rules, old(View()), c)
    {
      predictedState := Some(rules.dropRng(committedState));
      if commandCounter + 1 >= U32_RANGE { return Err; }
      commandCounter := commandCounter + 1;
      committedState := rules.schedule(committedState, c);
      predictedState := Some(rules.schedule(predictedState.value, c));
      return Ok(());
    }

    method ReplayScheduledCommand(c: CommandMessage, acceptedAt: nat) returns (o: Outcome<()>)
      requires Lawful(rules)
      modifies this
      ensures (View(), o) == Replayed(rules, old(View()), c, acceptedAt)
    {
      if c.serverId.None? { return Err; }
      var id := c.serverId.value;
      var now := rules.tick(committedState);
      if id.sequence != commandCounter || id.userId != c.clientId.userId || id.tick < now { return Err; }
      if acceptedAt < now || acceptedAt > id.tick { return Err; }

      var reached := CatchUpCommitted(acceptedAt);
      if !reached { return Err; }
      o := ScheduleRecovered(c);
    }

    method ApplyPreMatchReadinessEvent(event: GameEvent<S>) returns (o: Outcome<()>)
      modifies this
      ensures (View(), o) == Readied(rules, old(View()), event)
    {
      if !(event.PlayerReady? || event.MatchStartScheduled?) { return Err; }
      if rules.tick(committedState) != 0 { return Err; }
      committedState := rules.applyReadiness(committedState, event);
      predictionNeedsRebuild := true;
      return Ok(());
    }
  }
}
