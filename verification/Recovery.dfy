/** Crash recovery: replaying the decided commands of a lost actor from a checkpoint
    rebuilds exactly the actor that was lost. */
module Recovery {
  import opened Simulation
  import opened EngineSpec
  import opened Polling

  /** What an authoritative actor does between a checkpoint and a crash: advance the
      simulation to some tick, and accept commands. */
  datatype ActorOp = AdvanceTo(tick: nat) | Accept(input: CommandMessage)

  /** One durable entry: the command as decided, and the tick at which it was accepted. */
  datatype Decision = Decision(command: CommandMessage, acceptedAt: nat)

  /** The actor's authoritative half: its committed state and next command sequence. */
  datatype Actor<S> = Actor(state: S, nextSequence: nat)

  /** An actor's life and the log it leaves; `None` if a simulation step failed. */
  function Live<S(!new)>(r: Rules<S>, a: Actor<S>, ops: seq<ActorOp>): (res: Option<(Actor<S>, seq<Decision>)>)
    requires Lawful(r)
    decreases |ops|
  {
    if ops == [] then Some((a, []))
    else match ops[0]
      case AdvanceTo(t) =>
        var run := RunTo(r, a.state, false, t);
        if run.failed then None else Live(r, Actor(run.state, a.nextSequence), ops[1..])
      case Accept(m) =>
        var c := Assigned(r, a.state, a.nextSequence, m);
        (match Live(r, Actor(r.schedule(a.state, c), AsU32(a.nextSequence + 1)), ops[1..])
         case None => None
         case Some((b, log)) => Some((b, [Decision(c, r.tick(a.state))] + log)))
  }

  /** The actor's acceptance is the engine's `process_command`. */
  lemma AcceptIsProcessCommand<S(!new)>(r: Rules<S>, e: Engine<S>, m: CommandMessage)
    requires Lawful(r)
    ensures var (f, c) := Accepted(r, e, m);
            var a := Actor(e.committed, e.commandCounter);
            c == Assigned(r, a.state, a.nextSequence, m) &&
            Live(r, a, [Accept(m)]) == Some((Actor(f.committed, f.commandCounter), [Decision(c, r.tick(e.committed))]))
  {
    var a := Actor(e.committed, e.commandCounter);
    var c := Assigned(r, a.state, a.nextSequence, m);
    var b := Actor(r.schedule(a.state, c), AsU32(a.nextSequence + 1));
    assert [Accept(m)][1..] == [];
    assert Live(r, b, []) == Some((b, []));
    var log: seq<Decision> := [];
    assert [Decision(c, r.tick(a.state))] + log == [Decision(c, r.tick(a.state))];
  }

  /** The actor's advance is the engine's `run_until`, to the target the clock gives. */
  lemma AdvanceIsRunUntil<S(!new)>(r: Rules<S>, e: Engine<S>, ts: int)
    requires Lawful(r) && Polled(r, e, ts).1.Ok?
    ensures var f := Polled(r, e, ts).0;
            Live(r, Actor(e.committed, e.commandCounter), [AdvanceTo(LaggedTarget(r, e.committed, e.lagMs, ts))]) ==
              Some((Actor(f.committed, f.commandCounter), []))
  {
    PollCommits(r, e, ts);
    var op := AdvanceTo(LaggedTarget(r, e.committed, e.lagMs, ts));
    assert [op][1..] == [];
    var b := Actor(RunTo(r, e.committed, false, op.tick).state, e.commandCounter);
    assert Live(r, b, []) == Some((b, []));
  }

  /** Feed a log to a successor; stop at the first entry it refuses. */
  function Recover<S(!new)>(r: Rules<S>, e: Engine<S>, log: seq<Decision>): (res: Option<Engine<S>>)
    requires Lawful(r)
    decreases |log|
  {
    if log == [] then Some(e)
    else match Replayed(r, e, log[0].command, log[0].acceptedAt)
      case (f, Ok(_)) => Recover(r, f, log[1..])
      case _ => None
  }

  /** The successor lags the lost actor by stepping alone. */
  ghost predicate Lags<S(!new)>(r: Rules<S>, e: Engine<S>, a: Actor<S>)
    requires Lawful(r)
  {
    var run := RunTo(r, e.committed, false, r.tick(a.state));
    !run.failed && run.state == a.state && e.commandCounter == a.nextSequence
  }

  lemma StillLags<S(!new)>(r: Rules<S>, e: Engine<S>, a: Actor<S>, t: nat)
    requires Lawful(r) && Lags(r, e, a) && !RunTo(r, a.state, false, t).failed
    ensures Lags(r, e, Actor(RunTo(r, a.state, false, t).state, a.nextSequence))
  {
    var run := RunTo(r, a.state, false, t);
    RunToCompose(r, e.committed, false, r.tick(a.state), r.tick(run.state));
    RunToExactly(r, a.state, t);
  }

  /** Re-running to the tick actually reached reaches the same state. */
  lemma {:induction false} RunToExactly<S(!new)>(r: Rules<S>, s: S, t: nat)
    requires Lawful(r) && !RunTo(r, s, false, t).failed
    ensures var run := RunTo(r, s, false, t); RunTo(r, s, false, r.tick(run.state)) == run
    decreases t - r.tick(s)
  {
    if !r.complete(s) && r.tick(s) < t { RunToExactly(r, r.step(s, false).state, t); }
  }

  /** One decision: the successor catches up to the moment of acceptance and takes it,
      unless the sequence counter is exhausted. */
  lemma OneDecision<S(!new)>(r: Rules<S>, e: Engine<S>, a: Actor<S>, m: CommandMessage)
    requires Lawful(r) && Lags(r, e, a)
    ensures var c := Assigned(r, a.state, a.nextSequence, m);
            var (f, o) := Replayed(r, e, c, r.tick(a.state));
            if a.nextSequence + 1 < U32_RANGE
            then o.Ok? && Lags(r, f, Actor(r.schedule(a.state, c), a.nextSequence + 1)) &&
                 f.committed == r.schedule(a.state, c)
            else o.Err?
  {
  }

  ghost predicate CounterLasts(first: nat, decisions: nat) {
    decisions == 0 || first + decisions < U32_RANGE
  }

  /** Recovery refines the lost actor. The log is accepted in full exactly when the
      command counter does not run out, and then the successor differs from the lost
      actor only by the ticks that followed its last decision. */
  lemma {:induction false} RecoveryRefines<S(!new)>(r: Rules<S>, e: Engine<S>, a: Actor<S>, ops: seq<ActorOp>)
    requires Lawful(r) && Lags(r, e, a) && Live(r, a, ops).Some?
    ensures var (b, log) := Live(r, a, ops).value;
            (Recover(r, e, log).Some? <==> CounterLasts(a.nextSequence, |log|)) &&
            (Recover(r, e, log).Some? ==> Lags(r, Recover(r, e, log).value, b))
    decreases |ops|
  {
    if ops != [] {
      match ops[0]
      case AdvanceTo(t) =>
        StillLags(r, e, a, t);
        RecoveryRefines(r, e, Actor(RunTo(r, a.state, false, t).state, a.nextSequence), ops[1..]);
      case Accept(m) =>
        var c := Assigned(r, a.state, a.nextSequence, m);
        var (b, log) := Live(r, a, ops).value;
        var a1 := Actor(r.schedule(a.state, c), AsU32(a.nextSequence + 1));
        assert log[0] == Decision(c, r.tick(a.state)) && log[1..] == Live(r, a1, ops[1..]).value.1;
        OneDecision(r, e, a, m);
        if a.nextSequence + 1 < U32_RANGE {
          RecoveryRefines(r, Replayed(r, e, c, r.tick(a.state)).0, a1, ops[1..]);
        }
    }
  }

  /** A checkpoint taken of the live actor: when its life ends with a decision, the
      successor's committed state and next sequence are the actor's own; otherwise one
      more catch-up to the actor's tick makes them so. */
  lemma RecoveredActorIsIdentical<S(!new)>(r: Rules<S>, s: S, next: nat, ops: seq<ActorOp>)
    requires Lawful(r) && Live(r, Actor(s, next), ops).Some?
    requires CounterLasts(next, |Live(r, Actor(s, next), ops).value.1|)
    ensures var (b, log) := Live(r, Actor(s, next), ops).value;
            Recover(r, Restored(r, s, next), log).Some? &&
            var f := Recover(r, Restored(r, s, next), log).value;
            f.commandCounter == b.nextSequence &&
            RunTo(r, f.committed, false, r.tick(b.state)).state == b.state &&
            (r.tick(f.committed) == r.tick(b.state) ==> f.committed == b.state)
  {
    RecoveryRefines(r, Restored(r, s, next), Actor(s, next), ops);
  }

  /** A decision is replayed exactly when it carries the next sequence number, its client's
      user, and a tick no earlier than its acceptance, which is still ahead; when the game
      gets there; and when the counter can move on. What is refused at once changes nothing;
      what is replayed is scheduled on the state of its acceptance. */
  lemma ReplayAdmitsExactly<S(!new)>(r: Rules<S>, e: Engine<S>, c: CommandMessage, at: nat)
    requires Lawful(r)
    ensures var admitted := c.serverId.Some? && c.serverId.value.sequence == e.commandCounter &&
                c.serverId.value.userId == c.clientId.userId && r.tick(e.committed) <= at <= c.serverId.value.tick;
            var run := RunTo(r, e.committed, false, at);
            var (f, o) := Replayed(r, e, c, at);
            (o.Ok? <==> admitted && !run.failed && r.tick(run.state) == at && e.commandCounter < 0xFFFF_FFFF) &&
            (!admitted ==> f == e) &&
            (o.Ok? ==>
               f.commandCounter == e.commandCounter + 1 && f.committed == r.schedule(run.state, c) &&
               f.predicted == Some(r.schedule(r.dropRng(run.state), c)) && f.speculative == e.speculative && f.sync == e.sync)
  {
  }

  /** Readiness counts at tick 0 only, moves no clock, and makes a rebuild due. */
  lemma ReadinessOnlyBeforeTheMatch<S(!new)>(r: Rules<S>, e: Engine<S>, event: GameEvent<S>)
    requires Lawful(r)
    ensures var (f, o) := Readied(r, e, event);
            (o.Ok? <==> (event.PlayerReady? || event.MatchStartScheduled?) && r.tick(e.committed) == 0) &&
            (!o.Ok? ==> f == e) &&
            (o.Ok? ==>
               f == e.(committed := r.applyReadiness(e.committed, event), needsRebuild := true) && r.tick(f.committed) == 0)
  {
  }
}
