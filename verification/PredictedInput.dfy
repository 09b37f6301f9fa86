/** What a prediction contains: the player's own pending input, up to the wall clock, and
    never a random generator. */
module PredictedInput {
  import opened Simulation
  import opened Replication
  import opened EngineSpec

  /** A view of a state that remembers what was scheduled into it, in order, and nothing
      else of what happens to it. */
  ghost predicate Remembers<S(!new)>(r: Rules<S>, q: S -> seq<CommandMessage>) {
    && (forall s, c {:trigger r.schedule(s, c)} :: q(r.schedule(s, c)) == q(s) + [c])
    && (forall s, m {:trigger r.step(s, m)} :: r.step(s, m).Stepped? ==> q(r.step(s, m).state) == q(s))
    && (forall s, m {:trigger r.step(s, m)} :: r.step(s, m).StepFailed? ==> q(r.step(s, m).partial) == q(s))
    && (forall s {:trigger r.dropRng(s)} :: q(r.dropRng(s)) == q(s))
  }

  lemma {:induction false} RunKeepsMemory<S(!new)>(r: Rules<S>, q: S -> seq<CommandMessage>, s: S, m: bool, target: nat)
    requires Lawful(r) && Remembers(r, q)
    ensures q(RunTo(r, s, m, target).state) == q(s)
    decreases target - r.tick(s)
  {
    if !r.complete(s) && r.tick(s) < target && r.step(s, m).Stepped? {
      RunKeepsMemory(r, q, r.step(s, m).state, m, target);
    }
  }

  lemma {:induction false} CatchUpKeepsMemory<S(!new)>(r: Rules<S>, q: S -> seq<CommandMessage>, s: S, target: nat)
    requires Lawful(r) && Remembers(r, q) && CatchUp(r, s, target).Ok?
    ensures q(CatchUp(r, s, target).value) == q(s)
    decreases target - r.tick(s)
  {
    if r.tick(s) < target { CatchUpKeepsMemory(r, q, r.step(s, true).state, target); }
  }

  lemma {:induction false} SchedulingIsRemembered<S(!new)>(r: Rules<S>, q: S -> seq<CommandMessage>, s: S,
          commands: seq<CommandMessage>)
    requires Lawful(r) && Remembers(r, q)
    ensures q(ScheduleAll(r, s, commands)) == q(s) + commands
    decreases |commands|
  {
    if commands == [] {
      assert q(s) + commands == q(s);
    } else {
      SchedulingIsRemembered(r, q, r.schedule(s, commands[0]), commands[1..]);
      assert q(s) + commands == q(s) + [commands[0]] + commands[1..];
    }
  }

  // ------------------------------------------------------------- pending input

  /** A due rebuild of a running game shows all pending input, in issue order, on top of
      the committed state. */
  lemma DueRebuildShowsInput<S(!new)>(r: Rules<S>, q: S -> seq<CommandMessage>, e: Engine<S>, ts: int)
    requires Lawful(r) && Remembers(r, q) && Elapsed(r, e.committed, ts) >= 0 && !r.complete(e.committed)
    requires || e.needsRebuild || e.predicted.None?
             || r.tick(e.predicted.value) < PredictionTarget(r, e, Elapsed(r, e.committed, ts))
    ensures var (f, o) := Rebuilt(r, e, ts);
            o.Ok? ==> !f.needsRebuild && f.predicted.Some? && q(f.predicted.value) == q(e.committed) + e.speculative
  {
    var s := ScheduleAll(r, r.dropRng(e.committed), e.speculative);
    SchedulingIsRemembered(r, q, r.dropRng(e.committed), e.speculative);
    RunKeepsMemory(r, q, s, false, PredictionTarget(r, e, Elapsed(r, e.committed, ts)));
  }

  /** So does a poll that finds a rebuild due, on top of the state it committed. */
  lemma PollShowsInput<S(!new)>(r: Rules<S>, q: S -> seq<CommandMessage>, e: Engine<S>, ts: int)
    requires Lawful(r) && Remembers(r, q) && Elapsed(r, e.committed, ts) >= 0 && e.needsRebuild
    ensures var (f, o) := Polled(r, e, ts);
            o.Ok? && !r.complete(f.committed) ==>
              f.predicted.Some? && q(f.predicted.value) == q(e.committed) + e.speculative && q(f.committed) == q(e.committed)
  {
    var target, wall := LaggedTarget(r, e.committed, e.lagMs, ts), WallTick(r, e.committed, Elapsed(r, e.committed, ts));
    RunKeepsMemory(r, q, e.committed, false, target);
    var e1 := e.(committed := RunTo(r, e.committed, false, target).state);
    var (e2, rebuilt) := Rebuilt(r, e1, ts);
    if !r.complete(e1.committed) && rebuilt.Ok? {
      DueRebuildShowsInput(r, q, e1, ts);
      RunKeepsMemory(r, q, e2.predicted.value, true, Min(wall, MaxPredictedTick(r, e2)));
    }
  }

  /** Issuing stamps the predicted tick, the player and nothing of the server's, and shows
      the command at once. */
  lemma IssuingShowsCommand<S(!new)>(r: Rules<S>, q: S -> seq<CommandMessage>, e: Engine<S>, command: Command)
    requires Lawful(r) && Remembers(r, q)
    ensures Issued(r, e, command).1.Ok? <==> e.player.Some?
    ensures var (f, o) := Issued(r, e, command);
            o.Ok? ==>
              && o.value.command == command && o.value.serverId.None? && Some(o.value.clientId.userId) == e.player
              && f.speculative == e.speculative + [o.value]
              && (e.predicted.None? ==> o.value.clientId.tick == 0 && f.predicted.None?)
              && (e.predicted.Some? ==>
                    && o.value.clientId.tick == r.tick(e.predicted.value) && f.predicted.Some?
                    && q(f.predicted.value) == q(e.predicted.value) + [o.value])
  {
  }

  ghost predicate ShowsFrom<S>(q: S -> seq<CommandMessage>, e: Engine<S>, k: nat) {
    k <= |e.speculative| && e.predicted.Some? && q(e.predicted.value) == q(e.committed) + e.speculative[k..]
  }

  /** A rebuild is due, or the prediction shows the committed state and then pending input:
      all of it, or what was issued since a rebuild that held the picture. */
  ghost predicate Shows<S>(q: S -> seq<CommandMessage>, e: Engine<S>) {
    e.needsRebuild || exists k: nat :: ShowsFrom(q, e, k)
  }

  lemma AnchoringShows<S(!new)>(r: Rules<S>, q: S -> seq<CommandMessage>, e: Engine<S>)
    requires Remembers(r, q) && e.predicted == Some(r.dropRng(e.committed))
    ensures Shows(q, e)
  {
    assert q(e.committed) + e.speculative[|e.speculative|..] == q(e.committed);
    assert ShowsFrom(q, e, |e.speculative|);
  }

  lemma RebuildShows<S(!new)>(r: Rules<S>, q: S -> seq<CommandMessage>, e: Engine<S>, ts: int)
    requires Lawful(r) && Remembers(r, q) && Shows(q, e)
    ensures Shows(q, Rebuilt(r, e, ts).0)
  {
    var f := Rebuilt(r, e, ts).0;
    if f != e {
      if Elapsed(r, e.committed, ts) < 0 || r.complete(e.committed) {
        AnchoringShows(r, q, f);
      } else {
        DueRebuildShowsInput(r, q, e.(needsRebuild := true), ts);
        assert f.speculative[0..] == f.speculative;
        assert ShowsFrom(q, f, 0);
      }
    }
  }

  /** Steps on either side leave what is shown alone. */
  lemma StepsShow<S(!new)>(q: S -> seq<CommandMessage>, e: Engine<S>, f: Engine<S>)
    requires Shows(q, e) && f.needsRebuild == e.needsRebuild && f.speculative == e.speculative
    requires q(f.committed) == q(e.committed)
    requires e.predicted.Some? ==> f.predicted.Some? && q(f.predicted.value) == q(e.predicted.value)
    ensures Shows(q, f)
  {
    if !e.needsRebuild {
      var k: nat :| ShowsFrom(q, e, k);
      assert ShowsFrom(q, f, k);
    }
  }

  lemma PollShows<S(!new)>(r: Rules<S>, q: S -> seq<CommandMessage>, e: Engine<S>, ts: int)
    requires Lawful(r) && Remembers(r, q) && Shows(q, e)
    ensures Shows(q, Polled(r, e, ts).0)
  {
    if Elapsed(r, e.committed, ts) >= 0 {
      var target := LaggedTarget(r, e.committed, e.lagMs, ts);
      RunKeepsMemory(r, q, e.committed, false, target);
      var e1 := e.(committed := RunTo(r, e.committed, false, target).state);
      StepsShow(q, e, e1);
      RebuildShows(r, q, e1, ts);
      var e2 := if e.needsRebuild then Rebuilt(r, e1, ts).0 else e1;
      PredictingShows(r, q, e2, WallTick(r, e.committed, Elapsed(r, e.committed, ts)));
    }
  }

  lemma PredictingShows<S(!new)>(r: Rules<S>, q: S -> seq<CommandMessage>, e: Engine<S>, wall: nat)
    requires Lawful(r) && Remembers(r, q) && Shows(q, e)
    ensures Shows(q, PredictedTo(r, e, wall).0)
  {
    if e.predicted.Some? {
      RunKeepsMemory(r, q, e.predicted.value, true, Min(wall, MaxPredictedTick(r, e)));
      StepsShow(q, e, PredictedTo(r, e, wall).0);
    }
  }

  lemma ReplayShows<S(!new)>(r: Rules<S>, q: S -> seq<CommandMessage>, e: Engine<S>, c: CommandMessage, at: nat)
    requires Lawful(r) && Remembers(r, q) && Shows(q, e)
    ensures Shows(q, Replayed(r, e, c, at).0)
  {
    if Replayable(r, e, c, at) {
      RunKeepsMemory(r, q, e.committed, false, at);
      var e1 := e.(committed := RunTo(r, e.committed, false, at).state);
      StepsShow(q, e, e1);
      var f := Recovered(r, e1, c).0;
      assert f.speculative[|f.speculative|..] == [];
      assert Shows(q, f) by {
        assert f.predicted.Some? && q(f.predicted.value) == q(f.committed) + [];
        assert ShowsFrom(q, f, |f.speculative|);
      }
    }
  }

  lemma ReceiveShows<S(!new)>(r: Rules<S>, q: S -> seq<CommandMessage>, e: Engine<S>, m: EventMessage<S>)
    requires Lawful(r) && Remembers(r, q) && Shows(q, e) && !Received(r, e, m).1.Hang?
    ensures Shows(q, Received(r, e, m).0)
  {
    var f := Received(r, e, m).0;
    if m.event.TickHash? && Advanced(r, e.committed, m).Ok? { CatchUpKeepsMemory(r, q, e.committed, m.tick); }
    if f.needsRebuild == e.needsRebuild && f.speculative == e.speculative && q(f.committed) == q(e.committed) {
      StepsShow(q, e, f);
    }
  }

  lemma IssuingShows<S(!new)>(r: Rules<S>, q: S -> seq<CommandMessage>, e: Engine<S>, command: Command)
    requires Lawful(r) && Remembers(r, q) && Shows(q, e)
    ensures Shows(q, Issued(r, e, command).0)
  {
    var (f, o) := Issued(r, e, command);
    IssuingShowsCommand(r, q, e, command);
    if o.Ok? && !e.needsRebuild {
      var k: nat :| ShowsFrom(q, e, k);
      assert f.speculative[k..] == e.speculative[k..] + [o.value];
      assert q(f.predicted.value) == q(f.committed) + f.speculative[k..];
      assert ShowsFrom(q, f, k);
    }
  }

  /** An accepted command lands in both halves; so the picture survives while the engine
      holds no input of its own. */
  lemma AcceptingShows<S(!new)>(r: Rules<S>, q: S -> seq<CommandMessage>, e: Engine<S>, m: CommandMessage)
    requires Lawful(r) && Remembers(r, q) && Shows(q, e) && e.speculative == []
    ensures var (f, c) := Accepted(r, e, m);
            q(f.committed) == q(e.committed) + [c] && Shows(q, f) &&
            (e.predicted.Some? ==> f.predicted.Some? && q(f.predicted.value) == q(e.predicted.value) + [c])
  {
    var f := Accepted(r, e, m).0;
    if !e.needsRebuild {
      var k: nat :| ShowsFrom(q, e, k);
      assert e.speculative[k..] == [] && f.speculative[k..] == [];
      assert ShowsFrom(q, f, k);
    }
  }

  lemma StepShows<S(!new)>(r: Rules<S>, q: S -> seq<CommandMessage>, e: Engine<S>, op: Op<S>)
    requires Lawful(r) && Remembers(r, q) && Shows(q, e) && Perform(r, e, op).Some?
    requires op.AcceptCommand? ==> e.speculative == []
    ensures Shows(q, Perform(r, e, op).value)
  {
    match op
    case Receive(m) => ReceiveShows(r, q, e, m);
    case RebuildPrediction(ts) => RebuildShows(r, q, e, ts);
    case Poll(ts) => PollShows(r, q, e, ts);
    case ReplayCommand(c, at) => ReplayShows(r, q, e, c, at);
    case _ => CommandShows(r, q, e, op);
  }

  /** The operations that advance nothing. */
  lemma CommandShows<S(!new)>(r: Rules<S>, q: S -> seq<CommandMessage>, e: Engine<S>, op: Op<S>)
    requires Lawful(r) && Remembers(r, q) && Shows(q, e)
    requires op.IssueLocal? || op.DiscardLocal? || op.AcceptCommand? || op.Ready? || op.SetPlayer?
    requires op.AcceptCommand? ==> e.speculative == []
    ensures Shows(q, Perform(r, e, op).value)
  {
    match op
    case IssueLocal(c) => IssuingShows(r, q, e, c);
    case AcceptCommand(m) => AcceptingShows(r, q, e, m);
    case SetPlayer(id) => StepsShow(q, e, e.(player := Some(id)));
    case _ =>
  }

  /** A run of a client, which accepts nothing, or of a server, which issues nothing. */
  ghost predicate OneRole<S>(ops: seq<Op<S>>) {
    (forall i :: 0 <= i < |ops| ==> !ops[i].AcceptCommand?) || (forall i :: 0 <= i < |ops| ==> !ops[i].IssueLocal?)
  }

  lemma {:induction false} NothingPending<S(!new)>(r: Rules<S>, e: Engine<S>, ops: seq<Op<S>>)
    requires Lawful(r) && e.speculative == [] && Performed(r, e, ops).Some?
    requires forall i :: 0 <= i < |ops| ==> !ops[i].IssueLocal?
    ensures Performed(r, e, ops).value.speculative == []
    decreases |ops|
  {
    if ops != [] {
      NothingPending(r, e, ops[..|ops| - 1]);
      IssuesNothing(r, Performed(r, e, ops[..|ops| - 1]).value, ops[|ops| - 1]);
    }
  }

  lemma IssuesNothing<S(!new)>(r: Rules<S>, e: Engine<S>, op: Op<S>)
    requires Lawful(r) && e.speculative == [] && Perform(r, e, op).Some? && !op.IssueLocal?
    ensures Perform(r, e, op).value.speculative == []
  {
  }

  /** In every run of a client or a server, whatever arrives: a rebuild is due, or the
      prediction shows the committed state followed by pending input in issue order. */
  lemma {:induction false} PredictionShowsInput<S(!new)>(r: Rules<S>, q: S -> seq<CommandMessage>, s: S, next: nat,
          ops: seq<Op<S>>)
    requires Lawful(r) && Remembers(r, q) && OneRole(ops) && Performed(r, Restored(r, s, next), ops).Some?
    ensures Shows(q, Performed(r, Restored(r, s, next), ops).value)
    decreases |ops|
  {
    var e0 := Restored(r, s, next);
    if ops == [] {
      AnchoringShows(r, q, e0);
    } else {
      var prefix, op := ops[..|ops| - 1], ops[|ops| - 1];
      PredictionShowsInput(r, q, s, next, prefix);
      if op.AcceptCommand? { NothingPending(r, e0, prefix); }
      StepShows(r, q, Performed(r, e0, prefix).value, op);
    }
  }

  // ------------------------------------------------------------------ no generator

  /** A view of a state that dropping the generator switches off and nothing the engine
      does to a predicted state switches on. */
  ghost predicate TellsGenerator<S(!new)>(r: Rules<S>, has: S -> bool) {
    && (forall s {:trigger r.dropRng(s)} :: !has(r.dropRng(s)))
    && (forall s, c {:trigger r.schedule(s, c)} :: !has(s) ==> !has(r.schedule(s, c)))
    && (forall s, m {:trigger r.step(s, m)} :: !has(s) && r.step(s, m).Stepped? ==> !has(r.step(s, m).state))
    && (forall s, m {:trigger r.step(s, m)} :: !has(s) && r.step(s, m).StepFailed? ==> !has(r.step(s, m).partial))
  }

  ghost predicate Bare<S>(has: S -> bool, e: Engine<S>) { e.predicted.Some? ==> !has(e.predicted.value) }

  lemma {:induction false} RunStaysBare<S(!new)>(r: Rules<S>, has: S -> bool, s: S, m: bool, target: nat)
    requires Lawful(r) && TellsGenerator(r, has) && !has(s)
    ensures !has(RunTo(r, s, m, target).state)
    decreases target - r.tick(s)
  {
    if !r.complete(s) && r.tick(s) < target && r.step(s, m).Stepped? {
      RunStaysBare(r, has, r.step(s, m).state, m, target);
    }
  }

  lemma {:induction false} SchedulingStaysBare<S(!new)>(r: Rules<S>, has: S -> bool, s: S, commands: seq<CommandMessage>)
    requires TellsGenerator(r, has) && !has(s)
    ensures !has(ScheduleAll(r, s, commands))
    decreases |commands|
  {
    if commands != [] { SchedulingStaysBare(r, has, r.schedule(s, commands[0]), commands[1..]); }
  }

  lemma RebuildStaysBare<S(!new)>(r: Rules<S>, has: S -> bool, e: Engine<S>, ts: int)
    requires Lawful(r) && TellsGenerator(r, has) && Bare(has, e)
    ensures Bare(has, Rebuilt(r, e, ts).0)
  {
    if Elapsed(r, e.committed, ts) >= 0 {
      var s := r.dropRng(e.committed);
      SchedulingStaysBare(r, has, s, e.speculative);
      RunStaysBare(r, has, ScheduleAll(r, s, e.speculative), false, PredictionTarget(r, e, Elapsed(r, e.committed, ts)));
    }
  }

  lemma PollStaysBare<S(!new)>(r: Rules<S>, has: S -> bool, e: Engine<S>, ts: int)
    requires Lawful(r) && TellsGenerator(r, has) && Bare(has, e)
    ensures Bare(has, Polled(r, e, ts).0)
  {
    if Elapsed(r, e.committed, ts) >= 0 {
      var e1 := e.(committed := RunTo(r, e.committed, false, LaggedTarget(r, e.committed, e.lagMs, ts)).state);
      RebuildStaysBare(r, has, e1, ts);
      var e2 := if e.needsRebuild then Rebuilt(r, e1, ts).0 else e1;
      if e2.predicted.Some? {
        var wall := WallTick(r, e.committed, Elapsed(r, e.committed, ts));
        RunStaysBare(r, has, e2.predicted.value, true, Min(wall, MaxPredictedTick(r, e2)));
      }
    }
  }

  lemma StepStaysBare<S(!new)>(r: Rules<S>, has: S -> bool, e: Engine<S>, op: Op<S>)
    requires Lawful(r) && TellsGenerator(r, has) && Bare(has, e) && Perform(r, e, op).Some?
    ensures Bare(has, Perform(r, e, op).value)
  {
    match op
    case RebuildPrediction(ts) => RebuildStaysBare(r, has, e, ts);
    case Poll(ts) => PollStaysBare(r, has, e, ts);
    case _ =>
  }

  /** In every run the predicted state holds no generator, so no client can foresee what
      the server will draw. */
  lemma {:induction false} PredictionHasNoGenerator<S(!new)>(r: Rules<S>, has: S -> bool, s: S, next: nat, ops: seq<Op<S>>)
    requires Lawful(r) && TellsGenerator(r, has) && Performed(r, Restored(r, s, next), ops).Some?
    ensures Bare(has, Performed(r, Restored(r, s, next), ops).value)
    decreases |ops|
  {
    if ops != [] {
      PredictionHasNoGenerator(r, has, s, next, ops[..|ops| - 1]);
      StepStaysBare(r, has, Performed(r, Restored(r, s, next), ops[..|ops| - 1]).value, ops[|ops| - 1]);
    }
  }

  // ---------------------------------------------------------------- up to the wall

  /** The prediction has reached the wall clock or its cap, or the predicted game is over. */
  ghost predicate AtTheWall<S(!new)>(r: Rules<S>, e: Engine<S>, ts: int)
    requires Lawful(r)
  {
    var s, elapsed := e.committed, Elapsed(r, e.committed, ts);
    elapsed >= 0 && e.predicted.Some? &&
    (|| r.complete(e.predicted.value)
     || elapsed / r.tickMs(s) % U32_RANGE <= r.tick(e.predicted.value)
     || r.tick(s) + (e.lagMs + 1000) / r.tickMs(s) <= r.tick(e.predicted.value))
  }

  /** A successful rebuild of a started game brings the prediction to the wall. */
  lemma RebuildReachesWall<S(!new)>(r: Rules<S>, e: Engine<S>, ts: int)
    requires Lawful(r) && Elapsed(r, e.committed, ts) >= 0 && Rebuilt(r, e, ts).1.Ok?
    ensures AtTheWall(r, Rebuilt(r, e, ts).0, ts)
  {
  }

  /** So does a successful poll, which also leaves no rebuild due. */
  lemma PollReachesWall<S(!new)>(r: Rules<S>, e: Engine<S>, ts: int)
    requires Lawful(r) && Elapsed(r, e.committed, ts) >= 0 && e.predicted.Some? && Polled(r, e, ts).1.Ok?
    ensures AtTheWall(r, Polled(r, e, ts).0, ts) && !Polled(r, e, ts).0.needsRebuild
  {
  }
}
