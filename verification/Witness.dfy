/** A small lawful game. It shows that the laws every theorem assumes can be met
    together, and it is the stage for the inputs on which the engine falls short. */
module Witness {
  import opened Simulation
  import opened Replication
  import opened EngineSpec
  import opened Polling
  import opened PredictedInput
  import opened Prediction
  import opened Recovery
  import opened Recording
  import opened Playback
  import opened ClipPlayback
  import opened ServerReplay
  import opened TraceRecording
  import opened IdlePolls

  /** A snake that is hungry or fed, until the match ends at tick `limit`, and the commands
      it was given. After the first tick the full rules draw random food, and fail without
      a generator. */
  datatype World = World(tick: nat, fed: bool, limit: nat, rng: bool, epoch: Option<int>, queue: seq<CommandMessage>)

  function At(tick: nat, fed: bool, limit: nat): (w: World) { World(tick, fed, limit, true, Some(0), []) }

  function Stepping(w: World, movementOnly: bool): (res: StepResult<World>) {
    if w.tick >= w.limit then Stepped(w, [])
    else if movementOnly then Stepped(w.(tick := w.tick + 1), [])
    else if w.tick >= 1 && !w.rng then StepFailed(w)
    else Stepped(w.(tick := w.tick + 1), [(w.tick, Gameplay(w.tick))])
  }

  function Eating(w: World, event: GameEvent<World>): (v: Option<World>) {
    Some(if event.Gameplay? then w.(fed := !w.fed) else w)
  }

  function Readying(w: World, event: GameEvent<World>): (v: World) {
    if event.MatchStartScheduled? then w.(epoch := Some(event.epochMs)) else w
  }

  const GAME: Rules<World> := Rules(
    Stepping, (w: World, c: CommandMessage) => w.(queue := w.queue + [c]), Eating, Readying, (w: World) => w.(rng := false),
    (w: World) => w.tick, (w: World) => w.tick >= w.limit, (w: World) => 1, (w: World) => w.epoch,
    (w: World) => 2 * w.tick + (if w.fed then 1 else 0), (w: World) => true, (w: World) => true)

  /** Worlds that differ in their generator only. */
  ghost function SameButRng(): (R: (World, World) -> bool) {
    (v: World, w: World) => v.(rng := false) == w.(rng := false)
  }

  lemma GameIsLawful()
    ensures Lawful(GAME)
  {
    assert StepLaws(GAME) && ClockLaws(GAME);
  }

  lemma GeneratorIsInvisible()
    ensures Congruence(GAME, SameButRng()) && Equivalence(SameButRng()) && forall w :: SameButRng()(w, GAME.dropRng(w))
  {
  }

  lemma GameEmitsGameplay()
    ensures EmitsGameplay(GAME)
  {
  }

  /** Its queue remembers what was scheduled, and its flag tells the generator. */
  lemma GameIsObserved()
    ensures Remembers(GAME, (w: World) => w.queue) && TellsGenerator(GAME, (w: World) => w.rng)
  {
  }

  /** The laws, and what the trace and clip theorems ask beside them, hold together. */
  lemma LawsAreConsistent()
    ensures Lawful(GAME) && EmitsGameplay(GAME)
    ensures Remembers(GAME, (w: World) => w.queue) && TellsGenerator(GAME, (w: World) => w.rng)
    ensures Congruence(GAME, SameButRng()) && Equivalence(SameButRng()) && forall w :: SameButRng()(w, GAME.dropRng(w))
  {
    GameIsLawful();
    GeneratorIsInvisible();
    GameEmitsGameplay();
    GameIsObserved();
  }

  /** An event published for a tick after the end of the match: the catch-up loop never
      leaves the completed state. */
  lemma LateEventHangs()
    ensures Lawful(GAME)
    ensures Advanced(GAME, At(5, false, 5), EventMessage(6, 1, 1, Gameplay(0))) == Hang
    ensures NeverLeavesLoop(GAME, At(5, false, 5), 6)
  {
    GameIsLawful();
    HangMeansForever(GAME, At(5, false, 5), 6);
  }

  /** A hand-made clip with a message at sequence 0 of its anchor tick passes its own
      verification, which skips that message, and is then played back differently. */
  lemma AnchorMessageIsPlayedButNotVerified()
    ensures Lawful(GAME)
    ensures var s := At(3, false, 9);
            var clip := HighlightClip(CLIP_FORMAT_VERSION, GAMEPLAY_REPLAY_VERSION, 3, 3, s,
                [EventMessage(3, 0, 0, Gameplay(0))], 6);
            ReplayAndVerify(GAME, clip) == Ok(s) &&
            Finish(GAME, clip.anchor, UpTo(clip.messages, 3), 3) == Ok(At(3, true, 9))
  {
    GameIsLawful();
    var s := At(3, false, 9);
    var m := EventMessage(3, 0, 0, Gameplay(0));
    var rec := GameRecording(RECORDING_FORMAT_VERSION, GAMEPLAY_REPLAY_VERSION, [ReplayAnchor(3, 0, s)], [m], 3, 6);
    assert Validated(GAME, rec);
    assert NearestAnchor(rec.anchors, 3) == Some(0);
    assert FirstAfter(rec.messages, rec.anchors[0]) == 1 && LastUpTo(rec.messages, 3) == 1;
    assert rec.messages[1..1] == [] && rec.messages[..1] == [m];
    assert Batch(GAME, s, [m]) == Advanced(GAME, s, m);
  }

  lemma {:induction false} RunsToTarget(w: World, target: nat)
    requires w.rng && w.tick <= target <= w.limit
    ensures Lawful(GAME) && RunTo(GAME, w, false, target).state == w.(tick := target)
    decreases target - w.tick
  {
    GameIsLawful();
    if w.tick < target { RunsToTarget(w.(tick := w.tick + 1), target); }
  }

  lemma TargetAt(w: World, ts: nat)
    requires w.epoch == Some(0)
    ensures LaggedTarget(GAME, w, COMMITTED_LAG_MS, ts) == SaturatingSub(AsU32(ts), COMMITTED_LAG_MS)
  {
    assert ts / 1 == ts;
  }

  lemma PollReaches(e: Engine<World>, ts: nat, target: nat)
    requires e.committed.rng && e.committed.epoch == Some(0)
    requires e.lagMs == COMMITTED_LAG_MS && target == SaturatingSub(AsU32(ts), COMMITTED_LAG_MS) <= e.committed.limit
    ensures Lawful(GAME)
    ensures Polled(GAME, e, ts).0.lagMs == e.lagMs
    ensures Polled(GAME, e, ts).0.committed == if e.committed.tick <= target
        then e.committed.(tick := target) else e.committed
  {
    GameIsLawful();
    PollCommits(GAME, e, ts);
    TargetAt(e.committed, ts);
    if e.committed.tick <= target { RunsToTarget(e.committed, target); }
  }

  /** Once the wall clock outruns 32 bits of ticks, a later poll commits less than an
      earlier one would have, so the order of polls shows. */
  lemma WrappedClockShowsPolls()
    ensures Lawful(GAME)
    ensures var e := Restored(GAME, At(0, false, 1000), 0);
            var late := U32_RANGE + 10;
            Polled(GAME, Polled(GAME, e, 600).0, late).0.committed.tick == 100 &&
            Polled(GAME, e, late).0.committed.tick == 0
  {
    GameIsLawful();
    var e := Restored(GAME, At(0, false, 1000), 0);
    PollReaches(e, 600, 100);
    PollReaches(e, U32_RANGE + 10, 0);
    PollReaches(Polled(GAME, e, 600).0, U32_RANGE + 10, 0);
  }

  /** And then a poll at the wrapped clock leaves almost a whole turn of reported lag. */
  lemma WrappedClockLeavesLag()
    ensures Lawful(GAME)
    ensures var e := Restored(GAME, At(0, false, 1000), 0);
            SchedulerLagMs(GAME, Polled(GAME, e, U32_RANGE + 10).0, U32_RANGE + 10) == U32_RANGE - 501
  {
    GameIsLawful();
    var e := Restored(GAME, At(0, false, 1000), 0);
    PollReaches(e, U32_RANGE + 10, 0);
  }

  /** The last number of the command sequence can be handed out, but its decision cannot
      be replayed. */
  lemma LastSequenceIsUnrecoverable(m: CommandMessage)
    ensures Lawful(GAME)
    ensures Live(GAME, Actor(At(0, false, 1000), U32_RANGE - 1), [Accept(m)]).Some?
    ensures var (b, log) := Live(GAME, Actor(At(0, false, 1000), U32_RANGE - 1), [Accept(m)]).value;
            b.nextSequence == 0 && Recover(GAME, Restored(GAME, At(0, false, 1000), U32_RANGE - 1), log).None?
  {
    GameIsLawful();
    var s := At(0, false, 1000);
    var e := Restored(GAME, s, U32_RANGE - 1);
    AcceptIsProcessCommand(GAME, e, m);
    RecoveryRefines(GAME, e, Actor(s, U32_RANGE - 1), [Accept(m)]);
  }

  const START: World := At(0, false, 9)
  const MEAL: EventMessage<World> := EventMessage(2, 1, 0, Gameplay(0))
  const MATCH: GameRecording<World> :=
    GameRecording(RECORDING_FORMAT_VERSION, GAMEPLAY_REPLAY_VERSION, [ReplayAnchor(0, 0, START)], [MEAL], 3, 7)

  lemma {:induction false} StepsToTarget(w: World, target: nat)
    requires w.tick <= target <= w.limit
    ensures Lawful(GAME) && StepTo(GAME, w, target) == Ok(w.(tick := target)) == CatchUp(GAME, w, target)
    decreases target - w.tick
  {
    GameIsLawful();
    if w.tick < target { StepsToTarget(w.(tick := w.tick + 1), target); }
  }

  lemma MatchIsCoherent()
    ensures Lawful(GAME) && Validated(GAME, MATCH) && Coherent(GAME, SameButRng(), MATCH)
    ensures forall t :: 0 <= t < 2 ==> StateAt(GAME, MATCH, t) == Ok(At(t, false, 9))
    ensures forall t :: 2 <= t <= 3 ==> StateAt(GAME, MATCH, t) == Ok(At(t, true, 9))
  {
    GameIsLawful();
    var none: seq<EventMessage<World>> := [];
    var anchor := MATCH.anchors[0];
    assert FirstAfter(MATCH.messages, anchor) == 0;
    assert MATCH.messages[0..0] == none && Batch(GAME, START, none) == Ok(START);
    StepsToTarget(START, 2);
    assert Advanced(GAME, START, MEAL) == Ok(At(2, true, 9));
    assert Batch(GAME, START, [MEAL]) == Ok(At(2, true, 9));
    forall t | 0 <= t < 2 ensures StateAt(GAME, MATCH, t) == Ok(At(t, false, 9)) {
      assert LastUpTo(MATCH.messages, t) == 0 && NearestAnchor(MATCH.anchors, t) == Some(0);
      StepsToTarget(START, t);
    }
    forall t | 2 <= t <= 3 ensures StateAt(GAME, MATCH, t) == Ok(At(t, true, 9)) {
      assert LastUpTo(MATCH.messages, t) == 1 && NearestAnchor(MATCH.anchors, t) == Some(0);
      assert MATCH.messages[0..1] == [MEAL];
      StepsToTarget(At(2, true, 9), t);
    }
  }

  lemma ClipIsCut()
    ensures Lawful(GAME) && Cut(GAME, MATCH, 1, 3).Some?
    ensures var clip := Cut(GAME, MATCH, 1, 3).value;
            clip.anchor == GAME.dropRng(START) && clip.messages == Wanted(MATCH.messages, MATCH.anchors[0], 3)
  {
    MatchIsCoherent();
  }

  lemma ClipVerifies()
    ensures Lawful(GAME) && Cut(GAME, MATCH, 1, 3).Some? && ReplayAndVerify(GAME, Cut(GAME, MATCH, 1, 3).value).Ok?
  {
    MatchIsCoherent();
    ClipIsCut();
    GeneratorIsInvisible();
    CutClipVerifiesExactly(GAME, SameButRng(), MATCH, 1, 3);
  }

  lemma ClipOpens()
    ensures Lawful(GAME) && Cut(GAME, MATCH, 1, 3).Some?
    ensures var clip := Cut(GAME, MATCH, 1, 3).value; Finish(GAME, clip.anchor, UpTo(clip.messages, 1), 1).Ok?
  {
    MatchIsCoherent();
    ClipIsCut();
    GeneratorIsInvisible();
    UpToOfWanted(MATCH.messages, MATCH.anchors[0], 3, 1);
    ReplayFromAnchor(GAME, SameButRng(), MATCH, 0, 1);
  }

  /** The clip theorems apply to a clip with a meal in its window. */
  lemma ClipShowsTheMeal()
    ensures Lawful(GAME) && Cut(GAME, MATCH, 1, 3).Some?
    ensures var clip := Cut(GAME, MATCH, 1, 3).value;
            ReplayAndVerify(GAME, clip).Ok? && !clip.anchor.rng &&
            var initial := Finish(GAME, clip.anchor, UpTo(clip.messages, 1), 1);
            initial.Ok? &&
            var shown := Finish(GAME, initial.value, UpTo(After(clip.messages, 1), 2), 2);
            shown.Ok? && SameButRng()(At(2, true, 9), shown.value)
  {
    ClipIsCut();
    ClipVerifies();
    ClipOpens();
    MatchIsCoherent();
    GeneratorIsInvisible();
    var clip := Cut(GAME, MATCH, 1, 3).value;
    FramesAreTheGame(GAME, SameButRng(), MATCH, 1, 3, Finish(GAME, clip.anchor, UpTo(clip.messages, 1), 1).value, 2);
  }

  lemma OverhangIsCut()
    ensures Lawful(GAME) && Cut(GAME, MATCH, 1, 5).Some? && !Covers(GAME, MATCH, 5)
  {
    MatchIsCoherent();
  }

  lemma NoEndCollides(clip: HighlightClip<World>)
    ensures Lawful(GAME) && !EndCollides(GAME, MATCH, clip)
  {
    GameIsLawful();
    var replayed, recorded := Finish(GAME, clip.anchor, clip.messages, clip.endTick), StateAt(GAME, MATCH, MATCH.endTick);
    if replayed.Ok? && recorded.Ok? { HashShowsTick(replayed.value, recorded.value); }
  }

  lemma HashShowsTick(v: World, w: World)
    ensures !Collide(GAME, v, w)
  {
  }

  /** A clip that overhangs the unfinished recording is cut, and fails its verification. */
  lemma OverhangingClipFails()
    ensures Lawful(GAME) && Cut(GAME, MATCH, 1, 5).Some? && !ReplayAndVerify(GAME, Cut(GAME, MATCH, 1, 5).value).Ok?
  {
    OverhangIsCut();
    MatchIsCoherent();
    GeneratorIsInvisible();
    CutClipVerifiesExactly(GAME, SameButRng(), MATCH, 1, 5);
    NoEndCollides(Cut(GAME, MATCH, 1, 5).value);
  }

  /** One player who presses the same key `n` times between two frames. */
  function Presses(n: nat): (ops: seq<Op<World>>) {
    [SetPlayer(1)] + seq(n, i => IssueLocal(ActivateBoost(0)))
  }

  ghost predicate Pressed(e: Engine<World>, n: nat) {
    e.player == Some(1) && e.localSeq == AsU32(n) && e.predicted.Some? && e.predicted.value.tick == 0
  }

  lemma OnePress(e: Engine<World>, n: nat)
    requires Pressed(e, n)
    ensures Lawful(GAME)
    ensures var f := Perform(GAME, e, IssueLocal(ActivateBoost(0))); f.Some? && Pressed(f.value, n + 1)
    ensures var issued := MomentOf(GAME, e, IssueLocal(ActivateBoost(0))).issued;
            issued.Some? && issued.value.clientId == CommandId(0, 1, AsU32(n + 1))
  {
    GameIsLawful();
    CounterStep(n);
  }

  ghost predicate PressIs(m: Moment, k: nat) {
    m.issued.Some? && m.issued.value.clientId == CommandId(0, 1, AsU32(k))
  }

  ghost predicate AllPresses(ms: seq<Moment>, n: nat) {
    |ms| == n + 1 && forall k :: 1 <= k <= n ==> PressIs(ms[k], k)
  }

  lemma MorePresses(ms: seq<Moment>, m: Moment, n: nat)
    requires AllPresses(ms, n) && PressIs(m, n + 1)
    ensures AllPresses(ms + [m], n + 1)
  {
  }

  lemma {:induction false} PressesAreCounted(n: nat)
    ensures Lawful(GAME)
    ensures var e := Performed(GAME, Restored(GAME, START, 0), Presses(n)); e.Some? && Pressed(e.value, n)
    ensures AllPresses(Moments(GAME, Restored(GAME, START, 0), Presses(n)), n)
    decreases n
  {
    GameIsLawful();
    var e0 := Restored(GAME, START, 0);
    if n == 0 {
      assert Presses(0)[..0] == [];
      assert Performed(GAME, e0, []) == Some(e0);
    } else {
      PressesAreCounted(n - 1);
      assert Presses(n)[..n] == Presses(n - 1);
      var e := Performed(GAME, e0, Presses(n - 1)).value;
      OnePress(e, n - 1);
      MorePresses(Moments(GAME, e0, Presses(n - 1)), MomentOf(GAME, e, IssueLocal(ActivateBoost(0))), n - 1);
    }
  }

  /** After 2^32 presses on one predicted tick the identities start over. */
  lemma IdentitiesRepeat()
    ensures Lawful(GAME) && Performed(GAME, Restored(GAME, START, 0), Presses(U32_RANGE + 1)).Some?
    ensures var ms := Moments(GAME, Restored(GAME, START, 0), Presses(U32_RANGE + 1));
            var first, last := ms[1].issued, ms[U32_RANGE + 1].issued;
            first.Some? && last.Some? && first.value.clientId == last.value.clientId
  {
    PressesAreCounted(U32_RANGE + 1);
    var ms := Moments(GAME, Restored(GAME, START, 0), Presses(U32_RANGE + 1));
    assert PressIs(ms[1], 1) && PressIs(ms[U32_RANGE + 1], U32_RANGE + 1);
    assert AsU32(1) == AsU32(U32_RANGE + 1);
  }

  // ---------------------------------------------------- an unrecorded rebuild

  const LOBBY: World := World(0, false, 1000, true, None, [])
  const KICKOFF: EventMessage<World> := EventMessage(0, 0, 1, MatchStartScheduled(0))

  /** The match is scheduled, the next poll leaves no record, the one after takes a
      fingerprint. */
  const EVENING: seq<LoopTurn<World>> :=
    [LoopTurn(0, ReadyUp(KICKOFF)), LoopTurn(1, Nothing), LoopTurn(2, TakeFingerprint)]

  /** The engine once the match start is known: a rebuild is due. */
  function Waiting(): (e: Engine<World>) {
    Restored(GAME, LOBBY, 0).(committed := LOBBY.(epoch := Some(0)), needsRebuild := true)
  }

  function Predicting(tick: nat): (e: Engine<World>) {
    Waiting().(predicted := Some(World(tick, false, 1000, false, Some(0), [])), needsRebuild := false)
  }

  /** One tick in, the rebuild needs no generator. */
  lemma EarlyRebuild()
    ensures Lawful(GAME) && Polled(GAME, Waiting(), 1) == (Predicting(1), Ok([]))
  {
    GameIsLawful();
    var e := Waiting();
    var p := World(0, false, 1000, false, Some(0), []);
    assert Elapsed(GAME, e.committed, 1) == 1 && WallTick(GAME, e.committed, 1) == 1;
    assert RunTo(GAME, e.committed, false, 0).state == e.committed;
    assert RunTo(GAME, p, false, 1).state == p.(tick := 1) && !RunTo(GAME, p, false, 1).failed;
    assert PredictionTarget(GAME, e, 1) == 1;
    assert ScheduleAll(GAME, p, []) == p;
    assert Rebuilt(GAME, e, 1) == (Predicting(1), Ok(()));
  }

  /** Prediction then moves on without one. */
  lemma MovesOn()
    ensures Lawful(GAME) && Polled(GAME, Predicting(1), 2) == (Predicting(2), Ok([]))
  {
    GameIsLawful();
    var e := Predicting(1);
    assert Elapsed(GAME, e.committed, 2) == 2 && WallTick(GAME, e.committed, 2) == 2;
    assert RunTo(GAME, e.committed, false, 0).state == e.committed;
    var p := e.predicted.value;
    assert RunTo(GAME, p, true, 2).state == p.(tick := 2) && !RunTo(GAME, p, true, 2).failed;
  }

  /** Two ticks in, the rebuild fails. */
  lemma LateRebuild()
    ensures Lawful(GAME) && Polled(GAME, Waiting(), 2).1.Err?
  {
    GameIsLawful();
    var e := Waiting();
    var p := World(0, false, 1000, false, Some(0), []);
    assert Elapsed(GAME, e.committed, 2) == 2 && WallTick(GAME, e.committed, 2) == 2;
    assert PredictionTarget(GAME, e, 2) == 2;
    assert RunTo(GAME, p.(tick := 1), false, 2).failed && RunTo(GAME, p, false, 2).failed;
    assert ScheduleAll(GAME, p, []) == p;
  }

  lemma PollChangesEngine(x: Recorder<World>, e: Engine<World>, ts: int)
    requires Lawful(GAME) && Polled(GAME, x.engine, ts) == (e, Ok([]))
    ensures AfterPoll(GAME, x, ts) == Some(x.(engine := e, now := ts))
  {
    assert Gameplays<World>([]) == [] && x.events + [] == x.events;
  }

  lemma LastTurn(x0: Recorder<World>, before: seq<LoopTurn<World>>, x: Recorder<World>, turn: LoopTurn<World>)
    requires Lawful(GAME) && Recorded(GAME, x0, before) == Some(x)
    ensures Recorded(GAME, x0, before + [turn]) == Taken(GAME, x, turn)
    ensures SteadyClock(GAME, x0, before + [turn]) <==> SteadyClock(GAME, x0, before) && ClockMovesOn(GAME, x, turn.ts)
  {
    assert (before + [turn])[..|before|] == before;
  }

  function Scheduled(): (x: Recorder<World>) {
    Recorder(Waiting(), 0, [], [], [EventOut(0, KICKOFF)])
  }

  lemma KickoffIsTaken()
    ensures Lawful(GAME) && Taken(GAME, Booted(GAME, LOBBY, 0), LoopTurn(0, ReadyUp(KICKOFF))) == Some(Scheduled())
  {
    GameIsLawful();
    var x0 := Booted(GAME, LOBBY, 0);
    PollChangesEngine(x0, x0.engine, 0);
    assert x0.trace + [EventOut(0, KICKOFF)] == [EventOut(0, KICKOFF)];
    assert Readied(GAME, x0.engine, KICKOFF.event).0 == Waiting();
  }

  lemma FingerprintIsTaken()
    ensures Lawful(GAME)
    ensures Taken(GAME, Scheduled().(engine := Predicting(1), now := 1), LoopTurn(2, TakeFingerprint)) ==
            Some(Scheduled().(engine := Predicting(2), now := 2, trace := [EventOut(0, KICKOFF), Fingerprint(2, 0, 0)]))
  {
    MovesOn();
    PollChangesEngine(Scheduled().(engine := Predicting(1), now := 1), Predicting(2), 2);
    assert [EventOut(0, KICKOFF)] + [Fingerprint(2, 0, 0)] == [EventOut(0, KICKOFF), Fingerprint(2, 0, 0)];
  }

  lemma EveningIsRecorded()
    ensures Lawful(GAME) && SteadyClock(GAME, Booted(GAME, LOBBY, 0), EVENING)
    ensures var x := Recorded(GAME, Booted(GAME, LOBBY, 0), EVENING);
            x.Some? && x.value.events == [] && x.value.trace == [EventOut(0, KICKOFF), Fingerprint(2, 0, 0)]
  {
    EarlyRebuild();
    var x0, x1 := Booted(GAME, LOBBY, 0), Scheduled();
    var x2 := x1.(engine := Predicting(1), now := 1);
    KickoffIsTaken();
    LastTurn(x0, [], x0, EVENING[0]);
    PollChangesEngine(x1, Predicting(1), 1);
    assert [] + [EVENING[0]] == [EVENING[0]];
    LastTurn(x0, [EVENING[0]], x1, EVENING[1]);
    FingerprintIsTaken();
    assert [EVENING[0]] + [EVENING[1]] == [EVENING[0], EVENING[1]];
    LastTurn(x0, [EVENING[0], EVENING[1]], x2, EVENING[2]);
    assert [EVENING[0], EVENING[1]] + [EVENING[2]] == EVENING;
  }

  /** A trace of a healthy server, all its events published, whose replay aborts: the
      prediction was rebuilt in a poll that left no record. */
  lemma UnrecordedRebuildAborts()
    ensures Lawful(GAME) && EmitsGameplay(GAME) && SteadyClock(GAME, Booted(GAME, LOBBY, 0), EVENING)
    ensures var x := Recorded(GAME, Booted(GAME, LOBBY, 0), EVENING);
            x.Some? && x.value.events == [] && VerdictOf(CheckAll(GAME, Started(GAME, LOBBY), x.value.trace)) == Aborted
  {
    GameIsLawful();
    GameEmitsGameplay();
    EveningIsRecorded();
    LateRebuild();
    var c0 := Started(GAME, LOBBY);
    var trace := [EventOut(0, KICKOFF), Fingerprint(2, 0, 0)];
    assert trace[..1] == [EventOut(0, KICKOFF)] && trace[..1][..0] == [];
    assert Gameplays<World>([]) == [];
    assert CheckAll(GAME, c0, []) == Running(c0) && Synced(GAME, c0, 0) == Some(c0);
    assert CheckAll(GAME, c0, trace[..1]) == Running(c0.(engine := Waiting()));
  }
}
