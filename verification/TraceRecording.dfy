/** How a server produces a trace, and why the checker accepts every trace so produced. */
module TraceRecording {
  import opened Simulation
  import opened EngineSpec
  import opened Polling
  import opened ServerReplay

  /** A recording server: its engine, its clock, what it emitted and scheduled but has
      not published yet, and the trace so far. */
  datatype Recorder<S> = Recorder(
    engine: Engine<S>,
    now: int,
    events: seq<Labelled<S>>,
    schedules: seq<CommandMessage>,
    trace: seq<TraceItem<S>>)

  /** What the server does after polling its engine. */
  datatype Action<S> =
    | Nothing
    | TakeCommand(command: CommandMessage)
    | PublishEvent(streamSeq: nat)
    | PublishSchedule(tick: nat, sequence: nat, streamSeq: nat)
    | PublishSnapshot(message: EventMessage<S>)
    | PublishHeartbeat(streamSeq: nat, serverTs: int)
    | ReadyUp(message: EventMessage<S>)
    | TakeFingerprint

  /** Every action is preceded by a successful poll. */
  datatype LoopTurn<S> = LoopTurn(ts: int, action: Action<S>)

  function Booted<S>(r: Rules<S>, anchor: S, now: int): (x: Recorder<S>) {
    Recorder(Restored(r, anchor, 0), now, [], [], [])
  }

  function AfterPoll<S(!new)>(r: Rules<S>, x: Recorder<S>, ts: int): (y: Option<Recorder<S>>)
    requires Lawful(r)
  {
    match Polled(r, x.engine, ts)
    case (e, Ok(events)) => Some(x.(engine := e, now := ts, events := x.events + Gameplays(events)))
    case _ => None
  }

  function AfterAction<S>(r: Rules<S>, x: Recorder<S>, action: Action<S>): (y: Option<Recorder<S>>) {
    match action
    case Nothing => Some(x)
    case TakeCommand(m) =>
      var (e, c) := Accepted(r, x.engine, m);
      Some(x.(engine := e, schedules := x.schedules + [c], trace := x.trace + [CmdIn(x.now, m)]))
    case PublishEvent(n) =>
      if x.events == [] then None
      else
        var (tick, sequence, event) := x.events[0];
        Some(x.(events := x.events[1..], trace := x.trace + [EventOut(x.now, EventMessage(tick, sequence, n, event))]))
    case PublishSchedule(tick, sequence, n) =>
      if x.schedules == [] then None
      else Some(x.(schedules := x.schedules[1..],
                   trace := x.trace + [EventOut(x.now, EventMessage(tick, sequence, n, CommandScheduled(x.schedules[0])))]))
    case PublishSnapshot(m) =>
      if !m.event.Snapshot? then None else Some(x.(trace := x.trace + [EventOut(x.now, m)]))
    case PublishHeartbeat(n, serverTs) =>
      var s := x.engine.committed;
      Some(x.(trace := x.trace + [EventOut(x.now, EventMessage(r.tick(s), 0, n, TickHash(r.syncHash(s), serverTs)))]))
    case ReadyUp(m) =>
      (match Readied(r, x.engine, m.event)
       case (e, Ok(_)) => Some(x.(engine := e, trace := x.trace + [EventOut(x.now, m)]))
       case _ => None)
    case TakeFingerprint =>
      var s := x.engine.committed;
      Some(x.(trace := x.trace + [Fingerprint(x.now, r.tick(s), r.syncHash(s))]))
  }

  function Taken<S(!new)>(r: Rules<S>, x: Recorder<S>, turn: LoopTurn<S>): (y: Option<Recorder<S>>)
    requires Lawful(r)
  {
    match AfterPoll(r, x, turn.ts)
    case Some(p) => AfterAction(r, p, turn.action)
    case None => None
  }

  function Recorded<S(!new)>(r: Rules<S>, x: Recorder<S>, turns: seq<LoopTurn<S>>): (y: Option<Recorder<S>>)
    requires Lawful(r)
    decreases |turns|
  {
    if turns == [] then Some(x)
    else match Recorded(r, x, turns[..|turns| - 1])
      case Some(y) => Taken(r, y, turns[|turns| - 1])
      case None => None
  }

  /** A simulation step emits gameplay events, and a snapshot on the first tick. */
  ghost predicate EmitsGameplay<S(!new)>(r: Rules<S>) {
    forall s, m, i {:trigger r.step(s, m).events[i]} ::
      r.step(s, m).Stepped? && 0 <= i < |r.step(s, m).events| ==>
        r.step(s, m).events[i].1.Gameplay? || r.step(s, m).events[i].1.Snapshot?
  }

  ghost predicate AllGameplay<S>(events: seq<Labelled<S>>) {
    forall i :: 0 <= i < |events| ==> events[i].2.Gameplay?
  }

  ghost predicate NoneForeign<S>(events: seq<Labelled<S>>) {
    forall i :: 0 <= i < |events| ==> events[i].2.Gameplay? || events[i].2.Snapshot?
  }

  lemma {:induction false} LabelsNotForeign<S(!new)>(r: Rules<S>, post: nat, events: seq<(nat, GameEvent<S>)>)
    requires forall i :: 0 <= i < |events| ==> events[i].1.Gameplay? || events[i].1.Snapshot?
    ensures NoneForeign(Label(r, post, events))
    decreases |events|
  {
    if events != [] { LabelsNotForeign(r, post, events[1..]); }
  }

  lemma {:induction false} RunNotForeign<S(!new)>(r: Rules<S>, s: S, target: nat)
    requires Lawful(r) && EmitsGameplay(r)
    ensures NoneForeign(RunTo(r, s, false, target).events)
    decreases target - r.tick(s)
  {
    if !r.complete(s) && r.tick(s) < target && r.step(s, false).Stepped? {
      var n := r.step(s, false).state;
      RunNotForeign(r, n, target);
      LabelsNotForeign(r, r.tick(n), r.step(s, false).events);
    }
  }

  lemma {:induction false} KeptAreGameplay<S>(events: seq<Labelled<S>>)
    requires NoneForeign(events)
    ensures AllGameplay(Gameplays(events))
    decreases |events|
  {
    if events != [] { KeptAreGameplay(events[1..]); }
  }

  // ------------------------------------------------------- every poll on record

  /** The checker is the recorder: same engine, same queues. */
  function Twin<S>(x: Recorder<S>): (c: Checker<S>) { Checker(x.engine, x.events, x.schedules) }

  lemma PolledIsGameplay<S(!new)>(r: Rules<S>, x: Recorder<S>, ts: int)
    requires Lawful(r) && EmitsGameplay(r) && AllGameplay(x.events) && AfterPoll(r, x, ts).Some?
    ensures AllGameplay(AfterPoll(r, x, ts).value.events)
  {
    PollCommits(r, x.engine, ts);
    var s, target := x.engine.committed, LaggedTarget(r, x.engine.committed, x.engine.lagMs, ts);
    RunNotForeign(r, s, target);
    KeptAreGameplay(RunTo(r, s, false, target).events);
  }

  /** A twin accepts whatever its recorder does next, and stays its twin. */
  lemma ActionKeepsTwin<S(!new)>(r: Rules<S>, x: Recorder<S>, action: Action<S>)
    requires !action.Nothing? && AfterAction(r, x, action).Some? && AllGameplay(x.events)
    ensures var y := AfterAction(r, x, action).value;
            y.trace == x.trace + [y.trace[|x.trace|]] && y.trace[|x.trace|].ts == x.now && AllGameplay(y.events) &&
            Matched(r, Twin(x), y.trace[|x.trace|]) == Running(Twin(y))
  {
  }

  lemma CheckNext<S(!new)>(r: Rules<S>, c0: Checker<S>, x: Recorder<S>, y: Recorder<S>, c: Checker<S>,
          item: TraceItem<S>)
    requires Lawful(r) && y.trace == x.trace + [item] && CheckAll(r, c0, x.trace) == Running(c)
    ensures CheckAll(r, c0, y.trace) == CheckItem(r, c, item)
  {
    assert y.trace[..|y.trace| - 1] == x.trace;
  }

  /** After a recorded turn the checker is the recorder's twin, if polling it at the same
      time made it so. */
  lemma RecordedTurn<S(!new)>(r: Rules<S>, c0: Checker<S>, x: Recorder<S>, c: Checker<S>, turn: LoopTurn<S>)
    requires Lawful(r) && EmitsGameplay(r) && !turn.action.Nothing? && Taken(r, x, turn).Some? && AllGameplay(x.events)
    requires CheckAll(r, c0, x.trace) == Running(c)
    requires Synced(r, c, turn.ts) == Some(Twin(AfterPoll(r, x, turn.ts).value))
    ensures var y := Taken(r, x, turn).value; CheckAll(r, c0, y.trace) == Running(Twin(y)) && AllGameplay(y.events)
  {
    var p, y := AfterPoll(r, x, turn.ts).value, Taken(r, x, turn).value;
    PolledIsGameplay(r, x, turn.ts);
    ActionKeepsTwin(r, p, turn.action);
    CheckNext(r, c0, x, y, c, y.trace[|x.trace|]);
  }

  ghost predicate EveryPollRecorded<S>(turns: seq<LoopTurn<S>>) {
    forall i :: 0 <= i < |turns| ==> !turns[i].action.Nothing?
  }

  /** When every poll is on record, whatever the clock does, the checker ends as the
      recorder's twin: no step that can fail stands between them. */
  lemma {:induction false} CheckerIsTwin<S(!new)>(r: Rules<S>, anchor: S, now: int, turns: seq<LoopTurn<S>>)
    requires Lawful(r) && EmitsGameplay(r) && EveryPollRecorded(turns)
    requires Recorded(r, Booted(r, anchor, now), turns).Some?
    ensures var x := Recorded(r, Booted(r, anchor, now), turns).value;
            CheckAll(r, Started(r, anchor), x.trace) == Running(Twin(x)) && AllGameplay(x.events)
    decreases |turns|
  {
    if turns != [] {
      var before := turns[..|turns| - 1];
      CheckerIsTwin(r, anchor, now, before);
      var x := Recorded(r, Booted(r, anchor, now), before).value;
      RecordedTurn(r, Started(r, anchor), x, Twin(x), turns[|turns| - 1]);
    }
  }

  /** So the verdict says exactly whether every emitted event was published. */
  lemma RecordedPollsVerdict<S(!new)>(r: Rules<S>, anchor: S, now: int, turns: seq<LoopTurn<S>>)
    requires Lawful(r) && EmitsGameplay(r) && EveryPollRecorded(turns)
    requires Recorded(r, Booted(r, anchor, now), turns).Some?
    ensures var x := Recorded(r, Booted(r, anchor, now), turns).value;
            VerdictOf(CheckAll(r, Started(r, anchor), x.trace)) == if x.events == [] then Deterministic else Divergent
  {
    CheckerIsTwin(r, anchor, now, turns);
  }
}
