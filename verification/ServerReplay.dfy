/** The determinism checker: re-drive an engine through a server trace and match what
    it emits against what the trace says was published. */
module ServerReplay {
  import opened Simulation
  import opened EngineSpec
  import opened EngineModel

  datatype TraceItem<S> =
    | CmdIn(ts: int, command: CommandMessage)
    | EventOut(ts: int, message: EventMessage<S>)
    | Fingerprint(ts: int, tick: nat, hash: nat)

  datatype Verdict = Deterministic | Divergent | Aborted

  /** The replayed engine and the two queues still to be matched. */
  datatype Checker<S> = Checker(engine: Engine<S>, emitted: seq<Labelled<S>>, scheduled: seq<CommandMessage>)

  datatype Progress<S> = Running(checker: Checker<S>) | Stopped(verdict: Verdict)

  /** Snapshots re-anchor; they are not gameplay events. */
  function Gameplays<S>(events: seq<Labelled<S>>): (kept: seq<Labelled<S>>) {
    if events == [] then []
    else (if events[0].2.Snapshot? then [] else [events[0]]) + Gameplays(events[1..])
  }

  /** Exactly the snapshots are dropped, and the rest keep their order. */
  lemma {:induction false} GameplaysExactly<S>(a: seq<Labelled<S>>, l: Labelled<S>, b: seq<Labelled<S>>)
    ensures Gameplays(a + [l] + b) == Gameplays(a) + (if l.2.Snapshot? then [] else [l]) + Gameplays(b)
    decreases |a|
  {
    var all := a + [l] + b;
    if a == [] {
      assert all[0] == l && all[1..] == b;
    } else {
      assert all[0] == a[0] && all[1..] == a[1..] + [l] + b;
      GameplaysExactly(a[1..], l, b);
    }
  }

  predicate IsReadiness<S>(event: GameEvent<S>) { event.PlayerReady? || event.MatchStartScheduled? }

  /** Events the trace must find among the replayed ones. */
  predicate IsCompared<S>(event: GameEvent<S>) {
    !event.Snapshot? && !IsReadiness(event) && !event.TickHash? && !event.CommandScheduled?
  }

  function Started<S>(r: Rules<S>, anchor: S): (c: Checker<S>) { Checker(Restored(r, anchor, 0), [], []) }

  /** Poll the replayed engine to the item's timestamp. */
  function Synced<S(==,!new)>(r: Rules<S>, c: Checker<S>, ts: int): (res: Option<Checker<S>>)
    requires Lawful(r)
  {
    match Polled(r, c.engine, ts)
    case (e, Ok(events)) => Some(c.(engine := e, emitted := c.emitted + Gameplays(events)))
    case _ => None
  }

  /** Match one recorded item against the synchronized engine. */
  function Matched<S(==,!new)>(r: Rules<S>, c: Checker<S>, item: TraceItem<S>): (p: Progress<S>) {
    match item
    case CmdIn(_, m) =>
      var (e, scheduled) := Accepted(r, c.engine, m);
      Running(c.(engine := e, scheduled := c.scheduled + [scheduled]))
    case Fingerprint(_, tick, hash) =>
      if r.tick(c.engine.committed) == tick && r.syncHash(c.engine.committed) != hash then Stopped(Divergent) else Running(c)
    case EventOut(_, m) =>
      if m.event.Snapshot? then Running(c)
      else if IsReadiness(m.event) then
        (match Readied(r, c.engine, m.event)
         case (e, Ok(_)) => Running(c.(engine := e))
         case _ => Stopped(Aborted))
      else if m.event.TickHash? then
        if r.tick(c.engine.committed) == m.tick && r.syncHash(c.engine.committed) == m.event.hash
            then Running(c) else Stopped(Divergent)
      else if m.event.CommandScheduled? then
        if c.scheduled != [] && c.scheduled[0] == m.event.message
            then Running(c.(scheduled := c.scheduled[1..])) else Stopped(Divergent)
      else
        if c.emitted != [] && c.emitted[0] == (m.tick, m.sequence, m.event)
            then Running(c.(emitted := c.emitted[1..])) else Stopped(Divergent)
  }

  function CheckItem<S(==,!new)>(r: Rules<S>, c: Checker<S>, item: TraceItem<S>): (p: Progress<S>)
    requires Lawful(r)
  {
    match Synced(r, c, item.ts)
    case None => Stopped(Aborted)
    case Some(synced) => Matched(r, synced, item)
  }

  function CheckAll<S(==,!new)>(r: Rules<S>, c: Checker<S>, items: seq<TraceItem<S>>): (p: Progress<S>)
    requires Lawful(r)
    decreases |items|
  {
    if items == [] then Running(c)
    else match CheckAll(r, c, items[..|items| - 1])
      case Running(d) => CheckItem(r, d, items[|items| - 1])
      case stopped => stopped
  }

  function VerdictOf<S>(p: Progress<S>): (v: Verdict) {
    match p
    case Running(c) => if c.emitted == [] then Deterministic else Divergent
    case Stopped(v) => v
  }

  /** The source's loop: a mutable engine, two queues, and an early stop. */
  method Replay<S(==,!new)>(r: Rules<S>, anchor: S, timeline: seq<TraceItem<S>>) returns (v: Verdict)
    requires Lawful(r)
    ensures v == VerdictOf(CheckAll(r, Started(r, anchor), timeline))
  {
    var engine := new GameEngine.FromState(r, anchor, 0);
    var emitted: seq<Labelled<S>> := [];
    var scheduled: seq<CommandMessage> := [];
    var i := 0;
    ghost var c0 := Started(r, anchor);
    while i < |timeline|
      invariant 0 <= i <= |timeline| && engine.rules == r && fresh(engine)
      invariant CheckAll(r, c0, timeline[..i]) == Running(Checker(engine.View(), emitted, scheduled))
    {
      var item := timeline[i];
      assert timeline[..i + 1][..i] == timeline[..i];
      ghost var c := Checker(engine.View(), emitted, scheduled);
      assert CheckAll(r, c0, timeline[..i + 1]) == CheckItem(r, c, item);
      var polled := engine.RunUntil(item.ts);
      if !polled.Ok? {
        StopsThere(r, c0, timeline, i + 1);
        return Aborted;
      }
      emitted := emitted + Gameplays(polled.value);
      var p := MatchOne(engine, emitted, scheduled, item);
      match p {
        case Stopped(verdict) =>
          StopsThere(r, c0, timeline, i + 1);
          return verdict;
        case Running(d) =>
          emitted, scheduled := d.emitted, d.scheduled;
      }
      i := i + 1;
    }
    assert timeline[..i] == timeline;
    return if emitted == [] then Deterministic else Divergent;
  }

  method MatchOne<S(==,!new)>(engine: GameEngine<S>, emitted: seq<Labelled<S>>, scheduled: seq<CommandMessage>,
          item: TraceItem<S>)
    returns (p: Progress<S>)
    modifies engine
    ensures p == Matched(engine.rules, Checker(old(engine.View()), emitted, scheduled), item)
    ensures p.Running? ==> p.checker.engine == engine.View()
  {
    match item {
      case CmdIn(_, m) =>
        var c := engine.ProcessCommand(m);
        return Running(Checker(engine.View(), emitted, scheduled + [c]));
      case Fingerprint(_, tick, hash) =>
        if engine.rules.tick(engine.committedState) == tick && engine.rules.syncHash(engine.committedState) != hash
            { return Stopped(Divergent); }
      case EventOut(_, m) =>
        if m.event.Snapshot? {
        } else if IsReadiness(m.event) {
          var applied := engine.ApplyPreMatchReadinessEvent(m.event);
          if !applied.Ok? { return Stopped(Aborted); }
        } else if m.event.TickHash? {
          if engine.rules.tick(engine.committedState) != m.tick ||
              engine.rules.syncHash(engine.committedState) != m.event.hash { return Stopped(Divergent); }
        } else if m.event.CommandScheduled? {
          if scheduled == [] || scheduled[0] != m.event.message { return Stopped(Divergent); }
          return Running(Checker(engine.View(), emitted, scheduled[1..]));
        } else {
          if emitted == [] || emitted[0] != (m.tick, m.sequence, m.event) { return Stopped(Divergent); }
          return Running(Checker(engine.View(), emitted[1..], scheduled));
        }
    }
    return Running(Checker(engine.View(), emitted, scheduled));
  }

  lemma {:induction false} StopsThere<S(!new)>(r: Rules<S>, c: Checker<S>, items: seq<TraceItem<S>>, k: nat)
    requires Lawful(r) && k <= |items| && CheckAll(r, c, items[..k]).Stopped?
    ensures CheckAll(r, c, items) == CheckAll(r, c, items[..k])
    decreases |items|
  {
    if k == |items| {
      assert items[..k] == items;
    } else {
      var prefix := items[..|items| - 1];
      assert prefix[..k] == items[..k];
      StopsThere(r, c, prefix, k);
    }
  }

  // ------------------------------------------------ what a verdict means

  /** Everything an engine does when driven by a trace's timestamps, commands and
      readiness alone, with no look at what was published. */
  datatype Drive<S> = Drive(engine: Engine<S>, events: seq<Labelled<S>>, schedules: seq<CommandMessage>)

  ghost function Reacted<S>(r: Rules<S>, d: Drive<S>, item: TraceItem<S>): (res: Option<Drive<S>>) {
    match item
    case CmdIn(_, m) =>
      var (e, c) := Accepted(r, d.engine, m);
      Some(d.(engine := e, schedules := d.schedules + [c]))
    case EventOut(_, m) =>
      if IsReadiness(m.event) then
        (match Readied(r, d.engine, m.event) case (e, Ok(_)) => Some(d.(engine := e)) case _ => None)
      else Some(d)
    case Fingerprint(_, _, _) => Some(d)
  }

  ghost function DriveItem<S(!new)>(r: Rules<S>, d: Drive<S>, item: TraceItem<S>): (res: Option<Drive<S>>)
    requires Lawful(r)
  {
    match Polled(r, d.engine, item.ts)
    case (e, Ok(events)) => Reacted(r, d.(engine := e, events := d.events + Gameplays(events)), item)
    case _ => None
  }

  ghost function Redrive<S(!new)>(r: Rules<S>, anchor: S, items: seq<TraceItem<S>>): (res: Option<Drive<S>>)
    requires Lawful(r)
    decreases |items|
  {
    if items == [] then Some(Drive(Restored(r, anchor, 0), [], []))
    else match Redrive(r, anchor, items[..|items| - 1])
      case Some(d) => DriveItem(r, d, items[|items| - 1])
      case None => None
  }

  /** The gameplay events the trace recorded. */
  ghost function RecordedEvents<S>(items: seq<TraceItem<S>>): (events: seq<Labelled<S>>) {
    if items == [] then []
    else
      RecordedEvents(items[..|items| - 1]) + MoreEvents(items[|items| - 1])
  }

  /** The command schedules the trace recorded. */
  ghost function RecordedSchedules<S>(items: seq<TraceItem<S>>): (commands: seq<CommandMessage>) {
    if items == [] then []
    else
      RecordedSchedules(items[..|items| - 1]) + MoreSchedules(items[|items| - 1])
  }

  /** A recorded hash taken at the re-driven engine's own tick is the engine's hash; a
      heartbeat must moreover be at that tick. */
  ghost predicate HashesAgree<S>(r: Rules<S>, e: Engine<S>, item: TraceItem<S>) {
    match item
    case Fingerprint(_, tick, hash) => r.tick(e.committed) == tick ==> r.syncHash(e.committed) == hash
    case EventOut(_, m) => m.event.TickHash? ==> r.tick(e.committed) == m.tick && r.syncHash(e.committed) == m.event.hash
    case _ => true
  }

  /** The trace, item by item, tells what the engine does: nothing is recorded before
      it is emitted or scheduled, in another order or with other labels. */
  ghost predicate Faithful<S(!new)>(r: Rules<S>, anchor: S, items: seq<TraceItem<S>>)
    requires Lawful(r)
    decreases |items|
  {
    var d := Redrive(r, anchor, items);
    && d.Some?
    && RecordedEvents(items) <= d.value.events
    && RecordedSchedules(items) <= d.value.schedules
    && (items != [] ==>
          Faithful(r, anchor, items[..|items| - 1]) && HashesAgree(r, d.value.engine, items[|items| - 1]))
  }

  ghost predicate Pending<S(!new)>(r: Rules<S>, anchor: S, items: seq<TraceItem<S>>, c: Checker<S>)
    requires Lawful(r)
  {
    var d := Redrive(r, anchor, items);
    && d.Some?
    && Tracks(c, d.value, RecordedEvents(items), RecordedSchedules(items))
  }

  lemma PopMatches<T>(recorded: seq<T>, queue: seq<T>, x: T)
    ensures recorded + [x] <= recorded + queue <==> queue != [] && queue[0] == x
    ensures queue != [] && queue[0] == x ==> recorded + queue == recorded + [x] + queue[1..]
  {
    var all := recorded + queue;
    if recorded + [x] <= all { assert all[|recorded|] == (recorded + [x])[|recorded|]; }
    if queue != [] && queue[0] == x { assert all[..|recorded| + 1] == recorded + [x]; }
  }

  /** The checker's queues are what the engine did minus what was recorded. */
  ghost predicate Tracks<S>(c: Checker<S>, d: Drive<S>, events: seq<Labelled<S>>, schedules: seq<CommandMessage>) {
    c.engine == d.engine && d.events == events + c.emitted && d.schedules == schedules + c.scheduled
  }

  ghost function MoreEvents<S>(item: TraceItem<S>): (events: seq<Labelled<S>>) {
    if item.EventOut? && IsCompared(item.message.event)
    then [(item.message.tick, item.message.sequence, item.message.event)] else []
  }

  ghost function MoreSchedules<S>(item: TraceItem<S>): (commands: seq<CommandMessage>) {
    if item.EventOut? && item.message.event.CommandScheduled? then [item.message.event.message] else []
  }

  /** Matching one item against synchronized queues. */
  lemma MatchedTracks<S(!new)>(r: Rules<S>, c: Checker<S>, d: Drive<S>, item: TraceItem<S>, events: seq<Labelled<S>>,
          schedules: seq<CommandMessage>)
    requires Tracks(c, d, events, schedules)
    ensures var p := Matched(r, c, item);
            var f := Reacted(r, d, item);
            (p.Running? <==>
               f.Some? && events + MoreEvents(item) <= f.value.events &&
                   schedules + MoreSchedules(item) <= f.value.schedules &&
               HashesAgree(r, f.value.engine, item)) &&
            (p.Running? ==> Tracks(p.checker, f.value, events + MoreEvents(item), schedules + MoreSchedules(item))) &&
            (p.Stopped? ==> p.verdict != Deterministic)
  {
    assert events + [] == events && schedules + [] == schedules;
    match item {
      case CmdIn(_, m) =>
        var cmd := Accepted(r, c.engine, m).1;
        assert schedules + c.scheduled + [cmd] == schedules + (c.scheduled + [cmd]);
      case EventOut(_, m) =>
        if IsCompared(m.event) {
          PopMatches(events, c.emitted, (m.tick, m.sequence, m.event));
        } else if m.event.CommandScheduled? {
          PopMatches(schedules, c.scheduled, m.event.message);
        }
      case Fingerprint(_, _, _) =>
    }
  }

  /** The same with the poll that precedes it. */
  lemma ItemTracks<S(!new)>(r: Rules<S>, c: Checker<S>, d: Drive<S>, item: TraceItem<S>, events: seq<Labelled<S>>,
          schedules: seq<CommandMessage>)
    requires Lawful(r) && Tracks(c, d, events, schedules)
    ensures var p := CheckItem(r, c, item);
            var f := DriveItem(r, d, item);
            (p.Running? <==>
               f.Some? && events + MoreEvents(item) <= f.value.events &&
                   schedules + MoreSchedules(item) <= f.value.schedules &&
               HashesAgree(r, f.value.engine, item)) &&
            (p.Running? ==> Tracks(p.checker, f.value, events + MoreEvents(item), schedules + MoreSchedules(item))) &&
            (p.Stopped? ==> p.verdict != Deterministic)
  {
    var polled := Polled(r, c.engine, item.ts);
    if polled.1.Ok? {
      var more := Gameplays(polled.1.value);
      assert events + c.emitted + more == events + (c.emitted + more);
      MatchedTracks(r, c.(engine := polled.0, emitted := c.emitted + more),
          d.(engine := polled.0, events := d.events + more),
                    item, events, schedules);
    }
  }

  lemma {:induction false} CheckerTracks<S(!new)>(r: Rules<S>, anchor: S, items: seq<TraceItem<S>>)
    requires Lawful(r)
    ensures var p := CheckAll(r, Started(r, anchor), items);
            (p.Running? <==> Faithful(r, anchor, items)) &&
            (p.Running? ==> Pending(r, anchor, items, p.checker)) &&
            (p.Stopped? ==> p.verdict != Deterministic)
    decreases |items|
  {
    if items != [] {
      var prefix := items[..|items| - 1];
      CheckerTracks(r, anchor, prefix);
      var p := CheckAll(r, Started(r, anchor), prefix);
      if p.Running? {
        ItemTracks(r, p.checker, Redrive(r, anchor, prefix).value, items[|items| - 1], RecordedEvents(prefix),
            RecordedSchedules(prefix));
      }
    }
  }

  /** An item aborts the checker exactly when it stops the blind engine. */
  lemma AbortStopsEngine<S(!new)>(r: Rules<S>, c: Checker<S>, d: Drive<S>, item: TraceItem<S>)
    requires Lawful(r) && c.engine == d.engine
    ensures CheckItem(r, c, item) == Stopped(Aborted) <==> DriveItem(r, d, item).None?
  {
  }

  /** A trace aborts the checker only if it cannot drive an engine to its end. */
  lemma {:induction false} AbortMeansUndrivable<S(!new)>(r: Rules<S>, anchor: S, items: seq<TraceItem<S>>)
    requires Lawful(r) && CheckAll(r, Started(r, anchor), items) == Stopped(Aborted)
    ensures Redrive(r, anchor, items).None?
    decreases |items|
  {
    var prefix := items[..|items| - 1];
    var p := CheckAll(r, Started(r, anchor), prefix);
    if p.Running? {
      CheckerTracks(r, anchor, prefix);
      AbortStopsEngine(r, p.checker, Redrive(r, anchor, prefix).value, items[|items| - 1]);
    } else {
      AbortMeansUndrivable(r, anchor, prefix);
    }
  }

  /** The checker is exact: it says `Deterministic` if and only if the trace is faithful
      and complete, that is, the recorded gameplay events are precisely the re-emitted
      ones, in order, tick and sequence. */
  lemma VerdictIsExact<S(!new)>(r: Rules<S>, anchor: S, items: seq<TraceItem<S>>)
    requires Lawful(r)
    ensures VerdictOf(CheckAll(r, Started(r, anchor), items)) == Deterministic <==>
              Faithful(r, anchor, items) && RecordedEvents(items) == Redrive(r, anchor, items).value.events
  {
    CheckerTracks(r, anchor, items);
    var p := CheckAll(r, Started(r, anchor), items);
    if p.Running? {
      var recorded := RecordedEvents(items);
      assert recorded + p.checker.emitted == recorded <==> p.checker.emitted == [];
    }
  }
}
