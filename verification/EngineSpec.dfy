/** The engine as a value: what each operation of `GameEngine` does to the whole of
    its state. The class in `Engine.dfy` is proved to do exactly this. */
module EngineSpec {
  import opened Simulation
  import opened Replication

  const MAX_PREDICTION_AHEAD_MS: nat := 1000
  const COMMITTED_LAG_MS: nat := 500

  /** `as u32` on a non-negative integer. */
  function AsU32(x: nat): (y: nat) { x % 0x1_0000_0000 }

  function Min(a: nat, b: nat): (m: nat) { if a < b then a else b }
  function Max(a: nat, b: nat): (m: nat) { if a < b then b else a }
  function SaturatingSub(a: nat, b: nat): (d: nat) { if a < b then 0 else a - b }

  datatype SyncStatus = SyncStatus(
    lastStreamSeq: nat,
    gapCount: nat,
    missedMessages: nat,
    staleSkipped: nat,
    lastProbeTick: Option<nat>,
    lastProbeMatched: Option<bool>,
    consecutiveMismatches: nat,
    totalProbes: nat,
    totalMismatches: nat,
    firstMismatchTick: Option<nat>,
    needsResync: bool,
    lastServerTick: nat,
    lastServerTs: Option<int>)

  const FRESH_SYNC: SyncStatus := SyncStatus(0, 0, 0, 0, None, None, 0, 0, 0, None, false, 0, None)

  datatype Engine<S> = Engine(
    committed: S,
    predicted: Option<S>,
    lagMs: nat,
    player: Option<nat>,
    commandCounter: nat,
    localSeq: nat,
    speculative: seq<CommandMessage>,
    sync: SyncStatus,
    needsRebuild: bool)

  /** `from_validated_state`. */
  function Restored<S>(r: Rules<S>, s: S, nextSequence: nat): (e: Engine<S>) {
    Engine(s, Some(r.dropRng(s)), COMMITTED_LAG_MS, None, nextSequence, 0, [], FRESH_SYNC, false)
  }

  // ---------------------------------------------------------------- stepping

  /** An emitted event with the tick it describes and its sequence number. */
  type Labelled<S> = (nat, nat, GameEvent<S>)

  datatype Run<S> = Run(state: S, events: seq<Labelled<S>>, failed: bool)

  /** Events describe the post-step state, except a snapshot, which carries its own tick. */
  function Label<S>(r: Rules<S>, post: nat, events: seq<(nat, GameEvent<S>)>): (l: seq<Labelled<S>>) {
    if events == [] then []
    else
      var (sequence, event) := events[0];
      [(if event.Snapshot? then r.tick(event.state) else post, sequence, event)] + Label(r, post, events[1..])
  }

  /** Step until the target tick, completion or the first failure. */
  function RunTo<S(!new)>(r: Rules<S>, s: S, movementOnly: bool, target: nat): (run: Run<S>)
    requires Lawful(r)
    ensures r.tick(s) <= r.tick(run.state)
    ensures r.tick(run.state) <= Max(r.tick(s), target)
    ensures r.tickMs(run.state) == r.tickMs(s) && r.startMs(run.state) == r.startMs(s)
    ensures !run.failed ==> r.complete(run.state) || target <= r.tick(run.state)
    decreases target - r.tick(s)
  {
    if r.complete(s) || r.tick(s) >= target then Run(s, [], false)
    else match r.step(s, movementOnly)
      case Stepped(n, events) =>
        var rest := RunTo(r, n, movementOnly, target);
        Run(rest.state, Label(r, r.tick(n), events) + rest.events, rest.failed)
      case StepFailed(partial) => Run(partial, [], true)
  }

  // ------------------------------------------------------------ server messages

  predicate RejectedSnapshot<S>(r: Rules<S>, m: EventMessage<S>) {
    m.event.Snapshot? && (r.tick(m.event.state) != m.tick || !r.admitted(m.event.state))
  }

  predicate Stale<S>(y: SyncStatus, m: EventMessage<S>) {
    m.streamSeq > 0 && !m.event.Snapshot? && y.lastStreamSeq != 0 && m.streamSeq <= y.lastStreamSeq
  }

  /** Transport accounting for a message that is neither stale nor a rejected snapshot. */
  function Noted<S>(y: SyncStatus, m: EventMessage<S>): (z: SyncStatus) {
    var gap := m.streamSeq > 0 && !m.event.Snapshot? && y.lastStreamSeq != 0 && m.streamSeq > y.lastStreamSeq + 1;
    y.(lastStreamSeq := if m.streamSeq > 0 then m.streamSeq else y.lastStreamSeq,
       gapCount := if gap then y.gapCount + 1 else y.gapCount,
       missedMessages := if gap then y.missedMessages + (m.streamSeq - y.lastStreamSeq - 1) else y.missedMessages,
       needsResync := y.needsResync || gap,
       lastServerTick := Max(y.lastServerTick, m.tick))
  }

  /** A fingerprint probe compares and never mutates; two mismatches in a row mean divergence. */
  function Probed(y: SyncStatus, tick: nat, serverTs: int, matched: bool): (z: SyncStatus) {
    var w := y.(lastProbeTick := Some(tick), lastProbeMatched := Some(matched),
                totalProbes := y.totalProbes + 1, lastServerTs := Some(serverTs));
    if matched then w.(consecutiveMismatches := 0)
    else w.(totalMismatches := w.totalMismatches + 1,
            consecutiveMismatches := w.consecutiveMismatches + 1,
            firstMismatchTick := if w.firstMismatchTick.None? then Some(tick) else w.firstMismatchTick,
            needsResync := w.needsResync || w.consecutiveMismatches + 1 >= 2)
  }

  function Without(commands: seq<CommandMessage>, id: CommandId): (kept: seq<CommandMessage>) {
    if commands == [] then []
    else (if commands[0].clientId == id then [] else [commands[0]]) + Without(commands[1..], id)
  }

  lemma {:induction false} WithoutAppend(a: seq<CommandMessage>, b: seq<CommandMessage>, id: CommandId)
    ensures Without(a + b, id) == Without(a, id) + Without(b, id)
    decreases |a|
  {
    if a == [] {
      assert a + b == b;
    } else {
      assert (a + b)[0] == a[0] && (a + b)[1..] == a[1..] + b;
      WithoutAppend(a[1..], b, id);
    }
  }

  /** Retire the speculative commands an authoritative outcome settles. */
  function Retired<S>(commands: seq<CommandMessage>, event: GameEvent<S>): (kept: seq<CommandMessage>) {
    match event
    case CommandScheduled(c) => Without(commands, c.clientId)
    case CommandScheduledV2(c, _) => Without(commands, c.clientId)
    case CommandRejected(Some(id), _) => Without(commands, id)
    case Snapshot(_) => []
    case _ => commands
  }

  /** A fenced rejection asks for a resync; a snapshot answers one. */
  function Settled<S>(y: SyncStatus, event: GameEvent<S>): (z: SyncStatus) {
    match event
    case CommandRejected(Some(_), fence) => y.(needsResync := y.needsResync || fence.Some?)
    case Snapshot(_) => y.(needsResync := false, consecutiveMismatches := 0)
    case _ => y
  }

  function Reconciled<S>(e: Engine<S>, event: GameEvent<S>): (f: Engine<S>) {
    e.(needsRebuild := true, speculative := Retired(e.speculative, event), sync := Settled(e.sync, event))
  }

  function Received<S(!new)>(r: Rules<S>, e: Engine<S>, m: EventMessage<S>): (res: (Engine<S>, Outcome<()>))
    requires Lawful(r)
  {
    if RejectedSnapshot(r, m) then
      (e.(sync := e.sync.(needsResync := true)), Err)
    else if Stale(e.sync, m) then
      (e.(sync := e.sync.(staleSkipped := e.sync.staleSkipped + 1)), Ok(()))
    else
      var y := Noted(e.sync, m);
      match Advanced(r, e.committed, m)
      case Ok(c) =>
        if m.event.TickHash? then
          (e.(committed := c,
              sync := Probed(y, m.tick, m.event.serverTs, r.syncHash(c) == m.event.hash)), Ok(()))
        else (Reconciled(e.(committed := c, sync := y), m.event), Ok(()))
      case Err => (e.(sync := y.(needsResync := true)), Err)
      case Hang => (e.(sync := y), Hang)
  }

  // ------------------------------------------------------------ local commands

  function LocalId<S>(r: Rules<S>, e: Engine<S>, player: nat): (id: CommandId) {
    CommandId(if e.predicted.Some? then r.tick(e.predicted.value) else 0, player, AsU32(e.localSeq + 1))
  }

  function Issued<S>(r: Rules<S>, e: Engine<S>, command: Command): (res: (Engine<S>, Outcome<CommandMessage>)) {
    match e.player
    case None => (e, Err)
    case Some(player) =>
      var m := CommandMessage(LocalId(r, e, player), None, command);
      (e.(localSeq := AsU32(e.localSeq + 1),
          speculative := e.speculative + [m],
          predicted := match e.predicted case Some(p) => Some(r.schedule(p, m)) case None => None),
       Ok(m))
  }

  function Discarded<S>(e: Engine<S>, id: CommandId): (f: Engine<S>) {
    e.(speculative := Without(e.speculative, id), needsRebuild := true)
  }

  // ---------------------------------------------------------------- prediction

  function MaxPredictedTick<S>(r: Rules<S>, e: Engine<S>): (t: nat) {
    r.tick(e.committed) + Max(1, (e.lagMs + MAX_PREDICTION_AHEAD_MS) / Max(1, r.tickMs(e.committed)))
  }

  function ScheduleAll<S>(r: Rules<S>, s: S, commands: seq<CommandMessage>): (t: S) {
    if commands == [] then s else ScheduleAll(r, r.schedule(s, commands[0]), commands[1..])
  }

  function Anchored<S>(r: Rules<S>, e: Engine<S>): (f: Engine<S>) {
    e.(predicted := Some(r.dropRng(e.committed)), needsRebuild := false)
  }

  /** Elapsed simulation time, negative while the match has not started. */
  function Elapsed<S>(r: Rules<S>, s: S, ts: int): (ms: int) {
    match r.startMs(s) case Some(epoch) => ts - epoch case None => -1
  }

  function PredictionTarget<S>(r: Rules<S>, e: Engine<S>, elapsed: nat): (t: nat)
    requires 1 <= r.tickMs(e.committed)
  {
    Min(AsU32(elapsed / r.tickMs(e.committed)), MaxPredictedTick(r, e))
  }

  function Rebuilt<S(!new)>(r: Rules<S>, e: Engine<S>, ts: int): (res: (Engine<S>, Outcome<()>))
    requires Lawful(r)
  {
    var elapsed := Elapsed(r, e.committed, ts);
    if elapsed < 0 then
      (if e.needsRebuild then Anchored(r, e) else e, Ok(()))
    else if r.complete(e.committed) then
      (Anchored(r, e), Ok(()))
    else
      var target := PredictionTarget(r, e, elapsed);
      if e.needsRebuild || e.predicted.None? || target > r.tick(e.predicted.value) then
        var run := RunTo(r, ScheduleAll(r, r.dropRng(e.committed), e.speculative), false, target);
        if run.failed then (e, Err) else (e.(predicted := Some(run.state), needsRebuild := false), Ok(()))
      else (e, Ok(()))
  }

  // ------------------------------------------------------------------- polling

  function WallTick<S>(r: Rules<S>, s: S, elapsed: nat): (t: nat)
    requires 1 <= r.tickMs(s)
  {
    AsU32(elapsed / r.tickMs(s))
  }

  /** The committed half of a poll: the lagged target tick at `ts`. */
  function LaggedTarget<S>(r: Rules<S>, s: S, lagMs: nat, ts: int): (t: nat)
    requires 1 <= r.tickMs(s)
  {
    var elapsed := Elapsed(r, s, ts);
    if elapsed < 0 then 0 else SaturatingSub(WallTick(r, s, elapsed), lagMs / r.tickMs(s))
  }

  /** The predicted half of a poll. */
  function PredictedTo<S(!new)>(r: Rules<S>, e: Engine<S>, wall: nat): (res: (Engine<S>, bool))
    requires Lawful(r)
  {
    match e.predicted
    case None => (e, false)
    case Some(p) =>
      var run := RunTo(r, p, true, Min(wall, MaxPredictedTick(r, e)));
      (e.(predicted := Some(run.state)), run.failed)
  }

  function Polled<S(!new)>(r: Rules<S>, e: Engine<S>, ts: int): (res: (Engine<S>, Outcome<seq<Labelled<S>>>))
    requires Lawful(r)
  {
    var elapsed := Elapsed(r, e.committed, ts);
    if elapsed < 0 then (e, Ok([]))
    else
      var wall := WallTick(r, e.committed, elapsed);
      var run := RunTo(r, e.committed, false, LaggedTarget(r, e.committed, e.lagMs, ts));
      var e1 := e.(committed := run.state);
      if run.failed then (e1, Err)
      else
        var (e2, rebuilt) := if e.needsRebuild then Rebuilt(r, e1, ts) else (e1, Ok(()));
        if !rebuilt.Ok? then (e2, Err)
        else
          var (e3, failed) := PredictedTo(r, e2, wall);
          (e3, if failed then Err else Ok(run.events))
  }

  function SchedulerLagMs<S>(r: Rules<S>, e: Engine<S>, ts: int): (ms: nat) {
    match r.startMs(e.committed)
    case None => 0
    case Some(epoch) =>
      if r.complete(e.committed) || ts < epoch then 0
      else
        var tickMs := Max(1, r.tickMs(e.committed));
        var wall := Min((ts - epoch) / tickMs, U32_RANGE - 1);
        SaturatingSub(SaturatingSub(wall, e.lagMs / tickMs), r.tick(e.committed)) * tickMs
  }

  // ---------------------------------------------------------- server authority

  /** The identity and activity tick the authoritative actor assigns: the later of the
      client's own tick and the actor's. */
  function Assigned<S>(r: Rules<S>, s: S, counter: nat, m: CommandMessage): (c: CommandMessage)
    ensures c.clientId == m.clientId && c.command == m.command && c.serverId.Some?
    ensures c.serverId.value.userId == m.clientId.userId && c.serverId.value.sequence == counter
    ensures m.clientId.tick <= c.serverId.value.tick && r.tick(s) <= c.serverId.value.tick
    ensures c.serverId.value.tick == m.clientId.tick || c.serverId.value.tick == r.tick(s)
  {
    CommandMessage(m.clientId, Some(CommandId(Max(m.clientId.tick, r.tick(s)), m.clientId.userId, counter)), m.command)
  }

  function ScheduledBoth<S>(r: Rules<S>, e: Engine<S>, c: CommandMessage): (f: Engine<S>) {
    e.(committed := r.schedule(e.committed, c),
       predicted := match e.predicted case Some(p) => Some(r.schedule(p, c)) case None => None)
  }

  function Accepted<S>(r: Rules<S>, e: Engine<S>, m: CommandMessage): (res: (Engine<S>, CommandMessage)) {
    var c := Assigned(r, e.committed, e.commandCounter, m);
    (ScheduledBoth(r, e.(commandCounter := AsU32(e.commandCounter + 1)), c), c)
  }

  predicate Replayable<S>(r: Rules<S>, e: Engine<S>, c: CommandMessage, acceptedAt: nat) {
    && c.serverId.Some?
    && c.serverId.value.sequence == e.commandCounter
    && c.serverId.value.userId == c.clientId.userId
    && r.tick(e.committed) <= c.serverId.value.tick
    && r.tick(e.committed) <= acceptedAt <= c.serverId.value.tick
  }

  /** Re-anchor prediction on the recovered state and schedule the decided command. */
  function Recovered<S>(r: Rules<S>, e: Engine<S>, c: CommandMessage): (res: (Engine<S>, Outcome<()>)) {
    var f := e.(predicted := Some(r.dropRng(e.committed)));
    if e.commandCounter + 1 >= U32_RANGE then (f, Err)
    else (ScheduledBoth(r, f.(commandCounter := e.commandCounter + 1), c), Ok(()))
  }

  function Replayed<S(!new)>(r: Rules<S>, e: Engine<S>, c: CommandMessage,
          acceptedAt: nat): (res: (Engine<S>, Outcome<()>))
    requires Lawful(r)
  {
    if !Replayable(r, e, c, acceptedAt) then (e, Err)
    else
      var run := RunTo(r, e.committed, false, acceptedAt);
      var e1 := e.(committed := run.state);
      if run.failed || r.tick(run.state) < acceptedAt then (e1, Err) else Recovered(r, e1, c)
  }

  function Readied<S>(r: Rules<S>, e: Engine<S>, event: GameEvent<S>): (res: (Engine<S>, Outcome<()>)) {
    if !(event.PlayerReady? || event.MatchStartScheduled?) || r.tick(e.committed) != 0 then (e, Err)
    else (e.(committed := r.applyReadiness(e.committed, event), needsRebuild := true), Ok(()))
  }

  // ------------------------------------------------------------- runs of operations

  datatype Op<S> =
    | Receive(message: EventMessage<S>)
    | IssueLocal(command: Command)
    | DiscardLocal(id: CommandId)
    | RebuildPrediction(ts: int)
    | Poll(ts: int)
    | AcceptCommand(input: CommandMessage)
    | ReplayCommand(scheduled: CommandMessage, acceptedAt: nat)
    | Ready(event: GameEvent<S>)
    | SetPlayer(playerId: nat)

  /** One operation on a live engine; an operation that fails still leaves an engine
      behind, one that never returns does not. */
  function Perform<S(!new)>(r: Rules<S>, e: Engine<S>, op: Op<S>): (f: Option<Engine<S>>)
    requires Lawful(r)
  {
    match op
    case Receive(m) => var (f, o) := Received(r, e, m); if o.Hang? then None else Some(f)
    case IssueLocal(c) => Some(Issued(r, e, c).0)
    case DiscardLocal(id) => Some(Discarded(e, id))
    case RebuildPrediction(ts) => Some(Rebuilt(r, e, ts).0)
    case Poll(ts) => Some(Polled(r, e, ts).0)
    case AcceptCommand(m) => Some(Accepted(r, e, m).0)
    case ReplayCommand(c, at) => Some(Replayed(r, e, c, at).0)
    case Ready(event) => Some(Readied(r, e, event).0)
    case SetPlayer(id) => Some(e.(player := Some(id)))
  }

  /** A whole run, oldest operation first. */
  function Performed<S(!new)>(r: Rules<S>, e: Engine<S>, ops: seq<Op<S>>): (f: Option<Engine<S>>)
    requires Lawful(r)
    decreases |ops|
  {
    if ops == [] then Some(e)
    else match Performed(r, e, ops[..|ops| - 1])
      case Some(f) => Perform(r, f, ops[|ops| - 1])
      case None => None
  }
}
