/** What client-side prediction may and may not do over whole runs of the engine. */
module Prediction {
  import opened Simulation
  import opened Replication
  import opened EngineSpec

  // ------------------------------------------------------------ bounded lead

  /** Prediction is due for a rebuild, or at most the lag window plus the free-run
      margin ahead of the last authoritative tick. */
  ghost predicate LeadBounded<S>(r: Rules<S>, e: Engine<S>) {
    e.needsRebuild || e.predicted.None? ||
    r.tick(e.predicted.value) <=
      r.tick(e.committed) + Max(1, (e.lagMs + 1000) / Max(1, r.tickMs(e.committed)))
  }

  lemma {:induction false} ScheduleAllKeepsClock<S(!new)>(r: Rules<S>, s: S, commands: seq<CommandMessage>)
    requires Lawful(r)
    ensures var t := ScheduleAll(r, s, commands);
            r.tick(t) == r.tick(s) && r.tickMs(t) == r.tickMs(s) && r.startMs(t) == r.startMs(s)
    decreases |commands|
  {
    if commands != [] { ScheduleAllKeepsClock(r, r.schedule(s, commands[0]), commands[1..]); }
  }

  lemma RebuildKeepsLead<S(!new)>(r: Rules<S>, e: Engine<S>, ts: int)
    requires Lawful(r) && LeadBounded(r, e)
    ensures LeadBounded(r, Rebuilt(r, e, ts).0)
  {
    ScheduleAllKeepsClock(r, r.dropRng(e.committed), e.speculative);
  }

  lemma PollKeepsLead<S(!new)>(r: Rules<S>, e: Engine<S>, ts: int)
    requires Lawful(r) && LeadBounded(r, e)
    ensures LeadBounded(r, Polled(r, e, ts).0)
  {
    var elapsed := Elapsed(r, e.committed, ts);
    if elapsed >= 0 {
      var run := RunTo(r, e.committed, false, LaggedTarget(r, e.committed, e.lagMs, ts));
      var e1 := e.(committed := run.state);
      assert LeadBounded(r, e1);
      RebuildKeepsLead(r, e1, ts);
    }
  }

  lemma ReplayKeepsLead<S(!new)>(r: Rules<S>, e: Engine<S>, c: CommandMessage, at: nat)
    requires Lawful(r) && LeadBounded(r, e)
    ensures LeadBounded(r, Replayed(r, e, c, at).0)
  {
  }

  lemma StepKeepsLead<S(!new)>(r: Rules<S>, e: Engine<S>, op: Op<S>)
    requires Lawful(r) && LeadBounded(r, e) && Perform(r, e, op).Some?
    ensures LeadBounded(r, Perform(r, e, op).value)
  {
    match op
    case RebuildPrediction(ts) => RebuildKeepsLead(r, e, ts);
    case Poll(ts) => PollKeepsLead(r, e, ts);
    case ReplayCommand(c, at) => ReplayKeepsLead(r, e, c, at);
    case _ =>
  }

  /** In every run, whatever the server sends or fails to send, prediction never runs
      away from authority. */
  lemma {:induction false} PredictionNeverRunsAway<S(!new)>(r: Rules<S>, s: S, next: nat, ops: seq<Op<S>>)
    requires Lawful(r) && Performed(r, Restored(r, s, next), ops).Some?
    ensures LeadBounded(r, Performed(r, Restored(r, s, next), ops).value)
    decreases |ops|
  {
    if ops != [] {
      PredictionNeverRunsAway(r, s, next, ops[..|ops| - 1]);
      StepKeepsLead(r, Performed(r, Restored(r, s, next), ops[..|ops| - 1]).value, ops[|ops| - 1]);
    }
  }

  // ----------------------------------------------------- speculative commands

  /** What one operation means for local commands: the one it issues, and the
      identities it settles by retracting them, by bringing their authoritative
      outcome, or by replacing the whole state. */
  datatype Moment = Moment(issued: Option<CommandMessage>, settled: iset<CommandId>)

  ghost const EVERY_ID: iset<CommandId> := iset id: CommandId | true

  ghost function OutcomesIn<S>(event: GameEvent<S>): (ids: iset<CommandId>) {
    match event
    case CommandScheduled(c) => iset{c.clientId}
    case CommandScheduledV2(c, _) => iset{c.clientId}
    case CommandRejected(Some(id), _) => iset{id}
    case Snapshot(_) => EVERY_ID
    case _ => iset{}
  }

  /** Messages that are refused, stale or inapplicable settle nothing. */
  ghost function SettledBy<S(!new)>(r: Rules<S>, e: Engine<S>, m: EventMessage<S>): (ids: iset<CommandId>)
    requires Lawful(r)
  {
    if RejectedSnapshot(r, m) || Stale(e.sync, m) || !Advanced(r, e.committed, m).Ok? then iset{}
    else OutcomesIn(m.event)
  }

  ghost function MomentOf<S(!new)>(r: Rules<S>, e: Engine<S>, op: Op<S>): (m: Moment)
    requires Lawful(r)
  {
    match op
    case IssueLocal(c) =>
      Moment(if e.player.Some? then Some(CommandMessage(LocalId(r, e, e.player.value), None, c)) else None, iset{})
    case DiscardLocal(id) => Moment(None, iset{id})
    case Receive(m) => Moment(None, SettledBy(r, e, m))
    case _ => Moment(None, iset{})
  }

  /** The history of a run. */
  ghost function Moments<S(!new)>(r: Rules<S>, e0: Engine<S>, ops: seq<Op<S>>): (ms: seq<Moment>)
    requires Lawful(r) && Performed(r, e0, ops).Some?
    ensures |ms| == |ops|
    decreases |ops|
  {
    if ops == [] then []
    else
      var prefix := ops[..|ops| - 1];
      Moments(r, e0, prefix) + [MomentOf(r, Performed(r, e0, prefix).value, ops[|ops| - 1])]
  }

  ghost predicate SettledBetween(ms: seq<Moment>, i: nat, n: nat, id: CommandId)
    requires n <= |ms|
  {
    exists j :: i < j < n && id in ms[j].settled
  }

  /** Commands issued before moment `i` and not settled since, up to moment `n`, in the
      order of issue. */
  ghost function Outstanding(ms: seq<Moment>, i: nat, n: nat): (pending: seq<CommandMessage>)
    requires i <= n <= |ms|
  {
    if i == 0 then []
    else
      var issued := ms[i - 1].issued;
      Outstanding(ms, i - 1, n) +
      (if issued.Some? && !SettledBetween(ms, i - 1, n, issued.value.clientId) then [issued.value] else [])
  }

  ghost function Unsettled(commands: seq<CommandMessage>, settled: iset<CommandId>): (kept: seq<CommandMessage>) {
    if commands == [] then []
    else
      var n := |commands| - 1;
      Unsettled(commands[..n], settled) + (if commands[n].clientId in settled then [] else [commands[n]])
  }

  /** Moving the horizon by one moment filters what was outstanding. */
  lemma {:induction false} HorizonStep(ms: seq<Moment>, i: nat, n: nat)
    requires i <= n < |ms|
    ensures Outstanding(ms, i, n + 1) == Unsettled(Outstanding(ms, i, n), ms[n].settled)
    decreases i
  {
    if i > 0 {
      HorizonStep(ms, i - 1, n);
      var issued := ms[i - 1].issued;
      var before := Outstanding(ms, i - 1, n);
      assert before + [] == before;
      if issued.Some? {
        var id := issued.value.clientId;
        assert SettledBetween(ms, i - 1, n + 1, id) <==> SettledBetween(ms, i - 1, n, id) || id in ms[n].settled;
        assert (before + [issued.value])[..|before|] == before;
      }
    }
  }

  lemma SettledPrefix(ms: seq<Moment>, more: seq<Moment>, i: nat, n: nat, id: CommandId)
    requires n <= |ms|
    ensures SettledBetween(ms + more, i, n, id) <==> SettledBetween(ms, i, n, id)
  {
    if SettledBetween(ms, i, n, id) {
      var j :| i < j < n && id in ms[j].settled;
      assert id in (ms + more)[j].settled;
    }
  }

  lemma {:induction false} OutstandingPrefix(ms: seq<Moment>, more: seq<Moment>, i: nat, n: nat)
    requires i <= n <= |ms|
    ensures Outstanding(ms + more, i, n) == Outstanding(ms, i, n)
    decreases i
  {
    if i > 0 {
      OutstandingPrefix(ms, more, i - 1, n);
      if ms[i - 1].issued.Some? { SettledPrefix(ms, more, i - 1, n, ms[i - 1].issued.value.clientId); }
    }
  }

  lemma {:induction false} UnsettledOne(commands: seq<CommandMessage>, id: CommandId)
    ensures Unsettled(commands, iset{id}) == Without(commands, id)
    decreases |commands|
  {
    if commands != [] {
      var n := |commands| - 1;
      UnsettledOne(commands[..n], id);
      assert commands == commands[..n] + [commands[n]];
      WithoutAppend(commands[..n], [commands[n]], id);
    }
  }

  lemma {:induction false} UnsettledExtremes(commands: seq<CommandMessage>)
    ensures Unsettled(commands, iset{}) == commands && Unsettled(commands, EVERY_ID) == []
    decreases |commands|
  {
    if commands != [] {
      var n := |commands| - 1;
      UnsettledExtremes(commands[..n]);
      assert commands == commands[..n] + [commands[n]];
    }
  }

  lemma RetiredIsUnsettled<S>(commands: seq<CommandMessage>, event: GameEvent<S>)
    ensures Retired(commands, event) == Unsettled(commands, OutcomesIn(event))
  {
    match event
    case CommandScheduled(c) => UnsettledOne(commands, c.clientId);
    case CommandScheduledV2(c, _) => UnsettledOne(commands, c.clientId);
    case CommandRejected(Some(id), _) => UnsettledOne(commands, id);
    case _ => UnsettledExtremes(commands);
  }

  lemma ReceiveSettles<S(!new)>(r: Rules<S>, e: Engine<S>, m: EventMessage<S>)
    requires Lawful(r)
    ensures Received(r, e, m).0.speculative == Unsettled(e.speculative, SettledBy(r, e, m))
    ensures Received(r, e, m).0.localSeq == e.localSeq
  {
    UnsettledExtremes(e.speculative);
    if !RejectedSnapshot(r, m) && !Stale(e.sync, m) && Advanced(r, e.committed, m).Ok? {
      RetiredIsUnsettled(e.speculative, m.event);
    }
  }

  lemma PollKeepsCommands<S(!new)>(r: Rules<S>, e: Engine<S>, ts: int)
    requires Lawful(r)
    ensures var f := Polled(r, e, ts).0; f.speculative == e.speculative && f.localSeq == e.localSeq
  {
  }

  ghost function IssuedNow(m: Moment): (k: nat) { if m.issued.Some? then 1 else 0 }

  /** One operation: the unsettled commands in order, then whatever it issued. */
  lemma CommandsStep<S(!new)>(r: Rules<S>, e: Engine<S>, op: Op<S>)
    requires Lawful(r) && Perform(r, e, op).Some?
    ensures var m := MomentOf(r, e, op);
            var f := Perform(r, e, op).value;
            f.speculative == Unsettled(e.speculative, m.settled) + (if m.issued.Some? then [m.issued.value] else [])
  {
    UnsettledExtremes(e.speculative);
    match op {
      case Receive(m) => ReceiveSettles(r, e, m);
      case DiscardLocal(id) => UnsettledOne(e.speculative, id);
      case Poll(ts) => PollKeepsCommands(r, e, ts);
      case _ =>
    }
    var kept := Unsettled(e.speculative, MomentOf(r, e, op).settled);
    assert kept + [] == kept;
  }

  lemma JustIssued(ms: seq<Moment>, n: nat)
    requires n < |ms|
    ensures Outstanding(ms, n + 1, n + 1) ==
            Outstanding(ms, n, n + 1) + (if ms[n].issued.Some? then [ms[n].issued.value] else [])
  {
  }

  /** One more moment: what it settles is gone, what it issues is outstanding. */
  lemma OutstandingNext(before: seq<Moment>, m: Moment)
    ensures var n := |before|;
            Outstanding(before + [m], n + 1, n + 1) ==
              Unsettled(Outstanding(before, n, n), m.settled) + (if m.issued.Some? then [m.issued.value] else [])
  {
    var ms, n := before + [m], |before|;
    OutstandingPrefix(before, [m], n, n);
    HorizonStep(ms, n, n);
    assert ms[n] == m;
    JustIssued(ms, n);
  }

  lemma SpeculativeStep<S(!new)>(r: Rules<S>, e: Engine<S>, op: Op<S>, before: seq<Moment>)
    requires Lawful(r) && Perform(r, e, op).Some? && e.speculative == Outstanding(before, |before|, |before|)
    ensures var ms := before + [MomentOf(r, e, op)]; Perform(r, e, op).value.speculative == Outstanding(ms, |ms|, |ms|)
  {
    CommandsStep(r, e, op);
    OutstandingNext(before, MomentOf(r, e, op));
  }

  /** At the end of any run the speculative list is exactly the commands issued and not
      yet scheduled, rejected, discarded or superseded by a snapshot, in issue order. */
  lemma {:induction false} SpeculativeIsOutstanding<S(!new)>(r: Rules<S>, e0: Engine<S>, ops: seq<Op<S>>)
    requires Lawful(r) && Performed(r, e0, ops).Some? && e0.speculative == []
    ensures Performed(r, e0, ops).value.speculative == Outstanding(Moments(r, e0, ops), |ops|, |ops|)
    decreases |ops|
  {
    if ops != [] {
      var prefix, op := ops[..|ops| - 1], ops[|ops| - 1];
      SpeculativeIsOutstanding(r, e0, prefix);
      SpeculativeStep(r, Performed(r, e0, prefix).value, op, Moments(r, e0, prefix));
    }
  }

  // ------------------------------------------------------------ unique identities

  ghost function IssueCount(ms: seq<Moment>): (k: nat) {
    if ms == [] then 0 else IssueCount(ms[..|ms| - 1]) + IssuedNow(ms[|ms| - 1])
  }

  lemma {:induction false} IssueCountGrows(ms: seq<Moment>, i: nat, j: nat)
    requires i < j <= |ms| && ms[i].issued.Some?
    ensures IssueCount(ms[..i]) < IssueCount(ms[..j]) <= IssueCount(ms)
    decreases j, |ms|
  {
    if j < |ms| {
      IssueCountGrows(ms[..|ms| - 1], i, j);
      assert ms[..|ms| - 1][..i] == ms[..i] && ms[..|ms| - 1][..j] == ms[..j];
    } else {
      assert ms[..j] == ms;
      if i + 1 < j {
        IssueCountGrows(ms[..j - 1], i, j - 1);
        assert ms[..j - 1][..i] == ms[..i] && ms[..j - 1][..j - 1] == ms[..j - 1];
      }
    }
  }

  lemma CounterStep(k: nat)
    ensures AsU32(AsU32(k) + 1) == AsU32(k + 1)
  {
  }

  /** Every issued command carries the running count of commands issued so far. */
  ghost predicate CountedAt(ms: seq<Moment>, i: nat)
    requires i < |ms|
  {
    ms[i].issued.Some? ==> ms[i].issued.value.clientId.sequence == AsU32(IssueCount(ms[..i]) + 1)
  }

  ghost predicate Counted(ms: seq<Moment>) {
    forall i :: 0 <= i < |ms| ==> CountedAt(ms, i)
  }

  lemma CountedStep(before: seq<Moment>, m: Moment)
    requires Counted(before) && CountedAt(before + [m], |before|)
    ensures Counted(before + [m])
  {
    var ms := before + [m];
    forall i | 0 <= i < |before| ensures CountedAt(ms, i) {
      assert CountedAt(before, i) && before[i] == ms[i] && before[..i] == ms[..i];
    }
  }

  lemma CounterMoves<S(!new)>(r: Rules<S>, e: Engine<S>, op: Op<S>)
    requires Lawful(r) && Perform(r, e, op).Some?
    ensures var issued := MomentOf(r, e, op).issued;
            Perform(r, e, op).value.localSeq == (if issued.Some? then AsU32(e.localSeq + 1) else e.localSeq) &&
            (issued.Some? ==> issued.value.clientId.sequence == AsU32(e.localSeq + 1))
  {
    match op {
      case Receive(m) => ReceiveSettles(r, e, m);
      case Poll(ts) => PollKeepsCommands(r, e, ts);
      case _ =>
    }
  }

  lemma SmallCounter(k: nat)
    requires k < U32_RANGE
    ensures AsU32(k) == k
  {
  }

  lemma CountNext(before: seq<Moment>, m: Moment, seqBefore: nat, seqAfter: nat)
    requires Counted(before) && seqBefore == AsU32(IssueCount(before))
    requires seqAfter == (if m.issued.Some? then AsU32(seqBefore + 1) else seqBefore)
    requires m.issued.Some? ==> m.issued.value.clientId.sequence == AsU32(seqBefore + 1)
    ensures seqAfter == AsU32(IssueCount(before + [m])) && Counted(before + [m])
  {
    CounterStep(IssueCount(before));
    assert (before + [m])[..|before|] == before;
    CountedStep(before, m);
  }

  lemma SequenceStep<S(!new)>(r: Rules<S>, e: Engine<S>, op: Op<S>, before: seq<Moment>)
    requires Lawful(r) && Perform(r, e, op).Some? && Counted(before) && e.localSeq == AsU32(IssueCount(before))
    ensures Perform(r, e, op).value.localSeq == AsU32(IssueCount(before + [MomentOf(r, e, op)]))
    ensures Counted(before + [MomentOf(r, e, op)])
  {
    CounterMoves(r, e, op);
    CountNext(before, MomentOf(r, e, op), e.localSeq, Perform(r, e, op).value.localSeq);
  }

  lemma {:induction false} SequenceCounts<S(!new)>(r: Rules<S>, e0: Engine<S>, ops: seq<Op<S>>)
    requires Lawful(r) && Performed(r, e0, ops).Some? && e0.localSeq == 0
    ensures Performed(r, e0, ops).value.localSeq == AsU32(IssueCount(Moments(r, e0, ops)))
    ensures Counted(Moments(r, e0, ops))
    decreases |ops|
  {
    if ops != [] {
      var prefix, op := ops[..|ops| - 1], ops[|ops| - 1];
      SequenceCounts(r, e0, prefix);
      SequenceStep(r, Performed(r, e0, prefix).value, op, Moments(r, e0, prefix));
    }
  }

  lemma DistinctSequences(ms: seq<Moment>, i: nat, j: nat)
    requires i < j < |ms| && CountedAt(ms, i) && CountedAt(ms, j) && IssueCount(ms) < U32_RANGE
    requires ms[i].issued.Some? && ms[j].issued.Some?
    ensures ms[i].issued.value.clientId.sequence < ms[j].issued.value.clientId.sequence
  {
    IssueCountGrows(ms, i, j);
    IssueCountGrows(ms, j, |ms|);
    SmallCounter(IssueCount(ms[..i]) + 1);
    SmallCounter(IssueCount(ms[..j]) + 1);
  }

  lemma SameResidue(a: nat, b: nat)
    ensures AsU32(a + 1) == AsU32(b + 1) <==> AsU32(a) == AsU32(b)
  {
  }

  lemma CollideAt(ms: seq<Moment>, i: nat, j: nat)
    requires Counted(ms) && i < |ms| && j < |ms| && ms[i].issued.Some? && ms[j].issued.Some?
    ensures var a, b := ms[i].issued.value.clientId, ms[j].issued.value.clientId;
            a == b <==> a.userId == b.userId && a.tick == b.tick && AsU32(IssueCount(ms[..i])) == AsU32(IssueCount(ms[..j]))
  {
    assert CountedAt(ms, i) && CountedAt(ms, j);
    SameResidue(IssueCount(ms[..i]), IssueCount(ms[..j]));
  }

  /** Exactly when two commands a client issued share an identity: same player, same
      predicted tick, and a whole number of turns of the 32-bit counter apart. */
  lemma IdsCollideExactly<S(!new)>(r: Rules<S>, e0: Engine<S>, ops: seq<Op<S>>, i: nat, j: nat)
    requires Lawful(r) && i < |ops| && j < |ops| && Performed(r, e0, ops).Some? && e0.localSeq == 0
    requires Moments(r, e0, ops)[i].issued.Some? && Moments(r, e0, ops)[j].issued.Some?
    ensures var ms := Moments(r, e0, ops);
            var a, b := ms[i].issued.value.clientId, ms[j].issued.value.clientId;
            a == b <==> a.userId == b.userId && a.tick == b.tick && AsU32(IssueCount(ms[..i])) == AsU32(IssueCount(ms[..j]))
  {
    SequenceCounts(r, e0, ops);
    CollideAt(Moments(r, e0, ops), i, j);
  }

  /** Until the 32-bit counter wraps, no two commands a client ever issues share an
      identity, even when issued on one tick or for different players. */
  lemma LocalIdsUnique<S(!new)>(r: Rules<S>, e0: Engine<S>, ops: seq<Op<S>>, i: nat, j: nat)
    requires Lawful(r) && i < j < |ops| && Performed(r, e0, ops).Some? && e0.localSeq == 0
    requires IssueCount(Moments(r, e0, ops)) < U32_RANGE
    ensures var ms := Moments(r, e0, ops);
            ms[i].issued.Some? && ms[j].issued.Some? ==> ms[i].issued.value.clientId != ms[j].issued.value.clientId
  {
    SequenceCounts(r, e0, ops);
    var ms := Moments(r, e0, ops);
    if ms[i].issued.Some? && ms[j].issued.Some? { DistinctSequences(ms, i, j); }
  }

  // ------------------------------------------------------------------ no residue

  /** A due rebuild reads only the committed state, the remaining commands and the
      clock: whatever else two engines went through, they predict the same state. */
  lemma RebuildForgets<S(!new)>(r: Rules<S>, e: Engine<S>, f: Engine<S>, ts: int)
    requires Lawful(r) && e.needsRebuild && f.needsRebuild
    requires e.committed == f.committed && e.speculative == f.speculative && e.lagMs == f.lagMs
    ensures var (e', eo) := Rebuilt(r, e, ts);
            var (f', fo) := Rebuilt(r, f, ts);
            eo == fo && (eo.Ok? ==> e'.predicted == f'.predicted && e'.predicted.Some? && !e'.needsRebuild && !f'.needsRebuild)
  {
  }

  /** Frames between issuing and retracting a command. */
  ghost predicate OnlyPredicts<S>(ops: seq<Op<S>>) {
    forall i :: 0 <= i < |ops| ==> ops[i].RebuildPrediction?
  }

  lemma {:induction false} PredictingKeepsInputs<S(!new)>(r: Rules<S>, e: Engine<S>, ops: seq<Op<S>>)
    requires Lawful(r) && OnlyPredicts(ops)
    ensures var f := Performed(r, e, ops);
            f.Some? && f.value.committed == e.committed && f.value.speculative == e.speculative && f.value.lagMs == e.lagMs
    decreases |ops|
  {
    if ops != [] { PredictingKeepsInputs(r, e, ops[..|ops| - 1]); }
  }

  lemma {:induction false} WithoutAbsent(commands: seq<CommandMessage>, id: CommandId)
    requires forall c :: c in commands ==> c.clientId != id
    ensures Without(commands, id) == commands
    decreases |commands|
  {
    if commands != [] { WithoutAbsent(commands[1..], id); }
  }

  /** Retraction leaves no residue: issue a command, predict with it for any number of
      frames, retract it; the next rebuild is the one of an engine that never issued it. */
  lemma RetractionLeavesNoResidue<S(!new)>(r: Rules<S>, e: Engine<S>, command: Command, frames: seq<Op<S>>, ts: int)
    requires Lawful(r) && e.player.Some? && OnlyPredicts(frames)
    requires forall c :: c in e.speculative ==> c.clientId != LocalId(r, e, e.player.value)
    ensures var (issued, o) := Issued(r, e, command);
            o.Ok? && Performed(r, issued, frames).Some? &&
            var retracted := Discarded(Performed(r, issued, frames).value, o.value.clientId);
            var (f, fo) := Rebuilt(r, retracted, ts);
            var (g, go) := Rebuilt(r, e.(needsRebuild := true), ts);
            fo == go && (fo.Ok? ==> f.predicted == g.predicted && f.speculative == g.speculative)
  {
    var (issued, o) := Issued(r, e, command);
    PredictingKeepsInputs(r, issued, frames);
    var id := o.value.clientId;
    WithoutAppend(e.speculative, [o.value], id);
    WithoutAbsent(e.speculative, id);
    assert Without([o.value], id) == [];
    assert e.speculative + [] == e.speculative;
    RebuildForgets(r, Discarded(Performed(r, issued, frames).value, id), e.(needsRebuild := true), ts);
  }
}
