/** What a client's committed state is worth after an unreliable transport: any
    loss, duplication and reordering of a numbered log, interleaved with any local
    activity. */
module StreamSafety {
  import opened Simulation
  import opened Replication
  import opened EngineSpec

  /** The executor numbers everything it publishes from 1. */
  ghost predicate Numbered<S>(log: seq<EventMessage<S>>) {
    forall i :: 0 <= i < |log| ==> log[i].streamSeq == i + 1
  }

  ghost predicate FromLog<S>(log: seq<EventMessage<S>>, m: EventMessage<S>) {
    1 <= m.streamSeq <= |log| && m == log[m.streamSeq - 1]
  }

  /** A client receives messages of the log, in any order and any number of times, and
      otherwise only issues, retracts and predicts. */
  ghost predicate ClientOp<S>(log: seq<EventMessage<S>>, op: Op<S>) {
    match op
    case Receive(m) => FromLog(log, m)
    case IssueLocal(_) => true
    case DiscardLocal(_) => true
    case RebuildPrediction(_) => true
    case SetPlayer(_) => true
    case _ => false
  }

  ghost predicate ClientRun<S>(log: seq<EventMessage<S>>, ops: seq<Op<S>>) {
    forall i :: 0 <= i < |ops| ==> ClientOp(log, ops[i])
  }

  predicate AppliedSnapshot<S>(r: Rules<S>, m: EventMessage<S>) {
    m.event.Snapshot? && !RejectedSnapshot(r, m)
  }

  /** Where the client's trust starts: the stream number of the latest applied
      snapshot, or failing that of the first message delivered; 0 before any. */
  function Anchor<S>(r: Rules<S>, ops: seq<Op<S>>): (a: nat) {
    if ops == [] then 0
    else
      var earlier := Anchor(r, ops[..|ops| - 1]);
      match ops[|ops| - 1]
      case Receive(m) => if AppliedSnapshot(r, m) || earlier == 0 then m.streamSeq else earlier
      case _ => earlier
  }

  /** The claim at one moment of a run. */
  ghost predicate Trustworthy<S(!new)>(r: Rules<S>, log: seq<EventMessage<S>>, start: S, anchor: nat, e: Engine<S>)
    requires Lawful(r)
  {
    var last := e.sync.lastStreamSeq;
    if last == 0 then anchor == 0 && e.committed == start
    else 1 <= anchor <= last <= |log| && Batch(r, start, log[anchor - 1..last]) == Ok(e.committed)
  }

  lemma OneMessage<S(!new)>(r: Rules<S>, s: S, m: EventMessage<S>)
    requires Lawful(r)
    ensures Batch(r, s, [m]) == Advanced(r, s, m)
  {
  }

  lemma NextMessage<S(!new)>(r: Rules<S>, log: seq<EventMessage<S>>, start: S, anchor: nat, e: Engine<S>,
          m: EventMessage<S>)
    requires Lawful(r) && Numbered(log) && FromLog(log, m)
    requires e.sync.lastStreamSeq != 0 && Trustworthy(r, log, start, anchor, e)
    requires m.streamSeq == e.sync.lastStreamSeq + 1
    ensures Batch(r, start, log[anchor - 1..m.streamSeq]) == Advanced(r, e.committed, m)
  {
    var last := e.sync.lastStreamSeq;
    assert log[anchor - 1..m.streamSeq] == log[anchor - 1..last] + [m];
    BatchConcat(r, start, log[anchor - 1..last], [m]);
    OneMessage(r, e.committed, m);
  }

  /** Receiving keeps the claim, or raises the resync flag. */
  lemma ReceiveKeepsTrust<S(!new)>(r: Rules<S>, log: seq<EventMessage<S>>, start: S, earlier: nat, e: Engine<S>,
          m: EventMessage<S>)
    requires Lawful(r) && Numbered(log) && FromLog(log, m)
    requires !e.sync.needsResync ==> Trustworthy(r, log, start, earlier, e)
    requires !Received(r, e, m).1.Hang?
    ensures var f := Received(r, e, m).0;
            var anchor := if AppliedSnapshot(r, m) || earlier == 0 then m.streamSeq else earlier;
            !f.sync.needsResync ==> Trustworthy(r, log, start, anchor, f)
  {
    var f := Received(r, e, m).0;
    if !f.sync.needsResync {
      if AppliedSnapshot(r, m) || (e.sync.lastStreamSeq == 0 && !e.sync.needsResync) {
        assert log[m.streamSeq - 1..m.streamSeq] == [m];
        OneMessage(r, start, m);
      } else if !Stale(e.sync, m) {
        NextMessage(r, log, start, earlier, e, m);
      }
    }
  }

  /** Local activity never touches what the transport established. */
  lemma LocalActivityKeepsTrust<S(!new)>(r: Rules<S>, log: seq<EventMessage<S>>, e: Engine<S>, op: Op<S>)
    requires Lawful(r) && ClientOp(log, op) && !op.Receive?
    ensures var f := Perform(r, e, op); f.Some? && f.value.committed == e.committed && f.value.sync == e.sync
  {
  }

  /** Stream safety. Whenever no resync is pending, the committed state is exactly the
      lossless, in-order, exactly-once replay of the log from the anchor through the
      watermark. */
  lemma {:induction false} StreamSafe<S(!new)>(r: Rules<S>, log: seq<EventMessage<S>>, e0: Engine<S>, ops: seq<Op<S>>)
    requires Lawful(r) && Numbered(log) && ClientRun(log, ops)
    requires e0.sync.lastStreamSeq == 0
    ensures var e := Performed(r, e0, ops);
            e.Some? && !e.value.sync.needsResync ==> Trustworthy(r, log, e0.committed, Anchor(r, ops), e.value)
    decreases |ops|
  {
    if ops != [] {
      var prefix, op := ops[..|ops| - 1], ops[|ops| - 1];
      StreamSafe(r, log, e0, prefix);
      var e := Performed(r, e0, prefix);
      if e.Some? && Perform(r, e.value, op).Some? {
        if op.Receive? {
          ReceiveKeepsTrust(r, log, e0.committed, Anchor(r, prefix), e.value, op.message);
        } else {
          LocalActivityKeepsTrust(r, log, e.value, op);
        }
      }
    }
  }

  /** A message that fails is a no-op on the simulation and on pending input, and it
      always asks for a resync; a stale one is skipped without any effect on them. */
  lemma FailedMessageIsTransactional<S(!new)>(r: Rules<S>, e: Engine<S>, m: EventMessage<S>)
    requires Lawful(r)
    ensures var (f, o) := Received(r, e, m);
            (o.Err? || Stale(e.sync, m)) ==>
              f.committed == e.committed && f.speculative == e.speculative && f.predicted == e.predicted &&
              (o.Err? ==> f.sync.needsResync)
    ensures Received(r, e, m).1.Err? <==>
              RejectedSnapshot(r, m) || (!Stale(e.sync, m) && Advanced(r, e.committed, m).Err?)
  {
  }

  /** The published snapshots say what the log before them says. */
  ghost predicate CoherentLog<S(!new)>(r: Rules<S>, origin: S, log: seq<EventMessage<S>>)
    requires Lawful(r)
  {
    forall i :: 0 <= i < |log| && AppliedSnapshot(r, log[i]) ==> Batch(r, origin, log[..i]) == Ok(log[i].event.state)
  }

  /** The client was anchored by a snapshot, or saw the stream from its first message. */
  ghost predicate Joined<S>(r: Rules<S>, origin: S, log: seq<EventMessage<S>>, e0: Engine<S>, ops: seq<Op<S>>) {
    var a := Anchor(r, ops);
    (1 <= a <= |log| && AppliedSnapshot(r, log[a - 1])) || (e0.committed == origin && a == 1)
  }

  lemma SnapshotForgets<S(!new)>(r: Rules<S>, s: S, t: S, ms: seq<EventMessage<S>>)
    requires Lawful(r) && ms != [] && AppliedSnapshot(r, ms[0])
    ensures Batch(r, s, ms) == Batch(r, t, ms)
  {
  }

  /** Replaying a coherent log from the snapshot at `a`, or from the origin at message
      one, is replaying it from the origin. */
  lemma AnchorDisappears<S(!new)>(r: Rules<S>, origin: S, log: seq<EventMessage<S>>, s0: S, a: nat, last: nat)
    requires Lawful(r) && CoherentLog(r, origin, log) && 1 <= a <= last + 1 && last <= |log|
    requires (a <= last && AppliedSnapshot(r, log[a - 1])) || (s0 == origin && a == 1)
    ensures Batch(r, origin, log[..last]) == Batch(r, s0, log[a - 1..last])
  {
    if a <= last && AppliedSnapshot(r, log[a - 1]) {
      var before, rest := log[..a - 1], log[a - 1..last];
      assert log[..last] == before + rest;
      BatchConcat(r, origin, before, rest);
      SnapshotForgets(r, s0, log[a - 1].event.state, rest);
    } else {
      assert log[..last] == log[a - 1..last];
    }
  }

  /** On a coherent log the anchor disappears from the claim: the client holds the
      server's own history up to its watermark. */
  lemma HoldsServerHistory<S(!new)>(r: Rules<S>, origin: S, log: seq<EventMessage<S>>, e0: Engine<S>, ops: seq<Op<S>>)
    requires Lawful(r) && Numbered(log) && CoherentLog(r, origin, log) && ClientRun(log, ops)
    requires e0.sync.lastStreamSeq == 0 && Joined(r, origin, log, e0, ops)
    ensures var e := Performed(r, e0, ops);
            e.Some? && !e.value.sync.needsResync ==>
              e.value.sync.lastStreamSeq <= |log| &&
              Batch(r, origin, log[..e.value.sync.lastStreamSeq]) == Ok(e.value.committed)
  {
    StreamSafe(r, log, e0, ops);
    var e := Performed(r, e0, ops);
    if e.Some? && !e.value.sync.needsResync {
      AnchorDisappears(r, origin, log, e0.committed, Anchor(r, ops), e.value.sync.lastStreamSeq);
    }
  }

  /** Agreement: two clients fed the same log through different unreliable channels,
      with different local activity, hold the same committed state at equal watermarks. */
  lemma ReplicasAgree<S(!new)>(r: Rules<S>, origin: S, log: seq<EventMessage<S>>, a0: Engine<S>, aOps: seq<Op<S>>,
          b0: Engine<S>, bOps: seq<Op<S>>)
    requires Lawful(r) && Numbered(log) && CoherentLog(r, origin, log)
    requires ClientRun(log, aOps) && ClientRun(log, bOps)
    requires a0.sync.lastStreamSeq == 0 && Joined(r, origin, log, a0, aOps)
    requires b0.sync.lastStreamSeq == 0 && Joined(r, origin, log, b0, bOps)
    requires Performed(r, a0, aOps).Some? && Performed(r, b0, bOps).Some?
    ensures var a, b := Performed(r, a0, aOps).value, Performed(r, b0, bOps).value;
            !a.sync.needsResync && !b.sync.needsResync && a.sync.lastStreamSeq == b.sync.lastStreamSeq ==>
              a.committed == b.committed
  {
    HoldsServerHistory(r, origin, log, a0, aOps);
    HoldsServerHistory(r, origin, log, b0, bOps);
  }

  // ------------------------------------------------------------------ a good channel

  /** The messages a run receives, in order. */
  function Delivered<S>(ops: seq<Op<S>>): (ms: seq<EventMessage<S>>) {
    if ops == [] then []
    else
      var earlier := Delivered(ops[..|ops| - 1]);
      match ops[|ops| - 1]
      case Receive(m) => earlier + [m]
      case _ => earlier
  }

  /** Message `i` applies on top of those before it; a probe carries the hash of the state
      reached, and a rejection fences nothing. */
  ghost predicate SoundAt<S(!new)>(r: Rules<S>, start: S, ms: seq<EventMessage<S>>, i: nat)
    requires Lawful(r) && i < |ms|
  {
    var o, event := Batch(r, start, ms[..i + 1]), ms[i].event;
    && o.Ok?
    && (event.TickHash? ==> event.hash == r.syncHash(o.value))
    && (event.CommandRejected? && event.rejected.Some? ==> event.sessionRejectedFrom.None?)
  }

  ghost predicate SoundLog<S(!new)>(r: Rules<S>, start: S, ms: seq<EventMessage<S>>)
    requires Lawful(r)
  {
    forall i :: 0 <= i < |ms| ==> SoundAt(r, start, ms, i)
  }

  /** The engine has taken in exactly the messages `ms`, and no alarm is up. */
  ghost predicate InStep<S(!new)>(r: Rules<S>, start: S, ms: seq<EventMessage<S>>, e: Engine<S>)
    requires Lawful(r)
  {
    && !e.sync.needsResync && e.sync.consecutiveMismatches == 0
    && e.sync.lastStreamSeq == |ms| && Batch(r, start, ms) == Ok(e.committed)
  }

  lemma SoundPrefix<S(!new)>(r: Rules<S>, start: S, ms: seq<EventMessage<S>>, n: nat)
    requires Lawful(r) && SoundLog(r, start, ms) && n <= |ms|
    ensures SoundLog(r, start, ms[..n])
  {
    forall i | 0 <= i < n ensures SoundAt(r, start, ms[..n], i) {
      assert SoundAt(r, start, ms, i) && ms[..n][..i + 1] == ms[..i + 1];
    }
  }

  /** The next sound message raises no alarm. */
  lemma SoundMessageKeepsStep<S(!new)>(r: Rules<S>, start: S, before: seq<EventMessage<S>>, m: EventMessage<S>,
          e: Engine<S>)
    requires Lawful(r) && InStep(r, start, before, e) && m.streamSeq == |before| + 1
    requires SoundAt(r, start, before + [m], |before|)
    ensures Received(r, e, m).1.Ok? && InStep(r, start, before + [m], Received(r, e, m).0)
  {
    assert (before + [m])[..|before| + 1] == before + [m];
    BatchConcat(r, start, before, [m]);
    OneMessage(r, e.committed, m);
  }

  /** The counterpart of stream safety: a client that receives a sound log in order, with
      any local activity in between, never asks for a resync and ends at the watermark in
      the state the log leads to. */
  lemma {:induction false} GoodChannelNeverResyncs<S(!new)>(r: Rules<S>, log: seq<EventMessage<S>>,
          e0: Engine<S>, ops: seq<Op<S>>)
    requires Lawful(r) && Numbered(log) && ClientRun(log, ops) && Delivered(ops) <= log
    requires SoundLog(r, e0.committed, log)
    requires e0.sync.lastStreamSeq == 0 && !e0.sync.needsResync && e0.sync.consecutiveMismatches == 0
    ensures Performed(r, e0, ops).Some? && InStep(r, e0.committed, Delivered(ops), Performed(r, e0, ops).value)
    decreases |ops|
  {
    if ops != [] {
      var prefix, op := ops[..|ops| - 1], ops[|ops| - 1];
      var before := Delivered(prefix);
      GoodChannelNeverResyncs(r, log, e0, prefix);
      var e := Performed(r, e0, prefix).value;
      match op {
        case Receive(m) =>
          SoundPrefix(r, e0.committed, log, |before| + 1);
          assert log[..|before| + 1] == before + [m];
          assert SoundAt(r, e0.committed, before + [m], |before|);
          SoundMessageKeepsStep(r, e0.committed, before, m, e);
        case _ =>
          LocalActivityKeepsTrust(r, log, e, op);
      }
    }
  }
}
