/** What the transport counters and the resync alarm of a client mean: each is read off
    the messages delivered to it, over every run. */
module Alarms {
  import opened Simulation
  import opened Replication
  import opened EngineSpec

  datatype Probe = Probe(tick: nat, serverTs: int, matched: bool)

  /** What one operation shows of the stream: the number and the tick it took in, whether
      it anchored the client, how many numbers it jumped, whether it was skipped, the probe
      it answered, and whether it failed, was refused or fenced the session. */
  datatype Sign = Sign(
    number: nat, tick: Option<nat>, snapshot: bool, jumped: nat, skipped: bool, probe: Option<Probe>, alarm: bool) {

    predicate Mismatch() { probe.Some? && !probe.value.matched }

    /** An applied snapshot or a matching probe. */
    predicate Clears() { snapshot || (probe.Some? && probe.value.matched) }
  }

  const QUIET: Sign := Sign(0, None, false, 0, false, None, false)

  /** The number of the latest message taken in; unnumbered ones do not count. */
  ghost function Watermark(signs: seq<Sign>): (last: nat) {
    if signs == [] then 0
    else
      var sign := signs[|signs| - 1];
      if sign.number > 0 then sign.number else Watermark(signs[..|signs| - 1])
  }

  /** Delivering `m` to a client in state `s` whose latest number is `last`. */
  ghost function SignOf<S(!new)>(r: Rules<S>, s: S, last: nat, m: EventMessage<S>): (sign: Sign)
    requires Lawful(r)
  {
    if m.event.Snapshot? && !(r.tick(m.event.state) == m.tick && r.admitted(m.event.state)) then QUIET.(alarm := true)
    else if !m.event.Snapshot? && 0 < m.streamSeq <= last then QUIET.(skipped := true)
    else
      var o := Advanced(r, s, m);
      Sign(m.streamSeq, Some(m.tick), m.event.Snapshot?,
           if !m.event.Snapshot? && 0 < last && last + 1 < m.streamSeq then m.streamSeq - last - 1 else 0,
           false,
           if m.event.TickHash? && o.Ok?
           then Some(Probe(m.tick, m.event.serverTs, r.syncHash(o.value) == m.event.hash)) else None,
           o.Err? || (m.event.CommandRejected? && m.event.rejected.Some? && m.event.sessionRejectedFrom.Some?))
  }

  ghost function SignNow<S(!new)>(r: Rules<S>, s: S, last: nat, op: Op<S>): (sign: Sign)
    requires Lawful(r)
  {
    if op.Receive? then SignOf(r, s, last, op.message) else QUIET
  }

  /** One sign per operation of a run. */
  ghost function Signs<S(!new)>(r: Rules<S>, e0: Engine<S>, ops: seq<Op<S>>): (signs: seq<Sign>)
    requires Lawful(r) && Performed(r, e0, ops).Some?
    ensures |signs| == |ops|
    decreases |ops|
  {
    if ops == [] then []
    else
      var prefix, op := ops[..|ops| - 1], ops[|ops| - 1];
      var before := Signs(r, e0, prefix);
      before + [SignNow(r, Performed(r, e0, prefix).value.committed, Watermark(before), op)]
  }

  // ------------------------------------------------------------------ what they mean

  ghost function One(b: bool): (n: nat) { if b then 1 else 0 }

  /** How many signs satisfy `p`. */
  ghost function Tally(signs: seq<Sign>, p: Sign -> bool): (n: nat) {
    if signs == [] then 0 else Tally(signs[..|signs| - 1], p) + One(p(signs[|signs| - 1]))
  }

  ghost function Jumped(signs: seq<Sign>): (n: nat) {
    if signs == [] then 0 else Jumped(signs[..|signs| - 1]) + signs[|signs| - 1].jumped
  }

  /** Nothing after `i` and before `n` clears a mismatch. */
  ghost predicate Standing(signs: seq<Sign>, i: nat, n: nat)
    requires n <= |signs|
  {
    forall j :: i < j < n ==> !signs[j].Clears()
  }

  /** The mismatching probes since the last matching one or applied snapshot. */
  ghost function Unanswered(signs: seq<Sign>): (open: set<nat>) {
    set i: nat | i < |signs| && signs[i].Mismatch() && Standing(signs, i, |signs|)
  }

  /** Operation `i` failed, was refused, fenced, jumped a number, or was the second
      mismatching probe in a row. */
  ghost predicate Raised(signs: seq<Sign>, i: nat)
    requires i < |signs|
  {
    || signs[i].alarm
    || signs[i].jumped > 0
    || (signs[i].Mismatch() && exists k: nat :: k < i && signs[k].Mismatch() && Standing(signs, k, i))
  }

  ghost predicate Unresolved(signs: seq<Sign>, i: nat)
    requires i < |signs|
  {
    Raised(signs, i) && forall j :: i <= j < |signs| ==> !signs[j].snapshot
  }

  /** An alarm was raised and no snapshot has been applied since. */
  ghost predicate Alarmed(signs: seq<Sign>) {
    exists i: nat :: i < |signs| && Unresolved(signs, i)
  }

  ghost predicate LatestProbe(signs: seq<Sign>, y: SyncStatus) {
    if exists i :: 0 <= i < |signs| && signs[i].probe.Some? then
      exists i :: 0 <= i < |signs| && signs[i].probe.Some? &&
        (forall j :: i < j < |signs| ==> signs[j].probe.None?) &&
        y.lastProbeTick == Some(signs[i].probe.value.tick) &&
        y.lastProbeMatched == Some(signs[i].probe.value.matched) &&
        y.lastServerTs == Some(signs[i].probe.value.serverTs)
    else y.lastProbeTick == None && y.lastProbeMatched == None && y.lastServerTs == None
  }

  ghost predicate FirstMismatch(signs: seq<Sign>, y: SyncStatus) {
    if exists i :: 0 <= i < |signs| && signs[i].Mismatch() then
      exists i :: 0 <= i < |signs| && signs[i].Mismatch() && (forall j :: 0 <= j < i ==> !signs[j].Mismatch()) &&
        y.firstMismatchTick == Some(signs[i].probe.value.tick)
    else y.firstMismatchTick == None
  }

  ghost predicate FurthestTick(signs: seq<Sign>, y: SyncStatus) {
    && (forall i :: 0 <= i < |signs| && signs[i].tick.Some? ==> signs[i].tick.value <= y.lastServerTick)
    && (y.lastServerTick == 0 || exists i :: 0 <= i < |signs| && signs[i].tick == Some(y.lastServerTick))
  }

  /** The transport counters, from what was delivered. */
  ghost predicate CountsDeliveries(signs: seq<Sign>, y: SyncStatus) {
    && y.lastStreamSeq == Watermark(signs)
    && y.missedMessages == Jumped(signs)
    && y.gapCount == Tally(signs, (g: Sign) => g.jumped > 0)
    && y.staleSkipped == Tally(signs, (g: Sign) => g.skipped)
    && y.totalProbes == Tally(signs, (g: Sign) => g.probe.Some?)
    && y.totalMismatches == Tally(signs, (g: Sign) => g.Mismatch())
  }

  /** The alarm and its mismatch counter, from what was delivered. */
  ghost predicate SoundsAlarm(signs: seq<Sign>, y: SyncStatus) {
    && y.consecutiveMismatches == |Unanswered(signs)|
    && (y.needsResync <==> Alarmed(signs))
  }

  ghost predicate Reports(signs: seq<Sign>, y: SyncStatus) {
    && CountsDeliveries(signs, y) && SoundsAlarm(signs, y)
    && LatestProbe(signs, y) && FirstMismatch(signs, y) && FurthestTick(signs, y)
  }

  // ------------------------------------------------------------------------- one step

  /** How one sign moves the status. */
  ghost predicate Moves(y: SyncStatus, sign: Sign, z: SyncStatus) {
    && z.lastStreamSeq == (if sign.number > 0 then sign.number else y.lastStreamSeq)
    && z.missedMessages == y.missedMessages + sign.jumped
    && z.gapCount == y.gapCount + One(sign.jumped > 0)
    && z.staleSkipped == y.staleSkipped + One(sign.skipped)
    && z.totalProbes == y.totalProbes + One(sign.probe.Some?)
    && z.totalMismatches == y.totalMismatches + One(sign.Mismatch())
    && MovesAlarm(y, sign, z) && MovesProbes(y, sign, z)
  }

  ghost predicate AlarmNow(y: SyncStatus, sign: Sign) {
    sign.alarm || sign.jumped > 0 || (sign.Mismatch() && y.consecutiveMismatches > 0)
  }

  ghost predicate MovesAlarm(y: SyncStatus, sign: Sign, z: SyncStatus) {
    && z.consecutiveMismatches == (if sign.Clears() then 0 else y.consecutiveMismatches + One(sign.Mismatch()))
    && (z.needsResync <==> !sign.snapshot && (y.needsResync || AlarmNow(y, sign)))
    && (sign.snapshot ==> !sign.alarm && sign.jumped == 0 && sign.probe.None?)
  }

  ghost predicate MovesProbes(y: SyncStatus, sign: Sign, z: SyncStatus) {
    && (sign.probe.None? ==>
          && z.lastProbeTick == y.lastProbeTick && z.lastProbeMatched == y.lastProbeMatched
          && z.lastServerTs == y.lastServerTs)
    && (sign.probe.Some? ==>
          && z.lastProbeTick == Some(sign.probe.value.tick) && z.lastProbeMatched == Some(sign.probe.value.matched)
          && z.lastServerTs == Some(sign.probe.value.serverTs))
    && z.firstMismatchTick ==
         (if sign.Mismatch() && y.firstMismatchTick.None? then Some(sign.probe.value.tick) else y.firstMismatchTick)
    && z.lastServerTick == (if sign.tick.Some? then Max(y.lastServerTick, sign.tick.value) else y.lastServerTick)
  }

  lemma DeliveryMoves<S(!new)>(r: Rules<S>, e: Engine<S>, m: EventMessage<S>)
    requires Lawful(r) && !Received(r, e, m).1.Hang?
    ensures Moves(e.sync, SignOf(r, e.committed, e.sync.lastStreamSeq, m), Received(r, e, m).0.sync)
  {
    var sign := SignOf(r, e.committed, e.sync.lastStreamSeq, m);
    if RejectedSnapshot(r, m) {
      assert sign == QUIET.(alarm := true);
    } else if Stale(e.sync, m) {
      assert sign == QUIET.(skipped := true);
    } else {
      TakenIn(r, e, m);
      var o := Advanced(r, e.committed, m);
      TakenMoves(e.sync, m, sign, o.Err?, m.event.TickHash? && o.Ok? && r.syncHash(o.value) == m.event.hash);
    }
  }

  lemma TakenIn<S(!new)>(r: Rules<S>, e: Engine<S>, m: EventMessage<S>)
    requires Lawful(r) && !Received(r, e, m).1.Hang? && !RejectedSnapshot(r, m) && !Stale(e.sync, m)
    ensures var o := Advanced(r, e.committed, m);
            Received(r, e, m).0.sync ==
            Taken(Noted(e.sync, m), m, o.Err?, m.event.TickHash? && o.Ok? && r.syncHash(o.value) == m.event.hash)
  {
  }

  /** The status after a message is taken in. */
  ghost function Taken<S>(y: SyncStatus, m: EventMessage<S>, failed: bool, matched: bool): (z: SyncStatus) {
    if failed then y.(needsResync := true)
    else if m.event.TickHash? then Probed(y, m.tick, m.event.serverTs, matched)
    else Settled(y, m.event)
  }

  lemma TakenMoves<S>(y: SyncStatus, m: EventMessage<S>, sign: Sign, failed: bool, matched: bool)
    requires m.event.Snapshot? ==> !failed
    requires !(!m.event.Snapshot? && 0 < m.streamSeq <= y.lastStreamSeq)
    requires sign.number == m.streamSeq && sign.tick == Some(m.tick) && sign.snapshot == m.event.Snapshot? && !sign.skipped
    requires sign.jumped ==
             if !m.event.Snapshot? && 0 < y.lastStreamSeq && y.lastStreamSeq + 1 < m.streamSeq
             then m.streamSeq - y.lastStreamSeq - 1 else 0
    requires sign.probe == if m.event.TickHash? && !failed then Some(Probe(m.tick, m.event.serverTs, matched)) else None
    requires sign.alarm == (failed || (m.event.CommandRejected? && m.event.rejected.Some? && m.event.sessionRejectedFrom.Some?))
    ensures Moves(y, sign, Taken(Noted(y, m), m, failed, matched))
  {
  }

  lemma OthersKeepStatus<S(!new)>(r: Rules<S>, e: Engine<S>, op: Op<S>)
    requires Lawful(r) && !op.Receive?
    ensures Perform(r, e, op).Some? && Perform(r, e, op).value.sync == e.sync
  {
  }

  // ------------------------------------------------------------------------ one more

  lemma TallyNext(before: seq<Sign>, sign: Sign, p: Sign -> bool)
    ensures Tally(before + [sign], p) == Tally(before, p) + One(p(sign))
  {
    assert (before + [sign])[..|before|] == before;
  }

  lemma CountsNext(before: seq<Sign>, sign: Sign, y: SyncStatus, z: SyncStatus)
    requires CountsDeliveries(before, y) && Moves(y, sign, z)
    ensures CountsDeliveries(before + [sign], z)
  {
    assert (before + [sign])[..|before|] == before;
    TallyNext(before, sign, (g: Sign) => g.jumped > 0);
    TallyNext(before, sign, (g: Sign) => g.skipped);
    TallyNext(before, sign, (g: Sign) => g.probe.Some?);
    TallyNext(before, sign, (g: Sign) => g.Mismatch());
  }

  lemma StandingNext(before: seq<Sign>, sign: Sign, i: nat, n: nat)
    requires n <= |before|
    ensures Standing(before + [sign], i, n) == Standing(before, i, n)
  {
    assert forall j :: 0 <= j < n ==> (before + [sign])[j] == before[j];
  }

  lemma UnansweredNext(before: seq<Sign>, sign: Sign)
    requires sign.snapshot ==> sign.probe.None?
    ensures Unanswered(before + [sign]) ==
            if sign.Clears() then {} else if sign.Mismatch() then Unanswered(before) + {|before|} else Unanswered(before)
  {
    var signs := before + [sign];
    forall i: nat | i < |before| ensures Standing(signs, i, |signs|) == (Standing(before, i, |before|) && !sign.Clears()) {
      assert signs[|before|] == sign;
      StandingNext(before, sign, i, |before|);
      assert forall j :: i < j < |before| ==> signs[j] == before[j];
    }
    assert forall i: nat :: i < |before| ==> signs[i] == before[i];
  }

  lemma RaisedNext(before: seq<Sign>, sign: Sign, i: nat)
    requires i < |before|
    ensures Raised(before + [sign], i) == Raised(before, i)
  {
    forall k: nat | k < i ensures Standing(before + [sign], k, i) == Standing(before, k, i) {
      StandingNext(before, sign, k, i);
    }
  }

  /** The newest sign is an alarm. */
  lemma RaisedNow(before: seq<Sign>, sign: Sign)
    ensures Raised(before + [sign], |before|) <==> sign.alarm || sign.jumped > 0 || (sign.Mismatch() && Unanswered(before) != {})
  {
    var signs := before + [sign];
    forall k: nat | k < |before| ensures Standing(signs, k, |before|) == Standing(before, k, |before|) && signs[k] == before[k] {
      StandingNext(before, sign, k, |before|);
    }
    if Unanswered(before) != {} {
      var k :| k in Unanswered(before);
      assert Standing(signs, k, |before|);
    }
    if sign.Mismatch() && Raised(signs, |before|) && !sign.alarm && sign.jumped == 0 {
      var k: nat :| k < |before| && signs[k].Mismatch() && Standing(signs, k, |before|);
      assert k in Unanswered(before);
    }
  }

  lemma AlarmedNext(before: seq<Sign>, sign: Sign)
    requires sign.snapshot ==> !sign.alarm && sign.jumped == 0 && sign.probe.None?
    ensures Alarmed(before + [sign]) <==> !sign.snapshot && (Alarmed(before) || Raised(before + [sign], |before|))
  {
    var signs := before + [sign];
    forall i: nat | i < |before| ensures Unresolved(signs, i) == (Unresolved(before, i) && !sign.snapshot) {
      RaisedNext(before, sign, i);
      assert signs[|before|] == sign;
      assert forall j :: i <= j < |before| ==> signs[j] == before[j];
    }
    if !sign.snapshot && Alarmed(before) {
      var i: nat :| i < |before| && Unresolved(before, i);
      assert Unresolved(signs, i);
    }
    if !sign.snapshot && Raised(signs, |before|) { assert Unresolved(signs, |before|); }
  }

  lemma AlarmNext(before: seq<Sign>, sign: Sign, y: SyncStatus, z: SyncStatus)
    requires SoundsAlarm(before, y) && MovesAlarm(y, sign, z)
    ensures SoundsAlarm(before + [sign], z)
  {
    UnansweredNext(before, sign);
    RaisedNow(before, sign);
    AlarmedNext(before, sign);
  }

  lemma LatestNext(before: seq<Sign>, sign: Sign, y: SyncStatus, z: SyncStatus)
    requires LatestProbe(before, y) && MovesProbes(y, sign, z)
    ensures LatestProbe(before + [sign], z)
  {
    var signs := before + [sign];
    assert signs[|before|] == sign && forall i :: 0 <= i < |before| ==> signs[i] == before[i];
  }

  lemma FirstNext(before: seq<Sign>, sign: Sign, y: SyncStatus, z: SyncStatus)
    requires FirstMismatch(before, y) && MovesProbes(y, sign, z)
    ensures FirstMismatch(before + [sign], z)
  {
    var signs := before + [sign];
    assert signs[|before|] == sign && forall i :: 0 <= i < |before| ==> signs[i] == before[i];
  }

  lemma FurthestNext(before: seq<Sign>, sign: Sign, y: SyncStatus, z: SyncStatus)
    requires FurthestTick(before, y) && MovesProbes(y, sign, z)
    ensures FurthestTick(before + [sign], z)
  {
    var signs := before + [sign];
    assert signs[|before|] == sign && forall i :: 0 <= i < |before| ==> signs[i] == before[i];
  }

  lemma ReportsNext(before: seq<Sign>, sign: Sign, y: SyncStatus, z: SyncStatus)
    requires Reports(before, y) && Moves(y, sign, z)
    ensures Reports(before + [sign], z)
  {
    CountsNext(before, sign, y, z);
    AlarmNext(before, sign, y, z);
    LatestNext(before, sign, y, z);
    FirstNext(before, sign, y, z);
    FurthestNext(before, sign, y, z);
  }

  /** A quiet operation that keeps the status keeps every report. */
  lemma QuietMoves(y: SyncStatus)
    ensures Moves(y, QUIET, y)
  {
  }

  /** In every run of a fresh engine the status reports the stream: the alarm is up exactly
      when, since the last applied snapshot, a message failed, a snapshot was refused, a
      number was jumped, a rejection was fenced or two processed probes in a row mismatched. */
  lemma {:induction false} StatusReportsStream<S(!new)>(r: Rules<S>, e0: Engine<S>, ops: seq<Op<S>>)
    requires Lawful(r) && e0.sync == FRESH_SYNC && Performed(r, e0, ops).Some?
    ensures Reports(Signs(r, e0, ops), Performed(r, e0, ops).value.sync)
    decreases |ops|
  {
    if ops != [] {
      var prefix, op := ops[..|ops| - 1], ops[|ops| - 1];
      StatusReportsStream(r, e0, prefix);
      var before, e := Signs(r, e0, prefix), Performed(r, e0, prefix).value;
      if op.Receive? {
        DeliveryMoves(r, e, op.message);
      } else {
        OthersKeepStatus(r, e, op);
        QuietMoves(e.sync);
      }
      ReportsNext(before, SignNow(r, e.committed, e.sync.lastStreamSeq, op), e.sync, Perform(r, e, op).value.sync);
    }
  }
}
