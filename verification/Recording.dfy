/** Replay archives: an ordered message log with state anchors used as an index into
    it, and the highlight clips cut from one. */
module Recording {
  import opened Simulation
  import opened Replication

  const RECORDING_FORMAT_VERSION: nat := 1
  const CLIP_FORMAT_VERSION: nat := 1
  const GAMEPLAY_REPLAY_VERSION: nat := 12

  /** `sequence` is the highest recorder sequence already reflected in `state`. */
  datatype ReplayAnchor<S> = ReplayAnchor(tick: nat, sequence: nat, state: S)

  /** Recorded messages are kept in the envelope they are replayed with. */
  datatype GameRecording<S> = GameRecording(
    formatVersion: nat,
    gameplayVersion: nat,
    anchors: seq<ReplayAnchor<S>>,
    messages: seq<EventMessage<S>>,
    endTick: nat,
    endSyncHash: nat)

  // ------------------------------------------------------------------ validation

  /** Lexicographic order on (tick, sequence). */
  predicate Before(t: nat, q: nat, u: nat, v: nat) { t < u || (t == u && q < v) }

  predicate Reflected<S>(m: EventMessage<S>, a: ReplayAnchor<S>) { !Before(a.tick, a.sequence, m.tick, m.sequence) }

  predicate AnchorPairOrdered<S>(anchors: seq<ReplayAnchor<S>>, i: nat)
    requires i + 1 < |anchors|
  {
    anchors[i].tick < anchors[i + 1].tick
  }

  predicate AnchorsOrdered<S>(anchors: seq<ReplayAnchor<S>>) {
    forall i :: 0 <= i < |anchors| - 1 ==> AnchorPairOrdered(anchors, i)
  }

  predicate PairOrdered<S>(ms: seq<EventMessage<S>>, i: nat)
    requires i + 1 < |ms|
  {
    Before(ms[i].tick, ms[i].sequence, ms[i + 1].tick, ms[i + 1].sequence)
  }

  predicate MessagesOrdered<S>(ms: seq<EventMessage<S>>) {
    forall i :: 0 <= i < |ms| - 1 ==> PairOrdered(ms, i)
  }

  lemma SuffixOrdered<S>(ms: seq<EventMessage<S>>, low: nat)
    requires MessagesOrdered(ms) && low <= |ms|
    ensures MessagesOrdered(ms[low..])
  {
    var kept := ms[low..];
    forall i | 0 <= i < |kept| - 1 ensures PairOrdered(kept, i) { assert PairOrdered(ms, low + i); }
  }

  lemma SliceOrdered<S>(ms: seq<EventMessage<S>>, low: nat, high: nat)
    requires MessagesOrdered(ms) && low <= high <= |ms|
    ensures MessagesOrdered(ms[low..high])
  {
    var kept := ms[low..high];
    forall i | 0 <= i < |kept| - 1 ensures PairOrdered(kept, i) { assert PairOrdered(ms, low + i); }
  }

  predicate Validated<S>(r: Rules<S>, rec: GameRecording<S>) {
    && rec.formatVersion == RECORDING_FORMAT_VERSION
    && rec.gameplayVersion == GAMEPLAY_REPLAY_VERSION
    && rec.anchors != []
    && AnchorsOrdered(rec.anchors)
    && (forall i :: 0 <= i < |rec.anchors| ==>
          rec.anchors[i].tick == r.tick(rec.anchors[i].state) && r.valid(rec.anchors[i].state))
    && MessagesOrdered(rec.messages)
    && (forall i :: 0 <= i < |rec.messages| ==> rec.anchors[0].tick <= rec.messages[i].tick <= rec.endTick)
    && (forall i :: 0 <= i < |rec.anchors| ==> rec.anchors[i].tick <= rec.endTick)
  }

  lemma {:induction false} MessageOrder<S>(ms: seq<EventMessage<S>>, i: nat, j: nat)
    requires MessagesOrdered(ms) && i < j < |ms|
    ensures Before(ms[i].tick, ms[i].sequence, ms[j].tick, ms[j].sequence)
    decreases j
  {
    assert PairOrdered(ms, j - 1);
    if i + 1 < j { MessageOrder(ms, i, j - 1); }
  }

  lemma {:induction false} AnchorOrder<S>(anchors: seq<ReplayAnchor<S>>, i: nat, j: nat)
    requires AnchorsOrdered(anchors) && i < j < |anchors|
    ensures anchors[i].tick < anchors[j].tick
    decreases j
  {
    assert AnchorPairOrdered(anchors, j - 1);
    if i + 1 < j { AnchorOrder(anchors, i, j - 1); }
  }

  // --------------------------------------------------------------------- indexing

  /** `partition_point` of the messages an anchor already reflects. */
  function FirstAfter<S>(ms: seq<EventMessage<S>>, a: ReplayAnchor<S>): (n: nat)
    ensures n <= |ms|
    ensures forall i :: 0 <= i < n ==> Reflected(ms[i], a)
    ensures n < |ms| ==> !Reflected(ms[n], a)
  {
    if ms == [] || !Reflected(ms[0], a) then 0 else 1 + FirstAfter(ms[1..], a)
  }

  /** `partition_point` of the messages at or before a tick. */
  function LastUpTo<S>(ms: seq<EventMessage<S>>, target: nat): (n: nat)
    ensures n <= |ms|
    ensures forall i :: 0 <= i < n ==> ms[i].tick <= target
    ensures n < |ms| ==> target < ms[n].tick
  {
    if ms == [] || target < ms[0].tick then 0 else 1 + LastUpTo(ms[1..], target)
  }

  /** On an ordered log both bounds are exact cuts. */
  lemma CutsAreExact<S>(ms: seq<EventMessage<S>>, a: ReplayAnchor<S>, target: nat)
    requires MessagesOrdered(ms)
    ensures forall i :: 0 <= i < |ms| ==> (Reflected(ms[i], a) <==> i < FirstAfter(ms, a))
    ensures forall i :: 0 <= i < |ms| ==> (ms[i].tick <= target <==> i < LastUpTo(ms, target))
    ensures a.tick <= target ==> FirstAfter(ms, a) <= LastUpTo(ms, target)
  {
    var first, last := FirstAfter(ms, a), LastUpTo(ms, target);
    forall i | 0 <= i < |ms|
      ensures Reflected(ms[i], a) <==> i < first
      ensures ms[i].tick <= target <==> i < last
    {
      if first < i { MessageOrder(ms, first, i); }
      if last < i { MessageOrder(ms, last, i); }
    }
  }

  /** Searching the anchors from the back. */
  function NearestAnchor<S>(anchors: seq<ReplayAnchor<S>>, target: nat): (i: Option<nat>)
    ensures i.Some? ==> i.value < |anchors| && anchors[i.value].tick <= target
    ensures i.Some? ==> forall j :: i.value < j < |anchors| ==> target < anchors[j].tick
    ensures i.None? ==> forall j :: 0 <= j < |anchors| ==> target < anchors[j].tick
  {
    if anchors == [] then None
    else
      var n := |anchors| - 1;
      if anchors[n].tick <= target then Some(n) else NearestAnchor(anchors[..n], target)
  }

  // ---------------------------------------------------------------------- replay

  /** Replay from one anchor to a target tick; `None`-like bounds cannot occur because
      the cuts never cross. */
  function FromAnchor<S(!new)>(r: Rules<S>, rec: GameRecording<S>, a: ReplayAnchor<S>, target: nat): (o: Outcome<S>)
    requires Lawful(r) && MessagesOrdered(rec.messages) && a.tick <= target
  {
    CutsAreExact(rec.messages, a, target);
    Finish(r, a.state, rec.messages[FirstAfter(rec.messages, a)..LastUpTo(rec.messages, target)], target)
  }

  /** `state_at_tick`: validation, then replay from the nearest anchor. */
  function StateAt<S(!new)>(r: Rules<S>, rec: GameRecording<S>, target: nat): (o: Outcome<S>)
    requires Lawful(r)
  {
    if !Validated(r, rec) || rec.endTick < target then Err
    else match NearestAnchor(rec.anchors, target)
      case None => Err
      case Some(i) => FromAnchor(r, rec, rec.anchors[i], target)
  }

  /** The checks on a recording, written out. */
  ghost predicate Checked<S>(r: Rules<S>, rec: GameRecording<S>) {
    && rec.formatVersion == 1 && rec.gameplayVersion == 12 && |rec.anchors| > 0
    && (forall i :: 0 <= i < |rec.anchors| ==>
          var a := rec.anchors[i]; a.tick == r.tick(a.state) && r.valid(a.state) && a.tick <= rec.endTick)
    && (forall i, j :: 0 <= i < j < |rec.anchors| ==> rec.anchors[i].tick < rec.anchors[j].tick)
    && (forall i :: 0 <= i < |rec.messages| ==> rec.anchors[0].tick <= rec.messages[i].tick <= rec.endTick)
    && (forall i, j :: 0 <= i < j < |rec.messages| ==>
          var m, n := rec.messages[i], rec.messages[j]; m.tick < n.tick || (m.tick == n.tick && m.sequence < n.sequence))
  }

  /** A recording is valid exactly if every check on it passes, and it answers for no target
      outside its span. */
  lemma ArchiveIsChecked<S(!new)>(r: Rules<S>, rec: GameRecording<S>, target: nat)
    requires Lawful(r)
    ensures Validated(r, rec) <==> Checked(r, rec)
    ensures !StateAt(r, rec, target).Err? ==> Checked(r, rec) && rec.anchors[0].tick <= target <= rec.endTick
  {
    if Validated(r, rec) {
      forall i, j | 0 <= i < j < |rec.anchors| ensures rec.anchors[i].tick < rec.anchors[j].tick {
        AnchorOrder(rec.anchors, i, j);
      }
      forall i, j | 0 <= i < j < |rec.messages|
        ensures var m, n := rec.messages[i], rec.messages[j]; m.tick < n.tick || (m.tick == n.tick && m.sequence < n.sequence)
      {
        MessageOrder(rec.messages, i, j);
      }
    }
    if !StateAt(r, rec, target).Err? {
      var k := NearestAnchor(rec.anchors, target).value;
      if 0 < k { AnchorOrder(rec.anchors, 0, k); }
    }
  }

  method ReplayMessages<S(!new)>(r: Rules<S>, start: S, ms: seq<EventMessage<S>>) returns (o: Outcome<S>)
    requires Lawful(r)
    ensures o == Batch(r, start, ms)
  {
    var state := start;
    var i := 0;
    while i < |ms|
      invariant 0 <= i <= |ms|
      invariant Batch(r, state, ms[i..]) == Batch(r, start, ms)
    {
      var next := AdvanceAndApply(r, state, ms[i]);
      if !next.Ok? { return next; }
      state := next.value;
      i := i + 1;
    }
    return Ok(state);
  }

  method StepUpTo<S(!new)>(r: Rules<S>, start: S, target: nat) returns (o: Outcome<S>)
    requires Lawful(r)
    ensures o == StepTo(r, start, target)
  {
    var state := start;
    while r.tick(state) < target && !r.complete(state)
      invariant StepTo(r, state, target) == StepTo(r, start, target)
      decreases target - r.tick(state)
    {
      match r.step(state, true)
      case Stepped(n, _) => state := n;
      case StepFailed(_) => return Err;
    }
    return Ok(state);
  }

  method StateAtTick<S(!new)>(r: Rules<S>, rec: GameRecording<S>, target: nat) returns (o: Outcome<S>)
    requires Lawful(r)
    ensures o == StateAt(r, rec, target)
  {
    if !Validated(r, rec) || rec.endTick < target { return Err; }
    var nearest := NearestAnchor(rec.anchors, target);
    if nearest.None? { return Err; }
    var anchor := rec.anchors[nearest.value];
    CutsAreExact(rec.messages, anchor, target);
    var first, last := FirstAfter(rec.messages, anchor), LastUpTo(rec.messages, target);
    o := ReplayMessages(r, anchor.state, rec.messages[first..last]);
    if o.Ok? { o := StepUpTo(r, o.value, target); }
  }

  /** `verified_end_state`. */
  function VerifiedEndState<S(!new)>(r: Rules<S>, rec: GameRecording<S>): (o: Outcome<S>)
    requires Lawful(r)
    ensures o.Ok? ==> Validated(r, rec) && r.syncHash(o.value) == rec.endSyncHash
  {
    match StateAt(r, rec, rec.endTick)
    case Ok(s) => if r.syncHash(s) == rec.endSyncHash then Ok(s) else Err
    case other => other
  }

  // ------------------------------------------------------------------ coherence

  /** A relation under which states are interchangeable for movement-only replay: it
      is kept by stepping and by deltas, and no replay observer can tell its sides
      apart. */
  ghost predicate Congruence<S(!new)>(r: Rules<S>, R: (S, S) -> bool) {
    && (forall s :: R(s, s))
    && (forall s, t :: R(s, t) ==>
          r.tick(s) == r.tick(t) && r.complete(s) == r.complete(t) && r.syncHash(s) == r.syncHash(t))
    && (forall s, t :: R(s, t) ==>
          match (r.step(s, true), r.step(t, true))
          case (Stepped(a, _), Stepped(b, _)) => R(a, b)
          case (StepFailed(_), StepFailed(_)) => true
          case _ => false)
    && (forall s, t, e {:trigger R(s, t), r.applyDelta(s, e)} :: R(s, t) ==>
          match (r.applyDelta(s, e), r.applyDelta(t, e))
          case (Some(a), Some(b)) => R(a, b)
          case (None, None) => true
          case _ => false)
  }

  ghost predicate Related<S(!new)>(R: (S, S) -> bool, a: Outcome<S>, b: Outcome<S>) {
    match (a, b)
    case (Ok(s), Ok(t)) => R(s, t)
    case (Err, Err) => true
    case (Hang, Hang) => true
    case _ => false
  }

  lemma {:induction false} CongruentStepTo<S(!new)>(r: Rules<S>, R: (S, S) -> bool, s: S, t: S, target: nat)
    requires Lawful(r) && Congruence(r, R) && R(s, t)
    ensures Related(R, StepTo(r, s, target), StepTo(r, t, target))
    decreases target - r.tick(s)
  {
    if r.tick(s) < target && !r.complete(s) && r.step(s, true).Stepped? {
      CongruentStepTo(r, R, r.step(s, true).state, r.step(t, true).state, target);
    }
  }

  lemma CongruentAdvance<S(!new)>(r: Rules<S>, R: (S, S) -> bool, s: S, t: S, m: EventMessage<S>)
    requires Lawful(r) && Congruence(r, R) && R(s, t)
    ensures Related(R, Advanced(r, s, m), Advanced(r, t, m))
  {
    if !m.event.Snapshot? {
      CatchUpExact(r, s, m.tick);
      CatchUpExact(r, t, m.tick);
      CongruentStepTo(r, R, s, t, m.tick);
    }
  }

  lemma {:induction false} CongruentBatch<S(!new)>(r: Rules<S>, R: (S, S) -> bool, s: S, t: S, ms: seq<EventMessage<S>>)
    requires Lawful(r) && Congruence(r, R) && R(s, t)
    ensures Related(R, Batch(r, s, ms), Batch(r, t, ms))
    decreases |ms|
  {
    if ms != [] {
      CongruentAdvance(r, R, s, t, ms[0]);
      if Advanced(r, s, ms[0]).Ok? {
        CongruentBatch(r, R, Advanced(r, s, ms[0]).value, Advanced(r, t, ms[0]).value, ms[1..]);
      }
    }
  }

  lemma CongruentFinish<S(!new)>(r: Rules<S>, R: (S, S) -> bool, s: S, t: S, ms: seq<EventMessage<S>>, target: nat)
    requires Lawful(r) && Congruence(r, R) && R(s, t)
    ensures Related(R, Finish(r, s, ms, target), Finish(r, t, ms, target))
  {
    CongruentBatch(r, R, s, t, ms);
    if Batch(r, s, ms).Ok? {
      CongruentStepTo(r, R, Batch(r, s, ms).value, Batch(r, t, ms).value, target);
    }
  }

  /** An anchor is coherent with the log when replaying the log up to it, from the
      first anchor, arrives at an interchangeable state. */
  ghost predicate AnchorCoherent<S(!new)>(r: Rules<S>, R: (S, S) -> bool, rec: GameRecording<S>, i: nat)
    requires Lawful(r) && i < |rec.anchors|
  {
    var from, upTo := FirstAfter(rec.messages, rec.anchors[0]), FirstAfter(rec.messages, rec.anchors[i]);
    from <= upTo &&
    var o := Finish(r, rec.anchors[0].state, rec.messages[from..upTo], rec.anchors[i].tick);
    o.Ok? && R(o.value, rec.anchors[i].state)
  }

  ghost predicate Coherent<S(!new)>(r: Rules<S>, R: (S, S) -> bool, rec: GameRecording<S>)
    requires Lawful(r)
  {
    forall i :: 0 <= i < |rec.anchors| ==> AnchorCoherent(r, R, rec, i)
  }

  lemma AnchorSplit<S>(ms: seq<EventMessage<S>>, a: ReplayAnchor<S>, from: nat, target: nat)
    requires MessagesOrdered(ms) && from <= FirstAfter(ms, a) && a.tick <= target
    ensures var mid, last := FirstAfter(ms, a), LastUpTo(ms, target);
            mid <= last && ms[from..last] == ms[from..mid] + ms[mid..last] && AllAtOrAfter(ms[mid..last], a.tick)
  {
    CutsAreExact(ms, a, target);
  }

  /** Resuming from an interchangeable state gives an interchangeable result. */
  lemma ResumeRelated<S(!new)>(r: Rules<S>, R: (S, S) -> bool, s: S, head: seq<EventMessage<S>>, tick: nat, t: S,
          tail: seq<EventMessage<S>>, target: nat)
    requires Lawful(r) && Congruence(r, R) && tick <= target && AllAtOrAfter(tail, tick)
    requires var o := Finish(r, s, head, tick); o.Ok? && R(o.value, t)
    ensures Related(R, Finish(r, s, head + tail, target), Finish(r, t, tail, target))
  {
    var reached := Finish(r, s, head, tick).value;
    FinishResumes(r, s, head, tick, reached, tail, target);
    CongruentFinish(r, R, reached, t, tail, target);
  }

  /** Any anchor at or before the target answers as the first one does. */
  lemma AnyAnchorAgrees<S(!new)>(r: Rules<S>, R: (S, S) -> bool, rec: GameRecording<S>, i: nat, target: nat)
    requires Lawful(r) && Congruence(r, R) && Validated(r, rec)
    requires i < |rec.anchors| && AnchorCoherent(r, R, rec, i)
    requires rec.anchors[0].tick <= rec.anchors[i].tick <= target
    ensures Related(R, FromAnchor(r, rec, rec.anchors[0], target), FromAnchor(r, rec, rec.anchors[i], target))
  {
    var ms, a := rec.messages, rec.anchors[i];
    var from, mid, last := FirstAfter(ms, rec.anchors[0]), FirstAfter(ms, a), LastUpTo(ms, target);
    AnchorSplit(ms, a, from, target);
    ResumeRelated(r, R, rec.anchors[0].state, ms[from..mid], a.tick, a.state, ms[mid..last], target);
  }

  /** The anchor index is exact: for every target tick, replay from the nearest anchor
      and replay of the whole log from the first anchor end alike, failures included. */
  lemma AnchorIndexExact<S(!new)>(r: Rules<S>, R: (S, S) -> bool, rec: GameRecording<S>, target: nat)
    requires Lawful(r) && Congruence(r, R) && Validated(r, rec) && Coherent(r, R, rec)
    ensures target <= rec.endTick && rec.anchors[0].tick <= target ==>
              Related(R, FromAnchor(r, rec, rec.anchors[0], target), StateAt(r, rec, target))
    ensures (target < rec.anchors[0].tick || rec.endTick < target) ==> StateAt(r, rec, target).Err?
  {
    var nearest := NearestAnchor(rec.anchors, target);
    if nearest.Some? {
      var i := nearest.value;
      if i > 0 { AnchorOrder(rec.anchors, 0, i); }
      assert AnchorCoherent(r, R, rec, i);
      AnyAnchorAgrees(r, R, rec, i, target);
    }
  }

  /** On a coherent recording verification succeeds exactly when the archive is valid and
      replaying the whole log from the first anchor ends with the recorded fingerprint. */
  lemma VerifiesExactly<S(!new)>(r: Rules<S>, R: (S, S) -> bool, rec: GameRecording<S>)
    requires Lawful(r) && Congruence(r, R) && (Validated(r, rec) ==> Coherent(r, R, rec))
    ensures VerifiedEndState(r, rec).Ok? <==>
              Validated(r, rec) &&
              var o := FromAnchor(r, rec, rec.anchors[0], rec.endTick);
              o.Ok? && r.syncHash(o.value) == rec.endSyncHash
  {
    if Validated(r, rec) { AnchorIndexExact(r, R, rec, rec.endTick); }
  }

  ghost function Same<S(!new)>(): (R: (S, S) -> bool) { (s: S, t: S) => s == t }

  /** With exactly coherent anchors the answers are equal, not merely interchangeable. */
  lemma ExactAnchorsGiveEqualStates<S(!new)>(r: Rules<S>, rec: GameRecording<S>, target: nat)
    requires Lawful(r) && Validated(r, rec) && Coherent(r, Same<S>(), rec)
    requires rec.anchors[0].tick <= target <= rec.endTick
    ensures StateAt(r, rec, target) == FromAnchor(r, rec, rec.anchors[0], target)
  {
    AnchorIndexExact(r, Same<S>(), rec, target);
  }

  /** Every message past the anchor and up to the target is replayed exactly once, in
      particular same-tick messages recorded after the anchor; nothing else is. */
  lemma ReplayedExactlyOnce<S(!new)>(r: Rules<S>, rec: GameRecording<S>, a: ReplayAnchor<S>, target: nat, k: nat)
    requires Lawful(r) && Validated(r, rec) && a.tick <= target && k < |rec.messages|
    ensures var first, last := FirstAfter(rec.messages, a), LastUpTo(rec.messages, target);
            var m := rec.messages[k];
            first <= k < last <==> (a.tick < m.tick || (a.tick == m.tick && a.sequence < m.sequence)) && m.tick <= target
    ensures forall j :: 0 <= j < |rec.messages| && j != k ==>
              (rec.messages[j].tick, rec.messages[j].sequence) != (rec.messages[k].tick, rec.messages[k].sequence)
  {
    CutsAreExact(rec.messages, a, target);
    forall j | 0 <= j < |rec.messages| && j != k
      ensures (rec.messages[j].tick, rec.messages[j].sequence) != (rec.messages[k].tick, rec.messages[k].sequence)
    {
      if j < k { MessageOrder(rec.messages, j, k); } else { MessageOrder(rec.messages, k, j); }
    }
  }

  // ------------------------------------------------------------------------ clips

  datatype HighlightClip<S> = HighlightClip(
    formatVersion: nat,
    gameplayVersion: nat,
    startTick: nat,
    endTick: nat,
    anchor: S,
    messages: seq<EventMessage<S>>,
    endSyncHash: nat)

  function Wanted<S>(ms: seq<EventMessage<S>>, a: ReplayAnchor<S>, endTick: nat): (kept: seq<EventMessage<S>>) {
    if ms == [] then []
    else (if Before(a.tick, a.sequence, ms[0].tick, ms[0].sequence) && ms[0].tick <= endTick then [ms[0]] else []) +
         Wanted(ms[1..], a, endTick)
  }

  /** Cut the window `startTick..endTick` out of a validated recording. */
  function Cut<S(!new)>(r: Rules<S>, rec: GameRecording<S>, startTick: nat,
          endTick: nat): (clip: Option<HighlightClip<S>>)
    requires Lawful(r)
  {
    match NearestAnchor(rec.anchors, startTick)
    case None => None
    case Some(i) =>
      var a := rec.anchors[i];
      match StateAt(r, rec, if endTick < rec.endTick then endTick else rec.endTick)
      case Ok(s) =>
        Some(HighlightClip(CLIP_FORMAT_VERSION, GAMEPLAY_REPLAY_VERSION, startTick, endTick, r.dropRng(a.state),
                           Wanted(rec.messages, a, endTick), r.syncHash(s)))
      case _ => None
  }

  /** The one-anchor recording a clip is replayed as. */
  function AsRecording<S>(r: Rules<S>, clip: HighlightClip<S>): (rec: GameRecording<S>) {
    GameRecording(RECORDING_FORMAT_VERSION, clip.gameplayVersion,
                  [ReplayAnchor(r.tick(clip.anchor), 0, clip.anchor)], clip.messages, clip.endTick, clip.endSyncHash)
  }

  function ReplayAndVerify<S(!new)>(r: Rules<S>, clip: HighlightClip<S>): (o: Outcome<S>)
    requires Lawful(r)
  {
    if clip.formatVersion != CLIP_FORMAT_VERSION || clip.gameplayVersion != GAMEPLAY_REPLAY_VERSION then Err
    else VerifiedEndState(r, AsRecording(r, clip))
  }

  /** On an ordered log filtering keeps one contiguous slice. */
  lemma {:induction false} WantedIsSlice<S>(ms: seq<EventMessage<S>>, a: ReplayAnchor<S>, endTick: nat)
    requires MessagesOrdered(ms) && a.tick <= endTick
    ensures FirstAfter(ms, a) <= LastUpTo(ms, endTick)
    ensures Wanted(ms, a, endTick) == ms[FirstAfter(ms, a)..LastUpTo(ms, endTick)]
    decreases |ms|
  {
    CutsAreExact(ms, a, endTick);
    if ms != [] {
      var rest := ms[1..];
      SuffixOrdered(ms, 1);
      WantedIsSlice(rest, a, endTick);
      CutsAreExact(rest, a, endTick);
      var first, last := FirstAfter(ms, a), LastUpTo(ms, endTick);
      if Reflected(ms[0], a) {
        assert first == 1 + FirstAfter(rest, a) && last == 1 + LastUpTo(rest, endTick);
        assert ms[first..last] == rest[first - 1..last - 1];
      } else if ms[0].tick <= endTick {
        assert FirstAfter(rest, a) == 0;
        assert ms[0..last] == [ms[0]] + rest[0..last - 1];
      } else {
        assert last == 0 && LastUpTo(rest, endTick) == 0;
      }
    }
  }

  /** The messages a clip keeps. */
  ghost predicate KeptFor<S>(kept: seq<EventMessage<S>>, a: ReplayAnchor<S>, endTick: nat) {
    MessagesOrdered(kept) &&
    forall i :: 0 <= i < |kept| ==> !Reflected(kept[i], a) && kept[i].tick <= endTick
  }

  lemma SliceIsKept<S>(ms: seq<EventMessage<S>>, a: ReplayAnchor<S>, endTick: nat)
    requires MessagesOrdered(ms) && a.tick <= endTick
    ensures KeptFor(Wanted(ms, a, endTick), a, endTick)
  {
    CutsAreExact(ms, a, endTick);
    WantedIsSlice(ms, a, endTick);
    SliceOrdered(ms, FirstAfter(ms, a), LastUpTo(ms, endTick));
    var kept, first := Wanted(ms, a, endTick), FirstAfter(ms, a);
    forall i | 0 <= i < |kept| ensures kept[i] == ms[first + i] {}
  }

  /** Resetting the anchor's sequence to 0 hides no kept message. */
  lemma NothingHidden<S>(kept: seq<EventMessage<S>>, a: ReplayAnchor<S>, state: S, endTick: nat)
    requires KeptFor(kept, a, endTick)
    ensures FirstAfter(kept, ReplayAnchor(a.tick, 0, state)) == 0
    ensures LastUpTo(kept, endTick) == |kept|
  {
    CutsAreExact(kept, ReplayAnchor(a.tick, 0, state), endTick);
    if kept != [] { assert !Reflected(kept[0], ReplayAnchor(a.tick, 0, state)); }
  }

  /** A valid one-anchor recording replays all it holds. */
  lemma OneAnchorReplay<S(!new)>(r: Rules<S>, s: S, kept: seq<EventMessage<S>>, a: ReplayAnchor<S>,
          endTick: nat, hash: nat)
    requires Lawful(r) && KeptFor(kept, a, endTick) && a.tick <= endTick && r.tick(s) == a.tick && r.valid(s)
    ensures var rec := GameRecording(RECORDING_FORMAT_VERSION, GAMEPLAY_REPLAY_VERSION, [ReplayAnchor(a.tick, 0, s)],
        kept, endTick, hash);
            Validated(r, rec) && StateAt(r, rec, endTick) == Finish(r, s, kept, endTick)
  {
    NothingHidden(kept, a, s, endTick);
    var anchors := [ReplayAnchor(a.tick, 0, s)];
    assert NearestAnchor(anchors, endTick) == Some(0);
    assert kept[0..|kept|] == kept;
  }

  /** Cutting past the end of the recording adds no message. */
  lemma WindowMessages<S(!new)>(r: Rules<S>, rec: GameRecording<S>, a: ReplayAnchor<S>, endTick: nat)
    requires Lawful(r) && Validated(r, rec) && a.tick <= endTick && a.tick <= rec.endTick
    ensures var stop := if endTick < rec.endTick then endTick else rec.endTick;
            FromAnchor(r, rec, a, stop) == Finish(r, a.state, Wanted(rec.messages, a, endTick), stop)
  {
    var stop := if endTick < rec.endTick then endTick else rec.endTick;
    WantedIsSlice(rec.messages, a, endTick);
    CutsAreExact(rec.messages, a, endTick);
    CutsAreExact(rec.messages, a, stop);
    assert LastUpTo(rec.messages, endTick) == LastUpTo(rec.messages, stop);
  }

  /** Post-roll: beyond a completed end, nothing moves. */
  lemma PostRoll<S(!new)>(r: Rules<S>, s: S, ms: seq<EventMessage<S>>, stop: nat, endTick: nat)
    requires Lawful(r) && stop <= endTick && Finish(r, s, ms, stop).Ok?
    requires stop == endTick || r.complete(Finish(r, s, ms, stop).value)
    ensures Finish(r, s, ms, endTick) == Finish(r, s, ms, stop)
  {
    StepToCompose(r, Batch(r, s, ms).value, stop, endTick);
  }

  /** A clip cut from a coherent recording passes its own verification whenever its
      window lies inside the recording, or the recorded game ended complete. */
  lemma CutClipVerifies<S(!new)>(r: Rules<S>, R: (S, S) -> bool, rec: GameRecording<S>, startTick: nat, endTick: nat)
    requires Lawful(r) && Congruence(r, R) && Validated(r, rec) && Coherent(r, R, rec)
    requires forall s :: R(s, r.dropRng(s))
    requires startTick <= endTick && Cut(r, rec, startTick, endTick).Some?
    requires endTick <= rec.endTick || (StateAt(r, rec, rec.endTick).Ok? && r.complete(StateAt(r, rec, rec.endTick).value))
    ensures ReplayAndVerify(r, Cut(r, rec, startTick, endTick).value).Ok?
  {
    var i := NearestAnchor(rec.anchors, startTick).value;
    var a, clip := rec.anchors[i], Cut(r, rec, startTick, endTick).value;
    var stop := if endTick < rec.endTick then endTick else rec.endTick;
    var ms := Wanted(rec.messages, a, endTick);
    RecordedEnd(r, R, rec, i, stop);
    WindowMessages(r, rec, a, endTick);
    PostRoll(r, a.state, ms, stop, endTick);
    CongruentFinish(r, R, a.state, r.dropRng(a.state), ms, endTick);
    SliceIsKept(rec.messages, a, endTick);
    OneAnchorReplay(r, clip.anchor, ms, a, endTick, clip.endSyncHash);
  }

  /** Two anchors of a coherent recording cannot be told apart at any later tick. */
  lemma RecordedEnd<S(!new)>(r: Rules<S>, R: (S, S) -> bool, rec: GameRecording<S>, i: nat, target: nat)
    requires Lawful(r) && Congruence(r, R) && Validated(r, rec) && Coherent(r, R, rec)
    requires i < |rec.anchors| && rec.anchors[i].tick <= target <= rec.endTick && StateAt(r, rec, target).Ok?
    ensures var o := FromAnchor(r, rec, rec.anchors[i], target);
            var s := StateAt(r, rec, target).value;
            o.Ok? && r.syncHash(o.value) == r.syncHash(s) && r.complete(o.value) == r.complete(s) && r.tick(o.value) == r.tick(s)
  {
    if i > 0 { AnchorOrder(rec.anchors, 0, i); }
    assert AnchorCoherent(r, R, rec, i);
    AnyAnchorAgrees(r, R, rec, i, target);
    AnchorIndexExact(r, R, rec, target);
  }
}
