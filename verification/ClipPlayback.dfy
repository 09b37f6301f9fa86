/** From the recorded game to the screen: what a clip cut from a coherent recording
    shows, and exactly when it passes its own verification. */
module ClipPlayback {
  import opened Simulation
  import opened Replication
  import opened Recording
  import opened Playback
  import opened Timeline

  ghost predicate Equivalence<S(!new)>(R: (S, S) -> bool) {
    && (forall s, t :: R(s, t) ==> R(t, s))
    && (forall s, t, u {:trigger R(s, t), R(t, u)} :: R(s, t) && R(t, u) ==> R(s, u))
  }

  /** Two outcomes interchangeable with a third are interchangeable. */
  lemma RelatedToBoth<S(!new)>(R: (S, S) -> bool, a: Outcome<S>, b: Outcome<S>, c: Outcome<S>)
    requires Equivalence(R) && Related(R, a, b) && Related(R, a, c)
    ensures Related(R, b, c)
  {
  }

  lemma RelatedOn<S(!new)>(R: (S, S) -> bool, a: Outcome<S>, b: Outcome<S>, c: Outcome<S>)
    requires Equivalence(R) && Related(R, a, b) && Related(R, b, c)
    ensures Related(R, a, c)
  {
  }

  lemma CutOfSlice<S>(ms: seq<EventMessage<S>>, first: nat, high: nat, t: nat)
    requires MessagesOrdered(ms) && first <= LastUpTo(ms, t) <= high <= |ms|
    ensures LastUpTo(ms[first..high], t) == LastUpTo(ms, t) - first
  {
    LastUpToCuts(ms, t);
    var kept := ms[first..high];
    var n := LastUpTo(kept, t);
    if n < |kept| { assert kept[n] == ms[first + n]; }
    if 0 < n { assert kept[n - 1] == ms[first + n - 1]; }
  }

  /** Cutting a window and then stopping early is cutting a shorter window. */
  lemma UpToOfWanted<S>(ms: seq<EventMessage<S>>, a: ReplayAnchor<S>, endTick: nat, t: nat)
    requires MessagesOrdered(ms) && a.tick <= t <= endTick
    ensures UpTo(Wanted(ms, a, endTick), t) == Wanted(ms, a, t)
  {
    WantedIsSlice(ms, a, endTick);
    WantedIsSlice(ms, a, t);
    CutOfSuffix(ms, t, endTick);
    CutOfSlice(ms, FirstAfter(ms, a), LastUpTo(ms, endTick), t);
  }

  /** The tick of the recording that a window's tick `t` corresponds to. */
  function RecordedTick<S>(rec: GameRecording<S>, t: nat): (stop: nat) { if t < rec.endTick then t else rec.endTick }

  /** The recording says enough about tick `t`: it reaches it, or it ended complete. */
  ghost predicate Covers<S(!new)>(r: Rules<S>, rec: GameRecording<S>, t: nat)
    requires Lawful(r)
  {
    t <= rec.endTick || (StateAt(r, rec, rec.endTick).Ok? && r.complete(StateAt(r, rec, rec.endTick).value))
  }

  /** The replay a clip performs, from the anchor it was cut at. */
  lemma ReplayFromAnchor<S(!new)>(r: Rules<S>, R: (S, S) -> bool, rec: GameRecording<S>, i: nat, t: nat)
    requires Lawful(r) && Congruence(r, R) && Equivalence(R) && Validated(r, rec) && Coherent(r, R, rec)
    requires forall s :: R(s, r.dropRng(s))
    requires i < |rec.anchors| && rec.anchors[i].tick <= t
    requires StateAt(r, rec, RecordedTick(rec, t)).Ok? && Covers(r, rec, t)
    ensures Related(R, StateAt(r, rec, RecordedTick(rec, t)),
                    Finish(r, r.dropRng(rec.anchors[i].state), Wanted(rec.messages, rec.anchors[i], t), t))
  {
    var a, stop, ms := rec.anchors[i], RecordedTick(rec, t), Wanted(rec.messages, rec.anchors[i], t);
    if i > 0 { AnchorOrder(rec.anchors, 0, i); }
    assert AnchorCoherent(r, R, rec, i);
    AnyAnchorAgrees(r, R, rec, i, stop);
    AnchorIndexExact(r, R, rec, stop);
    RelatedToBoth(R, FromAnchor(r, rec, rec.anchors[0], stop), StateAt(r, rec, stop), FromAnchor(r, rec, a, stop));
    WindowMessages(r, rec, a, t);
    PostRoll(r, a.state, ms, stop, t);
    CongruentFinish(r, R, a.state, r.dropRng(a.state), ms, t);
    RelatedOn(R, StateAt(r, rec, stop), Finish(r, a.state, ms, t), Finish(r, r.dropRng(a.state), ms, t));
  }

  /** What the viewer sees is what happened: every frame a playback shows of a clip cut
      from a coherent recording is interchangeable with the recorded state of that tick,
      or with the final state during the post-roll of a completed game. */
  lemma FramesAreTheGame<S(!new)>(r: Rules<S>, R: (S, S) -> bool, rec: GameRecording<S>, start: nat, end: nat,
          initial: S, t: nat)
    requires Lawful(r) && Congruence(r, R) && Equivalence(R) && Validated(r, rec) && Coherent(r, R, rec)
    requires forall s :: R(s, r.dropRng(s))
    requires Cut(r, rec, start, end).Some? && start <= t <= end
    requires StateAt(r, rec, RecordedTick(rec, t)).Ok? && Covers(r, rec, t)
    requires var clip := Cut(r, rec, start, end).value;
             Finish(r, clip.anchor, UpTo(clip.messages, start), start) == Ok(initial)
    ensures var clip := Cut(r, rec, start, end).value;
            Related(R, StateAt(r, rec, RecordedTick(rec, t)), Finish(r, initial, UpTo(After(clip.messages, start), t), t))
  {
    var i := NearestAnchor(rec.anchors, start).value;
    var a, clip := rec.anchors[i], Cut(r, rec, start, end).value;
    SliceIsKept(rec.messages, a, end);
    RestAtStart(r, clip.anchor, clip.messages, start, t, initial);
    UpToOfWanted(rec.messages, a, end, t);
    ReplayFromAnchor(r, R, rec, i, t);
  }

  /** From the game to the viewer: whatever a viewer does with a clip cut from a coherent
      recording, a session that does not fail ends on a state interchangeable with the
      recorded one of the tick asked for last. */
  lemma SessionShowsTheGame<S(!new)>(r: Rules<S>, R: (S, S) -> bool, rec: GameRecording<S>, start: nat, end: nat,
          f: Film<S>, ops: seq<TimelineOp>)
    requires Lawful(r) && Congruence(r, R) && Equivalence(R) && Validated(r, rec) && Coherent(r, R, rec)
    requires forall s :: R(s, r.dropRng(s))
    requires start <= end && Cut(r, rec, start, end).Some? && WellCut(f)
    requires var clip := Cut(r, rec, start, end).value;
             f == Film(r, f.initial, After(clip.messages, clip.startTick), clip.startTick, clip.endTick) &&
             Finish(r, clip.anchor, UpTo(clip.messages, clip.startTick), clip.startTick) == Ok(f.initial)
    requires var t := Cursor(start, end, ops); StateAt(r, rec, RecordedTick(rec, t)).Ok? && Covers(r, rec, t)
    ensures f.startTick == start && f.endTick == end
    ensures var shown := ShownAfter(f, Opening(f), ops);
            shown.Ok? ==> R(StateAt(r, rec, RecordedTick(rec, Cursor(start, end, ops))).value, shown.value.state)
  {
    var t := Cursor(start, end, ops);
    AnyPathShowsFreshFrame(f, ops);
    if ShownAfter(f, Opening(f), ops).Ok? {
      FreshSeekShowsFrames(f, t);
      FramesAreTheGame(r, R, rec, start, end, f.initial, t);
    }
  }

  // ------------------------------------------------------------- self-verification

  /** Two states of different ticks with one fingerprint. */
  ghost predicate Collide<S>(r: Rules<S>, s: S, t: S) { r.tick(s) != r.tick(t) && r.syncHash(s) == r.syncHash(t) }

  /** The replay of a clip whose window overhangs the recording ends on a state whose
      fingerprint collides with that of the recorded end, an earlier tick. */
  ghost predicate EndCollides<S(!new)>(r: Rules<S>, rec: GameRecording<S>, clip: HighlightClip<S>)
    requires Lawful(r)
  {
    var replayed, recorded := Finish(r, clip.anchor, clip.messages, clip.endTick), StateAt(r, rec, rec.endTick);
    replayed.Ok? && recorded.Ok? && Collide(r, replayed.value, recorded.value)
  }

  ghost predicate AllUpTo<S>(ms: seq<EventMessage<S>>, t: nat) {
    forall i :: 0 <= i < |ms| ==> ms[i].tick <= t
  }

  lemma {:induction false} BatchStaysBelow<S(!new)>(r: Rules<S>, s: S, ms: seq<EventMessage<S>>, bound: nat)
    requires Lawful(r) && r.tick(s) <= bound && Batch(r, s, ms).Ok?
    requires AllUpTo(ms, bound)
    ensures r.tick(Batch(r, s, ms).value) <= bound
    decreases |ms|
  {
    if ms != [] { BatchStaysBelow(r, Advanced(r, s, ms[0]).value, ms[1..], bound); }
  }

  lemma WantedRecorded<S>(r: Rules<S>, rec: GameRecording<S>, a: ReplayAnchor<S>, end: nat)
    requires Validated(r, rec) && a.tick <= end
    ensures AllUpTo(Wanted(rec.messages, a, end), rec.endTick)
  {
    WantedIsSlice(rec.messages, a, end);
  }

  /** An unfinished game that is asked for a later tick moves. */
  lemma UnfinishedMoves<S(!new)>(r: Rules<S>, s: S, ms: seq<EventMessage<S>>, stop: nat, end: nat)
    requires Lawful(r) && r.tick(s) <= stop < end && AllUpTo(ms, stop)
    requires Finish(r, s, ms, stop).Ok? && !r.complete(Finish(r, s, ms, stop).value) && Finish(r, s, ms, end).Ok?
    ensures r.tick(Finish(r, s, ms, stop).value) < r.tick(Finish(r, s, ms, end).value)
  {
    BatchStaysBelow(r, s, ms, stop);
    StepToCompose(r, Batch(r, s, ms).value, stop, end);
  }

  /** A clip cut from a coherent recording passes its own verification if and only if
      its window lies inside the recording, or the recorded game ended complete, or its
      fingerprints happen to collide across ticks. */
  lemma CutClipVerifiesExactly<S(!new)>(r: Rules<S>, R: (S, S) -> bool, rec: GameRecording<S>, start: nat, end: nat)
    requires Lawful(r) && Congruence(r, R) && Validated(r, rec) && Coherent(r, R, rec)
    requires forall s :: R(s, r.dropRng(s))
    requires start <= end && Cut(r, rec, start, end).Some?
    ensures var clip := Cut(r, rec, start, end).value;
            ReplayAndVerify(r, clip).Ok? <==> Covers(r, rec, end) || EndCollides(r, rec, clip)
  {
    if Covers(r, rec, end) {
      CutClipVerifies(r, R, rec, start, end);
    } else {
      OverhangNeedsCollision(r, R, rec, start, end);
    }
  }

  /** Past an unfinished end the replay has moved on, so only a collision can match. */
  lemma OverhangMoves<S(!new)>(r: Rules<S>, R: (S, S) -> bool, s: S, t: S, ms: seq<EventMessage<S>>, stop: nat,
          end: nat)
    requires Lawful(r) && Congruence(r, R) && R(s, t)
    requires r.tick(s) <= stop < end && AllUpTo(ms, stop)
    requires Finish(r, s, ms, stop).Ok? && !r.complete(Finish(r, s, ms, stop).value)
    ensures Finish(r, t, ms, end).Ok? ==> r.tick(Finish(r, t, ms, end).value) != r.tick(Finish(r, s, ms, stop).value)
  {
    CongruentFinish(r, R, s, t, ms, end);
    if Finish(r, s, ms, end).Ok? { UnfinishedMoves(r, s, ms, stop, end); }
  }

  lemma OverhangNeedsCollision<S(!new)>(r: Rules<S>, R: (S, S) -> bool, rec: GameRecording<S>, start: nat, end: nat)
    requires Lawful(r) && Congruence(r, R) && Validated(r, rec) && Coherent(r, R, rec)
    requires forall s :: R(s, r.dropRng(s))
    requires start <= end && Cut(r, rec, start, end).Some? && !Covers(r, rec, end)
    ensures var clip := Cut(r, rec, start, end).value; ReplayAndVerify(r, clip).Ok? <==> EndCollides(r, rec, clip)
  {
    var i := NearestAnchor(rec.anchors, start).value;
    var a, clip, stop := rec.anchors[i], Cut(r, rec, start, end).value, rec.endTick;
    var ms := Wanted(rec.messages, a, end);
    RecordedEnd(r, R, rec, i, stop);
    WindowMessages(r, rec, a, end);
    SliceIsKept(rec.messages, a, end);
    OneAnchorReplay(r, clip.anchor, ms, a, end, clip.endSyncHash);
    assert AllUpTo(ms, stop) by { WantedRecorded(r, rec, a, end); }
    OverhangMoves(r, R, a.state, r.dropRng(a.state), ms, stop, end);
  }
}
