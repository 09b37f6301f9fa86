/** What a run of committed steps publishes: every event of every step, in order, under the
    tick of the state it describes. */
module Emission {
  import opened Simulation
  import opened Replication
  import opened EngineSpec
  import opened Prediction

  /** The state after `k` steps. */
  ghost function Walk<S>(r: Rules<S>, s: S, m: bool, k: nat): (o: Option<S>) {
    if k == 0 then Some(s)
    else match r.step(s, m)
      case Stepped(n, _) => Walk(r, n, m, k - 1)
      case StepFailed(_) => None
  }

  /** The events of the step from state `k` to state `k + 1`. */
  ghost function EventsAt<S>(r: Rules<S>, s: S, m: bool, k: nat): (events: seq<(nat, GameEvent<S>)>) {
    match Walk(r, s, m, k)
    case Some(w) => (match r.step(w, m) case Stepped(_, events) => events case StepFailed(_) => [])
    case None => []
  }

  /** How many events the first `k` steps emit. */
  ghost function Offset<S>(r: Rules<S>, s: S, m: bool, k: nat): (n: nat) {
    if k == 0 then 0 else Offset(r, s, m, k - 1) + |EventsAt(r, s, m, k - 1)|
  }

  /** `l` publishes the event `e` of a step that reached tick `post`. */
  ghost predicate Publishes<S>(r: Rules<S>, l: Labelled<S>, e: (nat, GameEvent<S>), post: nat) {
    && l.1 == e.0 && l.2 == e.1
    && (e.1.Snapshot? ==> l.0 == r.tick(e.1.state))
    && (!e.1.Snapshot? ==> l.0 == post)
  }

  /** The events from index `from` on publish those of one step. */
  ghost predicate PublishesStep<S>(r: Rules<S>, out: seq<Labelled<S>>, from: nat, events: seq<(nat, GameEvent<S>)>, post: nat) {
    from + |events| <= |out| && forall j :: 0 <= j < |events| ==> Publishes(r, out[from + j], events[j], post)
  }

  /** The step from state `k` reached the next tick and was published under it. */
  ghost predicate StepPublished<S>(r: Rules<S>, s: S, m: bool, k: nat, out: seq<Labelled<S>>) {
    var next := Walk(r, s, m, k + 1);
    next.Some? && r.tick(next.value) == r.tick(s) + k + 1 &&
    PublishesStep(r, out, Offset(r, s, m, k), EventsAt(r, s, m, k), r.tick(s) + k + 1)
  }

  /** `out` is, in order, what the first `n` steps from `s` emit. */
  ghost predicate PublishesRun<S>(r: Rules<S>, s: S, m: bool, n: nat, out: seq<Labelled<S>>) {
    |out| == Offset(r, s, m, n) && forall k: nat :: k < n ==> StepPublished(r, s, m, k, out)
  }

  /** `run` took `n` steps from `s`, perhaps failed in the next one, and published them. */
  ghost predicate Publication<S>(r: Rules<S>, s: S, m: bool, n: nat, run: Run<S>) {
    var w := Walk(r, s, m, n);
    && w.Some? && (if run.failed then r.step(w.value, m) == StepFailed(run.state) else w.value == run.state)
    && PublishesRun(r, s, m, n, run.events)
  }

  lemma {:induction false} LabelPublishes<S>(r: Rules<S>, post: nat, events: seq<(nat, GameEvent<S>)>)
    ensures |Label(r, post, events)| == |events| && PublishesStep(r, Label(r, post, events), 0, events, post)
    decreases |events|
  {
    if events != [] {
      LabelPublishes(r, post, events[1..]);
      var out, rest := Label(r, post, events), Label(r, post, events[1..]);
      forall j | 0 <= j < |events| ensures Publishes(r, out[0 + j], events[j], post) {
        if j > 0 { assert out[j] == rest[0 + (j - 1)] && events[j] == events[1..][j - 1]; }
      }
    }
  }

  lemma {:induction false} OffsetFromNext<S>(r: Rules<S>, s: S, m: bool, k: nat)
    requires r.step(s, m).Stepped?
    ensures Offset(r, s, m, k + 1) == |r.step(s, m).events| + Offset(r, r.step(s, m).state, m, k)
    ensures EventsAt(r, s, m, k + 1) == EventsAt(r, r.step(s, m).state, m, k)
    ensures Walk(r, s, m, k + 2) == Walk(r, r.step(s, m).state, m, k + 1)
  {
    var n := r.step(s, m).state;
    assert Walk(r, s, m, k + 1) == Walk(r, n, m, k);
    if k > 0 {
      OffsetFromNext(r, s, m, k - 1);
    } else {
      assert Offset(r, s, m, 1) == Offset(r, s, m, 0) + |EventsAt(r, s, m, 0)|;
    }
  }

  lemma FirstPublished<S(!new)>(r: Rules<S>, s: S, m: bool, first: seq<Labelled<S>>, rest: seq<Labelled<S>>)
    requires r.step(s, m).Stepped? && r.tick(r.step(s, m).state) == r.tick(s) + 1
    requires PublishesStep(r, first, 0, r.step(s, m).events, r.tick(s) + 1)
    ensures StepPublished(r, s, m, 0, first + rest)
  {
    assert Walk(r, s, m, 1) == Some(r.step(s, m).state);
    FirstStep(r, first, rest, r.step(s, m).events, r.tick(s) + 1);
  }

  lemma LaterPublished<S(!new)>(r: Rules<S>, s: S, m: bool, k: nat, first: seq<Labelled<S>>, rest: seq<Labelled<S>>)
    requires r.step(s, m).Stepped? && r.tick(r.step(s, m).state) == r.tick(s) + 1
    requires |first| == |r.step(s, m).events| && StepPublished(r, r.step(s, m).state, m, k, rest)
    ensures StepPublished(r, s, m, k + 1, first + rest)
  {
    var next := r.step(s, m).state;
    OffsetFromNext(r, s, m, k);
    ShiftedStep(r, first, rest, Offset(r, next, m, k), EventsAt(r, next, m, k), r.tick(next) + k + 1);
  }

  lemma AnyPublished<S(!new)>(r: Rules<S>, s: S, m: bool, k: nat, first: seq<Labelled<S>>, rest: seq<Labelled<S>>)
    requires r.step(s, m).Stepped? && r.tick(r.step(s, m).state) == r.tick(s) + 1
    requires |first| == |r.step(s, m).events| && PublishesStep(r, first, 0, r.step(s, m).events, r.tick(s) + 1)
    requires k > 0 ==> StepPublished(r, r.step(s, m).state, m, k - 1, rest)
    ensures StepPublished(r, s, m, k, first + rest)
  {
    if k == 0 { FirstPublished(r, s, m, first, rest); } else { LaterPublished(r, s, m, k - 1, first, rest); }
  }

  /** A first step and a run after it. */
  lemma RunFromNext<S(!new)>(r: Rules<S>, s: S, m: bool, n: nat, run: Run<S>)
    requires Lawful(r) && !r.complete(s) && r.step(s, m).Stepped?
    requires Publication(r, r.step(s, m).state, m, n, run)
    ensures Publication(r, s, m, n + 1, run.(events := Label(r, r.tick(r.step(s, m).state), r.step(s, m).events) + run.events))
  {
    var next, events := r.step(s, m).state, r.step(s, m).events;
    var first := Label(r, r.tick(next), events);
    var rest, out := run.events, first + run.events;
    LabelPublishes(r, r.tick(next), events);
    forall k: nat | k < n + 1 ensures StepPublished(r, s, m, k, out) {
      if k > 0 { assert StepPublished(r, next, m, k - 1, rest); }
      AnyPublished(r, s, m, k, first, rest);
    }
    OffsetFromNext(r, s, m, n);
    assert Walk(r, s, m, n + 1) == Walk(r, next, m, n);
  }

  lemma FirstStep<S>(r: Rules<S>, first: seq<Labelled<S>>, rest: seq<Labelled<S>>, events: seq<(nat, GameEvent<S>)>, post: nat)
    requires PublishesStep(r, first, 0, events, post)
    ensures PublishesStep(r, first + rest, 0, events, post)
  {
    forall j | 0 <= j < |events| ensures Publishes(r, (first + rest)[0 + j], events[j], post) {
      assert (first + rest)[j] == first[0 + j];
    }
  }

  lemma ShiftedStep<S>(r: Rules<S>, first: seq<Labelled<S>>, rest: seq<Labelled<S>>, from: nat,
          events: seq<(nat, GameEvent<S>)>, post: nat)
    requires PublishesStep(r, rest, from, events, post)
    ensures PublishesStep(r, first + rest, |first| + from, events, post)
  {
    forall j | 0 <= j < |events| ensures Publishes(r, (first + rest)[|first| + from + j], events[j], post) {
      assert (first + rest)[|first| + from + j] == rest[from + j];
    }
  }

  lemma NoStepsPublish<S>(r: Rules<S>, s: S, m: bool)
    ensures Publication(r, s, m, 0, Run(s, [], false))
    ensures r.step(s, m).StepFailed? ==> Publication(r, s, m, 0, Run(r.step(s, m).partial, [], true))
  {
  }

  /** A run publishes exactly the events of the steps it takes. */
  lemma {:induction false} RunPublishes<S(!new)>(r: Rules<S>, s: S, m: bool, target: nat)
    requires Lawful(r)
    ensures var run := RunTo(r, s, m, target);
            Publication(r, s, m, r.tick(run.state) - r.tick(s), run)
    decreases target - r.tick(s)
  {
    if r.complete(s) || target <= r.tick(s) || r.step(s, m).StepFailed? {
      NoStepsPublish(r, s, m);
    } else {
      var next := r.step(s, m).state;
      var rest := RunTo(r, next, m, target);
      RunPublishes(r, next, m, target);
      RunFromNext(r, s, m, r.tick(rest.state) - r.tick(next), rest);
    }
  }

  /** What a successful poll publishes: with `s_k` the state after `k` committed steps, the
      events of each step in order, each under the tick of `s_(k+1)`, a snapshot under its
      own. */
  lemma PollPublishes<S(!new)>(r: Rules<S>, e: Engine<S>, ts: int)
    requires Lawful(r) && Polled(r, e, ts).1.Ok?
    ensures var (f, o) := Polled(r, e, ts);
            r.tick(e.committed) <= r.tick(f.committed) &&
            var n := r.tick(f.committed) - r.tick(e.committed);
            Walk(r, e.committed, false, n) == Some(f.committed) && PublishesRun(r, e.committed, false, n, o.value)
  {
    if Elapsed(r, e.committed, ts) >= 0 {
      RunPublishes(r, e.committed, false, LaggedTarget(r, e.committed, e.lagMs, ts));
    }
  }

  /** A poll with no rebuild due moves the prediction on by movement alone. */
  lemma PollPredictsByMovement<S(!new)>(r: Rules<S>, e: Engine<S>, ts: int)
    requires Lawful(r) && e.predicted.Some? && !e.needsRebuild && Polled(r, e, ts).1.Ok?
    ensures var (p, f) := (e.predicted.value, Polled(r, e, ts).0);
            f.predicted.Some? && r.tick(p) <= r.tick(f.predicted.value) &&
            Walk(r, p, true, r.tick(f.predicted.value) - r.tick(p)) == f.predicted
  {
    if Elapsed(r, e.committed, ts) >= 0 {
      var committed := RunTo(r, e.committed, false, LaggedTarget(r, e.committed, e.lagMs, ts)).state;
      var wall := WallTick(r, e.committed, Elapsed(r, e.committed, ts));
      RunPublishes(r, e.predicted.value, true, Min(wall, MaxPredictedTick(r, e.(committed := committed))));
    } else {
      NoStepsPublish(r, e.predicted.value, true);
    }
  }

  /** A due rebuild of a running game plays the full rules, from the committed state without
      its generator and with all pending input. */
  lemma RebuildPlaysFullRules<S(!new)>(r: Rules<S>, e: Engine<S>, ts: int)
    requires Lawful(r) && e.needsRebuild && Rebuilt(r, e, ts).1.Ok?
    requires Elapsed(r, e.committed, ts) >= 0 && !r.complete(e.committed)
    ensures var f, s := Rebuilt(r, e, ts).0, ScheduleAll(r, r.dropRng(e.committed), e.speculative);
            f.predicted.Some? && r.tick(e.committed) <= r.tick(f.predicted.value) &&
            Walk(r, s, false, r.tick(f.predicted.value) - r.tick(e.committed)) == f.predicted
  {
    ScheduleAllKeepsClock(r, r.dropRng(e.committed), e.speculative);
    var s := ScheduleAll(r, r.dropRng(e.committed), e.speculative);
    RunPublishes(r, s, false, PredictionTarget(r, e, Elapsed(r, e.committed, ts)));
  }

  /** A receiver that applies a published delta stands, unless it was already past it, on
      the tick the emitting step reached. */
  lemma ReceiverStandsOnLabel<S(!new)>(r: Rules<S>, s: S, k: nat, j: nat, n: nat, out: seq<Labelled<S>>, c: S, streamSeq: nat)
    requires Lawful(r) && PublishesRun(r, s, false, n, out) && k < n && j < |EventsAt(r, s, false, k)|
    requires !EventsAt(r, s, false, k)[j].1.Snapshot? && r.tick(c) <= r.tick(s) + k + 1
    ensures Offset(r, s, false, k) + j < |out| && Walk(r, s, false, k + 1).Some?
    ensures var l := out[Offset(r, s, false, k) + j];
            var o := Advanced(r, c, EventMessage(l.0, l.1, streamSeq, l.2));
            o.Ok? ==> r.tick(o.value) == r.tick(Walk(r, s, false, k + 1).value)
  {
    var from, events := Offset(r, s, false, k), EventsAt(r, s, false, k);
    assert StepPublished(r, s, false, k, out);
    assert Publishes(r, out[from + j], events[j], r.tick(s) + k + 1);
  }
}
