/** Traces of a server that also polls without leaving a record: the checker then lags,
    and why it still accepts them. */
module IdlePolls {
  import opened Simulation
  import opened Arithmetic
  import opened EngineSpec
  import opened Polling
  import opened ServerReplay
  import opened TraceRecording

  /** The clock does not go back and stays within 32 bits of ticks. */
  ghost predicate ClockMovesOn<S(!new)>(r: Rules<S>, x: Recorder<S>, ts: int)
    requires Lawful(r)
  {
    x.now <= ts && InRange(r, x.engine.committed, ts)
  }

  ghost predicate SteadyClock<S(!new)>(r: Rules<S>, x: Recorder<S>, turns: seq<LoopTurn<S>>)
    requires Lawful(r)
    decreases |turns|
  {
    turns != [] ==>
      var before, last := turns[..|turns| - 1], turns[|turns| - 1];
      SteadyClock(r, x, before) && (Recorded(r, x, before).Some? ==> ClockMovesOn(r, Recorded(r, x, before).value, last.ts))
  }

  // ------------------------------------------------------------ the committed half

  lemma {:induction false} GameplaysConcat<S>(a: seq<Labelled<S>>, b: seq<Labelled<S>>)
    ensures Gameplays(a + b) == Gameplays(a) + Gameplays(b)
    decreases |a|
  {
    if a == [] {
      assert a + b == b;
    } else {
      assert (a + b)[0] == a[0] && (a + b)[1..] == a[1..] + b;
      GameplaysConcat(a[1..], b);
    }
  }

  /** The checker, having read the trace so far, lags the recorder by one uninterrupted
      run to `reach`, the last target the recorder polled since its last record. */
  ghost predicate Follows<S(!new)>(r: Rules<S>, x: Recorder<S>, c: Checker<S>, reach: nat)
    requires Lawful(r)
  {
    var run := RunTo(r, c.engine.committed, false, reach);
    && !run.failed
    && run.state == x.engine.committed
    && x.events == c.emitted + Gameplays(run.events)
    && c.scheduled == x.schedules
    && c.engine.lagMs == x.engine.lagMs
    && c.engine.commandCounter == x.engine.commandCounter
    && AllGameplay(x.events)
    && (reach == 0 || (InRange(r, x.engine.committed, x.now) &&
        reach == LaggedTarget(r, x.engine.committed, x.engine.lagMs, x.now)))
  }

  lemma GameplaysJoin<S>(a: Run<S>, b: Run<S>, emitted: seq<Labelled<S>>)
    ensures emitted + Gameplays(a.events) + Gameplays(b.events) == emitted + Gameplays(Then(a, b).events)
  {
    GameplaysConcat(a.events, b.events);
    assert emitted + Gameplays(a.events) + Gameplays(b.events) == emitted + (Gameplays(a.events) + Gameplays(b.events));
  }

  /** One more run of the recorder is a longer uninterrupted run of the checker. */
  lemma RunExtends<S(!new)>(r: Rules<S>, behind: S, s: S, emitted: seq<Labelled<S>>, events: seq<Labelled<S>>,
          reach: nat, target: nat)
    requires Lawful(r) && EmitsGameplay(r) && reach <= target && AllGameplay(events)
    requires !RunTo(r, s, false, target).failed
    requires var a := RunTo(r, behind, false, reach);
             !a.failed && a.state == s && events == emitted + Gameplays(a.events)
    ensures var run, more := RunTo(r, behind, false, target), Gameplays(RunTo(r, s, false, target).events);
            !run.failed && run.state == RunTo(r, s, false, target).state &&
            events + more == emitted + Gameplays(run.events) && AllGameplay(events + more)
  {
    RunToCompose(r, behind, false, reach, target);
    var b := RunTo(r, s, false, target);
    GameplaysJoin(RunTo(r, behind, false, reach), b, emitted);
    RunNotForeign(r, s, target);
    KeptAreGameplay(b.events);
  }

  lemma FollowsOn<S(!new)>(r: Rules<S>, x: Recorder<S>, y: Recorder<S>, c: Checker<S>, reach: nat)
    requires Lawful(r) && EmitsGameplay(r) && Follows(r, x, c, reach) && x.now <= y.now &&
        InRange(r, x.engine.committed, y.now)
    requires var run := RunTo(r, x.engine.committed, false, LaggedTarget(r, x.engine.committed, x.engine.lagMs, y.now));
             !run.failed && y.engine.committed == run.state && y.events == x.events + Gameplays(run.events)
    requires y.engine.lagMs == x.engine.lagMs && y.engine.commandCounter == x.engine.commandCounter &&
        y.schedules == x.schedules
    ensures Follows(r, y, c, LaggedTarget(r, y.engine.committed, y.engine.lagMs, y.now)) &&
        InRange(r, y.engine.committed, y.now)
  {
    var s, target := x.engine.committed, LaggedTarget(r, x.engine.committed, x.engine.lagMs, y.now);
    if reach != 0 { TargetMonotone(r, s, x.engine.lagMs, x.now, y.now); }
    RunExtends(r, c.engine.committed, s, c.emitted, x.events, reach, target);
  }

  lemma PollFollows<S(!new)>(r: Rules<S>, x: Recorder<S>, c: Checker<S>, reach: nat, ts: int)
    requires Lawful(r) && EmitsGameplay(r) && Follows(r, x, c, reach) && AfterPoll(r, x, ts).Some?
    requires ClockMovesOn(r, x, ts)
    ensures var y := AfterPoll(r, x, ts).value;
            Follows(r, y, c, LaggedTarget(r, y.engine.committed, y.engine.lagMs, ts)) &&
            InRange(r, y.engine.committed, ts) && y.now == ts && y.trace == x.trace
  {
    PollCommits(r, x.engine, ts);
    FollowsOn(r, x, AfterPoll(r, x, ts).value, c, reach);
  }

  /** Polling the checker at the recorder's clock closes the lag. */
  lemma SyncCatchesUp<S(!new)>(r: Rules<S>, x: Recorder<S>, c: Checker<S>)
    requires Lawful(r) && Follows(r, x, c, LaggedTarget(r, x.engine.committed, x.engine.lagMs, x.now))
    ensures var d := Synced(r, c, x.now);
            d.Some? ==> Follows(r, x, d.value, 0) && d.value.engine.committed == x.engine.committed && d.value.emitted == x.events
  {
    PollCommits(r, c.engine, x.now);
    var d := Synced(r, c, x.now);
    if d.Some? {
      assert Gameplays<S>([]) == [];
      assert x.events + [] == x.events;
    }
  }

  /** A synchronized checker accepts the next record and stays synchronized. */
  lemma ActionFollows<S(!new)>(r: Rules<S>, x: Recorder<S>, d: Checker<S>, action: Action<S>)
    requires Lawful(r) && !action.Nothing? && AfterAction(r, x, action).Some?
    requires Follows(r, x, d, 0) && d.engine.committed == x.engine.committed && d.emitted == x.events
    ensures var y := AfterAction(r, x, action).value;
            y.trace != [] && y.trace[..|y.trace| - 1] == x.trace && y.trace[|x.trace|].ts == x.now &&
            var p := Matched(r, d, y.trace[|x.trace|]);
            p.Running? && Follows(r, y, p.checker, 0)
  {
    assert Gameplays<S>([]) == [];
    var y := AfterAction(r, x, action).value;
    assert y.events + [] == y.events;
  }

  ghost predicate StepsNeverFail<S(!new)>(r: Rules<S>) {
    forall s, m {:trigger r.step(s, m)} :: r.step(s, m).Stepped?
  }

  lemma {:induction false} RunNeverFails<S(!new)>(r: Rules<S>, s: S, m: bool, target: nat)
    requires Lawful(r) && StepsNeverFail(r)
    ensures !RunTo(r, s, m, target).failed
    decreases target - r.tick(s)
  {
    if !r.complete(s) && r.tick(s) < target { RunNeverFails(r, r.step(s, m).state, m, target); }
  }

  lemma RebuildNeverFails<S(!new)>(r: Rules<S>, e: Engine<S>, ts: int)
    requires Lawful(r) && StepsNeverFail(r)
    ensures Rebuilt(r, e, ts).1.Ok?
  {
    if Elapsed(r, e.committed, ts) >= 0 {
      RunNeverFails(r, ScheduleAll(r, r.dropRng(e.committed), e.speculative), false,
          PredictionTarget(r, e, Elapsed(r, e.committed, ts)));
    }
  }

  lemma PollNeverFails<S(!new)>(r: Rules<S>, e: Engine<S>, ts: int)
    requires Lawful(r) && StepsNeverFail(r)
    ensures Polled(r, e, ts).1.Ok?
  {
    var target := LaggedTarget(r, e.committed, e.lagMs, ts);
    RunNeverFails(r, e.committed, false, target);
    var e1 := e.(committed := RunTo(r, e.committed, false, target).state);
    RebuildNeverFails(r, e1, ts);
    var e2 := if e.needsRebuild then Rebuilt(r, e1, ts).0 else e1;
    if Elapsed(r, e.committed, ts) >= 0 && e2.predicted.Some? {
      var wall := WallTick(r, e.committed, Elapsed(r, e.committed, ts));
      RunNeverFails(r, e2.predicted.value, true, Min(wall, MaxPredictedTick(r, e2)));
    }
  }

  lemma SyncFailsOnlyWithSteps<S(!new)>(r: Rules<S>, c: Checker<S>, ts: int)
    requires Lawful(r)
    ensures StepsNeverFail(r) ==> Synced(r, c, ts).Some?
  {
    if StepsNeverFail(r) { PollNeverFails(r, c.engine, ts); }
  }

  lemma ActionRecords<S(!new)>(r: Rules<S>, x: Recorder<S>, action: Action<S>)
    requires !action.Nothing? && AfterAction(r, x, action).Some?
    ensures var y := AfterAction(r, x, action).value;
            y.trace != [] && y.trace[..|y.trace| - 1] == x.trace && y.trace[|x.trace|].ts == x.now
  {
  }

  lemma TurnFollows<S(!new)>(r: Rules<S>, x: Recorder<S>, c: Checker<S>, reach: nat, turn: LoopTurn<S>)
    requires Lawful(r) && EmitsGameplay(r) && Follows(r, x, c, reach) && Taken(r, x, turn).Some?
    requires ClockMovesOn(r, x, turn.ts)
    ensures var y := Taken(r, x, turn).value;
            if turn.action.Nothing? then y.trace == x.trace && exists reach' :: Follows(r, y, c, reach')
            else
              y.trace != [] && y.trace[..|y.trace| - 1] == x.trace &&
              var p := CheckItem(r, c, y.trace[|x.trace|]);
              (p == Stopped(Aborted) && !StepsNeverFail(r)) || (p.Running? && Follows(r, y, p.checker, 0))
  {
    PollFollows(r, x, c, reach, turn.ts);
    var p := AfterPoll(r, x, turn.ts).value;
    SyncCatchesUp(r, p, c);
    if !turn.action.Nothing? {
      var d := Synced(r, c, turn.ts);
      if d.Some? {
        ActionFollows(r, p, d.value, turn.action);
      } else {
        ActionRecords(r, p, turn.action);
        SyncFailsOnlyWithSteps(r, c, turn.ts);
      }
    }
  }

  /** The checker is still following, or its own prediction failed to step. */
  ghost predicate Following<S(!new)>(r: Rules<S>, x: Recorder<S>, p: Progress<S>)
    requires Lawful(r)
  {
    (p == Stopped(Aborted) && !StepsNeverFail(r)) || (p.Running? && exists reach :: Follows(r, x, p.checker, reach))
  }

  lemma CheckLast<S(!new)>(r: Rules<S>, c: Checker<S>, earlier: seq<TraceItem<S>>, items: seq<TraceItem<S>>)
    requires Lawful(r) && items != [] && items[..|items| - 1] == earlier
    ensures var p := CheckAll(r, c, earlier);
            CheckAll(r, c, items) == if p.Running? then CheckItem(r, p.checker, items[|earlier|]) else p
  {
  }

  lemma TurnKeepsFollowing<S(!new)>(r: Rules<S>, c0: Checker<S>, x: Recorder<S>, turn: LoopTurn<S>)
    requires Lawful(r) && EmitsGameplay(r) && Taken(r, x, turn).Some? && ClockMovesOn(r, x, turn.ts)
    requires Following(r, x, CheckAll(r, c0, x.trace))
    ensures var y := Taken(r, x, turn).value; Following(r, y, CheckAll(r, c0, y.trace))
  {
    var p, y := CheckAll(r, c0, x.trace), Taken(r, x, turn).value;
    if p.Running? {
      var reach :| Follows(r, x, p.checker, reach);
      TurnFollows(r, x, p.checker, reach, turn);
      if !turn.action.Nothing? { CheckLast(r, c0, x.trace, y.trace); }
    } else {
      TraceGrows(r, x, turn);
      assert y.trace[..|x.trace|] == x.trace;
      StopsThere(r, c0, y.trace, |x.trace|);
    }
  }

  /** Whatever a recording server does, the checker that reads its trace never sees a
      divergence. */
  lemma {:induction false} CheckerFollows<S(!new)>(r: Rules<S>, anchor: S, now: int, turns: seq<LoopTurn<S>>)
    requires Lawful(r) && EmitsGameplay(r) && Recorded(r, Booted(r, anchor, now), turns).Some?
    requires SteadyClock(r, Booted(r, anchor, now), turns)
    ensures var x := Recorded(r, Booted(r, anchor, now), turns).value;
            Following(r, x, CheckAll(r, Started(r, anchor), x.trace))
    decreases |turns|
  {
    var x0 := Booted(r, anchor, now);
    if turns == [] {
      BootFollows(r, anchor, now);
    } else {
      var prefix := turns[..|turns| - 1];
      CheckerFollows(r, anchor, now, prefix);
      TurnKeepsFollowing(r, Started(r, anchor), Recorded(r, x0, prefix).value, turns[|turns| - 1]);
    }
  }

  lemma BootFollows<S(!new)>(r: Rules<S>, anchor: S, now: int)
    requires Lawful(r)
    ensures Following(r, Booted(r, anchor, now), CheckAll(r, Started(r, anchor), []))
  {
    assert Gameplays<S>([]) == [];
    assert Follows(r, Booted(r, anchor, now), Started(r, anchor), 0);
  }

  lemma TraceGrows<S(!new)>(r: Rules<S>, x: Recorder<S>, turn: LoopTurn<S>)
    requires Lawful(r) && Taken(r, x, turn).Some?
    ensures x.trace <= Taken(r, x, turn).value.trace
  {
  }

  // ------------------------------------------------- the committed and predicted halves

  /** The tick a poll at `ts` predicts to. */
  function PredictedTarget<S>(r: Rules<S>, e: Engine<S>, ts: int): (t: nat)
    requires 1 <= r.tickMs(e.committed) && Elapsed(r, e.committed, ts) >= 0
  {
    Min(WallTick(r, e.committed, Elapsed(r, e.committed, ts)), MaxPredictedTick(r, e))
  }

  /** Up to a pending run of committed and of predicted steps, the checker is the
      recorder's twin. */
  ghost predicate Shadows<S(!new)>(r: Rules<S>, x: Recorder<S>, c: Checker<S>, reach: nat, ahead: nat)
    requires Lawful(r)
  {
    && Lagging(r, x, c, reach, ahead)
    && ((reach == 0 && ahead == 0) || (!x.engine.needsRebuild && PolledNow(r, x, reach, ahead)))
  }

  ghost predicate Lagging<S(!new)>(r: Rules<S>, x: Recorder<S>, c: Checker<S>, reach: nat, ahead: nat)
    requires Lawful(r)
  {
    var s, e := x.engine.committed, x.engine;
    && c.engine.predicted.Some? && e.predicted.Some?
    && c.engine.(committed := s, predicted := e.predicted) == e
    && c.scheduled == x.schedules && AllGameplay(x.events)
    && Reaches(r, c.engine.committed, s, c.emitted, x.events, reach)
    && Predicts(r, c.engine.predicted.value, e.predicted.value, ahead)
  }

  /** The pending runs end where a poll at the recorder's clock ends. */
  ghost predicate PolledNow<S(!new)>(r: Rules<S>, x: Recorder<S>, reach: nat, ahead: nat)
    requires Lawful(r)
  {
    var s, e := x.engine.committed, x.engine;
    Elapsed(r, s, x.now) >= 0 && InRange(r, s, x.now) &&
    reach == LaggedTarget(r, s, e.lagMs, x.now) && ahead == PredictedTarget(r, e, x.now)
  }

  /** Longer runs of the recorder are longer pending runs. */
  lemma LagsLonger<S(!new)>(r: Rules<S>, x: Recorder<S>, c: Checker<S>, reach: nat, ahead: nat, target: nat,
          goal: nat, now: int)
    requires Lawful(r) && EmitsGameplay(r) && Lagging(r, x, c, reach, ahead) && reach <= target && ahead <= goal
    requires !RunTo(r, x.engine.committed, false, target).failed
    requires !RunTo(r, x.engine.predicted.value, true, goal).failed
    ensures var run := RunTo(r, x.engine.committed, false, target);
            var p := RunTo(r, x.engine.predicted.value, true, goal).state;
            Lagging(r, x.(engine := x.engine.(committed := run.state, predicted := Some(p)), now := now,
                          events := x.events + Gameplays(run.events)), c, target, goal)
  {
    ReachesFurther(r, c.engine.committed, x.engine.committed, c.emitted, x.events, reach, target);
    PredictsFurther(r, c.engine.predicted.value, x.engine.predicted.value, ahead, goal);
  }

  ghost predicate Reaches<S(!new)>(r: Rules<S>, behind: S, s: S, emitted: seq<Labelled<S>>,
          events: seq<Labelled<S>>, reach: nat)
    requires Lawful(r)
  {
    var run := RunTo(r, behind, false, reach);
    !run.failed && run.state == s && events == emitted + Gameplays(run.events)
  }

  ghost predicate Predicts<S(!new)>(r: Rules<S>, behind: S, p: S, ahead: nat)
    requires Lawful(r)
  {
    var run := RunTo(r, behind, true, ahead);
    !run.failed && run.state == p
  }

  lemma PredictsFurther<S(!new)>(r: Rules<S>, behind: S, p: S, ahead: nat, target: nat)
    requires Lawful(r) && Predicts(r, behind, p, ahead) && ahead <= target && !RunTo(r, p, true, target).failed
    ensures Predicts(r, behind, RunTo(r, p, true, target).state, target)
  {
    RunToCompose(r, behind, true, ahead, target);
  }

  lemma ReachesFurther<S(!new)>(r: Rules<S>, behind: S, s: S, emitted: seq<Labelled<S>>, events: seq<Labelled<S>>,
          reach: nat, target: nat)
    requires Lawful(r) && EmitsGameplay(r) && Reaches(r, behind, s, emitted, events, reach) && reach <= target
    requires AllGameplay(events) && !RunTo(r, s, false, target).failed
    ensures var run := RunTo(r, s, false, target);
            Reaches(r, behind, run.state, emitted, events + Gameplays(run.events), target) &&
            AllGameplay(events + Gameplays(run.events))
  {
    RunExtends(r, behind, s, emitted, events, reach, target);
  }

  /** What a poll without a rebuild does. */
  lemma PlainPoll<S(!new)>(r: Rules<S>, e: Engine<S>, ts: int)
    requires Lawful(r) && !e.needsRebuild && e.predicted.Some? && Elapsed(r, e.committed, ts) >= 0
    ensures var run := RunTo(r, e.committed, false, LaggedTarget(r, e.committed, e.lagMs, ts));
            var e1 := e.(committed := run.state);
            var prun := RunTo(r, e.predicted.value, true, PredictedTarget(r, e1, ts));
            var (f, o) := Polled(r, e, ts);
            (o.Ok? <==> !run.failed && !prun.failed) &&
            (o.Ok? ==> f == e1.(predicted := Some(prun.state)) && o.value == run.events)
  {
  }

  lemma WallMovesOn<S(!new)>(r: Rules<S>, s: S, now: int, ts: int)
    requires Lawful(r) && now <= ts && Elapsed(r, s, now) >= 0 && InRange(r, s, now) && InRange(r, s, ts)
    ensures Elapsed(r, s, ts) >= 0 && WallTick(r, s, Elapsed(r, s, now)) <= WallTick(r, s, Elapsed(r, s, ts))
  {
    var tickMs := r.tickMs(s);
    DivMonotone(Elapsed(r, s, now), Elapsed(r, s, ts), tickMs);
    LaggedMonotone(Elapsed(r, s, now) / tickMs, Elapsed(r, s, ts) / tickMs, 0);
  }

  lemma CapMovesOn<S(!new)>(r: Rules<S>, e: Engine<S>, s: S)
    requires r.tickMs(s) == r.tickMs(e.committed) && r.tick(e.committed) <= r.tick(s)
    ensures MaxPredictedTick(r, e) <= MaxPredictedTick(r, e.(committed := s))
  {
  }

  lemma TargetsMoveOn<S(!new)>(r: Rules<S>, e: Engine<S>, s: S, now: int, ts: int)
    requires Lawful(r) && now <= ts && Elapsed(r, e.committed, now) >= 0
    requires InRange(r, e.committed, now) && InRange(r, e.committed, ts)
    requires r.tickMs(s) == r.tickMs(e.committed) && r.startMs(s) == r.startMs(e.committed)
    requires r.tick(e.committed) <= r.tick(s)
    ensures Elapsed(r, s, ts) >= 0
    ensures LaggedTarget(r, e.committed, e.lagMs, now) <= LaggedTarget(r, e.committed, e.lagMs, ts)
    ensures PredictedTarget(r, e, now) <= PredictedTarget(r, e.(committed := s), ts)
  {
    TargetMonotone(r, e.committed, e.lagMs, now, ts);
    WallMovesOn(r, e.committed, now, ts);
    CapMovesOn(r, e, s);
  }

  lemma SameClock<S(!new)>(r: Rules<S>, s: S, t: S, lagMs: nat, ts: int)
    requires Lawful(r) && r.tickMs(s) == r.tickMs(t) && r.startMs(s) == r.startMs(t)
    ensures Elapsed(r, s, ts) == Elapsed(r, t, ts) && InRange(r, s, ts) == InRange(r, t, ts)
    ensures LaggedTarget(r, s, lagMs, ts) == LaggedTarget(r, t, lagMs, ts)
  {
  }

  /** The recorder after a poll that steps both halves. */
  ghost function PlainlyPolled<S(!new)>(r: Rules<S>, x: Recorder<S>, ts: int): (y: Recorder<S>)
    requires Lawful(r) && x.engine.predicted.Some? && Elapsed(r, x.engine.committed, ts) >= 0
  {
    var e := x.engine;
    var run := RunTo(r, e.committed, false, LaggedTarget(r, e.committed, e.lagMs, ts));
    var e1 := e.(committed := run.state);
    var p := RunTo(r, e.predicted.value, true, PredictedTarget(r, e1, ts)).state;
    x.(engine := e1.(predicted := Some(p)), now := ts, events := x.events + Gameplays(run.events))
  }

  lemma PolledNowAfterwards<S(!new)>(r: Rules<S>, x: Recorder<S>, ts: int)
    requires Lawful(r) && x.engine.predicted.Some? && Elapsed(r, x.engine.committed, ts) >= 0
    requires InRange(r, x.engine.committed, ts)
    ensures var e := x.engine;
            var target := LaggedTarget(r, e.committed, e.lagMs, ts);
            var s := RunTo(r, e.committed, false, target).state;
            Elapsed(r, s, ts) >= 0 && PolledNow(r, PlainlyPolled(r, x, ts), target, PredictedTarget(r, e.(committed := s), ts))
  {
    var e := x.engine;
    SameClock(r, e.committed, RunTo(r, e.committed, false, LaggedTarget(r, e.committed, e.lagMs, ts)).state, e.lagMs, ts);
  }

  lemma PendingMovesOn<S(!new)>(r: Rules<S>, x: Recorder<S>, reach: nat, ahead: nat, s: S, ts: int)
    requires Lawful(r) && ClockMovesOn(r, x, ts) && Elapsed(r, s, ts) >= 0
    requires (reach == 0 && ahead == 0) || PolledNow(r, x, reach, ahead)
    requires r.tickMs(s) == r.tickMs(x.engine.committed) && r.startMs(s) == r.startMs(x.engine.committed)
    requires r.tick(x.engine.committed) <= r.tick(s)
    ensures reach <= LaggedTarget(r, x.engine.committed, x.engine.lagMs, ts)
    ensures ahead <= PredictedTarget(r, x.engine.(committed := s), ts)
  {
    if reach != 0 || ahead != 0 { TargetsMoveOn(r, x.engine, s, x.now, ts); }
  }

  /** Such a poll lengthens the pending runs. */
  lemma ShadowsLonger<S(!new)>(r: Rules<S>, x: Recorder<S>, c: Checker<S>, reach: nat, ahead: nat, ts: int)
    returns (target: nat, goal: nat)
    requires Lawful(r) && EmitsGameplay(r) && Shadows(r, x, c, reach, ahead) && ClockMovesOn(r, x, ts)
    requires !x.engine.needsRebuild && Elapsed(r, x.engine.committed, ts) >= 0
    requires var e := x.engine;
             var run := RunTo(r, e.committed, false, LaggedTarget(r, e.committed, e.lagMs, ts));
             !run.failed && !RunTo(r, e.predicted.value, true, PredictedTarget(r, e.(committed := run.state), ts)).failed
    ensures Shadows(r, PlainlyPolled(r, x, ts), c, target, goal) && PolledNow(r, PlainlyPolled(r, x, ts), target, goal)
  {
    var e := x.engine;
    target := LaggedTarget(r, e.committed, e.lagMs, ts);
    var s := RunTo(r, e.committed, false, target).state;
    PolledNowAfterwards(r, x, ts);
    goal := PredictedTarget(r, e.(committed := s), ts);
    PendingMovesOn(r, x, reach, ahead, s, ts);
    LagsLonger(r, x, c, reach, ahead, target, goal, ts);
  }

  /** An idle poll that does not rebuild: before the match it changes nothing, later it
      lengthens the pending runs. */
  lemma IdlePollShadows<S(!new)>(r: Rules<S>, x: Recorder<S>, c: Checker<S>, reach: nat, ahead: nat, ts: int)
    returns (reach': nat, ahead': nat)
    requires Lawful(r) && EmitsGameplay(r) && Shadows(r, x, c, reach, ahead) && ClockMovesOn(r, x, ts)
    requires AfterPoll(r, x, ts).Some? && !(x.engine.needsRebuild && Elapsed(r, x.engine.committed, ts) >= 0)
    ensures var y := AfterPoll(r, x, ts).value;
            Shadows(r, y, c, reach', ahead') && y.now == ts &&
            (Elapsed(r, y.engine.committed, ts) >= 0 ==> !y.engine.needsRebuild && PolledNow(r, y, reach', ahead'))
  {
    if Elapsed(r, x.engine.committed, ts) < 0 {
      assert Gameplays<S>([]) == [] && x.events + [] == x.events;
      return 0, 0;
    }
    PlainPoll(r, x.engine, ts);
    reach', ahead' := ShadowsLonger(r, x, c, reach, ahead, ts);
  }

  /** Polling a shadow at the recorder's clock makes it the twin. */
  lemma SyncMakesTwin<S(!new)>(r: Rules<S>, y: Recorder<S>, c: Checker<S>, reach: nat, ahead: nat)
    requires Lawful(r) && Shadows(r, y, c, reach, ahead)
    requires Elapsed(r, y.engine.committed, y.now) >= 0 ==> !y.engine.needsRebuild && PolledNow(r, y, reach, ahead)
    ensures Synced(r, c, y.now) == Some(Twin(y))
  {
    var run := RunTo(r, c.engine.committed, false, reach);
    if Elapsed(r, y.engine.committed, y.now) < 0 {
      assert Gameplays<S>([]) == [] && c.emitted + [] == c.emitted;
    } else {
      PlainPoll(r, c.engine, y.now);
    }
  }

  /** A rebuild of the prediction happened in a poll that left no record. */
  ghost predicate RebuildsIdly<S(!new)>(r: Rules<S>, x: Recorder<S>, turn: LoopTurn<S>)
    requires Lawful(r)
  {
    turn.action.Nothing? && x.engine.needsRebuild && Elapsed(r, x.engine.committed, turn.ts) >= 0
  }

  ghost predicate NoIdleRebuild<S(!new)>(r: Rules<S>, x: Recorder<S>, turns: seq<LoopTurn<S>>)
    requires Lawful(r)
    decreases |turns|
  {
    turns != [] ==>
      var before, last := turns[..|turns| - 1], turns[|turns| - 1];
      NoIdleRebuild(r, x, before) && (Recorded(r, x, before).Some? ==> !RebuildsIdly(r, Recorded(r, x, before).value, last))
  }

  ghost predicate Shadowed<S(!new)>(r: Rules<S>, x: Recorder<S>, p: Progress<S>)
    requires Lawful(r)
  {
    p.Running? && exists reach, ahead :: Shadows(r, x, p.checker, reach, ahead)
  }

  lemma TwinShadows<S(!new)>(r: Rules<S>, x: Recorder<S>)
    requires Lawful(r) && x.engine.predicted.Some? && AllGameplay(x.events)
    ensures Shadows(r, x, Twin(x), 0, 0)
  {
    assert Gameplays<S>([]) == [] && x.events + [] == x.events;
  }

  lemma PollKeepsPredicting<S(!new)>(r: Rules<S>, e: Engine<S>, ts: int)
    requires Lawful(r) && e.predicted.Some?
    ensures Polled(r, e, ts).0.predicted.Some?
  {
  }

  lemma ActionKeepsPredicting<S>(r: Rules<S>, x: Recorder<S>, action: Action<S>)
    requires x.engine.predicted.Some? && AfterAction(r, x, action).Some?
    ensures AfterAction(r, x, action).value.engine.predicted.Some?
  {
  }

  lemma TakenKeepsPredicting<S(!new)>(r: Rules<S>, x: Recorder<S>, turn: LoopTurn<S>)
    requires Lawful(r) && x.engine.predicted.Some? && Taken(r, x, turn).Some?
    ensures Taken(r, x, turn).value.engine.predicted.Some?
  {
    PollKeepsPredicting(r, x.engine, turn.ts);
    ActionKeepsPredicting(r, AfterPoll(r, x, turn.ts).value, turn.action);
  }

  /** Polled at the recorder's time, a shadow becomes the twin: it was one already if a
      rebuild is due, and catches up if not. */
  lemma ShadowCatchesUp<S(!new)>(r: Rules<S>, x: Recorder<S>, c: Checker<S>, reach: nat, ahead: nat, ts: int)
    requires Lawful(r) && EmitsGameplay(r) && Shadows(r, x, c, reach, ahead)
    requires ClockMovesOn(r, x, ts) && AfterPoll(r, x, ts).Some?
    ensures Synced(r, c, ts) == Some(Twin(AfterPoll(r, x, ts).value))
  {
    if x.engine.needsRebuild && Elapsed(r, x.engine.committed, ts) >= 0 {
      assert Gameplays<S>([]) == [] && c.emitted + [] == c.emitted;
      assert c == Twin(x);
    } else {
      var reach', ahead' := IdlePollShadows(r, x, c, reach, ahead, ts);
      SyncMakesTwin(r, AfterPoll(r, x, ts).value, c, reach', ahead');
    }
  }

  lemma TurnKeepsShadow<S(!new)>(r: Rules<S>, c0: Checker<S>, x: Recorder<S>, turn: LoopTurn<S>)
    requires Lawful(r) && EmitsGameplay(r) && Taken(r, x, turn).Some? && ClockMovesOn(r, x, turn.ts)
    requires !RebuildsIdly(r, x, turn) && Shadowed(r, x, CheckAll(r, c0, x.trace))
    ensures var y := Taken(r, x, turn).value; Shadowed(r, y, CheckAll(r, c0, y.trace))
  {
    var c, y := CheckAll(r, c0, x.trace).checker, Taken(r, x, turn).value;
    var reach, ahead :| Shadows(r, x, c, reach, ahead);
    if turn.action.Nothing? {
      var reach', ahead' := IdlePollShadows(r, x, c, reach, ahead, turn.ts);
    } else {
      ShadowCatchesUp(r, x, c, reach, ahead, turn.ts);
      RecordedTurn(r, c0, x, c, turn);
      TakenKeepsPredicting(r, x, turn);
      TwinShadows(r, y);
    }
  }

  /** With a steady clock and no idle rebuild, the checker of any trace is, up to a pending
      run of steps, the recorder's twin. */
  lemma {:induction false} CheckerShadows<S(!new)>(r: Rules<S>, anchor: S, now: int, turns: seq<LoopTurn<S>>)
    requires Lawful(r) && EmitsGameplay(r) && Recorded(r, Booted(r, anchor, now), turns).Some?
    requires SteadyClock(r, Booted(r, anchor, now), turns) && NoIdleRebuild(r, Booted(r, anchor, now), turns)
    ensures var x := Recorded(r, Booted(r, anchor, now), turns).value;
            Shadowed(r, x, CheckAll(r, Started(r, anchor), x.trace))
    decreases |turns|
  {
    var x0 := Booted(r, anchor, now);
    if turns == [] {
      TwinShadows(r, x0);
    } else {
      var before := turns[..|turns| - 1];
      CheckerShadows(r, anchor, now, before);
      TurnKeepsShadow(r, Started(r, anchor), Recorded(r, x0, before).value, turns[|turns| - 1]);
    }
  }

  /** A server that published every gameplay event it emitted leaves a trace that replays
      as deterministic, failing steps or not, unless its prediction was rebuilt in a poll
      that left no record; then it aborts exactly when driving an engine by the trace's
      timestamps and commands alone fails, and only if a simulation step can fail at all. */
  lemma RecordedTraceReplays<S(!new)>(r: Rules<S>, anchor: S, now: int, turns: seq<LoopTurn<S>>)
    requires Lawful(r) && EmitsGameplay(r) && Recorded(r, Booted(r, anchor, now), turns).Some?
    requires SteadyClock(r, Booted(r, anchor, now), turns)
    requires Recorded(r, Booted(r, anchor, now), turns).value.events == []
    ensures var v := VerdictOf(CheckAll(r, Started(r, anchor), Recorded(r, Booted(r, anchor, now), turns).value.trace));
            v == Deterministic || (v == Aborted && !NoIdleRebuild(r, Booted(r, anchor, now), turns) && !StepsNeverFail(r))
    ensures var trace := Recorded(r, Booted(r, anchor, now), turns).value.trace;
            VerdictOf(CheckAll(r, Started(r, anchor), trace)) == Deterministic <==> Redrive(r, anchor, trace).Some?
  {
    TraceIsAccepted(r, anchor, now, turns);
    var trace := Recorded(r, Booted(r, anchor, now), turns).value.trace;
    if CheckAll(r, Started(r, anchor), trace).Running? {
      VerdictIsExact(r, anchor, trace);
    } else {
      AbortMeansUndrivable(r, anchor, trace);
    }
  }

  lemma TraceIsAccepted<S(!new)>(r: Rules<S>, anchor: S, now: int, turns: seq<LoopTurn<S>>)
    requires Lawful(r) && EmitsGameplay(r) && Recorded(r, Booted(r, anchor, now), turns).Some?
    requires SteadyClock(r, Booted(r, anchor, now), turns)
    requires Recorded(r, Booted(r, anchor, now), turns).value.events == []
    ensures var p := CheckAll(r, Started(r, anchor), Recorded(r, Booted(r, anchor, now), turns).value.trace);
            if p.Running? then VerdictOf(p) == Deterministic
            else p.verdict == Aborted && !NoIdleRebuild(r, Booted(r, anchor, now), turns) && !StepsNeverFail(r)
  {
    var x := Recorded(r, Booted(r, anchor, now), turns).value;
    var p := CheckAll(r, Started(r, anchor), x.trace);
    if NoIdleRebuild(r, Booted(r, anchor, now), turns) {
      CheckerShadows(r, anchor, now, turns);
      var reach, ahead :| Shadows(r, x, p.checker, reach, ahead);
    } else {
      CheckerFollows(r, anchor, now, turns);
      if p.Running? {
        var reach :| Follows(r, x, p.checker, reach);
      }
    }
  }
}
