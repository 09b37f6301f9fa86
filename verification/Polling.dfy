/** Clock polls: how the committed simulation depends on when it is polled. */
module Polling {
  import opened Simulation
  import opened Arithmetic
  import opened EngineSpec

  function Then<S>(a: Run<S>, b: Run<S>): (run: Run<S>) { Run(b.state, a.events + b.events, b.failed) }

  lemma ThenAssociates<S>(a: Run<S>, b: Run<S>, c: Run<S>)
    ensures Then(Then(a, b), c) == Then(a, Then(b, c))
  {
    assert a.events + b.events + c.events == a.events + (b.events + c.events);
  }

  lemma RunToUnfold<S(!new)>(r: Rules<S>, s: S, m: bool, target: nat)
    requires Lawful(r) && !r.complete(s) && r.tick(s) < target && r.step(s, m).Stepped?
    ensures var n := r.step(s, m).state;
            RunTo(r, s, m, target) == Then(Run(n, Label(r, r.tick(n), r.step(s, m).events), false), RunTo(r, n, m, target))
  {
  }

  /** Stepping can be cut anywhere. */
  lemma {:induction false} RunToCompose<S(!new)>(r: Rules<S>, s: S, m: bool, mid: nat, target: nat)
    requires Lawful(r) && mid <= target
    ensures var a := RunTo(r, s, m, mid);
            if a.failed then RunTo(r, s, m, target) == a
            else RunTo(r, s, m, target) == Then(a, RunTo(r, a.state, m, target))
    decreases mid - r.tick(s)
  {
    var a := RunTo(r, s, m, mid);
    if r.complete(s) || r.tick(s) >= mid {
      assert [] + RunTo(r, s, m, target).events == RunTo(r, s, m, target).events;
    } else if r.step(s, m).Stepped? {
      var n := r.step(s, m).state;
      RunToUnfold(r, s, m, mid);
      RunToUnfold(r, s, m, target);
      RunToCompose(r, n, m, mid, target);
      if !a.failed {
        ThenAssociates(Run(n, Label(r, r.tick(n), r.step(s, m).events), false), RunTo(r, n, m, mid),
            RunTo(r, a.state, m, target));
      }
    }
  }

  /** The wall clock fits the engine's 32-bit tick counter at `ts`. */
  predicate InRange<S>(r: Rules<S>, s: S, ts: int)
    requires 1 <= r.tickMs(s)
  {
    Elapsed(r, s, ts) < 0 || Elapsed(r, s, ts) / r.tickMs(s) < U32_RANGE
  }

  lemma LaggedMonotone(a: nat, b: nat, lag: nat)
    requires a <= b < U32_RANGE
    ensures SaturatingSub(AsU32(a), lag) <= SaturatingSub(AsU32(b), lag)
  {
  }

  lemma TargetMonotone<S(!new)>(r: Rules<S>, s: S, lagMs: nat, a: int, b: int)
    requires Lawful(r) && a <= b && InRange(r, s, a) && InRange(r, s, b)
    ensures LaggedTarget(r, s, lagMs, a) <= LaggedTarget(r, s, lagMs, b)
  {
    if Elapsed(r, s, a) >= 0 {
      var tickMs := r.tickMs(s);
      DivMonotone(Elapsed(r, s, a), Elapsed(r, s, b), tickMs);
      LaggedMonotone(Elapsed(r, s, a) / tickMs, Elapsed(r, s, b) / tickMs, lagMs / tickMs);
    }
  }

  /** What a poll does to the committed half does not depend on prediction. */
  lemma PollCommits<S(!new)>(r: Rules<S>, e: Engine<S>, ts: int)
    requires Lawful(r)
    ensures var run := RunTo(r, e.committed, false, LaggedTarget(r, e.committed, e.lagMs, ts));
            var (f, o) := Polled(r, e, ts);
            f.committed == run.state && f.lagMs == e.lagMs && f.commandCounter == e.commandCounter &&
            (run.failed ==> o.Err?) && (o.Ok? ==> !run.failed && o.value == run.events)
  {
  }

  /** A schedule of successful polls with everything it emitted. */
  function PollMany<S(!new)>(r: Rules<S>, e: Engine<S>, tss: seq<int>): (res: Option<(Engine<S>, seq<Labelled<S>>)>)
    requires Lawful(r)
    decreases |tss|
  {
    if tss == [] then Some((e, []))
    else match PollMany(r, e, tss[..|tss| - 1])
      case None => None
      case Some((f, events)) =>
        match Polled(r, f, tss[|tss| - 1])
        case (g, Ok(more)) => Some((g, events + more))
        case _ => None
  }

  function Latest(tss: seq<int>): (ts: int)
    requires tss != []
    ensures ts in tss && forall t :: t in tss ==> t <= ts
  {
    var n := |tss| - 1;
    if n == 0 then tss[0]
    else
      var earlier := Latest(tss[..n]);
      assert forall t :: t in tss ==> t in tss[..n] || t == tss[n];
      if earlier < tss[n] then tss[n] else earlier
  }

  /** The furthest tick any poll of a schedule aims for. */
  function Furthest<S(!new)>(r: Rules<S>, s: S, lagMs: nat, tss: seq<int>): (t: nat)
    requires Lawful(r)
    ensures forall ts :: ts in tss ==> LaggedTarget(r, s, lagMs, ts) <= t
    ensures t == 0 || exists ts :: ts in tss && LaggedTarget(r, s, lagMs, ts) == t
  {
    if tss == [] then 0
    else
      var n := |tss| - 1;
      assert forall ts :: ts in tss ==> ts in tss[..n] || ts == tss[n];
      Max(Furthest(r, s, lagMs, tss[..n]), LaggedTarget(r, s, lagMs, tss[n]))
  }

  /** One more poll after a run to `reached`. */
  lemma PollExtends<S(!new)>(r: Rules<S>, e: Engine<S>, f: Engine<S>, events: seq<Labelled<S>>, reached: nat, ts: int)
    requires Lawful(r) && RunTo(r, e.committed, false, reached) == Run(f.committed, events, false) && f.lagMs == e.lagMs
    requires Polled(r, f, ts).1.Ok?
    ensures var (g, o) := Polled(r, f, ts);
            g.lagMs == e.lagMs && g.commandCounter == f.commandCounter &&
            RunTo(r, e.committed, false, Max(reached, LaggedTarget(r, e.committed, e.lagMs, ts))) ==
              Run(g.committed, events + o.value, false)
  {
    PollCommits(r, f, ts);
    var target := LaggedTarget(r, e.committed, e.lagMs, ts);
    if reached <= target {
      RunToCompose(r, e.committed, false, reached, target);
    } else {
      assert events + [] == events;
    }
  }

  /** Any schedule of polls, whatever the order, the repeats and the wrapping, commits and
      emits what one run to the furthest of its targets does. */
  lemma {:induction false} PollsReachFurthest<S(!new)>(r: Rules<S>, e: Engine<S>, tss: seq<int>)
    requires Lawful(r) && PollMany(r, e, tss).Some?
    ensures var (f, events) := PollMany(r, e, tss).value;
            f.lagMs == e.lagMs && f.commandCounter == e.commandCounter &&
            RunTo(r, e.committed, false, Furthest(r, e.committed, e.lagMs, tss)) == Run(f.committed, events, false)
    decreases |tss|
  {
    if tss != [] {
      var n := |tss| - 1;
      PollsReachFurthest(r, e, tss[..n]);
      var (f, events) := PollMany(r, e, tss[..n]).value;
      PollExtends(r, e, f, events, Furthest(r, e.committed, e.lagMs, tss[..n]), tss[n]);
    }
  }

  /** Aiming further changes the outcome exactly when an unfinished game has further to go. */
  lemma AimingFurther<S(!new)>(r: Rules<S>, s: S, near: nat, far: nat)
    requires Lawful(r) && near <= far && !RunTo(r, s, false, far).failed
    ensures var a, b := RunTo(r, s, false, near), RunTo(r, s, false, far);
            !a.failed && (a.state == b.state <==> r.complete(a.state) || far <= Max(r.tick(s), near)) &&
            (a.state == b.state ==> a.events == b.events)
  {
    RunToCompose(r, s, false, near, far);
    var a := RunTo(r, s, false, near);
    assert a.events + [] == a.events;
  }

  /** No poll of the schedule aims past the state or past the latest poll. */
  predicate NoneOutrunsLatest<S(!new)>(r: Rules<S>, s: S, lagMs: nat, tss: seq<int>)
    requires Lawful(r) && tss != []
  {
    forall ts :: ts in tss ==> LaggedTarget(r, s, lagMs, ts) <= Max(r.tick(s), LaggedTarget(r, s, lagMs, Latest(tss)))
  }

  /** Exactly when the schedule does not show: one poll at the latest timestamp commits
      what the whole schedule commits if and only if no poll outran it, or the game is
      already complete there; and then it emits the same events. */
  lemma PollScheduleExact<S(!new)>(r: Rules<S>, e: Engine<S>, tss: seq<int>)
    requires Lawful(r) && tss != [] && PollMany(r, e, tss).Some?
    ensures var (f, events) := PollMany(r, e, tss).value;
            var once := RunTo(r, e.committed, false, LaggedTarget(r, e.committed, e.lagMs, Latest(tss)));
            var (g, o) := Polled(r, e, Latest(tss));
            && g.committed == once.state
            && (g.committed == f.committed <==> r.complete(once.state) || NoneOutrunsLatest(r, e.committed, e.lagMs, tss))
            && (g.committed == f.committed ==> once == Run(f.committed, events, false))
            && (g.committed == f.committed && o.Ok? ==> o.value == events)
  {
    PollsReachFurthest(r, e, tss);
    PollCommits(r, e, Latest(tss));
    var s, lag := e.committed, e.lagMs;
    AimingFurther(r, s, LaggedTarget(r, s, lag, Latest(tss)), Furthest(r, s, lag, tss));
  }

  /** While the wall clock fits 32 bits of ticks no poll outruns the latest. */
  lemma InRangeNoneOutruns<S(!new)>(r: Rules<S>, s: S, lagMs: nat, tss: seq<int>)
    requires Lawful(r) && tss != [] && forall t :: t in tss ==> InRange(r, s, t)
    ensures NoneOutrunsLatest(r, s, lagMs, tss)
  {
    forall ts | ts in tss
      ensures LaggedTarget(r, s, lagMs, ts) <= Max(r.tick(s), LaggedTarget(r, s, lagMs, Latest(tss)))
    {
      TargetMonotone(r, s, lagMs, ts, Latest(tss));
    }
  }

  /** Poll-schedule independence in range: any timestamps, in any order and with any
      repeats, commit the same state and emit the same labelled events as one poll at the
      latest. */
  lemma PollScheduleIndependence<S(!new)>(r: Rules<S>, e: Engine<S>, tss: seq<int>)
    requires Lawful(r) && tss != [] && PollMany(r, e, tss).Some?
    requires forall t :: t in tss ==> InRange(r, e.committed, t)
    ensures var (f, events) := PollMany(r, e, tss).value;
            f.lagMs == e.lagMs && f.commandCounter == e.commandCounter &&
            RunTo(r, e.committed, false, LaggedTarget(r, e.committed, e.lagMs, Latest(tss))) == Run(f.committed, events, false)
    ensures var (g, o) := Polled(r, e, Latest(tss));
            g.committed == PollMany(r, e, tss).value.0.committed &&
            (o.Ok? ==> o.value == PollMany(r, e, tss).value.1)
  {
    PollsReachFurthest(r, e, tss);
    PollScheduleExact(r, e, tss);
    InRangeNoneOutruns(r, e.committed, e.lagMs, tss);
  }

  lemma BehindOnlyByWrapping(wall: nat, lag: nat, tick: nat)
    requires SaturatingSub(AsU32(wall), lag) <= tick
    ensures SaturatingSub(SaturatingSub(Min(wall, U32_RANGE - 1), lag), tick) == 0 <==>
              wall < U32_RANGE || SaturatingSub(U32_RANGE - 1, lag) <= tick
  {
  }

  /** The lag reported by an engine that has reached the lagged target of a state with
      its clock. */
  lemma LagAtTarget<S(!new)>(r: Rules<S>, s: S, f: Engine<S>, ts: int)
    requires Lawful(r) && r.tickMs(f.committed) == r.tickMs(s) && r.startMs(f.committed) == r.startMs(s)
    requires r.complete(f.committed) || LaggedTarget(r, s, f.lagMs, ts) <= r.tick(f.committed)
    ensures SchedulerLagMs(r, f, ts) == 0 <==>
              || InRange(r, s, ts)
              || r.complete(f.committed)
              || SaturatingSub(U32_RANGE - 1, f.lagMs / r.tickMs(s)) <= r.tick(f.committed)
  {
    var tickMs := r.tickMs(s);
    if r.startMs(s).Some? && !r.complete(f.committed) && ts >= r.startMs(s).value {
      var wall, lag, tick := Elapsed(r, s, ts) / tickMs, f.lagMs / tickMs, r.tick(f.committed);
      PositiveProduct(SaturatingSub(SaturatingSub(Min(wall, U32_RANGE - 1), lag), tick), tickMs);
      BehindOnlyByWrapping(wall, lag, tick);
    }
  }

  /** Where the saturated target is reached without wrapping back from it. */
  lemma SaturatedTargetReached(wrapped: nat, lag: nat, tick: nat)
    requires wrapped < U32_RANGE
    ensures SaturatingSub(U32_RANGE - 1, lag) <= Max(tick, SaturatingSub(wrapped, lag)) <==>
              wrapped == U32_RANGE - 1 || SaturatingSub(U32_RANGE - 1, lag) <= tick
  {
  }

  /** The wall clock stands on the very last tick of a turn of the 32-bit counter. */
  predicate OnLastTick<S>(r: Rules<S>, s: S, ts: int)
    requires 1 <= r.tickMs(s)
  {
    Elapsed(r, s, ts) >= 0 && AsU32(Elapsed(r, s, ts) / r.tickMs(s)) == U32_RANGE - 1
  }

  lemma ReachedBefore<S(!new)>(r: Rules<S>, s: S, lagMs: nat, ts: int)
    requires Lawful(r) && !InRange(r, s, ts)
    ensures SaturatingSub(U32_RANGE - 1, lagMs / r.tickMs(s)) <= Max(r.tick(s), LaggedTarget(r, s, lagMs, ts)) <==>
              OnLastTick(r, s, ts) || SaturatingSub(U32_RANGE - 1, lagMs / r.tickMs(s)) <= r.tick(s)
  {
    SaturatedTargetReached(AsU32(Elapsed(r, s, ts) / r.tickMs(s)), lagMs / r.tickMs(s), r.tick(s));
  }

  /** Exactly when a poll at `ts` whose simulation steps succeed leaves no reported lag at
      `ts`, told from the engine before the poll: the wall clock fits 32 bits of ticks; or
      the game completes on the way; or the clock, which the poll wraps and the report
      saturates, stands on the last tick of a turn; or the engine was there already. */
  lemma LagAfterPoll<S(!new)>(r: Rules<S>, e: Engine<S>, ts: int)
    requires Lawful(r) && !RunTo(r, e.committed, false, LaggedTarget(r, e.committed, e.lagMs, ts)).failed
    ensures var s := e.committed;
            SchedulerLagMs(r, Polled(r, e, ts).0, ts) == 0 <==>
              || InRange(r, s, ts)
              || r.complete(RunTo(r, s, false, LaggedTarget(r, s, e.lagMs, ts)).state)
              || OnLastTick(r, s, ts)
              || SaturatingSub(U32_RANGE - 1, e.lagMs / r.tickMs(s)) <= r.tick(s)
  {
    PollCommits(r, e, ts);
    LagAtTarget(r, e.committed, Polled(r, e, ts).0, ts);
    if !InRange(r, e.committed, ts) { ReachedBefore(r, e.committed, e.lagMs, ts); }
  }

  /** While the clock fits 32 bits, a successful poll of a started game that does not end
      commits every tick up to the lag behind the wall, and none beyond. */
  lemma PollCommitsUpToLag<S(!new)>(r: Rules<S>, e: Engine<S>, ts: int)
    requires Lawful(r) && InRange(r, e.committed, ts) && Elapsed(r, e.committed, ts) >= 0
    requires Polled(r, e, ts).1.Ok? && !r.complete(Polled(r, e, ts).0.committed)
    ensures var s, t := e.committed, Polled(r, e, ts).0.committed;
            var wall, lag := Elapsed(r, s, ts) / r.tickMs(s), e.lagMs / r.tickMs(s);
            r.tick(t) == if r.tick(s) + lag < wall then wall - lag else r.tick(s)
  {
    PollCommits(r, e, ts);
    RunEndsAtLag(r, e.committed, e.lagMs, ts, Polled(r, e, ts).0.committed);
  }

  lemma RunEndsAtLag<S(!new)>(r: Rules<S>, s: S, lagMs: nat, ts: int, t: S)
    requires Lawful(r) && InRange(r, s, ts) && Elapsed(r, s, ts) >= 0 && !r.complete(t)
    requires var run := RunTo(r, s, false, LaggedTarget(r, s, lagMs, ts)); !run.failed && t == run.state
    ensures var wall, lag := Elapsed(r, s, ts) / r.tickMs(s), lagMs / r.tickMs(s);
            r.tick(t) == if r.tick(s) + lag < wall then wall - lag else r.tick(s)
  {
    var wall: nat, lag: nat := Elapsed(r, s, ts) / r.tickMs(s), lagMs / r.tickMs(s);
    assert LaggedTarget(r, s, lagMs, ts) == SaturatingSub(AsU32(wall), lag);
    RunEndsOnTarget(r, s, SaturatingSub(AsU32(wall), lag), t);
    TargetWithoutWrapping(wall, lag, r.tick(s));
  }

  lemma RunEndsOnTarget<S(!new)>(r: Rules<S>, s: S, target: nat, t: S)
    requires Lawful(r) && !RunTo(r, s, false, target).failed && t == RunTo(r, s, false, target).state && !r.complete(t)
    ensures r.tick(t) == Max(r.tick(s), target)
  {
  }

  lemma TargetWithoutWrapping(wall: nat, lag: nat, tick: nat)
    requires wall < U32_RANGE
    ensures Max(tick, SaturatingSub(AsU32(wall), lag)) == if tick + lag < wall then wall - lag else tick
  {
  }

  /** And the lag reported before it is the simulated time it commits. */
  lemma LagIsWorkAhead<S(!new)>(r: Rules<S>, e: Engine<S>, ts: int)
    requires Lawful(r) && InRange(r, e.committed, ts)
    requires Polled(r, e, ts).1.Ok? && !r.complete(Polled(r, e, ts).0.committed)
    ensures var s, t := e.committed, Polled(r, e, ts).0.committed;
            SchedulerLagMs(r, e, ts) == (r.tick(t) - r.tick(s)) * r.tickMs(s)
  {
    PollCommits(r, e, ts);
    if Elapsed(r, e.committed, ts) >= 0 { PollCommitsUpToLag(r, e, ts); }
  }
}
