/** Replaying replicated messages against a state: the one movement-only catch-up
    contract shared by live clients, recorded archives and highlight playback. */
module Replication {
  import opened Simulation

  /** Movement-only stepping that stops at the target tick or when the game completes. */
  function StepTo<S(!new)>(r: Rules<S>, s: S, target: nat): (o: Outcome<S>)
    requires Lawful(r)
    ensures o.Ok? ==> r.tick(s) <= r.tick(o.value) && r.tickMs(o.value) == r.tickMs(s)
    ensures o.Ok? ==> r.tick(o.value) <= target || o.value == s
    ensures o.Ok? && r.tick(o.value) < target ==> r.complete(o.value)
    ensures !o.Hang?
    decreases target - r.tick(s)
  {
    if r.tick(s) >= target || r.complete(s) then Ok(s)
    else match r.step(s, true)
      case Stepped(n, _) => StepTo(r, n, target)
      case StepFailed(_) => Err
  }

  /** The catch-up loop that precedes a delta. Its guard looks at the tick only, and
      a completed state no longer ticks, so the loop may never end. */
  function CatchUp<S(!new)>(r: Rules<S>, s: S, target: nat): (o: Outcome<S>)
    requires Lawful(r)
    ensures o.Ok? ==> r.tick(o.value) == if r.tick(s) < target then target else r.tick(s)
    ensures o.Ok? ==> r.tickMs(o.value) == r.tickMs(s)
    decreases target - r.tick(s)
  {
    if r.tick(s) >= target then Ok(s)
    else if r.complete(s) then Hang
    else match r.step(s, true)
      case Stepped(n, _) => CatchUp(r, n, target)
      case StepFailed(_) => Err
  }

  /** The state after `n` unguarded iterations of the catch-up loop's body. */
  function Iterate<S>(r: Rules<S>, s: S, n: nat): (o: Option<S>) {
    if n == 0 then Some(s)
    else match r.step(s, true)
      case Stepped(next, _) => Iterate(r, next, n - 1)
      case StepFailed(_) => None
  }

  ghost predicate NeverLeavesLoop<S>(r: Rules<S>, s: S, target: nat) {
    forall n: nat :: Iterate(r, s, n).Some? && r.tick(Iterate(r, s, n).value) < target
  }

  lemma {:induction false} CompleteStateStandsStill<S(!new)>(r: Rules<S>, s: S, n: nat)
    requires Lawful(r) && r.complete(s)
    ensures Iterate(r, s, n) == Some(s)
  {
    if n > 0 { CompleteStateStandsStill(r, s, n - 1); }
  }

  /** `Hang` is exactly non-termination of the source's loop. */
  lemma {:induction false} HangMeansForever<S(!new)>(r: Rules<S>, s: S, target: nat)
    requires Lawful(r)
    ensures CatchUp(r, s, target).Hang? <==> NeverLeavesLoop(r, s, target)
    decreases target - r.tick(s)
  {
    if r.tick(s) >= target {
      assert Iterate(r, s, 0) == Some(s);
    } else if r.complete(s) {
      forall n: nat { CompleteStateStandsStill(r, s, n); }
    } else if r.step(s, true).StepFailed? {
      assert Iterate(r, s, 1).None?;
    } else {
      var next := r.step(s, true).state;
      HangMeansForever(r, next, target);
      if NeverLeavesLoop(r, next, target) {
        forall n: nat ensures Iterate(r, s, n).Some? && r.tick(Iterate(r, s, n).value) < target {
          if n > 0 { assert Iterate(r, s, n) == Iterate(r, next, n - 1); }
        }
      }
      if NeverLeavesLoop(r, s, target) {
        forall n: nat ensures Iterate(r, next, n).Some? && r.tick(Iterate(r, next, n).value) < target {
          assert Iterate(r, s, n + 1) == Iterate(r, next, n);
        }
      }
    }
  }

  /** The catch-up agrees with guarded stepping except when the game completes short
      of the message's tick: that, and only that, makes it hang. */
  lemma {:induction false} CatchUpExact<S(!new)>(r: Rules<S>, s: S, target: nat)
    requires Lawful(r)
    ensures CatchUp(r, s, target) ==
            var o := StepTo(r, s, target);
            if o.Ok? && r.tick(o.value) < target then Hang else o
    decreases target - r.tick(s)
  {
    if r.tick(s) < target && !r.complete(s) && r.step(s, true).Stepped? {
      CatchUpExact(r, r.step(s, true).state, target);
    }
  }

  /** Apply one replicated message transactionally. */
  function Advanced<S(!new)>(r: Rules<S>, s: S, m: EventMessage<S>): (o: Outcome<S>)
    requires Lawful(r)
    ensures o.Ok? && !m.event.Snapshot? ==> r.tickMs(o.value) == r.tickMs(s)
    ensures o.Ok? && !m.event.Snapshot? ==> r.tick(o.value) == if r.tick(s) < m.tick then m.tick else r.tick(s)
    ensures o.Ok? && m.event.Snapshot? ==> o.value == m.event.state
  {
    if m.event.Snapshot? then
      if r.tick(m.event.state) != m.tick || !r.admitted(m.event.state) then Err else Ok(m.event.state)
    else match CatchUp(r, s, m.tick)
      case Ok(c) =>
        if m.event.TickHash? then Ok(c)
        else (match r.applyDelta(c, m.event) case Some(n) => Ok(n) case None => Err)
      case other => other
  }

  /** A snapshot is taken exactly when it stands on its message's tick and is admitted; a
      probe only catches up; a delta is applied to the state of its tick. */
  lemma MessageAppliesAtItsTick<S(!new)>(r: Rules<S>, s: S, m: EventMessage<S>)
    requires Lawful(r)
    ensures m.event.Snapshot? ==>
              (Advanced(r, s, m).Ok? <==> r.tick(m.event.state) == m.tick && r.admitted(m.event.state)) &&
              !Advanced(r, s, m).Hang?
    ensures m.event.TickHash? ==> Advanced(r, s, m) == CatchUp(r, s, m.tick)
    ensures !m.event.Snapshot? && !m.event.TickHash? && Advanced(r, s, m).Ok? ==>
              var o := CatchUp(r, s, m.tick); o.Ok? && r.applyDelta(o.value, m.event) == Some(Advanced(r, s, m).value)
  {
  }

  /** The source's loop over a cloned candidate. */
  method AdvanceAndApply<S(!new)>(r: Rules<S>, s: S, m: EventMessage<S>) returns (o: Outcome<S>)
    requires Lawful(r)
    ensures o == Advanced(r, s, m)
  {
    if m.event.Snapshot? {
      if r.tick(m.event.state) != m.tick || !r.admitted(m.event.state) { return Err; }
      return Ok(m.event.state);
    }
    var candidate := s;
    while r.tick(candidate) < m.tick
      invariant CatchUp(r, candidate, m.tick) == CatchUp(r, s, m.tick)
      decreases m.tick - r.tick(candidate)
    {
      if r.complete(candidate) { return Hang; }
      match r.step(candidate, true)
      case Stepped(n, _) => candidate := n;
      case StepFailed(_) => return Err;
    }
    if !m.event.TickHash? {
      match r.applyDelta(candidate, m.event)
      case Some(n) => candidate := n;
      case None => return Err;
    }
    return Ok(candidate);
  }

  /** In-order application of a run of messages; the first failure ends it. */
  function Batch<S(!new)>(r: Rules<S>, s: S, ms: seq<EventMessage<S>>): (o: Outcome<S>)
    requires Lawful(r)
  {
    if ms == [] then Ok(s)
    else match Advanced(r, s, ms[0])
      case Ok(n) => Batch(r, n, ms[1..])
      case other => other
  }

  /** Replay a run of messages and then hold or step to the target tick. */
  function Finish<S(!new)>(r: Rules<S>, s: S, ms: seq<EventMessage<S>>, target: nat): (o: Outcome<S>)
    requires Lawful(r)
  {
    match Batch(r, s, ms)
    case Ok(x) => StepTo(r, x, target)
    case other => other
  }

  lemma {:induction false} BatchConcat<S(!new)>(r: Rules<S>, s: S, a: seq<EventMessage<S>>, b: seq<EventMessage<S>>)
    requires Lawful(r)
    ensures Batch(r, s, a + b) ==
            var o := Batch(r, s, a);
            if o.Ok? then Batch(r, o.value, b) else o
    decreases |a|
  {
    if a == [] {
      assert a + b == b;
    } else {
      assert (a + b)[0] == a[0] && (a + b)[1..] == a[1..] + b;
      match Advanced(r, s, a[0])
      case Ok(n) => BatchConcat(r, n, a[1..], b);
      case _ =>
    }
  }

  /** Stepping is insensitive to intermediate stops. */
  lemma {:induction false} StepToCompose<S(!new)>(r: Rules<S>, s: S, mid: nat, target: nat)
    requires Lawful(r) && mid <= target
    ensures StepTo(r, s, target) ==
            var o := StepTo(r, s, mid);
            if o.Ok? then StepTo(r, o.value, target) else o
    decreases mid - r.tick(s)
  {
    if r.tick(s) < mid && !r.complete(s) && r.step(s, true).Stepped? {
      StepToCompose(r, r.step(s, true).state, mid, target);
    }
  }

  /** Pre-stepping towards a delta that is still ahead changes nothing. */
  lemma AdvancedAfterStepTo<S(!new)>(r: Rules<S>, s: S, mid: nat, m: EventMessage<S>)
    requires Lawful(r) && mid <= m.tick && StepTo(r, s, mid).Ok?
    ensures Advanced(r, StepTo(r, s, mid).value, m) == Advanced(r, s, m)
  {
    if !m.event.Snapshot? {
      var x := StepTo(r, s, mid).value;
      StepToCompose(r, s, mid, m.tick);
      CatchUpExact(r, s, m.tick);
      CatchUpExact(r, x, m.tick);
    }
  }

  ghost predicate AllAtOrAfter<S>(ms: seq<EventMessage<S>>, t: nat) {
    forall i :: 0 <= i < |ms| ==> t <= ms[i].tick
  }

  /** The heart of every index and every seek: stopping at an intermediate tick and
      resuming gives what an uninterrupted replay gives, failures included. */
  lemma FinishFromStop<S(!new)>(r: Rules<S>, s: S, mid: nat, ms: seq<EventMessage<S>>, target: nat)
    requires Lawful(r) && mid <= target && AllAtOrAfter(ms, mid) && StepTo(r, s, mid).Ok?
    ensures Finish(r, StepTo(r, s, mid).value, ms, target) == Finish(r, s, ms, target)
  {
    if ms == [] {
      StepToCompose(r, s, mid, target);
    } else {
      AdvancedAfterStepTo(r, s, mid, ms[0]);
    }
  }

  lemma FinishConcat<S(!new)>(r: Rules<S>, s: S, a: seq<EventMessage<S>>, b: seq<EventMessage<S>>, target: nat)
    requires Lawful(r)
    ensures Finish(r, s, a + b, target) ==
            var o := Batch(r, s, a);
            if o.Ok? then Finish(r, o.value, b, target) else o
  {
    BatchConcat(r, s, a, b);
  }

  /** A replay that was stopped at `mid` in state `x` can be resumed from `x`. */
  lemma FinishResumes<S(!new)>(r: Rules<S>, s: S, done: seq<EventMessage<S>>, mid: nat, x: S,
          todo: seq<EventMessage<S>>, target: nat)
    requires Lawful(r) && mid <= target && AllAtOrAfter(todo, mid) && Finish(r, s, done, mid) == Ok(x)
    ensures Finish(r, s, done + todo, target) == Finish(r, x, todo, target)
  {
    FinishConcat(r, s, done, todo, target);
    FinishFromStop(r, Batch(r, s, done).value, mid, todo, target);
  }

  lemma BatchSlice<S(!new)>(r: Rules<S>, s: S, ms: seq<EventMessage<S>>, i: nat, n: nat)
    requires Lawful(r) && i < n <= |ms|
    ensures var o := Advanced(r, s, ms[i]);
            Batch(r, s, ms[i..n]) == if o.Ok? then Batch(r, o.value, ms[i + 1..n]) else o
  {
    assert ms[i..n][1..] == ms[i + 1..n];
  }
}
