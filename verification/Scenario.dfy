/** Scripted scenario playback: a posed state advanced by the full rules, with AI
    drivers, and rewound by starting over from the pose. */
module Scenario {
  import opened Simulation
  import opened Timeline

  const U32_MAX: nat := 0xFFFF_FFFF
  const AI_SEQUENCE_BASE: nat := 1_000_000

  function SaturatingAdd(a: nat, b: nat): (c: nat) { if a + b <= U32_MAX then a + b else U32_MAX }

  /** One AI-driven snake. */
  datatype Driver = Driver(userId: nat, snakeId: nat)

  /** The fixed part of a playback. `aiTurn` is the AI policy: the new heading it
      wants for a snake, if it wants to change heading at all. */
  datatype Script<!S> = Script(
    rules: Rules<S>,
    aiTurn: (S, nat) -> Option<nat>,
    initial: S,
    drivers: seq<Driver>,
    endTick: nat)

  type Emitted<S> = (nat, nat, GameEvent<S>)

  /** The moving part. */
  datatype Scene<S> = Scene(state: S, aiSequences: map<nat, nat>, events: seq<Emitted<S>>)

  function Opening<S>(k: Script<S>): (x: Scene<S>) { Scene(k.initial, map[], []) }

  function Stamp<S>(tick: nat, events: seq<(nat, GameEvent<S>)>): (out: seq<Emitted<S>>) {
    if events == [] then [] else [(tick, events[0].0, events[0].1)] + Stamp(tick, events[1..])
  }

  /** One driver's decision, scheduled for the current tick under its own sequence. */
  function Drive<S>(k: Script<S>, x: Scene<S>, d: Driver): (y: Scene<S>) {
    match k.aiTurn(x.state, d.snakeId)
    case None => x
    case Some(heading) =>
      var sequence := SaturatingAdd(if d.userId in x.aiSequences then x.aiSequences[d.userId] else 0, 1);
      var id := CommandId(k.rules.tick(x.state), d.userId, SaturatingAdd(AI_SEQUENCE_BASE, sequence));
      Scene(k.rules.schedule(x.state, CommandMessage(id, Some(id), Turn(d.snakeId, heading))),
            x.aiSequences[d.userId := sequence], x.events)
  }

  function DriveAll<S>(k: Script<S>, x: Scene<S>, ds: seq<Driver>): (y: Scene<S>)
    decreases |ds|
  {
    if ds == [] then x else DriveAll(k, Drive(k, x, ds[0]), ds[1..])
  }

  predicate Over<S>(k: Script<S>, x: Scene<S>) {
    k.rules.tick(x.state) >= k.endTick || k.rules.complete(x.state)
  }

  /** One quantum of a scene that is not over. */
  function Next<S>(k: Script<S>, x: Scene<S>): (o: Outcome<Scene<S>>) {
    var y := DriveAll(k, x, k.drivers);
    match k.rules.step(y.state, false)
    case Stepped(n, events) => Ok(Scene(n, y.aiSequences, y.events + Stamp(k.rules.tick(n), events)))
    case StepFailed(_) => Err
  }

  /** What a failing quantum leaves behind: the drivers' commands and a half-made step. */
  function Broken<S>(k: Script<S>, x: Scene<S>): (y: Scene<S>) {
    var y := DriveAll(k, x, k.drivers);
    match k.rules.step(y.state, false)
    case Stepped(n, _) => y
    case StepFailed(partial) => y.(state := partial)
  }

  lemma {:induction false} DrivingKeepsTime<S(!new)>(k: Script<S>, x: Scene<S>, ds: seq<Driver>)
    requires Lawful(k.rules)
    ensures var y := DriveAll(k, x, ds);
            k.rules.tick(y.state) == k.rules.tick(x.state) && k.rules.complete(y.state) == k.rules.complete(x.state)
    decreases |ds|
  {
    if ds != [] { DrivingKeepsTime(k, Drive(k, x, ds[0]), ds[1..]); }
  }

  lemma NextTicks<S(!new)>(k: Script<S>, x: Scene<S>)
    requires Lawful(k.rules) && !Over(k, x) && Next(k, x).Ok?
    ensures k.rules.tick(Next(k, x).value.state) == k.rules.tick(x.state) + 1
  {
    DrivingKeepsTime(k, x, k.drivers);
  }

  /** Advance from `x` until the target tick or the end of the scene. */
  function SeekFrom<S(!new)>(k: Script<S>, x: Scene<S>, target: nat): (o: Outcome<Scene<S>>)
    requires Lawful(k.rules)
    ensures o.Ok? ==> Over(k, o.value) || target <= k.rules.tick(o.value.state)
    ensures o.Ok? ==> k.rules.tick(o.value.state) <= target || o.value == x
    ensures o.Ok? ==> k.rules.tick(x.state) <= k.rules.tick(o.value.state)
    decreases target - k.rules.tick(x.state)
  {
    if k.rules.tick(x.state) >= target || Over(k, x) then Ok(x)
    else match Next(k, x)
      case Ok(y) => NextTicks(k, x); SeekFrom(k, y, target)
      case other => other
  }

  /** What a failing seek leaves behind: the scene its failing quantum broke. */
  function Blocked<S(!new)>(k: Script<S>, x: Scene<S>, target: nat): (y: Scene<S>)
    requires Lawful(k.rules)
    decreases target - k.rules.tick(x.state)
  {
    if k.rules.tick(x.state) >= target || Over(k, x) then x
    else match Next(k, x)
      case Ok(n) => NextTicks(k, x); Blocked(k, n, target)
      case _ => Broken(k, x)
  }

  /** Stopping on the way changes nothing. */
  lemma {:induction false} SeekCompose<S(!new)>(k: Script<S>, x: Scene<S>, mid: nat, target: nat)
    requires Lawful(k.rules) && mid <= target
    ensures SeekFrom(k, x, target) ==
            var o := SeekFrom(k, x, mid);
            if o.Ok? then SeekFrom(k, o.value, target) else o
    decreases mid - k.rules.tick(x.state)
  {
    if k.rules.tick(x.state) < mid && !Over(k, x) && Next(k, x).Ok? {
      NextTicks(k, x);
      SeekCompose(k, Next(k, x).value, mid, target);
    }
  }

  // ------------------------------------------------------------ any session

  predicate Playable<S>(k: Script<S>) { k.rules.tick(k.initial) <= k.endTick }

  function StartTick<S>(k: Script<S>): (t: nat) { k.rules.tick(k.initial) }

  /** Where a seek to `target` starts: rewound if the target lies behind. */
  function Rewound<S>(k: Script<S>, x: Scene<S>, target: nat): (y: Scene<S>) {
    if target < k.rules.tick(x.state) then Opening(k) else x
  }

  /** One operation of a viewer. */
  function Operated<S(!new)>(k: Script<S>, x: Scene<S>, op: TimelineOp): (o: Outcome<Scene<S>>)
    requires Lawful(k.rules) && Playable(k)
  {
    match op
    case Advance => if Over(k, x) then Ok(x) else Next(k, x)
    case Seek(t) =>
      var target := Clamp(t, StartTick(k), k.endTick);
      SeekFrom(k, Rewound(k, x, target), target)
  }

  /** A session; the first failing operation ends it. */
  function SceneAfter<S(!new)>(k: Script<S>, x: Scene<S>, ops: seq<TimelineOp>): (o: Outcome<Scene<S>>)
    requires Lawful(k.rules) && Playable(k)
    decreases |ops|
  {
    if ops == [] then Ok(x)
    else match SceneAfter(k, x, ops[..|ops| - 1])
      case Ok(y) => Operated(k, y, ops[|ops| - 1])
      case other => other
  }

  /** What one fresh seek shows at tick `t`. */
  function FreshSeek<S(!new)>(k: Script<S>, t: nat): (o: Outcome<Scene<S>>)
    requires Lawful(k.rules)
  {
    SeekFrom(k, Opening(k), t)
  }

  /** A fresh seek that fails keeps failing further on; one that succeeds succeeds
      short of it. */
  lemma FreshSeekCompose<S(!new)>(k: Script<S>, t: nat, u: nat)
    requires Lawful(k.rules) && t <= u
    ensures var o := FreshSeek(k, t); FreshSeek(k, u) == if o.Ok? then SeekFrom(k, o.value, u) else o
  {
    SeekCompose(k, Opening(k), t, u);
  }

  /** A scene that came to rest before `c` is what any seek past its own tick shows. */
  lemma RestingScene<S(!new)>(k: Script<S>, c: nat, x: Scene<S>, t: nat)
    requires Lawful(k.rules) && FreshSeek(k, c) == Ok(x) && k.rules.tick(x.state) <= t <= c
    ensures FreshSeek(k, t) == Ok(x)
  {
    FreshSeekCompose(k, t, c);
    var y := FreshSeek(k, t).value;
    if !Over(k, y) && t < c { NextTicks(k, y); }
  }

  /** From the scene of a fresh seek to `c`, advancing is a fresh seek to `c + 1`. */
  lemma AdvanceIsFreshSeek<S(!new)>(k: Script<S>, c: nat, x: Scene<S>)
    requires Lawful(k.rules) && StartTick(k) <= c <= k.endTick && FreshSeek(k, c) == Ok(x)
    ensures Operated(k, x, Advance) == FreshSeek(k, Clamp(c + 1, StartTick(k), k.endTick))
  {
    if c < k.endTick {
      FreshSeekCompose(k, c, c + 1);
      if !Over(k, x) {
        if Next(k, x).Ok? { NextTicks(k, x); }
      }
    }
  }

  lemma SeekIsFreshSeek<S(!new)>(k: Script<S>, c: nat, x: Scene<S>, t: nat)
    requires Lawful(k.rules) && StartTick(k) <= c <= k.endTick && FreshSeek(k, c) == Ok(x)
    ensures Operated(k, x, Seek(t)) == FreshSeek(k, Clamp(t, StartTick(k), k.endTick))
  {
    var target := Clamp(t, StartTick(k), k.endTick);
    if k.rules.tick(x.state) <= target {
      if c <= target { FreshSeekCompose(k, c, target); } else { RestingScene(k, c, x, target); }
    }
  }

  lemma OperatedIsFreshSeek<S(!new)>(k: Script<S>, c: nat, x: Scene<S>, op: TimelineOp)
    requires Lawful(k.rules) && StartTick(k) <= c <= k.endTick && FreshSeek(k, c) == Ok(x)
    ensures Operated(k, x, op) == FreshSeek(k, Target(StartTick(k), k.endTick, c, op))
  {
    match op
    case Advance => AdvanceIsFreshSeek(k, c, x);
    case Seek(t) => SeekIsFreshSeek(k, c, x, t);
  }

  /** Path independence. Whatever a viewer does, in whatever order, the scene is that of
      one fresh seek to the tick asked for last: state, AI sequence numbers and events.
      The session fails exactly when one fresh seek to the furthest tick asked for fails. */
  lemma {:induction false} AnyPathIsOneSeek<S(!new)>(k: Script<S>, ops: seq<TimelineOp>)
    requires Lawful(k.rules) && Playable(k)
    ensures var low, high := StartTick(k), k.endTick;
            SceneAfter(k, Opening(k), ops) ==
            var furthest := FreshSeek(k, Furthest(low, high, ops));
            if furthest.Ok? then FreshSeek(k, Cursor(low, high, ops)) else furthest
    decreases |ops|
  {
    var low, high := StartTick(k), k.endTick;
    if ops != [] {
      var prefix := ops[..|ops| - 1];
      AnyPathIsOneSeek(k, prefix);
      var c, f := Cursor(low, high, prefix), Furthest(low, high, prefix);
      FreshSeekCompose(k, c, f);
      FreshSeekCompose(k, f, Furthest(low, high, ops));
      FreshSeekCompose(k, Cursor(low, high, ops), Furthest(low, high, ops));
      if FreshSeek(k, f).Ok? {
        OperatedIsFreshSeek(k, c, FreshSeek(k, c).value, ops[|ops| - 1]);
      }
    }
  }

  /** In particular a scene is determined by the tick it stands on. */
  lemma SceneOfItsTick<S(!new)>(k: Script<S>, ops: seq<TimelineOp>)
    requires Lawful(k.rules) && Playable(k) && SceneAfter(k, Opening(k), ops).Ok?
    ensures var x := SceneAfter(k, Opening(k), ops).value; FreshSeek(k, k.rules.tick(x.state)) == Ok(x)
  {
    AnyPathIsOneSeek(k, ops);
    var c := Cursor(StartTick(k), k.endTick, ops);
    FreshSeekCompose(k, c, Furthest(StartTick(k), k.endTick, ops));
    var x := FreshSeek(k, c).value;
    RestingScene(k, c, x, k.rules.tick(x.state));
  }

  class ScenarioPlayback<S(!new)> {
    const script: Script<S>
    var state: S
    var aiSequences: map<nat, nat>
    var events: seq<Emitted<S>>

    ghost function View(): (x: Scene<S>)
      reads this
    {
      Scene(state, aiSequences, events)
    }

    constructor (k: Script<S>)
      ensures script == k && View() == Opening(k)
    {
      script := k;
      state := k.initial;
      aiSequences := map[];
      events := [];
    }

    method Reset()
      modifies this
      ensures View() == Opening(script)
    {
      state := script.initial;
      aiSequences := map[];
      events := [];
    }

    /** Let every driver decide on the state its predecessors left. */
    method RunDrivers()
      modifies this`state, this`aiSequences
      ensures View() == DriveAll(script, old(View()), script.drivers)
    {
      ghost var start := View();
      var i := 0;
      while i < |script.drivers|
        invariant 0 <= i <= |script.drivers|
        invariant DriveAll(script, View(), script.drivers[i..]) == DriveAll(script, start, script.drivers)
      {
        var d := script.drivers[i];
        var turn := script.aiTurn(state, d.snakeId);
        if turn.Some? {
          var sequence := SaturatingAdd(if d.userId in aiSequences then aiSequences[d.userId] else 0, 1);
          aiSequences := aiSequences[d.userId := sequence];
          var id := CommandId(script.rules.tick(state), d.userId, SaturatingAdd(AI_SEQUENCE_BASE, sequence));
          state := script.rules.schedule(state, CommandMessage(id, Some(id), Turn(d.snakeId, turn.value)));
        }
        i := i + 1;
      }
    }

    /** One quantum; a failing one leaves the drivers' commands and a half-made step. */
    method AdvanceOne() returns (o: Outcome<bool>)
      modifies this
      ensures Over(script, old(View())) ==> o == Ok(false) && View() == old(View())
      ensures !Over(script, old(View())) ==>
                match Next(script, old(View()))
                case Ok(y) => o == Ok(true) && View() == y
                case _ => o == Err && View() == Broken(script, old(View()))
    {
      if script.rules.tick(state) >= script.endTick || script.rules.complete(state) { return Ok(false); }
      RunDrivers();
      match script.rules.step(state, false) {
        case StepFailed(partial) =>
          state := partial;
          return Err;
        case Stepped(n, stepEvents) =>
          state := n;
          var eventTick := script.rules.tick(n);
          events := events + Stamp(eventTick, stepEvents);
      }
      return Ok(true);
    }

    /** Clamp, rewind if the target lies behind, and advance until it is reached. */
    method SeekToTick(tick: nat) returns (o: Outcome<nat>)
      requires Lawful(script.rules) && Playable(script)
      modifies this
      ensures match Operated(script, old(View()), Seek(tick))
              case Ok(y) => View() == y && o == Ok(script.rules.tick(state))
              case _ =>
                var target := Clamp(tick, StartTick(script), script.endTick);
                o == Err && View() == Blocked(script, Rewound(script, old(View()), target), target)
    {
      var target := Clamp(tick, script.rules.tick(script.initial), script.endTick);
      if target < script.rules.tick(state) { Reset(); }
      ghost var goal, wreck := SeekFrom(script, View(), target), Blocked(script, View(), target);
      while script.rules.tick(state) < target
        invariant SeekFrom(script, View(), target) == goal && Blocked(script, View(), target) == wreck
        decreases target - script.rules.tick(state)
      {
        ghost var before := View();
        var more := AdvanceOne();
        if !more.Ok? { return Err; }
        if !more.value { break; }
        NextTicks(script, before);
      }
      return Ok(script.rules.tick(state));
    }

    method Operate(op: TimelineOp) returns (ok: bool)
      requires Lawful(script.rules) && Playable(script)
      modifies this
      ensures match Operated(script, old(View()), op)
              case Ok(y) => ok && View() == y
              case _ => !ok
    {
      match op {
        case Advance =>
          var a := AdvanceOne();
          return a.Ok?;
        case Seek(t) =>
          var s := SeekToTick(t);
          return s.Ok?;
      }
    }

    /** A whole session on the live object. */
    method Play(ops: seq<TimelineOp>) returns (ok: bool)
      requires Lawful(script.rules) && Playable(script)
      modifies this
      ensures match SceneAfter(script, old(View()), ops)
              case Ok(y) => ok && View() == y
              case _ => !ok
    {
      ghost var start := View();
      var i := 0;
      while i < |ops|
        invariant 0 <= i <= |ops| && SceneAfter(script, start, ops[..i]) == Ok(View())
      {
        assert ops[..i + 1][..i] == ops[..i];
        ok := Operate(ops[i]);
        if !ok {
          SessionStops(script, start, ops, i + 1);
          return;
        }
        i := i + 1;
      }
      assert ops[..i] == ops;
      return true;
    }
  }

  lemma {:induction false} SessionStops<S(!new)>(k: Script<S>, x: Scene<S>, ops: seq<TimelineOp>, n: nat)
    requires Lawful(k.rules) && Playable(k) && n <= |ops| && !SceneAfter(k, x, ops[..n]).Ok?
    ensures !SceneAfter(k, x, ops).Ok?
    decreases |ops|
  {
    if n == |ops| {
      assert ops[..n] == ops;
    } else {
      assert ops[..|ops| - 1][..n] == ops[..n];
      SessionStops(k, x, ops[..|ops| - 1], n);
    }
  }
}
