/** What the AI drivers of a scripted scene do: in every quantum each of them decides on the
    state its predecessors left, and over any session its commands are numbered by count. */
module ScenarioDrivers {
  import opened Simulation
  import opened Timeline
  import opened PredictedInput
  import opened Scenario

  /** A 32-bit counter that stops at its maximum. */
  ghost function Capped(n: nat): (c: nat) { if n < 0x1_0000_0000 then n else 0xFFFF_FFFF }

  /** How many of these commands `user` gave. */
  ghost function TurnsOf(log: seq<CommandMessage>, user: nat): (n: nat) {
    |set i | 0 <= i < |log| && log[i].clientId.userId == user|
  }

  lemma TurnsOfNext(log: seq<CommandMessage>, m: CommandMessage, user: nat)
    ensures TurnsOf(log + [m], user) == TurnsOf(log, user) + if m.clientId.userId == user then 1 else 0
  {
    var more := log + [m];
    var now := set i | 0 <= i < |more| && more[i].clientId.userId == user;
    var was := set i | 0 <= i < |log| && log[i].clientId.userId == user;
    assert forall i :: 0 <= i < |log| ==> more[i] == log[i];
    assert now == if m.clientId.userId == user then was + {|log|} else was;
  }

  ghost function Counter<S>(x: Scene<S>, user: nat): (n: nat) {
    if user in x.aiSequences then x.aiSequences[user] else 0
  }

  ghost predicate Fits<S>(x: Scene<S>) {
    forall user :: user in x.aiSequences ==> x.aiSequences[user] <= U32_MAX
  }

  /** What driver `d` does in state `s`: nothing, or the turn its policy wants, for tick
      `tick`, as command number `count` of its user. */
  ghost predicate Decided<S>(k: Script<S>, s: S, tick: nat, count: nat, d: Driver, turn: Option<CommandMessage>) {
    match k.aiTurn(s, d.snakeId)
    case None => turn == None
    case Some(heading) =>
      turn.Some? && turn.value.command == Turn(d.snakeId, heading) && turn.value.serverId == Some(turn.value.clientId) &&
      turn.value.clientId == CommandId(tick, d.userId, Capped(1_000_000 + Capped(count)))
  }

  /** The drivers' part of one quantum: the states between them and what each did. */
  datatype Round<S> = Round(states: seq<S>, turns: seq<Option<CommandMessage>>)

  /** The turns taken, in driver order. */
  ghost function Made(turns: seq<Option<CommandMessage>>): (log: seq<CommandMessage>) {
    if turns == [] then []
    else
      var last := turns[|turns| - 1];
      Made(turns[..|turns| - 1]) + (if last.Some? then [last.value] else [])
  }

  /** Driver `i` decided on the state its predecessors left, and its turn was scheduled. */
  ghost predicate DriverActed<S>(k: Script<S>, x: Scene<S>, round: Round<S>, i: nat)
    requires i < |k.drivers| && i < |round.turns| && i + 1 < |round.states|
  {
    var d, turn := k.drivers[i], round.turns[i];
    && Decided(k, round.states[i], k.rules.tick(x.state),
               Counter(x, d.userId) + TurnsOf(Made(round.turns[..i]), d.userId) + 1, d, turn)
    && round.states[i + 1] == (if turn.Some? then k.rules.schedule(round.states[i], turn.value) else round.states[i])
  }

  /** The first `n` drivers have acted, starting from scene `x`. */
  ghost predicate Acted<S>(k: Script<S>, x: Scene<S>, round: Round<S>, n: nat)
    requires n <= |k.drivers|
  {
    && |round.turns| == n && |round.states| == n + 1 && round.states[0] == x.state
    && forall i :: 0 <= i < n ==> DriverActed(k, x, round, i)
  }

  /** The scene `y` after the turns `made`. */
  ghost predicate Carries<S>(q: S -> seq<CommandMessage>, x: Scene<S>, made: seq<CommandMessage>, y: Scene<S>) {
    && q(y.state) == q(x.state) + made && y.events == x.events
    && forall user :: Counter(y, user) == Capped(Counter(x, user) + TurnsOf(made, user))
  }

  lemma ActedNext<S>(k: Script<S>, x: Scene<S>, round: Round<S>, n: nat, s: S, turn: Option<CommandMessage>)
    requires n < |k.drivers| && Acted(k, x, round, n)
    requires var d := k.drivers[n];
             Decided(k, round.states[n], k.rules.tick(x.state),
                     Counter(x, d.userId) + TurnsOf(Made(round.turns), d.userId) + 1, d, turn)
    requires s == if turn.Some? then k.rules.schedule(round.states[n], turn.value) else round.states[n]
    ensures Acted(k, x, Round(round.states + [s], round.turns + [turn]), n + 1)
    ensures Made(round.turns + [turn]) == Made(round.turns) + if turn.Some? then [turn.value] else []
  {
    var next := Round(round.states + [s], round.turns + [turn]);
    assert next.turns[..n] == round.turns;
    forall i | 0 <= i < n + 1 ensures DriverActed(k, x, next, i) {
      if i < n { assert DriverActed(k, x, round, i) && next.turns[..i] == round.turns[..i]; }
    }
  }

  /** One driver. */
  lemma DriveCarries<S(!new)>(k: Script<S>, q: S -> seq<CommandMessage>, x: Scene<S>,
          made: seq<CommandMessage>, y: Scene<S>, d: Driver)
    returns (turn: Option<CommandMessage>)
    requires Lawful(k.rules) && Remembers(k.rules, q) && Carries(q, x, made, y)
    ensures Decided(k, y.state, k.rules.tick(y.state), Counter(x, d.userId) + TurnsOf(made, d.userId) + 1, d, turn)
    ensures Drive(k, y, d).state == if turn.Some? then k.rules.schedule(y.state, turn.value) else y.state
    ensures Carries(q, x, made + (if turn.Some? then [turn.value] else []), Drive(k, y, d))
  {
    match k.aiTurn(y.state, d.snakeId)
    case None =>
      turn := None;
      assert made + [] == made;
    case Some(heading) =>
      var count := Counter(x, d.userId) + TurnsOf(made, d.userId) + 1;
      var id := CommandId(k.rules.tick(y.state), d.userId, Capped(1_000_000 + Capped(count)));
      var m := CommandMessage(id, Some(id), Turn(d.snakeId, heading));
      turn := Some(m);
      assert Drive(k, y, d).state == k.rules.schedule(y.state, m);
      assert q(x.state) + made + [m] == q(x.state) + (made + [m]);
      forall user ensures Counter(Drive(k, y, d), user) == Capped(Counter(x, user) + TurnsOf(made + [m], user)) {
        TurnsOfNext(made, m, user);
      }
  }

  /** All of them, each on the state its predecessors left. */
  lemma DriversAct<S(!new)>(k: Script<S>, q: S -> seq<CommandMessage>, x: Scene<S>) returns (round: Round<S>)
    requires Lawful(k.rules) && Remembers(k.rules, q) && Fits(x)
    ensures Acted(k, x, round, |k.drivers|) && Carries(q, x, Made(round.turns), DriveAll(k, x, k.drivers))
    ensures DriveAll(k, x, k.drivers).state == round.states[|k.drivers|]
  {
    var y, i := x, 0;
    round := Round([x.state], []);
    assert q(x.state) + [] == q(x.state);
    while i < |k.drivers|
      invariant 0 <= i <= |k.drivers| && Acted(k, x, round, i) && round.states[i] == y.state
      invariant Carries(q, x, Made(round.turns), y) && k.rules.tick(y.state) == k.rules.tick(x.state)
      invariant DriveAll(k, y, k.drivers[i..]) == DriveAll(k, x, k.drivers)
    {
      var turn := DriveCarries(k, q, x, Made(round.turns), y, k.drivers[i]);
      var next := Drive(k, y, k.drivers[i]);
      ActedNext(k, x, round, i, next.state, turn);
      round := Round(round.states + [next.state], round.turns + [turn]);
      y, i := next, i + 1;
    }
  }

  // ----------------------------------------------------------------------- one quantum

  lemma {:induction false} StampedAt<S>(tick: nat, events: seq<(nat, GameEvent<S>)>)
    ensures |Stamp(tick, events)| == |events|
    ensures forall j :: 0 <= j < |events| ==> Stamp(tick, events)[j] == (tick, events[j].0, events[j].1)
    decreases |events|
  {
    if events != [] { StampedAt(tick, events[1..]); }
  }

  /** `out` extends `was` by the events of a step that reached `tick`. */
  ghost predicate Stamps<S>(was: seq<Emitted<S>>, tick: nat, events: seq<(nat, GameEvent<S>)>, out: seq<Emitted<S>>) {
    && |out| == |was| + |events| && was <= out
    && forall j :: 0 <= j < |events| ==> out[|was| + j] == (tick, events[j].0, events[j].1)
  }

  ghost predicate CountsOn<S>(x: Scene<S>, made: seq<CommandMessage>, y: Scene<S>) {
    forall user :: Counter(y, user) == Capped(Counter(x, user) + TurnsOf(made, user))
  }

  /** A quantum lets every driver act in order, steps the state they leave, and stamps what
      the step emits with the tick it reached. A failing step still leaves their turns. */
  lemma QuantumActs<S(!new)>(k: Script<S>, q: S -> seq<CommandMessage>, x: Scene<S>) returns (round: Round<S>)
    requires Lawful(k.rules) && Remembers(k.rules, q) && Fits(x)
    ensures Acted(k, x, round, |k.drivers|)
    ensures match k.rules.step(round.states[|k.drivers|], false)
            case Stepped(n, events) =>
              Next(k, x).Ok? &&
              var y := Next(k, x).value;
              y.state == n && q(n) == q(x.state) + Made(round.turns) && CountsOn(x, Made(round.turns), y) &&
              Stamps(x.events, k.rules.tick(n), events, y.events)
            case StepFailed(partial) =>
              var y := Broken(k, x);
              Next(k, x).Err? && y.state == partial && q(partial) == q(x.state) + Made(round.turns) &&
              CountsOn(x, Made(round.turns), y) && y.events == x.events
  {
    round := DriversAct(k, q, x);
    match k.rules.step(round.states[|k.drivers|], false)
    case Stepped(n, events) =>
      StampedAt(k.rules.tick(n), events);
      var out := Stamp(k.rules.tick(n), events);
      assert forall j :: 0 <= j < |events| ==> (x.events + out)[|x.events| + j] == out[j];
    case StepFailed(_) =>
  }

  // ----------------------------------------------------------------------- any session

  /** The `i`th command carries one million plus the number of its user's turns so far. */
  ghost predicate NumberedAt(log: seq<CommandMessage>, i: nat)
    requires i < |log|
  {
    && log[i].command.Turn? && log[i].serverId == Some(log[i].clientId)
    && log[i].clientId.sequence == Capped(1_000_000 + Capped(TurnsOf(log[..i], log[i].clientId.userId) + 1))
  }

  /** Since the pose, `x` was given the turns `log`, numbered by count. */
  ghost predicate Logged<S>(k: Script<S>, q: S -> seq<CommandMessage>, log: seq<CommandMessage>, x: Scene<S>) {
    && q(x.state) == q(k.initial) + log
    && (forall i :: 0 <= i < |log| ==> NumberedAt(log, i))
    && (forall user :: Counter(x, user) == Capped(TurnsOf(log, user)))
  }

  lemma LogNext<S>(k: Script<S>, q: S -> seq<CommandMessage>, log: seq<CommandMessage>, x: Scene<S>,
          m: CommandMessage, y: Scene<S>)
    requires Logged(k, q, log, x) && q(y.state) == q(x.state) + [m] && NumberedAt(log + [m], |log|)
    requires forall user :: Counter(y, user) ==
               if user == m.clientId.userId then Capped(Counter(x, user) + 1) else Counter(x, user)
    ensures Logged(k, q, log + [m], y)
  {
    var more := log + [m];
    assert q(k.initial) + log + [m] == q(k.initial) + more;
    forall i | 0 <= i < |more| ensures NumberedAt(more, i) {
      if i < |log| { assert NumberedAt(log, i) && more[..i] == log[..i]; }
    }
    forall user ensures Counter(y, user) == Capped(TurnsOf(more, user)) { TurnsOfNext(log, m, user); }
  }

  lemma DriveLogs<S(!new)>(k: Script<S>, q: S -> seq<CommandMessage>, log: seq<CommandMessage>, x: Scene<S>, d: Driver)
    returns (more: seq<CommandMessage>)
    requires Lawful(k.rules) && Remembers(k.rules, q) && Logged(k, q, log, x)
    ensures Logged(k, q, more, Drive(k, x, d))
  {
    match k.aiTurn(x.state, d.snakeId)
    case None =>
      more := log;
    case Some(heading) =>
      var id := CommandId(k.rules.tick(x.state), d.userId, Capped(1_000_000 + Capped(TurnsOf(log, d.userId) + 1)));
      var m := CommandMessage(id, Some(id), Turn(d.snakeId, heading));
      more := log + [m];
      assert more[..|log|] == log;
      assert Drive(k, x, d).state == k.rules.schedule(x.state, m);
      LogNext(k, q, log, x, m, Drive(k, x, d));
  }

  lemma {:induction false} DriversLog<S(!new)>(k: Script<S>, q: S -> seq<CommandMessage>, log: seq<CommandMessage>,
          x: Scene<S>, ds: seq<Driver>)
    returns (more: seq<CommandMessage>)
    requires Lawful(k.rules) && Remembers(k.rules, q) && Logged(k, q, log, x)
    ensures Logged(k, q, more, DriveAll(k, x, ds))
    decreases |ds|
  {
    more := log;
    if ds != [] {
      more := DriveLogs(k, q, log, x, ds[0]);
      more := DriversLog(k, q, more, Drive(k, x, ds[0]), ds[1..]);
    }
  }

  lemma {:induction false} SeekLogs<S(!new)>(k: Script<S>, q: S -> seq<CommandMessage>, log: seq<CommandMessage>,
          x: Scene<S>, target: nat)
    returns (more: seq<CommandMessage>)
    requires Lawful(k.rules) && Remembers(k.rules, q) && Logged(k, q, log, x) && SeekFrom(k, x, target).Ok?
    ensures Logged(k, q, more, SeekFrom(k, x, target).value)
    decreases target - k.rules.tick(x.state)
  {
    more := log;
    if k.rules.tick(x.state) < target && !Over(k, x) {
      NextTicks(k, x);
      more := DriversLog(k, q, log, x, k.drivers);
      more := SeekLogs(k, q, more, Next(k, x).value, target);
    }
  }

  /** After any session, through any number of rewinds: the scene was given a log of turns
      since its pose, each numbered by its user's count, and every counter is that count. */
  lemma SessionIsNumbered<S(!new)>(k: Script<S>, q: S -> seq<CommandMessage>, ops: seq<TimelineOp>)
    returns (log: seq<CommandMessage>)
    requires Lawful(k.rules) && Remembers(k.rules, q) && Playable(k) && SceneAfter(k, Opening(k), ops).Ok?
    ensures Logged(k, q, log, SceneAfter(k, Opening(k), ops).value)
  {
    var x := SceneAfter(k, Opening(k), ops).value;
    SceneOfItsTick(k, ops);
    assert Logged(k, q, [], Opening(k)) by { assert q(k.initial) + [] == q(k.initial); }
    log := SeekLogs(k, q, [], Opening(k), k.rules.tick(x.state));
  }
}
