/** Boost fuel and movement credit: exact integer accounting over whole lives. */
module BoostFuel {
  import opened Simulation
  import opened Arithmetic

  const BOOST_TICK_INTERVAL_MS: nat := 50
  const NORMAL_SPEED_MILLI: nat := 1000
  const MAX_BOOST_SPEED_MILLI: nat := 2000

  /** The boost half of a snake. */
  datatype Tank = Tank(alive: bool, speed: nat, charge: nat, active: bool, intent: bool)

  datatype Resolution = Activated | Deactivated

  predicate WholeQuanta(ms: nat) { ms % BOOST_TICK_INTERVAL_MS == 0 }

  predicate Refuses(t: Tank, amount: nat, capacity: nat) {
    !t.alive || amount == 0 || capacity == 0 || !WholeQuanta(amount) || !WholeQuanta(capacity) || t.charge >= capacity
  }

  function Least(a: nat, b: nat): (m: nat) { if a < b then a else b }

  /** How much of a packet fits. */
  function Stored(t: Tank, amount: nat, capacity: nat): (ms: nat) {
    if Refuses(t, amount, capacity) then 0
    else if amount < capacity - t.charge then amount else capacity - t.charge
  }

  /** A packet is added up to capacity and reported, or leaves no trace. */
  function Collected(t: Tank, amount: nat, capacity: nat): (res: (Tank, Option<nat>))
    ensures t.alive && t.charge < capacity && 0 < amount && amount % 50 == 0 && capacity % 50 == 0 ==>
              res.0 == t.(charge := Least(t.charge + amount, capacity)) && res.1 == Some(res.0.charge)
    ensures !(t.alive && t.charge < capacity && 0 < amount && amount % 50 == 0 && capacity % 50 == 0) ==>
              res.0 == t && res.1 == None
  {
    var u := t.(charge := t.charge + Stored(t, amount, capacity));
    (u, if Refuses(t, amount, capacity) then None else Some(u.charge))
  }

  /** Latch the intent and report whether it changed. */
  function Wanted(t: Tank, wants: bool): (res: (Tank, bool))
    ensures res.0.intent == wants && (res.1 <==> res.0 != t)
  {
    (t.(intent := wants), t.intent != wants)
  }

  predicate CanActivate(t: Tank, speed: nat, capacity: nat) {
    && t.alive && !t.active && t.speed == NORMAL_SPEED_MILLI
    && NORMAL_SPEED_MILLI <= speed <= MAX_BOOST_SPEED_MILLI && capacity > 0 && WholeQuanta(capacity)
    && 0 < t.charge <= capacity && WholeQuanta(t.charge)
  }

  /** Converge `active` towards the latched intent. */
  function Resolved(t: Tank, speed: nat, capacity: nat): (res: (Tank, Option<Resolution>)) {
    if !t.intent || !t.alive then
      if t.active then (t.(active := false, speed := NORMAL_SPEED_MILLI), Some(Deactivated)) else (t, None)
    else if CanActivate(t, speed, capacity) then (t.(active := true, speed := speed), Some(Activated))
    else (t, None)
  }

  predicate Fundable(t: Tank) { t.alive && t.active && BOOST_TICK_INTERVAL_MS <= t.charge }

  function Reserved(t: Tank, unlimited: bool): (res: (Tank, bool)) {
    (if Fundable(t) && !unlimited then t.(charge := t.charge - BOOST_TICK_INTERVAL_MS) else t, Fundable(t))
  }

  function Finalized(t: Tank): (res: (Tank, bool)) {
    if t.active && t.charge == 0 then (t.(active := false, speed := NORMAL_SPEED_MILLI), true) else (t, false)
  }

  /** A life boundary empties the tank, or refills one that never runs dry, and never
      touches the player's intent. */
  function Renewed(t: Tank, unlimitedCapacity: Option<nat>): (u: Tank) {
    var charge := if unlimitedCapacity.Some? then unlimitedCapacity.value else 0;
    t.(speed := NORMAL_SPEED_MILLI, charge := charge, active := false)
  }

  // ------------------------------------------------------------ any order of events

  datatype FuelOp = Collect(amount: nat) | Want(on: bool) | Resolve | Reserve | Finalize | Die | Respawn

  /** A match's boost configuration. */
  datatype Config = Config(speed: nat, capacity: nat, unlimited: bool)

  ghost predicate ValidConfig(k: Config) {
    NORMAL_SPEED_MILLI <= k.speed <= MAX_BOOST_SPEED_MILLI && k.capacity > 0 && WholeQuanta(k.capacity)
  }

  function Happen(k: Config, t: Tank, op: FuelOp): (u: Tank) {
    match op
    case Collect(amount) => Collected(t, amount, k.capacity).0
    case Want(on) => Wanted(t, on).0
    case Resolve => Resolved(t, k.speed, k.capacity).0
    case Reserve => Reserved(t, k.unlimited).0
    case Finalize => Finalized(t).0
    case Die => Renewed(t.(alive := false), None)
    case Respawn => Renewed(t.(alive := true), if k.unlimited then Some(k.capacity) else None)
  }

  function Happened(k: Config, t: Tank, ops: seq<FuelOp>): (u: Tank) {
    if ops == [] then t else Happen(k, Happened(k, t, ops[..|ops| - 1]), ops[|ops| - 1])
  }

  /** What a run put in, spent and threw away; `spent` counts paid quanta. */
  datatype Ledger = Ledger(stored: nat, granted: nat, spent: nat, discarded: nat)

  function Entry(k: Config, t: Tank, op: FuelOp): (l: Ledger) {
    match op
    case Collect(amount) =>
      var takes := t.alive && t.charge < k.capacity && amount % 50 == 0 && k.capacity % 50 == 0;
      Ledger(if takes then Least(t.charge + amount, k.capacity) - t.charge else 0, 0, 0, 0)
    case Reserve => Ledger(0, 0, if Fundable(t) && !k.unlimited then 1 else 0, 0)
    case Die => Ledger(0, 0, 0, t.charge)
    case Respawn => Ledger(0, if k.unlimited then k.capacity else 0, 0, t.charge)
    case _ => Ledger(0, 0, 0, 0)
  }

  function Book(k: Config, t: Tank, ops: seq<FuelOp>): (l: Ledger) {
    if ops == [] then Ledger(0, 0, 0, 0)
    else
      var earlier := Book(k, t, ops[..|ops| - 1]);
      var e := Entry(k, Happened(k, t, ops[..|ops| - 1]), ops[|ops| - 1]);
      Ledger(earlier.stored + e.stored, earlier.granted + e.granted, earlier.spent + e.spent,
          earlier.discarded + e.discarded)
  }

  /** Fuel comes in whole quanta, never exceeds the tank, speed is boosted exactly when
      boost is active, and a dead snake holds nothing. */
  ghost predicate Sound(k: Config, t: Tank) {
    && WholeQuanta(t.charge) && t.charge <= k.capacity
    && t.speed == (if t.active then k.speed else NORMAL_SPEED_MILLI)
    && (!t.alive ==> !t.active && t.charge == 0)
  }

  lemma StepSound(k: Config, t: Tank, op: FuelOp)
    requires ValidConfig(k) && Sound(k, t)
    ensures Sound(k, Happen(k, t, op))
    ensures var e := Entry(k, t, op);
            Happen(k, t, op).charge + BOOST_TICK_INTERVAL_MS * e.spent + e.discarded == t.charge + e.stored + e.granted
  {
  }

  /** Conservation, in any order of events and across lives: what is in the tank, plus
      what funded quanta spent, plus what life boundaries discarded, is what went in. */
  lemma {:induction false} FuelIsConserved(k: Config, t: Tank, ops: seq<FuelOp>)
    requires ValidConfig(k) && Sound(k, t)
    ensures Sound(k, Happened(k, t, ops))
    ensures var l := Book(k, t, ops);
            Happened(k, t, ops).charge + BOOST_TICK_INTERVAL_MS * l.spent + l.discarded == t.charge + l.stored + l.granted
    decreases |ops|
  {
    if ops != [] {
      FuelIsConserved(k, t, ops[..|ops| - 1]);
      StepSound(k, Happened(k, t, ops[..|ops| - 1]), ops[|ops| - 1]);
    }
  }

  lemma FullStep(k: Config, t: Tank, op: FuelOp)
    requires k.unlimited && (t.alive ==> t.charge == k.capacity)
    ensures Happen(k, t, op).alive ==> Happen(k, t, op).charge == k.capacity
    ensures Entry(k, t, op).spent == 0
  {
  }

  /** A living snake's unlimited tank is full at every moment of every run. */
  lemma {:induction false} UnlimitedStaysFull(k: Config, t: Tank, ops: seq<FuelOp>)
    requires k.unlimited && (t.alive ==> t.charge == k.capacity)
    ensures var u := Happened(k, t, ops); u.alive ==> u.charge == k.capacity
    ensures Book(k, t, ops).spent == 0
    decreases |ops|
  {
    if ops != [] {
      UnlimitedStaysFull(k, t, ops[..|ops| - 1]);
      FullStep(k, Happened(k, t, ops[..|ops| - 1]), ops[|ops| - 1]);
    }
  }

  // ------------------------------------------------------------------ whole quanta

  /** Between quanta an active boost always has fuel for the next one. */
  ghost predicate BetweenQuanta(k: Config, t: Tank) {
    Sound(k, t) && (t.active ==> t.charge > 0)
  }

  /** After resolution, boost is on exactly when it is wanted and possible; an intent
      latched while it was impossible is honoured the moment it becomes possible. */
  lemma ResolutionConverges(k: Config, t: Tank)
    requires ValidConfig(k) && BetweenQuanta(k, t)
    ensures var (u, edge) := Resolved(t, k.speed, k.capacity);
            BetweenQuanta(k, u) && (u.active <==> t.intent && t.alive && t.charge > 0) &&
            u.charge == t.charge && u.intent == t.intent && u.alive == t.alive &&
            (edge == Some(Activated) <==> u.active && !t.active) && (edge == Some(Deactivated) <==> t.active && !u.active)
  {
  }

  /** Between quanta an active boost, and no other, funds the next quantum, at the price of
      one quantum's fuel; one that this empties is switched off and reported. */
  lemma ActiveQuantumIsFunded(k: Config, t: Tank)
    requires ValidConfig(k) && BetweenQuanta(k, t)
    ensures var (u, funded) := Reserved(t, k.unlimited);
            (funded <==> t.active) && u == t.(charge := if funded && !k.unlimited then t.charge - 50 else t.charge)
    ensures var u := Reserved(t, k.unlimited).0;
            var (v, ended) := Finalized(u);
            (ended <==> t.active && u.charge == 0) && v == u.(active := v.active, speed := v.speed) &&
            (v.active <==> t.active && u.charge > 0) && BetweenQuanta(k, v)
  {
  }

  /** A life boundary: a death, or a respawn. */
  datatype Boundary = Death | Rebirth

  /** What can happen to one snake during one simulation quantum: commands, crashes and
      respawns after movement, packets, and round resets at the end. */
  datatype Quantum = Quantum(wants: seq<bool>, crashes: seq<Boundary>, packets: seq<nat>, resets: seq<Boundary>)

  function Crossed(k: Config, t: Tank, b: Boundary): (u: Tank) {
    Happen(k, t, match b case Death => Die case Rebirth => Respawn)
  }

  function CrossedAll(k: Config, t: Tank, bs: seq<Boundary>): (u: Tank)
    decreases |bs|
  {
    if bs == [] then t else CrossedAll(k, Crossed(k, t, bs[0]), bs[1..])
  }

  function WantedAll(t: Tank, wants: seq<bool>): (u: Tank)
    decreases |wants|
  {
    if wants == [] then t else WantedAll(Wanted(t, wants[0]).0, wants[1..])
  }

  function CollectedAll(t: Tank, packets: seq<nat>, capacity: nat): (u: Tank)
    decreases |packets|
  {
    if packets == [] then t else CollectedAll(Collected(t, packets[0], capacity).0, packets[1..], capacity)
  }

  /** Commands, resolution, reservation, crashes, collection, finalization, resets: the
      order of a step. */
  function AfterResolution(k: Config, t: Tank, q: Quantum): (u: Tank) {
    Resolved(WantedAll(t, q.wants), k.speed, k.capacity).0
  }

  function AfterQuantum(k: Config, t: Tank, q: Quantum): (u: Tank) {
    var moved := CrossedAll(k, Reserved(AfterResolution(k, t, q), k.unlimited).0, q.crashes);
    CrossedAll(k, Finalized(CollectedAll(moved, q.packets, k.capacity)).0, q.resets)
  }

  lemma {:induction false} WantingKeepsFuel(k: Config, t: Tank, wants: seq<bool>)
    requires BetweenQuanta(k, t)
    ensures var u := WantedAll(t, wants);
            BetweenQuanta(k, u) && u.charge == t.charge && u.alive == t.alive && u.active == t.active &&
            u.intent == if wants == [] then t.intent else wants[|wants| - 1]
    decreases |wants|
  {
    if wants != [] { WantingKeepsFuel(k, Wanted(t, wants[0]).0, wants[1..]); }
  }

  lemma {:induction false} CollectingStaysSound(k: Config, t: Tank, packets: seq<nat>)
    requires ValidConfig(k) && Sound(k, t)
    ensures Sound(k, CollectedAll(t, packets, k.capacity)) && t.charge <= CollectedAll(t, packets, k.capacity).charge
    ensures CollectedAll(t, packets, k.capacity) == t.(charge := CollectedAll(t, packets, k.capacity).charge)
    decreases |packets|
  {
    if packets != [] { CollectingStaysSound(k, Collected(t, packets[0], k.capacity).0, packets[1..]); }
  }

  /** What the valid packets among these are worth. */
  ghost function Worth(packets: seq<nat>): (ms: nat)
    decreases |packets|
  {
    if packets == [] then 0 else (if packets[0] % 50 == 0 then packets[0] else 0) + Worth(packets[1..])
  }

  /** A run of packets fills the tank by exactly their worth, up to capacity. */
  lemma {:induction false} PacketsFill(t: Tank, packets: seq<nat>, capacity: nat)
    requires t.alive && t.charge <= capacity && capacity % 50 == 0
    ensures CollectedAll(t, packets, capacity) == t.(charge := Least(t.charge + Worth(packets), capacity))
    decreases |packets|
  {
    if packets != [] { PacketsFill(Collected(t, packets[0], capacity).0, packets[1..], capacity); }
  }

  /** A life boundary switches boost off and leaves the intent latched. */
  lemma {:induction false} CrossingStaysSound(k: Config, t: Tank, bs: seq<Boundary>)
    requires ValidConfig(k) && Sound(k, t)
    ensures var u := CrossedAll(k, t, bs);
            Sound(k, u) && u.intent == t.intent && (bs != [] ==> !u.active && u.alive == bs[|bs| - 1].Rebirth?)
    decreases |bs|
  {
    if bs != [] {
      StepSound(k, t, match bs[0] case Death => Die case Rebirth => Respawn);
      CrossingStaysSound(k, Crossed(k, t, bs[0]), bs[1..]);
    }
  }

  function AfterQuanta(k: Config, t: Tank, qs: seq<Quantum>): (u: Tank) {
    if qs == [] then t else AfterQuantum(k, AfterQuanta(k, t, qs[..|qs| - 1]), qs[|qs| - 1])
  }

  /** In every quantum of every life: boost follows the latest intent whenever there is
      fuel, outlasts the quantum exactly when no life boundary fell into it and fuel is
      left or was collected, and the intent survives death. */
  lemma OneQuantum(k: Config, t: Tank, q: Quantum)
    requires ValidConfig(k) && BetweenQuanta(k, t)
    ensures var wanted := if q.wants == [] then t.intent else q.wants[|q.wants| - 1];
            var r, u := AfterResolution(k, t, q), AfterQuantum(k, t, q);
            BetweenQuanta(k, u) && u.intent == wanted &&
            (r.active <==> wanted && t.alive && t.charge > 0) &&
            (u.active <==> r.active && q.crashes == [] && q.resets == [] && u.charge > 0)
  {
    WantingKeepsFuel(k, t, q.wants);
    ResolutionConverges(k, WantedAll(t, q.wants));
    var reserved := Reserved(AfterResolution(k, t, q), k.unlimited).0;
    CrossingStaysSound(k, reserved, q.crashes);
    var moved := CrossedAll(k, reserved, q.crashes);
    CollectingStaysSound(k, moved, q.packets);
    CrossingStaysSound(k, Finalized(CollectedAll(moved, q.packets, k.capacity)).0, q.resets);
  }

  lemma {:induction false} EveryQuantum(k: Config, t: Tank, qs: seq<Quantum>)
    requires ValidConfig(k) && BetweenQuanta(k, t)
    ensures BetweenQuanta(k, AfterQuanta(k, t, qs))
    decreases |qs|
  {
    if qs != [] {
      EveryQuantum(k, t, qs[..|qs| - 1]);
      OneQuantum(k, AfterQuanta(k, t, qs[..|qs| - 1]), qs[|qs| - 1]);
    }
  }

  // ---------------------------------------------------------------- movement credit

  function Threshold(intervalMs: nat): (t: nat) { NORMAL_SPEED_MILLI * intervalMs }

  /** The two assertions and the 32-bit residual of `accrue_movement_credit`. */
  ghost predicate Accruable(credit: nat, gain: nat, intervalMs: nat) {
    && intervalMs > 0
    && credit + gain < Threshold(intervalMs) * 2
    && Accrued(credit, gain, intervalMs).0 < U32_RANGE
  }

  function Accrued(credit: nat, gain: nat, intervalMs: nat): (res: (nat, bool)) {
    if credit + gain >= Threshold(intervalMs) then (credit + gain - Threshold(intervalMs), true) else (credit + gain, false)
  }

  /** Credit and moves after a schedule of gains, one per quantum. */
  function AccruedAll(credit: nat, gains: seq<nat>, intervalMs: nat): (res: (nat, nat)) {
    if gains == [] then (credit, 0)
    else
      var (c, moves) := AccruedAll(credit, gains[..|gains| - 1], intervalMs);
      var (d, moved) := Accrued(c, gains[|gains| - 1], intervalMs);
      (d, if moved then moves + 1 else moves)
  }

  function Sum(gains: seq<nat>): (s: nat) {
    if gains == [] then 0 else Sum(gains[..|gains| - 1]) + gains[|gains| - 1]
  }

  /** The gain of each quantum under a varying speed. */
  function Gains(speeds: seq<nat>, quantumMs: nat): (g: seq<nat>) {
    seq(|speeds|, i requires 0 <= i < |speeds| => speeds[i] * quantumMs)
  }

  lemma OneAccrual(credit: nat, moves: nat, gain: nat, intervalMs: nat)
    requires intervalMs > 0 && credit < Threshold(intervalMs) && gain <= Threshold(intervalMs)
    ensures var (c, moved) := Accrued(credit, gain, intervalMs);
            c < Threshold(intervalMs) && credit + gain < Threshold(intervalMs) * 2 &&
            (if moved then moves + 1 else moves) * Threshold(intervalMs) + c == moves * Threshold(intervalMs) + credit + gain
  {
    var t := Threshold(intervalMs);
    assert (moves + 1) * t == moves * t + t;
  }

  /** For any schedule of gains of at most one cell per quantum: no quantum is worth two
      cells, credit stays below one cell, and not a milli-millisecond is lost or invented.
      No assertion can fire as long as one cell's worth fits the 32-bit residual. */
  lemma {:induction false} MovementIsExact(credit: nat, gains: seq<nat>, intervalMs: nat)
    requires intervalMs > 0 && credit < Threshold(intervalMs)
    requires forall i :: 0 <= i < |gains| ==> gains[i] <= Threshold(intervalMs)
    ensures var (c, moves) := AccruedAll(credit, gains, intervalMs);
            c < Threshold(intervalMs) && moves * Threshold(intervalMs) + c == credit + Sum(gains)
    ensures gains != [] ==>
              var before, gain := AccruedAll(credit, gains[..|gains| - 1], intervalMs).0, gains[|gains| - 1];
              before + gain < Threshold(intervalMs) * 2 &&
              (Threshold(intervalMs) <= U32_RANGE ==> Accruable(before, gain, intervalMs))
    decreases |gains|
  {
    if gains != [] {
      MovementIsExact(credit, gains[..|gains| - 1], intervalMs);
      var (c, moves) := AccruedAll(credit, gains[..|gains| - 1], intervalMs);
      OneAccrual(c, moves, gains[|gains| - 1], intervalMs);
    }
  }

  /** So the number of cells moved is the whole part of the accumulated credit, however
      the speed varied. */
  lemma MovesAreWholeCells(credit: nat, speeds: seq<nat>, quantumMs: nat, intervalMs: nat)
    requires intervalMs > 0 && credit < Threshold(intervalMs)
    requires forall i :: 0 <= i < |speeds| ==> speeds[i] * quantumMs <= Threshold(intervalMs)
    ensures var gains := Gains(speeds, quantumMs);
            AccruedAll(credit, gains, intervalMs).1 == (credit + Sum(gains)) / Threshold(intervalMs)
  {
    var gains := Gains(speeds, quantumMs);
    MovementIsExact(credit, gains, intervalMs);
    var (c, moves) := AccruedAll(credit, gains, intervalMs);
    QuotientIsUnique(credit + Sum(gains), Threshold(intervalMs), moves, c);
  }
}
