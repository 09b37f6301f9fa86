/** Shared vocabulary: command identities, replicated events, and the rules of
    the simulated game as seen by everything built on top of it.

    The body of a simulation quantum is not modelled here. `Rules` is a record of
    deterministic functions over an arbitrary state type, and `Lawful` lists, once,
    every fact about them that the rest of the project relies on. Each theorem
    therefore holds for every game whose rules satisfy those facts. */
module Simulation {

  const U32_RANGE: nat := 0x1_0000_0000

  datatype Option<+T> = None | Some(value: T)

  /** What a fallible computation does: finish with a value, return an error, or
      loop forever. */
  datatype Outcome<+T> = Ok(value: T) | Err | Hang

  datatype CommandId = CommandId(tick: nat, userId: nat, sequence: nat)

  datatype Command =
    | Turn(snakeId: nat, heading: nat)
    | ActivateBoost(snakeId: nat)
    | DeactivateBoost(snakeId: nat)
    | PlayerActivity(snakeId: nat)
    | UpdateStatus(status: nat)

  datatype CommandMessage = CommandMessage(clientId: CommandId, serverId: Option<CommandId>, command: Command)

  /** Replicated events. `Gameplay` stands for every event whose only effect is on
      the simulated state (turns, deaths, food, scores, ...). */
  datatype GameEvent<+S> =
    | Snapshot(state: S)
    | CommandScheduled(message: CommandMessage)
    | CommandScheduledV2(message: CommandMessage, deduplicated: bool)
    | CommandRejected(rejected: Option<CommandId>, sessionRejectedFrom: Option<nat>)
    | TickHash(hash: nat, serverTs: int)
    | PlayerReady(userId: nat)
    | MatchStartScheduled(epochMs: int)
    | Gameplay(payload: nat)

  /** An event as published: `streamSeq` numbers every message of a game from 1. */
  datatype EventMessage<+S> = EventMessage(tick: nat, sequence: nat, streamSeq: nat, event: GameEvent<S>)

  /** One simulation quantum either succeeds, with the numbered events it emitted,
      or fails part-way and leaves some intermediate state behind. */
  datatype StepResult<+S> = Stepped(state: S, events: seq<(nat, GameEvent<S>)>) | StepFailed(partial: S)

  datatype Rules<!S> = Rules(
    step: (S, bool) -> StepResult<S>,            // the flag selects movement-only stepping
    schedule: (S, CommandMessage) -> S,
    applyDelta: (S, GameEvent<S>) -> Option<S>,  // transactional application of a replicated delta
    applyReadiness: (S, GameEvent<S>) -> S,
    dropRng: S -> S,
    tick: S -> nat,
    complete: S -> bool,
    tickMs: S -> nat,
    startMs: S -> Option<int>,
    syncHash: S -> nat,
    valid: S -> bool,                            // strict invariants
    admitted: S -> bool                          // client snapshot admission
  )

  ghost predicate StepLaws<S(!new)>(r: Rules<S>) {
    && (forall s, m {:trigger r.step(s, m)} :: r.complete(s) ==> r.step(s, m) == Stepped(s, []))
    && (forall s, m {:trigger r.step(s, m)} :: !r.complete(s) && r.step(s, m).Stepped? ==>
          r.tick(r.step(s, m).state) == r.tick(s) + 1)
    && (forall s, m {:trigger r.step(s, m)} :: r.step(s, m).Stepped? ==>
          var n := r.step(s, m).state; r.tickMs(n) == r.tickMs(s) && r.startMs(n) == r.startMs(s))
    && (forall s, m {:trigger r.step(s, m)} :: r.step(s, m).StepFailed? ==>
          var n := r.step(s, m).partial; r.tick(n) == r.tick(s) && r.tickMs(n) == r.tickMs(s) && r.startMs(n) == r.startMs(s))
  }

  /** The clock facts: scheduling, deltas, readiness and RNG removal never move a
      state in time. */
  ghost predicate ClockLaws<S(!new)>(r: Rules<S>) {
    && (forall s {:trigger r.tickMs(s)} :: 1 <= r.tickMs(s))
    && (forall s, c {:trigger r.schedule(s, c)} ::
          var n := r.schedule(s, c);
          r.tick(n) == r.tick(s) && r.tickMs(n) == r.tickMs(s) && r.startMs(n) == r.startMs(s) &&
              r.complete(n) == r.complete(s))
    && (forall s, e {:trigger r.applyDelta(s, e)} :: r.applyDelta(s, e).Some? ==>
          var n := r.applyDelta(s, e).value; r.tick(n) == r.tick(s) && r.tickMs(n) == r.tickMs(s))
    && (forall s, e {:trigger r.applyReadiness(s, e)} ::
          var n := r.applyReadiness(s, e); r.tick(n) == r.tick(s) && r.tickMs(n) == r.tickMs(s))
    && (forall s {:trigger r.dropRng(s)} ::
          var n := r.dropRng(s);
          r.tick(n) == r.tick(s) && r.tickMs(n) == r.tickMs(s) && r.startMs(n) == r.startMs(s) &&
          r.complete(n) == r.complete(s) && r.valid(n) == r.valid(s))
  }

  ghost predicate Lawful<S(!new)>(r: Rules<S>) {
    StepLaws(r) && ClockLaws(r)
  }
}
