/** The snake itself: body, fuel and movement credit, updated in place. */
module SnakeModel {
  import opened Simulation
  import opened SnakeBody
  import opened BoostFuel

  class Snake {
    var body: seq<Position>
    var direction: Direction
    var isAlive: bool
    var food: nat
    var speedMilli: nat
    var movementCredit: nat
    var chargeMs: nat
    var boostActive: bool
    var boostIntent: bool

    function FuelTank(): (t: Tank)
      reads this
    {
      Tank(isAlive, speedMilli, chargeMs, boostActive, boostIntent)
    }

    function Movement(): (m: Mover)
      reads this
    {
      Mover(body, direction, food)
    }

    /** Normal speed, no credit, no fuel. */
    constructor (b: seq<Position>, d: Direction, alive: bool, pending: nat)
      ensures Movement() == Mover(b, d, pending) && movementCredit == 0
      ensures FuelTank() == Tank(alive, NORMAL_SPEED_MILLI, 0, false, false)
    {
      body, direction, isAlive, food := b, d, alive, pending;
      speedMilli, movementCredit := NORMAL_SPEED_MILLI, 0;
      chargeMs, boostActive, boostIntent := 0, false, false;
    }

    method CollectBoostCharge(amountMs: nat, capacityMs: nat) returns (after: Option<nat>)
      modifies this`chargeMs
      ensures (FuelTank(), after) == Collected(old(FuelTank()), amountMs, capacityMs)
      ensures after.Some? <==>
                isAlive && old(chargeMs) < capacityMs && 0 < amountMs && amountMs % 50 == 0 && capacityMs % 50 == 0
      ensures after.Some? ==> chargeMs == Least(old(chargeMs) + amountMs, capacityMs) && after.value == chargeMs
      ensures after.None? ==> chargeMs == old(chargeMs)
    {
      if !isAlive || amountMs == 0 || capacityMs == 0 || amountMs % BOOST_TICK_INTERVAL_MS != 0 ||
         capacityMs % BOOST_TICK_INTERVAL_MS != 0 || chargeMs >= capacityMs {
        return None;
      }
      var availableMs := capacityMs - chargeMs;
      chargeMs := chargeMs + if amountMs < availableMs then amountMs else availableMs;
      return Some(chargeMs);
    }

    method SetBoostIntent(wantsBoost: bool) returns (changed: bool)
      modifies this`boostIntent
      ensures (FuelTank(), changed) == Wanted(old(FuelTank()), wantsBoost)
    {
      if boostIntent == wantsBoost { return false; }
      boostIntent := wantsBoost;
      return true;
    }

    method TryDeactivateBoost() returns (stopped: bool)
      modifies this`boostActive, this`speedMilli
      ensures stopped == old(boostActive)
      ensures FuelTank() == if stopped then old(FuelTank()).(active := false, speed := NORMAL_SPEED_MILLI)
          else old(FuelTank())
    {
      if !boostActive { return false; }
      boostActive := false;
      speedMilli := NORMAL_SPEED_MILLI;
      return true;
    }

    method TryActivateBoost(configuredSpeed: nat, capacityMs: nat) returns (started: bool)
      modifies this`boostActive, this`speedMilli
      ensures started == CanActivate(old(FuelTank()), configuredSpeed, capacityMs)
      ensures FuelTank() == if started then old(FuelTank()).(active := true, speed := configuredSpeed) else old(FuelTank())
    {
      var validConfig := NORMAL_SPEED_MILLI <= configuredSpeed <= MAX_BOOST_SPEED_MILLI && capacityMs > 0 &&
          capacityMs % BOOST_TICK_INTERVAL_MS == 0;
      var validCharge := chargeMs > 0 && chargeMs <= capacityMs && chargeMs % BOOST_TICK_INTERVAL_MS == 0;
      if !isAlive || boostActive || speedMilli != NORMAL_SPEED_MILLI || !validConfig || !validCharge { return false; }
      boostActive := true;
      speedMilli := configuredSpeed;
      return true;
    }

    method ResolveBoost(configuredSpeed: nat, capacityMs: nat) returns (edge: Option<Resolution>)
      modifies this`boostActive, this`speedMilli
      ensures (FuelTank(), edge) == Resolved(old(FuelTank()), configuredSpeed, capacityMs)
    {
      if !boostIntent || !isAlive {
        var stopped := TryDeactivateBoost();
        return if stopped then Some(Deactivated) else None;
      }
      var started := TryActivateBoost(configuredSpeed, capacityMs);
      return if started then Some(Activated) else None;
    }

    method ReserveBoostQuantum(unlimited: bool) returns (funded: bool)
      modifies this`chargeMs
      ensures (FuelTank(), funded) == Reserved(old(FuelTank()), unlimited)
    {
      if !isAlive || !boostActive || chargeMs < BOOST_TICK_INTERVAL_MS { return false; }
      if !unlimited { chargeMs := chargeMs - BOOST_TICK_INTERVAL_MS; }
      return true;
    }

    method FinalizeBoostDepletion() returns (depleted: bool)
      modifies this`boostActive, this`speedMilli
      ensures (FuelTank(), depleted) == Finalized(old(FuelTank()))
    {
      if !boostActive || chargeMs != 0 { return false; }
      boostActive := false;
      speedMilli := NORMAL_SPEED_MILLI;
      return true;
    }

    /** A new life: movement starts over, the latched intent survives. */
    method ResetBoostAndMovement(unlimitedCapacityMs: Option<nat>)
      modifies this`speedMilli, this`movementCredit, this`chargeMs, this`boostActive
      ensures FuelTank() == Renewed(old(FuelTank()), unlimitedCapacityMs) && movementCredit == 0
    {
      speedMilli := NORMAL_SPEED_MILLI;
      movementCredit := 0;
      chargeMs := if unlimitedCapacityMs.Some? then unlimitedCapacityMs.value else 0;
      boostActive := false;
    }

    /** The source asserts what is required here; `MovementIsExact` shows it always holds. */
    method AccrueMovementCredit(tickMs: nat, intervalMs: nat) returns (moves: bool)
      requires isAlive ==> Accruable(movementCredit, speedMilli * tickMs, intervalMs)
      modifies this`movementCredit
      ensures !isAlive ==> !moves && movementCredit == old(movementCredit)
      ensures isAlive ==> (movementCredit, moves) == Accrued(old(movementCredit), speedMilli * tickMs, intervalMs)
    {
      if !isAlive { return false; }
      var threshold := NORMAL_SPEED_MILLI * intervalMs;
      var accumulated := movementCredit + speedMilli * tickMs;
      if accumulated >= threshold {
        movementCredit := accumulated - threshold;
        return true;
      }
      movementCredit := accumulated;
      return false;
    }

    /** Move the head in place on a straight run, insert a new one on a turn. */
    method PlaceHead()
      requires |body| >= 2
      modifies this`body
      ensures body == PushHead(old(body), Moved(old(body)[0], direction))
    {
      var head := match direction
        case Up => Position(body[0].x, body[0].y - 1)
        case Down => Position(body[0].x, body[0].y + 1)
        case Left => Position(body[0].x - 1, body[0].y)
        case Right => Position(body[0].x + 1, body[0].y);
      var p1, p2 := body[0], body[1];
      if (head.x == p1.x && p1.x == p2.x) || (head.y == p1.y && p1.y == p2.y) {
        body := body[0 := head];
        assert body == [head] + old(body)[1..];
      } else {
        body := [head] + body;
      }
    }

    /** Move the tail one cell in place, and remove it once it meets the point before. */
    method PullTail()
      requires |body| >= 2
      modifies this`body
      ensures body == DropTail(old(body))
    {
      var tail := |body| - 1;
      var previous, p := body[tail - 1], body[tail];
      var moved := p;
      if p.x < previous.x { moved := Position(p.x + 1, p.y); }
      else if p.x > previous.x { moved := Position(p.x - 1, p.y); }
      else if p.y < previous.y { moved := Position(p.x, p.y + 1); }
      else if p.y > previous.y { moved := Position(p.x, p.y - 1); }
      body := body[tail := moved];
      assert body == old(body)[..tail] + [moved] && body[..tail] == old(body)[..tail];
      if moved == previous { body := body[..tail]; }
    }

    /** The in-place step of the compressed body. */
    method StepForward()
      modifies this`body, this`food
      ensures old(isAlive && |body| >= 2) ==> Movement() == Moving(old(Movement()))
      ensures !old(isAlive && |body| >= 2) ==> Movement() == old(Movement())
      ensures old(isAlive && Proper(Movement())) ==>
                Proper(Movement()) && Cells(body) == SteppedCells(Cells(old(body)), direction, old(food) > 0)
    {
      if !isAlive || |body| < 2 { return; }
      ghost var before := Movement();
      PlaceHead();
      if food > 0 {
        food := food - 1;
      } else {
        PullTail();
      }
      if Proper(before) {
        StepRefines(before.body, before.direction, before.food > 0);
        MovingStaysProper(before);
      }
    }
  }
}
