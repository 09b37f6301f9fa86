/** Breadth-first searches on the arena grid: the AI's target search and the flood
    fill behind trap detection. */
module GridSearch {
  import opened Simulation
  import opened SnakeBody

  predicate InBounds(p: Position, width: int, height: int) {
    0 <= p.x < width && 0 <= p.y < height
  }

  /** The order in which neighbours are tried. */
  const COMPASS: seq<Direction> := [Up, Down, Left, Right]

  ghost function Rank(d: Direction): (k: nat)
    ensures k < 4 && COMPASS[k] == d
  {
    match d case Up => 0 case Down => 1 case Left => 2 case Right => 3
  }

  ghost predicate Adjacent(p: Position, q: Position) {
    exists d :: q == Moved(p, d)
  }

  ghost function Arena(width: int, height: int): (cells: set<Position>)
    ensures forall p :: p in cells <==> InBounds(p, width, height)
  {
    set x, y | 0 <= x < width && 0 <= y < height :: Position(x, y)
  }

  // ------------------------------------------------------------- shortest target

  /** Every in-bounds neighbour of a finished cell has been discovered. */
  ghost predicate Closed(visited: set<Position>, frontier: seq<Position>, width: int, height: int) {
    forall p, d :: p in visited && p !in frontier && InBounds(Moved(p, d), width, height) ==> Moved(p, d) in visited
  }

  /** Frontier cells come in order of distance and span at most two layers. */
  ghost predicate Layered(start: Position, frontier: seq<Position>) {
    && (forall i, j :: 0 <= i < j < |frontier| ==> Distance(start, frontier[i]) <= Distance(start, frontier[j]))
    && (frontier != [] ==> Distance(start, frontier[|frontier| - 1]) <= Distance(start, frontier[0]) + 1)
  }

  /** On a rectangle every other cell has an in-bounds neighbour one step closer to the
      start, so breadth-first distance is Manhattan distance. */
  lemma StepCloser(start: Position, q: Position, width: int, height: int) returns (p: Position, d: Direction)
    requires InBounds(start, width, height) && InBounds(q, width, height) && start != q
    ensures InBounds(p, width, height) && Moved(p, d) == q && Distance(start, p) + 1 == Distance(start, q)
  {
    if start.x < q.x { p, d := Position(q.x - 1, q.y), Right; }
    else if q.x < start.x { p, d := Position(q.x + 1, q.y), Left; }
    else if start.y < q.y { p, d := Position(q.x, q.y - 1), Down; }
    else { p, d := Position(q.x, q.y + 1), Up; }
  }

  /** Everything nearer than the frontier has been discovered and finished. */
  lemma {:induction false} NearerIsFinished(start: Position, q: Position, visited: set<Position>,
          frontier: seq<Position>, width: int, height: int)
    requires InBounds(start, width, height) && InBounds(q, width, height) && start in visited
    requires Closed(visited, frontier, width, height)
    requires forall i :: 0 <= i < |frontier| ==> Distance(start, q) < Distance(start, frontier[i])
    ensures q in visited && q !in frontier
    decreases Distance(start, q)
  {
    if q != start {
      var p, d := StepCloser(start, q, width, height);
      NearerIsFinished(start, p, visited, frontier, width, height);
      assert Moved(p, d) in visited;
    }
  }

  /** The state of the search between two pops. */
  ghost predicate Searching(start: Position, visited: set<Position>, frontier: seq<Position>,
          isGoal: Position -> bool, width: int, height: int)
  {
    && start in visited
    && (forall p :: p in visited ==> p == start || InBounds(p, width, height))
    && (forall i :: 0 <= i < |frontier| ==> frontier[i] in visited)
    && (forall p :: p in visited && p !in frontier ==> !isGoal(p))
    && Closed(visited, frontier, width, height)
    && (InBounds(start, width, height) ==> Layered(start, frontier))
  }

  /** Breadth-first search for a goal cell. From an in-bounds start it returns a goal of
      least Manhattan distance, or `None` exactly when no in-bounds goal exists. */
  method NearestGoal(start: Position, width: int, height: int,
          isGoal: Position -> bool) returns (found: Option<Position>)
    ensures found.Some? ==> isGoal(found.value) && (found.value == start || InBounds(found.value, width, height))
    ensures InBounds(start, width, height) && found.Some? ==>
              forall q :: InBounds(q, width, height) && isGoal(q) ==> Distance(start, found.value) <= Distance(start, q)
    ensures InBounds(start, width, height) && found.None? ==> forall q :: InBounds(q, width, height) ==> !isGoal(q)
  {
    var visited := {start};
    var frontier := [start];
    ghost var universe := Arena(width, height) + {start};
    while frontier != []
      invariant Searching(start, visited, frontier, isGoal, width, height)
      decreases universe - visited, |frontier|
    {
      var pos := frontier[0];
      if isGoal(pos) {
        if InBounds(start, width, height) {
          forall q | InBounds(q, width, height) && isGoal(q) ensures Distance(start, pos) <= Distance(start, q) {
            if Distance(start, q) < Distance(start, pos) {
              NearerIsFinished(start, q, visited, frontier, width, height);
              assert false;
            }
          }
        }
        return Some(pos);
      }
      visited, frontier := Expand(start, visited, frontier, isGoal, width, height);
    }
    if InBounds(start, width, height) {
      forall q | InBounds(q, width, height) ensures !isGoal(q) {
        NearerIsFinished(start, q, visited, frontier, width, height);
      }
    }
    return None;
  }

  /** All frontier cells lie between the popped cell's layer and the next, in order. */
  ghost predicate Spread(start: Position, pos: Position, frontier: seq<Position>) {
    && (forall i, j :: 0 <= i < j < |frontier| ==> Distance(start, frontier[i]) <= Distance(start, frontier[j]))
    && (forall i :: 0 <= i < |frontier| ==> Distance(start, pos) <= Distance(start, frontier[i]) <= Distance(start, pos) + 1)
  }

  /** The state after trying the first `k` neighbours of the popped cell. */
  ghost predicate Expanding(start: Position, pos: Position, seen: set<Position>, queue: seq<Position>,
          visited: set<Position>, frontier: seq<Position>, k: nat, width: int, height: int)
  {
    && seen <= visited
    && (forall p :: p in visited ==> p == start || InBounds(p, width, height))
    && (forall i :: 0 <= i < |frontier| ==> frontier[i] in visited)
    && (forall p :: p in visited && p !in frontier ==> p in seen && (p == pos || p !in queue))
    && (forall d :: Rank(d) < k && InBounds(Moved(pos, d), width, height) ==> Moved(pos, d) in visited)
    && (InBounds(start, width, height) ==> Spread(start, pos, frontier))
  }

  /** Try one neighbour. */
  method Discover(start: Position, pos: Position, ghost seen: set<Position>, ghost queue: seq<Position>,
          before: set<Position>, waiting: seq<Position>, k: nat, width: int, height: int)
    returns (visited: set<Position>, frontier: seq<Position>)
    requires k < 4 && queue != [] && queue[0] == pos && start in seen
    requires Closed(seen, queue, width, height) && (InBounds(start, width, height) ==> Layered(start, queue))
    requires Expanding(start, pos, seen, queue, before, waiting, k, width, height)
    ensures Expanding(start, pos, seen, queue, visited, frontier, k + 1, width, height)
    ensures before <= visited && (visited == before ==> frontier == waiting)
    ensures |visited| <= |before| + 1
  {
    var next := Moved(pos, COMPASS[k]);
    if InBounds(next, width, height) && next !in before {
      if InBounds(start, width, height) { NewIsNextLayer(start, pos, COMPASS[k], seen, queue, width, height); }
      visited := before + {next};
      frontier := waiting + [next];
      assert frontier[|waiting|] == next;
      forall p | p in waiting ensures p in frontier {
        var i :| 0 <= i < |waiting| && waiting[i] == p;
        assert frontier[i] == p;
      }
    } else {
      visited, frontier := before, waiting;
    }
  }

  /** Pop the first frontier cell and push its undiscovered neighbours. */
  method Expand(start: Position, seen: set<Position>, queue: seq<Position>, ghost isGoal: Position -> bool,
          width: int, height: int)
    returns (visited: set<Position>, frontier: seq<Position>)
    requires queue != [] && Searching(start, seen, queue, isGoal, width, height) && !isGoal(queue[0])
    ensures Searching(start, visited, frontier, isGoal, width, height)
    ensures seen <= visited && (visited == seen ==> |frontier| < |queue|)
  {
    var pos := queue[0];
    visited, frontier := seen, queue[1..];
    PopStarts(start, seen, queue, width, height);
    var k := 0;
    while k < 4
      invariant 0 <= k <= 4
      invariant Expanding(start, pos, seen, queue, visited, frontier, k, width, height)
      invariant visited == seen ==> frontier == queue[1..]
    {
      visited, frontier := Discover(start, pos, seen, queue, visited, frontier, k, width, height);
      k := k + 1;
    }
    ExpandedIsSearching(start, pos, seen, queue, visited, frontier, isGoal, width, height);
  }

  lemma LayersSpread(start: Position, queue: seq<Position>)
    requires queue != [] && Layered(start, queue)
    ensures Spread(start, queue[0], queue[1..])
  {
    var frontier, last := queue[1..], |queue| - 1;
    forall i | 0 <= i < |frontier|
      ensures Distance(start, queue[0]) <= Distance(start, frontier[i]) <= Distance(start, queue[0]) + 1
    {
      assert frontier[i] == queue[i + 1];
      if i + 1 < last { assert Distance(start, queue[i + 1]) <= Distance(start, queue[last]); }
    }
  }

  lemma RestOfQueue(queue: seq<Position>)
    requires queue != []
    ensures forall p :: p in queue <==> p == queue[0] || p in queue[1..]
  {
    assert queue == [queue[0]] + queue[1..];
  }

  lemma PopStarts(start: Position, seen: set<Position>, queue: seq<Position>, width: int, height: int)
    requires queue != [] && (forall p :: p in seen ==> p == start || InBounds(p, width, height))
    requires forall i :: 0 <= i < |queue| ==> queue[i] in seen
    requires InBounds(start, width, height) ==> Layered(start, queue)
    ensures Expanding(start, queue[0], seen, queue, seen, queue[1..], 0, width, height)
  {
    if InBounds(start, width, height) { LayersSpread(start, queue); }
    RestOfQueue(queue);
  }

  lemma ExpandedIsSearching(start: Position, pos: Position, seen: set<Position>, queue: seq<Position>,
          visited: set<Position>, frontier: seq<Position>, isGoal: Position -> bool, width: int, height: int)
    requires Searching(start, seen, queue, isGoal, width, height) && !isGoal(pos)
    requires Expanding(start, pos, seen, queue, visited, frontier, 4, width, height)
    ensures Searching(start, visited, frontier, isGoal, width, height)
  {
  }

  /** An undiscovered neighbour of the first frontier cell is exactly one layer out. */
  lemma NewIsNextLayer(start: Position, pos: Position, d: Direction, seen: set<Position>, queue: seq<Position>,
          width: int, height: int)
    requires InBounds(start, width, height) && queue != [] && queue[0] == pos && start in seen
    requires Closed(seen, queue, width, height) && Layered(start, queue)
    requires InBounds(Moved(pos, d), width, height) && Moved(pos, d) !in seen
    ensures Distance(start, Moved(pos, d)) == Distance(start, pos) + 1
  {
    var next := Moved(pos, d);
    if Distance(start, next) < Distance(start, pos) {
      NearerIsFinished(start, next, seen, queue, width, height);
      assert false;
    }
  }

  /** The AI's food target: the arena's centre when there is no food, otherwise a food
      cell nearest to an in-bounds start, otherwise the first food. */
  method FindNearestFood(food: seq<Position>, start: Position, width: int, height: int) returns (target: Position)
    requires 0 <= width && 0 <= height
    ensures food == [] ==> target == Position(width / 2, height / 2)
    ensures food != [] ==> target in food
    ensures InBounds(start, width, height) && (exists f :: f in food && InBounds(f, width, height)) ==>
              InBounds(target, width, height) &&
              forall f :: f in food && InBounds(f, width, height) ==> Distance(start, target) <= Distance(start, f)
    ensures InBounds(start, width, height) && food != [] && !(exists f :: f in food && InBounds(f, width, height)) ==>
              target == food[0]
  {
    if food == [] { return Position(width / 2, height / 2); }
    var found := NearestGoal(start, width, height, p => p in food);
    match found
    case Some(p) => return p;
    case None => return food[0];
  }

  /** A goal opening: one column, a range of rows. */
  datatype Goal = Goal(x: int, yStart: int, yEnd: int)

  predicate InGoal(g: Goal, p: Position) { p.x == g.x && g.yStart <= p.y <= g.yEnd }

  /** The row the fallback aims at: the mean of the opening, truncated towards zero. */
  function MiddleRow(g: Goal): (y: int) {
    var s := g.yStart + g.yEnd;
    if s < 0 then -((-s) / 2) else s / 2
  }

  /** The AI's way home: a nearest cell of the goal opening, or its centre as a fallback. */
  method FindPathToBase(goal: Option<Goal>, start: Position, width: int, height: int) returns (target: Option<Position>)
    ensures target.None? <==> goal.None?
    ensures goal.Some? && InBounds(start, width, height) && (exists q :: InGoal(goal.value, q) && InBounds(q, width, height)) ==>
              InGoal(goal.value, target.value) && InBounds(target.value, width, height) &&
              forall q :: InGoal(goal.value, q) && InBounds(q, width, height) ==> Distance(start, target.value) <= Distance(start, q)
    ensures goal.Some? && InBounds(start, width, height) && !(exists q :: InGoal(goal.value, q) && InBounds(q, width, height)) ==>
              target.value == Position(goal.value.x, MiddleRow(goal.value))
  {
    if goal.None? { return None; }
    var g := goal.value;
    var found := NearestGoal(start, width, height, p => InGoal(g, p));
    match found
    case Some(p) => return Some(p);
    case None => return Some(Position(g.x, MiddleRow(g)));
  }

  // ------------------------------------------------------------------- flood fill

  predicate Free(c: Position, obstacles: set<Position>, width: int, height: int) {
    InBounds(c, width, height) && c !in obstacles
  }

  /** `path` leads from `start` to `goal` one cell at a time over free cells. */
  ghost predicate IsPath(path: seq<Position>, start: Position, goal: Position, obstacles: set<Position>, width: int,
          height: int)
  {
    && path != [] && path[0] == start && path[|path| - 1] == goal
    && forall i :: 0 <= i < |path| - 1 ==> GoodStep(path, i, obstacles, width, height)
  }

  ghost predicate GoodStep(path: seq<Position>, i: nat, obstacles: set<Position>, width: int, height: int)
    requires i + 1 < |path|
  {
    Adjacent(path[i], path[i + 1]) && Free(path[i + 1], obstacles, width, height)
  }

  ghost predicate Reachable(start: Position, c: Position, obstacles: set<Position>, width: int, height: int) {
    exists path :: IsPath(path, start, c, obstacles, width, height)
  }

  lemma ReachSelf(start: Position, obstacles: set<Position>, width: int, height: int)
    ensures Reachable(start, start, obstacles, width, height)
  {
    assert IsPath([start], start, start, obstacles, width, height);
  }

  lemma ReachOn(start: Position, p: Position, d: Direction, obstacles: set<Position>, width: int, height: int)
    requires Reachable(start, p, obstacles, width, height) && Free(Moved(p, d), obstacles, width, height)
    ensures Reachable(start, Moved(p, d), obstacles, width, height)
  {
    var path :| IsPath(path, start, p, obstacles, width, height);
    var longer := path + [Moved(p, d)];
    assert Adjacent(p, Moved(p, d));
    forall i | 0 <= i < |longer| - 1 ensures GoodStep(longer, i, obstacles, width, height) {
      if i < |path| - 1 { assert GoodStep(path, i, obstacles, width, height); }
    }
    assert IsPath(longer, start, Moved(p, d), obstacles, width, height);
  }

  /** Free neighbours of everything finished have been seen. */
  ghost predicate FloodClosed(seen: set<Position>, queue: seq<Position>, obstacles: set<Position>, width: int, height: int) {
    forall p, d :: p in seen && p !in queue && Free(Moved(p, d), obstacles, width, height) ==> Moved(p, d) in seen
  }

  /** A closed set with an empty queue holds every path's end. */
  lemma {:induction false} PathStaysInside(path: seq<Position>, start: Position, goal: Position, seen: set<Position>,
          obstacles: set<Position>, width: int, height: int)
    requires IsPath(path, start, goal, obstacles, width, height) && start in seen
    requires FloodClosed(seen, [], obstacles, width, height)
    ensures goal in seen
    decreases |path|
  {
    if |path| > 1 {
      var shorter, n := path[..|path| - 1], |path| - 2;
      forall i | 0 <= i < |shorter| - 1 ensures GoodStep(shorter, i, obstacles, width, height) {
        assert GoodStep(path, i, obstacles, width, height);
      }
      PathStaysInside(shorter, start, path[n], seen, obstacles, width, height);
      assert GoodStep(path, n, obstacles, width, height);
      var d :| path[n + 1] == Moved(path[n], d);
    }
  }

  /** The state of the fill while the first `k` neighbours of `pos` have been tried;
      `k == 4` is the state between two pops. */
  ghost predicate Flooding(start: Position, pos: Position, k: nat, seen: set<Position>, queue: seq<Position>,
          obstacles: set<Position>, width: int, height: int)
  {
    && start in seen
    && (forall c :: c in seen ==> c == start || InBounds(c, width, height))
    && (forall c :: c in seen ==> Reachable(start, c, obstacles, width, height))
    && (forall i :: 0 <= i < |queue| ==> queue[i] in seen)
    && (forall p, d :: p in seen && p !in queue && (p != pos || Rank(d) < k) ==>
          Free(Moved(p, d), obstacles, width, height) ==> Moved(p, d) in seen)
  }

  /** Try one neighbour of the popped cell. */
  method FloodOne(start: Position, pos: Position, k: nat, before: set<Position>, waiting: seq<Position>,
          obstacles: set<Position>, width: int, height: int)
    returns (seen: set<Position>, queue: seq<Position>)
    requires k < 4 && pos in before && Flooding(start, pos, k, before, waiting, obstacles, width, height)
    ensures Flooding(start, pos, k + 1, seen, queue, obstacles, width, height)
    ensures before <= seen && |seen| <= |before| + 1 && (seen == before ==> queue == waiting)
  {
    var next := Moved(pos, COMPASS[k]);
    if Free(next, obstacles, width, height) && next !in before {
      ReachOn(start, pos, COMPASS[k], obstacles, width, height);
      seen, queue := before + {next}, waiting + [next];
      assert forall p :: p in queue <==> p in waiting || p == next;
    } else {
      seen, queue := before, waiting;
    }
  }

  /** The flood fill. Sound: everything returned is connected to the start through free
      cells. Complete up to the limit: a result smaller than the limit is the whole
      component. Bounded: it overshoots the limit by at most three cells. */
  method ReachableCells(origin: Option<Position>, obstacles: set<Position>, width: int, height: int, limit: nat)
      returns (seen: set<Position>)
    ensures origin.None? ==> seen == {}
    ensures origin.Some? ==> origin.value in seen
    ensures origin.Some? ==> forall c :: c in seen ==> Reachable(origin.value, c, obstacles, width, height)
    ensures origin.Some? && |seen| < limit ==> forall c :: c in seen <==> Reachable(origin.value, c, obstacles, width, height)
    ensures |seen| <= limit + 3
  {
    if origin.None? { return {}; }
    var start := origin.value;
    seen := {start};
    var queue := [start];
    ReachSelf(start, obstacles, width, height);
    ghost var universe := Arena(width, height) + {start};
    while queue != []
      invariant Flooding(start, start, 4, seen, queue, obstacles, width, height)
      invariant |seen| <= limit + 3
      decreases universe - seen, |queue|
    {
      if |seen| >= limit { return; }
      var pos := queue[0];
      ghost var before := seen;
      ghost var tail := queue[1..];
      RestOfQueue(queue);
      queue := queue[1..];
      var k := 0;
      while k < 4
        invariant 0 <= k <= 4 && pos in seen && before <= seen && |seen| <= |before| + k
        invariant Flooding(start, pos, k, seen, queue, obstacles, width, height)
        invariant seen == before ==> queue == tail
      {
        seen, queue := FloodOne(start, pos, k, seen, queue, obstacles, width, height);
        k := k + 1;
      }
    }
    forall c | Reachable(start, c, obstacles, width, height) ensures c in seen {
      var path :| IsPath(path, start, c, obstacles, width, height);
      PathStaysInside(path, start, c, seen, obstacles, width, height);
    }
  }
}
