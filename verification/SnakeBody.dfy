/** The compressed snake body (head, turns, tail) and the list of cells it stands for. */
module SnakeBody {

  datatype Direction = Up | Down | Left | Right

  datatype Position = Position(x: int, y: int)

  predicate IsOpposite(a: Direction, b: Direction) {
    match (a, b)
    case (Up, Down) => true
    case (Down, Up) => true
    case (Left, Right) => true
    case (Right, Left) => true
    case _ => false
  }

  function Moved(p: Position, d: Direction): (q: Position) {
    match d
    case Up => Position(p.x, p.y - 1)
    case Down => Position(p.x, p.y + 1)
    case Left => Position(p.x - 1, p.y)
    case Right => Position(p.x + 1, p.y)
  }

  predicate IsBetween(c: Position, p: Position, q: Position) {
    ((p.x <= c.x <= q.x) || (q.x <= c.x <= p.x)) && ((p.y <= c.y <= q.y) || (q.y <= c.y <= p.y))
  }

  function Abs(n: int): (a: nat) { if n < 0 then -n else n }

  function Distance(p: Position, q: Position): (d: nat) { Abs(q.x - p.x) + Abs(q.y - p.y) }

  function Sign(n: int): (s: int) { if n < 0 then -1 else if n > 0 then 1 else 0 }

  // ------------------------------------------------------------ the cell list

  predicate Aligned(p: Position, q: Position) { p.x == q.x || p.y == q.y }

  /** The cell `i` steps from `p` towards an axis-aligned `q`. */
  function Toward(p: Position, q: Position, i: int): (c: Position) {
    if p.x < q.x then Position(p.x + i, p.y)
    else if q.x < p.x then Position(p.x - i, p.y)
    else if p.y < q.y then Position(p.x, p.y + i)
    else if q.y < p.y then Position(p.x, p.y - i)
    else p
  }

  /** From `p` included to `q` excluded. */
  function Segment(p: Position, q: Position): (cells: seq<Position>)
    ensures |cells| == Distance(p, q)
    ensures forall i :: 0 <= i < |cells| ==> cells[i] == Toward(p, q, i)
  {
    seq(Distance(p, q), i => Toward(p, q, i))
  }

  /** Every cell from head to tail, each listed once per visit. */
  function Cells(body: seq<Position>): (cells: seq<Position>)
    ensures (body == [] <==> cells == []) && (body != [] ==> cells[0] == body[0])
  {
    if |body| <= 1 then body
    else
      assert body[0] != body[1] ==> Segment(body[0], body[1])[0] == body[0];
      Segment(body[0], body[1]) + Cells(body[1..])
  }

  /** Consecutive points share an axis. */
  predicate AlignedBody(body: seq<Position>) {
    |body| >= 2 ==> Aligned(body[0], body[1]) && AlignedBody(body[1..])
  }

  /** A proper compression: axis-aligned, distinct consecutive points, and a genuine
      turn at every interior point. */
  predicate Compressed(body: seq<Position>) {
    && (|body| >= 2 ==> Aligned(body[0], body[1]) && body[0] != body[1] && Compressed(body[1..]))
    && (|body| >= 3 ==> (body[0].x == body[1].x <==> body[1].y == body[2].y))
  }

  lemma {:induction false} CompressedIsAligned(body: seq<Position>)
    requires Compressed(body)
    ensures AlignedBody(body)
    decreases |body|
  {
    if |body| >= 2 { CompressedIsAligned(body[1..]); }
  }

  // ------------------------------------------------------------------- stepping

  /** The direction of the last movement, falling back to `d` for a body with no extent. */
  function TravelDirection(body: seq<Position>, d: Direction): (t: Direction) {
    if |body| < 2 then d
    else if body[0].x > body[1].x then Right
    else if body[0].x < body[1].x then Left
    else if body[0].y > body[1].y then Down
    else if body[0].y < body[1].y then Up
    else d
  }

  predicate Collinear(a: Position, b: Position, c: Position) {
    (a.x == b.x && b.x == c.x) || (a.y == b.y && b.y == c.y)
  }

  function PushHead(body: seq<Position>, head: Position): (b: seq<Position>)
    requires |body| >= 2
  {
    if Collinear(head, body[0], body[1]) then [head] + body[1..] else [head] + body
  }

  /** One step of the tail towards the point before it. */
  function Retreat(tail: Position, before: Position): (t: Position) {
    if tail.x < before.x then Position(tail.x + 1, tail.y)
    else if tail.x > before.x then Position(tail.x - 1, tail.y)
    else if tail.y < before.y then Position(tail.x, tail.y + 1)
    else if tail.y > before.y then Position(tail.x, tail.y - 1)
    else tail
  }

  function DropTail(body: seq<Position>): (b: seq<Position>)
    requires |body| >= 2
  {
    var n := |body| - 1;
    var tail := Retreat(body[n], body[n - 1]);
    if tail == body[n - 1] then body[..n] else body[..n] + [tail]
  }

  /** One step of a living snake's compressed body. */
  function Stepped(body: seq<Position>, d: Direction, grow: bool): (b: seq<Position>)
    requires |body| >= 2
  {
    var pushed := PushHead(body, Moved(body[0], d));
    if grow then pushed else DropTail(pushed)
  }

  /** What a step means on cells: a new head, and the last cell gone unless growing. */
  function SteppedCells(cells: seq<Position>, d: Direction, grow: bool): (c: seq<Position>)
    requires cells != []
  {
    var pushed := [Moved(cells[0], d)] + cells;
    if grow then pushed else pushed[..|pushed| - 1]
  }

  /** A straight step lengthens the first segment by one cell. */
  lemma StraightStep(p: Position, q: Position, d: Direction)
    requires Aligned(p, q) && p != q && !IsOpposite(d, TravelDirection([p, q], d)) && Collinear(Moved(p, d), p, q)
    ensures var head := Moved(p, d);
            Aligned(head, q) && head != q && (head.x == q.x <==> p.x == q.x) &&
            Segment(head, q) == [head] + Segment(p, q) && TravelDirection([head, q], d) == d
  {
    var head := Moved(p, d);
    var longer := Segment(head, q);
    assert |longer| == 1 + |Segment(p, q)|;
    forall i | 0 <= i < |longer| ensures longer[i] == ([head] + Segment(p, q))[i] {}
  }

  /** A turn starts a new segment of one cell. */
  lemma TurningStep(p: Position, q: Position, d: Direction)
    requires Aligned(p, q) && p != q && !Collinear(Moved(p, d), p, q)
    ensures var head := Moved(p, d);
            Aligned(head, p) && head != p && (head.x == p.x <==> p.y == q.y) &&
            Segment(head, p) == [head] && TravelDirection([head, p], d) == d
  {
    var head := Moved(p, d);
    assert Segment(head, p)[0] == head;
  }

  lemma ConcatAssociates<T>(a: seq<T>, b: seq<T>, c: seq<T>)
    ensures a + b + c == a + (b + c)
  {
  }

  lemma CellsOf(head: Position, rest: seq<Position>)
    requires rest != []
    ensures Cells([head] + rest) == Segment(head, rest[0]) + Cells(rest)
  {
    assert ([head] + rest)[1..] == rest;
  }

  lemma CompressedOf(head: Position, rest: seq<Position>)
    requires rest != []
    ensures Compressed([head] + rest) <==>
              Aligned(head, rest[0]) && head != rest[0] && Compressed(rest) &&
              (|rest| >= 2 ==> (head.x == rest[0].x <==> rest[0].y == rest[1].y))
  {
    assert ([head] + rest)[1..] == rest;
  }

  /** Replacing the head of a proper body by one on the same line. */
  lemma ReplaceHead(p: Position, rest: seq<Position>, head: Position)
    requires rest != [] && Compressed([p] + rest)
    requires Aligned(head, rest[0]) && head != rest[0] && (head.x == rest[0].x <==> p.x == rest[0].x)
    ensures Compressed([head] + rest)
  {
    CompressedOf(head, rest);
    CompressedOf(p, rest);
  }

  lemma ReplaceHeadCells(p: Position, rest: seq<Position>, head: Position)
    requires rest != [] && Segment(head, rest[0]) == [head] + Segment(p, rest[0])
    ensures Cells([head] + rest) == [head] + Cells([p] + rest)
  {
    CellsOf(head, rest);
    CellsOf(p, rest);
    ConcatAssociates([head], Segment(p, rest[0]), Cells(rest));
  }

  /** Adding a head across the line. */
  lemma AddHead(body: seq<Position>, head: Position)
    requires |body| >= 2 && Compressed(body)
    requires Aligned(head, body[0]) && head != body[0] && (head.x == body[0].x <==> body[0].y == body[1].y)
    requires Segment(head, body[0]) == [head]
    ensures Compressed([head] + body) && Cells([head] + body) == [head] + Cells(body)
  {
    CellsOf(head, body);
    CompressedOf(head, body);
  }

  lemma PushRefines(body: seq<Position>, d: Direction)
    requires |body| >= 2 && Compressed(body) && !IsOpposite(d, TravelDirection(body, d))
    ensures var head := Moved(body[0], d);
            var pushed := PushHead(body, head);
            |pushed| >= 2 && Compressed(pushed) && Cells(pushed) == [head] + Cells(body) && TravelDirection(pushed, d) == d
  {
    var head := Moved(body[0], d);
    if Collinear(head, body[0], body[1]) {
      StraightStep(body[0], body[1], d);
      assert body == [body[0]] + body[1..];
      ReplaceHead(body[0], body[1..], head);
      ReplaceHeadCells(body[0], body[1..], head);
    } else {
      TurningStep(body[0], body[1], d);
      AddHead(body, head);
    }
  }

  lemma DropOnRun(p: Position, q: Position)
    requires Aligned(p, q) && p != q
    ensures Cells(DropTail([p, q])) == Segment(p, q) && Compressed(DropTail([p, q])) && DropTail([p, q])[0] == p
  {
    var tail := Retreat(q, p);
    assert Segment(p, q) == Segment(p, tail) + [tail];
  }

  /** Two runs lie along the same axis. */
  predicate SameAxis(a: Position, b: Position, c: Position, d: Position) {
    (a.x == b.x <==> c.x == d.x) && (a.y == b.y <==> c.y == d.y)
  }

  lemma DropTailUnderHead(body: seq<Position>)
    requires |body| >= 3
    ensures DropTail(body) == [body[0]] + DropTail(body[1..])
  {
  }

  /** Shortening the rest of a body shortens the body. */
  lemma DropUnderHead(p: Position, rest: seq<Position>, b: seq<Position>)
    requires |rest| >= 2 && Compressed([p] + rest) && Compressed(b) && b != [] && b[0] == rest[0]
    requires |b| >= 2 ==> SameAxis(b[0], b[1], rest[0], rest[1])
    requires Cells(b) == Cells(rest)[..|Cells(rest)| - 1]
    ensures Compressed([p] + b) && Cells([p] + b) == Cells([p] + rest)[..|Cells([p] + rest)| - 1]
  {
    assert ([p] + rest)[1..] == rest && ([p] + b)[1..] == b;
  }

  lemma {:induction false} DropRefines(body: seq<Position>)
    requires |body| >= 2 && Compressed(body)
    ensures Cells(DropTail(body)) == Cells(body)[..|Cells(body)| - 1]
    ensures Compressed(DropTail(body)) && DropTail(body) != [] && DropTail(body)[0] == body[0]
    ensures |body| >= 3 ==> |DropTail(body)| >= 2 && DropTail(body)[1] == body[1]
    ensures |DropTail(body)| >= 2 ==> SameAxis(DropTail(body)[0], DropTail(body)[1], body[0], body[1])
    decreases |body|
  {
    if |body| == 2 {
      assert body == [body[0], body[1]] && body[1..] == [body[1]];
      DropOnRun(body[0], body[1]);
    } else {
      var rest := body[1..];
      DropRefines(rest);
      DropTailUnderHead(body);
      assert body == [body[0]] + rest;
      DropUnderHead(body[0], rest, DropTail(rest));
    }
  }

  /** A step that does not reverse refines the step on cells, keeps the body proper
      and leaves it travelling in the stepped direction. */
  lemma StepRefines(body: seq<Position>, d: Direction, grow: bool)
    requires |body| >= 2 && Compressed(body) && !IsOpposite(d, TravelDirection(body, d))
    ensures var b := Stepped(body, d, grow);
            |b| >= 2 && Compressed(b) && Cells(b) == SteppedCells(Cells(body), d, grow) && TravelDirection(b, d) == d
  {
    PushRefines(body, d);
    AtLeastTwoCells(body);
    if !grow {
      var pushed := PushHead(body, Moved(body[0], d));
      DropRefines(pushed);
      KeepsHeading(pushed, d);
    }
  }

  lemma AtLeastTwoCells(body: seq<Position>)
    requires |body| >= 2 && Compressed(body)
    ensures |Cells(body)| >= 2
  {
  }

  lemma KeepsHeading(body: seq<Position>, d: Direction)
    requires |body| >= 2 && Compressed(body) && |Cells(body)| >= 3
    ensures |DropTail(body)| >= 2 && TravelDirection(DropTail(body), d) == TravelDirection(body, d)
  {
    DropRefines(body);
    if |body| == 2 { assert |Cells(DropTail(body))| >= 2; }
  }

  lemma {:induction false} DropNeverGrows(body: seq<Position>)
    requires |body| >= 2 && AlignedBody(body)
    ensures |Cells(DropTail(body))| <= |Cells(body)|
    ensures DropTail(body) != [] && DropTail(body)[0] == body[0]
    decreases |body|
  {
    if |body| > 2 {
      DropNeverGrows(body[1..]);
      var b := DropTail(body);
      assert b[1..] == DropTail(body[1..]) && b[0] == body[0] && b[1] == body[1];
    }
  }

  /** A reversing step eats into the body instead of moving it. */
  lemma ReversalShrinks(body: seq<Position>, d: Direction, grow: bool)
    requires |body| >= 2 && Compressed(body) && IsOpposite(d, TravelDirection(body, d))
    ensures |Cells(Stepped(body, d, grow))| < |Cells(body)|
  {
    var head := Moved(body[0], d);
    var pushed := [head] + body[1..];
    assert PushHead(body, head) == pushed;
    CellsOf(head, body[1..]);
    assert body == [body[0]] + body[1..];
    CellsOf(body[0], body[1..]);
    CompressedIsAligned(body);
    assert pushed[1..] == body[1..];
    DropNeverGrows(pushed);
  }

  /** The refinement holds exactly for non-reversing steps, which is what the engine's
      turn guard enforces. */
  lemma StepRefinesExactly(body: seq<Position>, d: Direction, grow: bool)
    requires |body| >= 2 && Compressed(body)
    ensures Cells(Stepped(body, d, grow)) == SteppedCells(Cells(body), d, grow) <==> !IsOpposite(d, TravelDirection(body, d))
  {
    if IsOpposite(d, TravelDirection(body, d)) {
      ReversalShrinks(body, d, grow);
    } else {
      StepRefines(body, d, grow);
    }
  }

  // ----------------------------------------------------------------- whole lives

  /** The part of a living snake that movement touches. */
  datatype Mover = Mover(body: seq<Position>, direction: Direction, food: nat)

  datatype MoverOp = Steer(to: Direction) | Eat(points: nat) | Step

  /** The turn guard: neither the pending nor the travelled direction may be reversed. */
  function Steered(s: Mover, d: Direction): (t: Mover) {
    if s.direction != d && !IsOpposite(s.direction, d) && !IsOpposite(TravelDirection(s.body, s.direction), d)
    then s.(direction := d) else s
  }

  /** Every turn that reverses neither the pending nor the travelled direction is taken, no
      other is, and a turn moves nothing. */
  lemma TurnIsTakenExactly(s: Mover, d: Direction)
    ensures Steered(s, d).body == s.body && Steered(s, d).food == s.food
    ensures Steered(s, d).direction == d || Steered(s, d).direction == s.direction
    ensures Steered(s, d).direction == d <==>
              s.direction == d || (!IsOpposite(s.direction, d) && !IsOpposite(TravelDirection(s.body, s.direction), d))
  {
  }

  function Moving(s: Mover): (t: Mover)
    requires |s.body| >= 2
  {
    s.(body := Stepped(s.body, s.direction, s.food > 0), food := if s.food > 0 then s.food - 1 else 0)
  }

  ghost predicate Proper(s: Mover) {
    |s.body| >= 2 && Compressed(s.body) && !IsOpposite(s.direction, TravelDirection(s.body, s.direction))
  }

  lemma MovingStaysProper(s: Mover)
    requires Proper(s)
    ensures Proper(Moving(s))
  {
    StepRefines(s.body, s.direction, s.food > 0);
  }

  function Lived(s: Mover, ops: seq<MoverOp>): (t: Mover)
    requires Proper(s)
    ensures Proper(t)
    decreases |ops|
  {
    if ops == [] then s
    else
      var t := Lived(s, ops[..|ops| - 1]);
      match ops[|ops| - 1]
      case Steer(d) => Steered(t, d)
      case Eat(n) => t.(food := t.food + n)
      case Step => MovingStaysProper(t); Moving(t)
  }

  /** The head cells visited by a life's steps, most recent first. */
  function Trail(s: Mover, ops: seq<MoverOp>): (heads: seq<Position>)
    requires Proper(s)
    decreases |ops|
  {
    if ops == [] then []
    else
      var prefix := ops[..|ops| - 1];
      (if ops[|ops| - 1].Step? then [Lived(s, ops).body[0]] else []) + Trail(s, prefix)
  }

  function Eaten(ops: seq<MoverOp>): (n: nat) {
    if ops == [] then 0
    else Eaten(ops[..|ops| - 1]) + (if ops[|ops| - 1].Eat? then ops[|ops| - 1].points else 0)
  }

  /** Where the last step went, before any step the initial travel direction. */
  function LastStepped(s: Mover, ops: seq<MoverOp>): (d: Direction)
    requires Proper(s)
    decreases |ops|
  {
    if ops == [] then TravelDirection(s.body, s.direction)
    else if ops[|ops| - 1].Step? then Lived(s, ops[..|ops| - 1]).direction
    else LastStepped(s, ops[..|ops| - 1])
  }

  /** Through any life of guarded turns, meals and steps: the body is exactly the most
      recent part of the head's trail, length plus pending growth is conserved, and the
      travel direction is the one last stepped. */
  lemma {:induction false} BodyIsTrail(s: Mover, ops: seq<MoverOp>)
    requires Proper(s)
    ensures var t, n := Lived(s, ops), |Cells(Lived(s, ops).body)|;
            var visited := Trail(s, ops) + Cells(s.body);
            n <= |visited| && Cells(t.body) == visited[..n] &&
            n + t.food == |Cells(s.body)| + s.food + Eaten(ops) &&
            TravelDirection(t.body, t.direction) == LastStepped(s, ops)
    decreases |ops|
  {
    if ops == [] {
      assert Trail(s, ops) + Cells(s.body) == Cells(s.body);
    } else {
      var prefix, op := ops[..|ops| - 1], ops[|ops| - 1];
      BodyIsTrail(s, prefix);
      var t := Lived(s, prefix);
      if op.Step? {
        StepRefines(t.body, t.direction, t.food > 0);
        TrailGrows(Trail(s, prefix) + Cells(s.body), Cells(t.body), t.direction, t.food > 0);
        ConcatAssociates([Lived(s, ops).body[0]], Trail(s, prefix), Cells(s.body));
      } else {
        assert [] + Trail(s, prefix) == Trail(s, prefix);
      }
    }
  }

  lemma TrailGrows(visited: seq<Position>, cells: seq<Position>, d: Direction, grow: bool)
    requires cells != [] && |cells| <= |visited| && cells == visited[..|cells|]
    ensures var next := SteppedCells(cells, d, grow);
            |next| <= |visited| + 1 && next == ([Moved(cells[0], d)] + visited)[..|next|]
  {
  }
}
