/** The independent algorithms that read a compressed body, each proved to agree with
    the one list of cells. */
module BodyReaders {
  import opened Simulation
  import opened SnakeBody

  /** `contains_point`: some consecutive pair spans the point, except that the first
      pair may be told to ignore the head's own cell. */
  predicate ContainsPoint(body: seq<Position>, c: Position, skipHead: bool) {
    exists i :: 0 <= i < |body| - 1 && SpansPoint(body, c, skipHead, i)
  }

  predicate SpansPoint(body: seq<Position>, c: Position, skipHead: bool, i: nat)
    requires i + 1 < |body|
  {
    !(skipHead && i == 0 && body[0] == c) && IsBetween(c, body[i], body[i + 1])
  }

  lemma BetweenIsSegment(c: Position, p: Position, q: Position)
    requires Aligned(p, q)
    ensures IsBetween(c, p, q) <==> c in Segment(p, q) || c == q
  {
    if IsBetween(c, p, q) && c != q {
      var i := Distance(p, c);
      assert Segment(p, q)[i] == c;
    }
  }

  lemma {:induction false} ContainsIsMembership(body: seq<Position>, c: Position)
    requires |body| >= 2 && AlignedBody(body)
    ensures ContainsPoint(body, c, false) <==> c in Cells(body)
    decreases |body|
  {
    var rest := body[1..];
    BetweenIsSegment(c, body[0], body[1]);
    assert SpansPoint(body, c, false, 0) <==> IsBetween(c, body[0], body[1]);
    ShiftSpans(body, c, false);
    if |rest| >= 2 { ContainsIsMembership(rest, c); }
  }

  /** Past the first pair, reading a body is reading its rest. */
  lemma ShiftSpans(body: seq<Position>, c: Position, skipHead: bool)
    requires |body| >= 2
    ensures ContainsPoint(body, c, skipHead) <==>
              SpansPoint(body, c, skipHead, 0) || ContainsPoint(body[1..], c, false)
  {
    var rest := body[1..];
    forall i | 0 <= i < |rest| - 1 ensures SpansPoint(rest, c, false, i) <==> SpansPoint(body, c, skipHead, i + 1) {}
    if ContainsPoint(body, c, skipHead) && !SpansPoint(body, c, skipHead, 0) {
      var i :| 0 <= i < |body| - 1 && SpansPoint(body, c, skipHead, i);
      assert SpansPoint(rest, c, false, i - 1);
    }
    if ContainsPoint(rest, c, false) {
      var i :| 0 <= i < |rest| - 1 && SpansPoint(rest, c, false, i);
      assert SpansPoint(body, c, skipHead, i + 1);
    }
  }

  /** Collision queries. Without skipping, `contains_point` is membership; skipping the
      head it is true self-collision: membership among the cells after the first. A body
      of one point, which the engine never moves, contains nothing. */
  lemma CollisionQueries(body: seq<Position>, c: Position)
    requires Compressed(body)
    ensures |body| >= 2 ==> (ContainsPoint(body, c, false) <==> c in Cells(body))
    ensures |body| >= 2 ==> (ContainsPoint(body, c, true) <==> c in Cells(body)[1..])
    ensures |body| < 2 ==> !ContainsPoint(body, c, false) && !ContainsPoint(body, c, true)
  {
    if |body| >= 2 {
      CompressedIsAligned(body);
      ContainsIsMembership(body, c);
      SkippingHead(body, c);
    }
  }

  /** A run meets its own first cell only once. */
  lemma RunAfterHead(c: Position, p: Position, q: Position)
    requires Aligned(p, q) && p != q
    ensures c in Segment(p, q)[1..] <==> c in Segment(p, q) && c != p
  {
    var run := Segment(p, q);
    forall i | 0 < i < |run| ensures run[i] != p {}
    assert run == [p] + run[1..];
  }

  lemma CellsAfterHead(body: seq<Position>)
    requires |body| >= 2 && body[0] != body[1]
    ensures Cells(body)[1..] == Segment(body[0], body[1])[1..] + Cells(body[1..]) && body[1] in Cells(body[1..])
  {
    assert body[1] == Cells(body[1..])[0];
  }

  lemma SkippingHead(body: seq<Position>, c: Position)
    requires |body| >= 2 && Compressed(body)
    ensures ContainsPoint(body, c, true) <==> c in Cells(body)[1..]
  {
    CompressedIsAligned(body);
    ShiftSpans(body, c, true);
    BetweenIsSegment(c, body[0], body[1]);
    RunAfterHead(c, body[0], body[1]);
    CellsAfterHead(body);
    if |body| >= 3 { ContainsIsMembership(body[1..], c); }
  }

  /** `length`: the sum of the Manhattan distances, plus the head. */
  method Length(body: seq<Position>) returns (n: nat)
    ensures n == |Cells(body)|
  {
    if |body| < 2 { return |body|; }
    n := 0;
    var i := 0;
    while i < |body| - 1
      invariant 0 <= i <= |body| - 1
      invariant n + |Cells(body[i..])| == |Cells(body)|
    {
      assert body[i..][1..] == body[i + 1..];
      n := n + Distance(body[i], body[i + 1]);
      i := i + 1;
    }
    n := n + 1;
  }

  ghost function CellSet(cells: seq<Position>): (s: set<Position>) { set c | c in cells }

  lemma {:induction false} AlignedAt(body: seq<Position>, i: nat)
    requires AlignedBody(body) && i + 1 < |body|
    ensures Aligned(body[i], body[i + 1])
    decreases i
  {
    if i > 0 { AlignedAt(body[1..], i - 1); }
  }

  /** Walk one segment, both ends included. */
  method WalkSegment(p: Position, q: Position, before: set<Position>) returns (cells: set<Position>)
    requires Aligned(p, q)
    ensures cells == before + CellSet(Segment(p, q)) + {q}
  {
    var x, y := p.x, p.y;
    var dx, dy := Sign(q.x - p.x), Sign(q.y - p.y);
    cells := before + {Position(x, y)};
    ghost var i := 0;
    while (x, y) != (q.x, q.y)
      invariant 0 <= i <= Distance(p, q)
      invariant Position(x, y) == Toward(p, q, i)
      invariant cells == before + CellSet(Segment(p, q)[..i]) + {Toward(p, q, i)}
      decreases Distance(p, q) - i
    {
      x, y := x + dx, y + dy;
      ghost var walked := Segment(p, q)[..i + 1];
      assert walked == Segment(p, q)[..i] + [Toward(p, q, i)];
      assert CellSet(walked) == CellSet(Segment(p, q)[..i]) + {Toward(p, q, i)};
      i := i + 1;
      cells := cells + {Position(x, y)};
    }
    assert Segment(p, q)[..i] == Segment(p, q);
  }

  lemma CellSetPeels(body: seq<Position>, i: nat)
    requires i + 1 < |body|
    ensures CellSet(Cells(body[i..])) == CellSet(Segment(body[i], body[i + 1])) + CellSet(Cells(body[i + 1..]))
    ensures body[i + 1] in CellSet(Cells(body[i + 1..]))
  {
    assert body[i..][1..] == body[i + 1..];
    assert body[i + 1] == Cells(body[i + 1..])[0];
  }

  /** `expanded_body_cells`. */
  method ExpandedBodyCells(body: seq<Position>) returns (cells: set<Position>)
    requires AlignedBody(body)
    ensures cells == CellSet(Cells(body))
  {
    cells := {};
    var i := 0;
    while i < |body| - 1
      invariant 0 <= i && (body == [] ==> i == 0) && (body != [] ==> i <= |body| - 1)
      invariant body == [] ==> cells == {}
      invariant body != [] ==> cells + CellSet(Cells(body[i..])) == CellSet(Cells(body))
      invariant i > 0 ==> body[i] in cells
    {
      AlignedAt(body, i);
      CellSetPeels(body, i);
      cells := WalkSegment(body[i], body[i + 1], cells);
      i := i + 1;
    }
    if |body| == 1 {
      cells := cells + {body[0]};
    }
    if body != [] { assert body[i..] == [body[i]]; }
  }

  datatype BodyAnchor = BodyAnchor(cell: Position, runIsHorizontal: bool)

  /** The cell `back` steps behind the head, clamped to the tail. */
  function CellBehind(body: seq<Position>, back: nat): (c: Position)
    requires body != []
  {
    Clamped(Cells(body), back)
  }

  function Clamped(cells: seq<Position>, back: nat): (c: Position)
    requires cells != []
  {
    if back < |cells| then cells[back] else cells[|cells| - 1]
  }

  lemma ClampedConcat(run: seq<Position>, rest: seq<Position>, back: nat)
    requires rest != []
    ensures Clamped(run + rest, back) == if back < |run| then run[back] else Clamped(rest, back - |run|)
  {
  }

  /** Walking past one run, or stopping on it. */
  lemma BehindPeels(body: seq<Position>, i: nat, back: nat)
    requires i + 1 < |body| && Aligned(body[i], body[i + 1])
    ensures var span := Distance(body[i], body[i + 1]);
            if back <= span && span > 0 then CellBehind(body[i..], back) == Toward(body[i], body[i + 1], back)
            else CellBehind(body[i..], back) == CellBehind(body[i + 1..], back - span)
  {
    assert body[i..][1..] == body[i + 1..];
    ClampedConcat(Segment(body[i], body[i + 1]), Cells(body[i + 1..]), back);
  }

  /** The reported axis is that of a real run through the reported cell. */
  ghost predicate OnRun(body: seq<Position>, a: BodyAnchor) {
    exists i :: 0 <= i < |body| - 1 && RunThrough(body, a, i)
  }

  ghost predicate RunThrough(body: seq<Position>, a: BodyAnchor, i: nat)
    requires i + 1 < |body|
  {
    body[i] != body[i + 1] && IsBetween(a.cell, body[i], body[i + 1]) && a.runIsHorizontal == (body[i].x != body[i + 1].x)
  }

  /** The last non-degenerate run, searched from the tail. */
  method LastRunAxis(body: seq<Position>) returns (horizontal: bool, ghost found: bool)
    requires body != [] && AlignedBody(body)
    ensures found ==> OnRun(body, BodyAnchor(body[|body| - 1], horizontal))
    ensures !found ==> horizontal && forall i :: 0 <= i < |body| - 1 ==> body[i] == body[|body| - 1]
  {
    var i := |body| - 1;
    while i > 0
      invariant 0 <= i <= |body| - 1
      invariant forall k :: i <= k < |body| ==> body[k] == body[|body| - 1]
    {
      if body[i - 1] != body[i] {
        horizontal := body[i].x != body[i - 1].x;
        AlignedAt(body, i - 1);
        assert RunThrough(body, BodyAnchor(body[|body| - 1], horizontal), i - 1);
        return horizontal, true;
      }
      i := i - 1;
    }
    return true, false;
  }

  lemma StopsOnRun(body: seq<Position>, i: nat, back: nat)
    requires i + 1 < |body| && Aligned(body[i], body[i + 1]) && body[i] != body[i + 1] &&
        back <= Distance(body[i], body[i + 1])
    ensures OnRun(body, BodyAnchor(Toward(body[i], body[i + 1], back), body[i].x != body[i + 1].x))
  {
    assert RunThrough(body, BodyAnchor(Toward(body[i], body[i + 1], back), body[i].x != body[i + 1].x), i);
  }

  /** Past the last run there is only the tail. */
  method AtTail(body: seq<Position>) returns (a: BodyAnchor)
    requires body != [] && AlignedBody(body)
    ensures a.cell == body[|body| - 1]
    ensures OnRun(body, a) || (a.runIsHorizontal && forall i :: 0 <= i < |body| ==> body[i] == a.cell)
  {
    var horizontal, found := LastRunAxis(body);
    return BodyAnchor(body[|body| - 1], horizontal);
  }

  method BodyCellBehindHead(body: seq<Position>, back: nat) returns (r: Option<BodyAnchor>)
    requires AlignedBody(body)
    ensures r.None? <==> body == []
    ensures r.Some? ==> r.value.cell == CellBehind(body, back)
    ensures r.Some? && !OnRun(body, r.value) ==>
              r.value.runIsHorizontal && forall i :: 0 <= i < |body| ==> body[i] == r.value.cell
  {
    if body == [] { return None; }
    var remaining: nat := back;
    var i := 0;
    while i < |body| - 1
      invariant 0 <= i <= |body| - 1
      invariant CellBehind(body[i..], remaining) == CellBehind(body, back)
    {
      var p1, p2 := body[i], body[i + 1];
      var dx, dy := p2.x - p1.x, p2.y - p1.y;
      var span := Abs(dx) + Abs(dy);
      AlignedAt(body, i);
      BehindPeels(body, i, remaining);
      if span != 0 {
        if remaining <= span {
          var cell := Position(p1.x + Sign(dx) * remaining, p1.y + Sign(dy) * remaining);
          var a := BodyAnchor(cell, dx != 0);
          StopsOnRun(body, i, remaining);
          assert cell == Toward(p1, p2, remaining);
          return Some(a);
        }
        remaining := remaining - span;
      }
      i := i + 1;
    }
    assert body[i..] == [body[i]];
    var a := AtTail(body);
    return Some(a);
  }
}
