/** `GameState::sync_hash`: the writes it makes, in order, and the digest they yield. */
module SyncHash {
  import opened Simulation
  import opened SyncEncoding
  import opened Sorting
  import opened SyncView
  import opened Fnv

  lemma {:induction false} BlockGrows(ws: seq<nat>, ns: seq<nat>, i: nat)
    requires |ws| == |ns| && i < |ws|
    ensures BlockBytes(ws[..i + 1], ns[..i + 1]) == BlockBytes(ws[..i], ns[..i]) + LittleEndian(ws[i], ns[i])
    decreases i
  {
    if i > 0 {
      BlockGrows(ws[1..], ns[1..], i - 1);
      assert ws[..i + 1][1..] == ws[1..][..i] && ns[..i + 1][1..] == ns[1..][..i];
      assert ws[..i][1..] == ws[1..][..i - 1] && ns[..i][1..] == ns[1..][..i - 1];
      Regroup(LittleEndian(ws[0], ns[0]), BlockBytes(ws[1..][..i - 1], ns[1..][..i - 1]), LittleEndian(ws[i], ns[i]));
    } else {
      assert ws[..1][1..] == [] && ns[..1][1..] == [];
      assert BlockBytes(ws[..1], ns[..1]) == LittleEndian(ws[0], ns[0]) + [];
    }
  }

  lemma {:induction false} ListGrows(sh: Shape, vs: seq<Value>, i: nat)
    requires i < |vs| && forall k :: 0 <= k < |vs| ==> Fits(sh, vs[k])
    ensures EncodeAll(sh, vs[..i + 1]) == EncodeAll(sh, vs[..i]) + Encode(sh, vs[i])
    decreases i
  {
    if i > 0 {
      var rest := vs[1..];
      ListGrows(sh, rest, i - 1);
      assert vs[..i + 1][1..] == rest[..i] && vs[..i][1..] == rest[..i - 1];
      Regroup(Encode(sh, vs[0]), EncodeAll(sh, rest[..i - 1]), Encode(sh, vs[i]));
    } else {
      assert vs[..1][1..] == [];
      assert EncodeAll(sh, vs[..1]) == Encode(sh, vs[0]) + [];
    }
  }

  /** A list's length and its first `i` items. */
  ghost function ListPrefix(sh: Shape, vs: seq<Value>, i: nat): (bytes: seq<byte>)
    requires Fits(Many(sh), List(vs)) && i <= |vs|
  {
    LittleEndian(4, |vs|) + EncodeAll(sh, vs[..i])
  }

  lemma WholeList(sh: Shape, vs: seq<Value>)
    requires Fits(Many(sh), List(vs))
    ensures ListPrefix(sh, vs, 0) == LittleEndian(4, |vs|)
    ensures ListPrefix(sh, vs, |vs|) == Encode(Many(sh), List(vs))
  {
    assert vs[..0] == [] && vs[..|vs|] == vs;
    assert LittleEndian(4, |vs|) + EncodeAll(sh, []) == LittleEndian(4, |vs|);
  }

  lemma ListGrew(start: seq<byte>, sh: Shape, vs: seq<Value>, i: nat, before: seq<byte>)
    requires Fits(Many(sh), List(vs)) && i < |vs| && before == start + ListPrefix(sh, vs, i)
    ensures before + Encode(sh, vs[i]) == start + ListPrefix(sh, vs, i + 1)
  {
    ListGrows(sh, vs, i);
    JoinThree(start, LittleEndian(4, |vs|), EncodeAll(sh, vs[..i]), Encode(sh, vs[i]));
  }

  /** The first `k` parts of a row, written one after another. */
  ghost function RowPrefix(shapes: seq<Shape>, vs: seq<Value>, k: nat): (bytes: seq<byte>)
    requires RowOk(shapes, vs) && k <= |vs|
  {
    if k == 0 then [] else RowPrefix(shapes, vs, k - 1) + Encode(shapes[k - 1], vs[k - 1])
  }

  lemma PrefixNext(shapes: seq<Shape>, vs: seq<Value>, k: nat)
    requires RowOk(shapes, vs) && k < |vs|
    ensures RowPrefix(shapes, vs, k + 1) == RowPrefix(shapes, vs, k) + Encode(shapes[k], vs[k])
  {
  }

  /** The prefix of a row is its first part and a prefix of the rest. */
  lemma {:induction false} RowPrefixShift(row: seq<Shape>, ws: seq<Value>, shapes: seq<Shape>, vs: seq<Value>, k: nat)
    requires RowOk(row, ws) && RowOk(shapes, vs) && row != [] && row[1..] == shapes && ws[1..] == vs && k <= |vs|
    ensures RowPrefix(row, ws, k + 1) == Encode(row[0], ws[0]) + RowPrefix(shapes, vs, k)
    decreases k
  {
    PrefixNext(row, ws, k);
    if k == 0 {
      assert [] + Encode(row[0], ws[0]) == Encode(row[0], ws[0]) + [];
    } else {
      RowPrefixShift(row, ws, shapes, vs, k - 1);
      PrefixNext(shapes, vs, k - 1);
      assert row[k] == shapes[k - 1] && ws[k] == vs[k - 1];
      Regroup(Encode(row[0], ws[0]), RowPrefix(shapes, vs, k - 1), Encode(row[k], ws[k]));
    }
  }

  lemma {:induction false} WholeRow(shapes: seq<Shape>, vs: seq<Value>)
    requires RowOk(shapes, vs)
    ensures Fits(Row(shapes), RowValue(vs))
    ensures Encode(Row(shapes), RowValue(vs)) == RowPrefix(shapes, vs, |vs|)
    decreases |vs|
  {
    RowFits(shapes, vs);
    if vs != [] {
      WholeRow(shapes[1..], vs[1..]);
      RowPrefixShift(shapes, vs, shapes[1..], vs[1..], |vs| - 1);
    }
  }

  /** A run of fixed-width writes. */
  method WriteBlock(h: SyncHasher, ws: seq<nat>, ns: seq<nat>)
    requires h.Valid() && Fits(Block(ws), Nums(ns))
    modifies h
    ensures h.Valid() && h.written == old(h.written) + BlockBytes(ws, ns)
  {
    var i := 0;
    while i < |ws|
      invariant 0 <= i <= |ws| && h.Valid() && h.written == old(h.written) + BlockBytes(ws[..i], ns[..i])
    {
      h.WriteNumber(ws[i], ns[i]);
      BlockGrows(ws, ns, i);
      Regroup(old(h.written), BlockBytes(ws[..i], ns[..i]), LittleEndian(ws[i], ns[i]));
      i := i + 1;
    }
    assert ws[..i] == ws && ns[..i] == ns;
  }

  /** An optional block: a presence byte, then the block if present. */
  method WriteOptionalBlock(h: SyncHasher, present: bool, ws: seq<nat>, ns: seq<nat>)
    requires h.Valid() && (present ==> Fits(Block(ws), Nums(ns)))
    modifies h
    ensures h.Valid()
    ensures var v := if present then Case(1, Nums(ns)) else Case(0, Nums([]));
            Fits(Maybe(Block(ws)), v) && h.written == old(h.written) + Encode(Maybe(Block(ws)), v)
  {
    if present {
      h.WriteU8(1);
      WriteBlock(h, ws, ns);
      assert LittleEndian(1, 1) == [1];
      Regroup(old(h.written), [1], BlockBytes(ws, ns));
    } else {
      h.WriteU8(0);
      assert LittleEndian(1, 0) == [0];
      assert [0] + BlockBytes([], []) == [0];
    }
  }

  method WriteOptionalWord(h: SyncHasher, word: Option<u32>)
    requires h.Valid()
    modifies h
    ensures h.Valid() && Fits(Maybe(WORD32), Optional(word, WordValue))
    ensures h.written == old(h.written) + Encode(Maybe(WORD32), Optional(word, WordValue))
  {
    RangeValues();
    WriteOptionalBlock(h, word.Some?, [4], if word.Some? then [word.value] else []);
  }

  method WriteStatus(h: SyncHasher, s: Status)
    requires h.Valid()
    modifies h
    ensures h.Valid() && Fits(STATUS, StatusValue(s)) && h.written == old(h.written) + Encode(STATUS, StatusValue(s))
  {
    StatusFits(s);
    match s {
      case Stopped =>
        h.WriteU8(0);
        assert LittleEndian(1, 0) == [0] && [0] + BlockBytes([], []) == [0];
      case Started =>
        h.WriteU8(1);
        assert LittleEndian(1, 1) == [1] && [1] + BlockBytes([], []) == [1];
      case Complete(winner) =>
        h.WriteU8(2);
        WriteOptionalWord(h, winner);
        assert LittleEndian(1, 2) == [2];
        Regroup(old(h.written), [2], Encode(Maybe(WORD32), Optional(winner, WordValue)));
    }
  }

  method WriteCells(h: SyncHasher, cells: seq<Cell>)
    requires h.Valid()
    modifies h
    ensures h.Valid() && Fits(Many(CELL), List(Mapped(cells, CellValue)))
    ensures h.written == old(h.written) + Encode(Many(CELL), List(Mapped(cells, CellValue)))
  {
    SmallValuesFit();
    RangeValues();
    ListFits(CELL, cells, CellValue);
    ghost var vs := Mapped(cells, CellValue);
    WholeList(CELL, vs);
    h.WriteNumber(4, |cells|);
    var i := 0;
    while i < |cells|
      invariant 0 <= i <= |cells| && h.Valid() && h.written == old(h.written) + ListPrefix(CELL, vs, i)
    {
      ListGrew(old(h.written), CELL, vs, i, h.written);
      WriteBlock(h, [2, 2], [Unsigned(cells[i].x), Unsigned(cells[i].y)]);
      i := i + 1;
    }
  }

  method WriteSnake(h: SyncHasher, s: SnakeView)
    requires h.Valid()
    modifies h
    ensures h.Valid() && Fits(SNAKE, SnakeValue(s)) && h.written == old(h.written) + Encode(SNAKE, SnakeValue(s))
  {
    SnakeFits(s);
    SnakeNumbersFit(s);
    SmallValuesFit();
    ghost var start := h.written;
    WriteBlock(h, [1, 1, 4, 2, 4, 4, 1, 1, 4, 4], SnakeNumbers(s));
    ghost var first := BlockBytes([1, 1, 4, 2, 4, 4, 1, 1, 4, 4], SnakeNumbers(s));
    WriteOptionalBlock(h, s.team.Some?, [1], if s.team.Some? then [s.team.value] else []);
    ghost var second := Encode(Maybe(Block([1])), Optional(s.team, TeamValue));
    assert h.written == start + first + second;
    WriteCells(h, s.body);
    ghost var third := Encode(Many(CELL), List(Mapped(s.body, CellValue)));
    JoinThree(start, first, second, third);
  }

  lemma JoinThree(start: seq<byte>, a: seq<byte>, b: seq<byte>, c: seq<byte>)
    ensures start + a + b + c == start + (a + (b + c))
  {
  }

  method WriteSnakes(h: SyncHasher, snakes: seq<SnakeView>)
    requires h.Valid()
    modifies h
    ensures h.Valid() && Fits(Many(SNAKE), List(Mapped(snakes, SnakeValue)))
    ensures h.written == old(h.written) + Encode(Many(SNAKE), List(Mapped(snakes, SnakeValue)))
  {
    RangeValues();
    forall i | 0 <= i < |snakes| ensures Fits(SNAKE, SnakeValue(snakes[i])) { SnakeFits(snakes[i]); }
    ListFits(SNAKE, snakes, SnakeValue);
    ghost var vs := Mapped(snakes, SnakeValue);
    WholeList(SNAKE, vs);
    h.WriteNumber(4, |snakes|);
    var i := 0;
    while i < |snakes|
      invariant 0 <= i <= |snakes| && h.Valid() && h.written == old(h.written) + ListPrefix(SNAKE, vs, i)
    {
      ListGrew(old(h.written), SNAKE, vs, i, h.written);
      WriteSnake(h, snakes[i]);
      i := i + 1;
    }
  }

  method WritePad(h: SyncHasher, p: Pad)
    requires h.Valid()
    modifies h
    ensures h.Valid() && Fits(PAD, PadValue(p)) && h.written == old(h.written) + Encode(PAD, PadValue(p))
  {
    PadFits(p);
    SmallValuesFit();
    var numbers := [p.id, Unsigned(p.position.x), Unsigned(p.position.y), p.charge, p.size];
    WriteBlock(h, [1, 2, 2, 4, 1], numbers);
    WriteOptionalWord(h, p.respawnAt);
    Regroup(old(h.written), BlockBytes([1, 2, 2, 4, 1], numbers), Encode(Maybe(WORD32), Optional(p.respawnAt, WordValue)));
  }

  method WritePads(h: SyncHasher, pads: seq<Pad>)
    requires h.Valid()
    modifies h
    ensures h.Valid() && Fits(Many(PAD), PadsValue(pads))
    ensures h.written == old(h.written) + Encode(Many(PAD), PadsValue(pads))
  {
    RangeValues();
    var sorted := Sort(pads, PadKey);
    forall i | 0 <= i < |sorted| ensures Fits(PAD, PadValue(sorted[i])) { PadFits(sorted[i]); }
    ListFits(PAD, sorted, PadValue);
    ghost var vs := Mapped(sorted, PadValue);
    WholeList(PAD, vs);
    h.WriteNumber(4, |sorted|);
    var i := 0;
    while i < |sorted|
      invariant 0 <= i <= |sorted| && h.Valid() && h.written == old(h.written) + ListPrefix(PAD, vs, i)
    {
      ListGrew(old(h.written), PAD, vs, i, h.written);
      WritePad(h, sorted[i]);
      i := i + 1;
    }
  }

  method WriteEntries(h: SyncHasher, entries: seq<Entry>)
    requires h.Valid()
    modifies h
    ensures h.Valid() && Fits(Many(ENTRY), EntriesValue(entries))
    ensures h.written == old(h.written) + Encode(Many(ENTRY), EntriesValue(entries))
  {
    RangeValues();
    SmallValuesFit();
    var sorted := Sort(entries, EntryKey);
    ListFits(ENTRY, sorted, EntryValue);
    ghost var vs := Mapped(sorted, EntryValue);
    WholeList(ENTRY, vs);
    h.WriteNumber(4, |sorted|);
    var i := 0;
    while i < |sorted|
      invariant 0 <= i <= |sorted| && h.Valid() && h.written == old(h.written) + ListPrefix(ENTRY, vs, i)
    {
      ListGrew(old(h.written), ENTRY, vs, i, h.written);
      WriteBlock(h, [4, 4], [sorted[i].key, sorted[i].value]);
      i := i + 1;
    }
  }

  method WriteTeamScores(h: SyncHasher, scores: Option<seq<TeamEntry>>)
    requires h.Valid()
    modifies h
    ensures h.Valid() && Fits(Maybe(Many(TEAM_ENTRY)), Optional(scores, TeamScoresValue))
    ensures h.written == old(h.written) + Encode(Maybe(Many(TEAM_ENTRY)), Optional(scores, TeamScoresValue))
  {
    TeamScoresFit(scores);
    if scores.None? {
      h.WriteU8(0);
      assert LittleEndian(1, 0) == [0] && [0] + BlockBytes([], []) == [0];
    } else {
      h.WriteU8(1);
      WriteScores(h, scores.value);
      assert LittleEndian(1, 1) == [1];
      Regroup(old(h.written), [1], Encode(Many(TEAM_ENTRY), TeamScoresValue(scores.value)));
    }
  }

  method WriteScores(h: SyncHasher, scores: seq<TeamEntry>)
    requires h.Valid()
    modifies h
    ensures h.Valid() && Fits(Many(TEAM_ENTRY), TeamScoresValue(scores))
    ensures h.written == old(h.written) + Encode(Many(TEAM_ENTRY), TeamScoresValue(scores))
  {
    RangeValues();
    SmallValuesFit();
    var sorted := Sort(scores, TeamKey);
    ListFits(TEAM_ENTRY, sorted, TeamEntryValue);
    ghost var vs := Mapped(sorted, TeamEntryValue);
    WholeList(TEAM_ENTRY, vs);
    h.WriteNumber(4, |sorted|);
    var i := 0;
    while i < |sorted|
      invariant 0 <= i <= |sorted| && h.Valid() && h.written == old(h.written) + ListPrefix(TEAM_ENTRY, vs, i)
    {
      ListGrew(old(h.written), TEAM_ENTRY, vs, i, h.written);
      WriteBlock(h, [1, 4], [sorted[i].team, sorted[i].score]);
      i := i + 1;
    }
  }

  method WriteUsers(h: SyncHasher, users: seq<u32>)
    requires h.Valid()
    modifies h
    ensures h.Valid() && Fits(Many(WORD32), List(Mapped(users, WordValue)))
    ensures h.written == old(h.written) + Encode(Many(WORD32), List(Mapped(users, WordValue)))
  {
    RangeValues();
    SmallValuesFit();
    ListFits(WORD32, users, WordValue);
    ghost var vs := Mapped(users, WordValue);
    WholeList(WORD32, vs);
    h.WriteNumber(4, |users|);
    var i := 0;
    while i < |users|
      invariant 0 <= i <= |users| && h.Valid() && h.written == old(h.written) + ListPrefix(WORD32, vs, i)
    {
      ListGrew(old(h.written), WORD32, vs, i, h.written);
      WriteBlock(h, [4], [users[i]]);
      i := i + 1;
    }
  }

  method WriteCommand(h: SyncHasher, q: Queued)
    requires h.Valid()
    modifies h
    ensures h.Valid() && Fits(QUEUED, QueuedValue(q)) && h.written == old(h.written) + Encode(QUEUED, QueuedValue(q))
  {
    QueuedFits(q);
    RangeValues();
    WriteBlock(h, [4, 4, 4], [q.tick, q.user, q.sequence]);
    ghost var ids := BlockBytes([4, 4, 4], [q.tick, q.user, q.sequence]);
    WriteAction(h, q.action);
    Regroup(old(h.written), ids, Encode(ACTION, ActionValue(q.action)));
  }

  method WriteAction(h: SyncHasher, a: Action)
    requires h.Valid()
    modifies h
    ensures h.Valid() && Fits(ACTION, ActionValue(a)) && h.written == old(h.written) + Encode(ACTION, ActionValue(a))
  {
    RangeValues();
    match a {
      case TurnTo(snake, d) =>
        WriteTagged(h, 0, [4, 1], [snake, DirectionTag(d)]);
        assert ActionValue(a) == Case(0, Nums([snake, DirectionTag(d)]));
      case StartBoost(snake) => WriteTagged(h, 1, [4], [snake]);
      case StopBoost(snake) => WriteTagged(h, 2, [4], [snake]);
      case Presence(snake) => WriteTagged(h, 3, [4], [snake]);
    }
  }

  lemma OneByte(b: byte)
    ensures LittleEndian(1, b) == [b]
  {
    assert LittleEndian(0, b / 256) == [];
  }

  method WriteTagged(h: SyncHasher, tag: byte, ws: seq<nat>, ns: seq<nat>)
    requires h.Valid() && Fits(Block(ws), Nums(ns))
    modifies h
    ensures h.Valid() && h.written == old(h.written) + (LittleEndian(1, tag) + BlockBytes(ws, ns))
  {
    h.WriteU8(tag);
    WriteBlock(h, ws, ns);
    OneByte(tag);
    Regroup(old(h.written), [tag], BlockBytes(ws, ns));
  }

  method WriteCommands(h: SyncHasher, commands: seq<Queued>)
    requires h.Valid()
    modifies h
    ensures h.Valid() && Fits(Many(QUEUED), CommandsValue(commands))
    ensures h.written == old(h.written) + Encode(Many(QUEUED), CommandsValue(commands))
  {
    RangeValues();
    CommandsFit(commands);
    var sorted := Sort(commands, QueuedKey);
    ghost var vs := Mapped(sorted, QueuedValue);
    WholeList(QUEUED, vs);
    h.WriteNumber(4, |sorted|);
    var i := 0;
    while i < |sorted|
      invariant 0 <= i <= |sorted| && h.Valid() && h.written == old(h.written) + ListPrefix(QUEUED, vs, i)
    {
      ListGrew(old(h.written), QUEUED, vs, i, h.written);
      WriteCommand(h, sorted[i]);
      i := i + 1;
    }
  }

  /** Writing part `k` of a row extends the written prefix by one part. */
  lemma Grew(start: seq<byte>, shapes: seq<Shape>, vs: seq<Value>, k: nat, before: seq<byte>, part: seq<byte>)
    requires RowOk(shapes, vs) && k < |vs|
    requires before == start + RowPrefix(shapes, vs, k) && part == Encode(shapes[k], vs[k])
    ensures before + part == start + RowPrefix(shapes, vs, k + 1)
  {
    Regroup(start, RowPrefix(shapes, vs, k), part);
  }

  method WriteHeader(h: SyncHasher, g: Header)
    requires h.Valid()
    modifies h
    ensures h.Valid() && Fits(Row(HEADER_PARTS), RowValue(HeaderValues(g)))
    ensures h.written == old(h.written) + Encode(Row(HEADER_PARTS), RowValue(HeaderValues(g)))
  {
    HeaderFits(g);
    WholeRow(HEADER_PARTS, HeaderValues(g));
    ghost var start, vs := h.written, HeaderValues(g);
    SmallValuesFit();
    WriteBlock(h, [4], [g.tick]);
    Grew(start, HEADER_PARTS, vs, 0, start, BlockBytes([4], [g.tick]));
    ghost var mark := h.written;
    WriteStatus(h, g.status);
    Grew(start, HEADER_PARTS, vs, 1, mark, Encode(STATUS, StatusValue(g.status)));
    mark := h.written;
    WriteSize(h, g);
    Grew(start, HEADER_PARTS, vs, 2, mark, BlockBytes([2, 2], [g.width, g.height]));
    mark := h.written;
    WriteOptionalBlock(h, g.zone.Some?, [2, 2], if g.zone.Some?
        then [g.zone.value.endZoneDepth, g.zone.value.goalWidth] else []);
    Grew(start, HEADER_PARTS, vs, 3, mark, Encode(Maybe(Block([2, 2])), Optional(g.zone, ZoneValue)));
  }

  method WriteSize(h: SyncHasher, g: Header)
    requires h.Valid()
    modifies h
    ensures h.Valid() && h.written == old(h.written) + BlockBytes([2, 2], [g.width, g.height])
  {
    RangeValues();
    WriteBlock(h, [2, 2], [g.width, g.height]);
  }

  method WriteField(h: SyncHasher, f: Field)
    requires h.Valid()
    modifies h
    ensures h.Valid() && Fits(Row(FIELD_PARTS), RowValue(FieldValues(f)))
    ensures h.written == old(h.written) + Encode(Row(FIELD_PARTS), RowValue(FieldValues(f)))
  {
    FieldFits(f);
    WholeRow(FIELD_PARTS, FieldValues(f));
    ghost var start, vs := h.written, FieldValues(f);
    WriteSnakes(h, f.snakes);
    Grew(start, FIELD_PARTS, vs, 0, start, Encode(Many(SNAKE), vs[0]));
    ghost var mark := h.written;
    WritePads(h, f.pads);
    Grew(start, FIELD_PARTS, vs, 1, mark, Encode(Many(PAD), vs[1]));
    mark := h.written;
    WriteCells(h, Sort(f.food, CellKey));
    Grew(start, FIELD_PARTS, vs, 2, mark, Encode(Many(CELL), vs[2]));
  }

  /** Part `k` of the tables, when it is a map given by its entries. */
  method WriteTable(h: SyncHasher, entries: seq<Entry>, ghost start: seq<byte>, ghost vs: seq<Value>, ghost k: nat)
    requires h.Valid() && RowOk(TABLE_PARTS, vs)
    requires k < |TABLE_PARTS| && TABLE_PARTS[k] == Many(ENTRY) && vs[k] == EntriesValue(entries)
    requires h.written == start + RowPrefix(TABLE_PARTS, vs, k)
    modifies h
    ensures h.Valid() && h.written == start + RowPrefix(TABLE_PARTS, vs, k + 1)
  {
    ghost var mark := h.written;
    WriteEntries(h, entries);
    Grew(start, TABLE_PARTS, vs, k, mark, Encode(Many(ENTRY), vs[k]));
  }

  /** The two last parts: who was removed for idling, and whether that ended the game. */
  method WriteIdle(h: SyncHasher, t: Tables, ghost start: seq<byte>, ghost vs: seq<Value>)
    requires h.Valid() && RowOk(TABLE_PARTS, vs)
    requires vs[7] == List(Mapped(t.idleKicked, WordValue)) && vs[8] == Nums([Flag(t.byInactivity)])
    requires h.written == start + RowPrefix(TABLE_PARTS, vs, 7)
    modifies h
    ensures h.Valid() && h.written == start + RowPrefix(TABLE_PARTS, vs, 9)
  {
    ghost var mark := h.written;
    WriteUsers(h, t.idleKicked);
    Grew(start, TABLE_PARTS, vs, 7, mark, Encode(Many(WORD32), vs[7]));
    mark := h.written;
    h.WriteU8(Flag(t.byInactivity));
    assert BlockBytes([1], [Flag(t.byInactivity)]) == [Flag(t.byInactivity)];
    Grew(start, TABLE_PARTS, vs, 8, mark, [Flag(t.byInactivity)]);
  }

  /** The first four parts: players, scores, pickups and team scores. */
  method WriteStandings(h: SyncHasher, t: Tables, ghost start: seq<byte>, ghost vs: seq<Value>)
    requires h.Valid() && RowOk(TABLE_PARTS, vs) && h.written == start
    requires vs[0] == EntriesValue(t.players) && vs[1] == EntriesValue(t.scores) && vs[2] == EntriesValue(t.pickups)
    requires vs[3] == Optional(t.teamScores, TeamScoresValue)
    modifies h
    ensures h.Valid() && h.written == start + RowPrefix(TABLE_PARTS, vs, 4)
  {
    WriteTable(h, t.players, start, vs, 0);
    WriteTable(h, t.scores, start, vs, 1);
    WriteTable(h, t.pickups, start, vs, 2);
    ghost var mark := h.written;
    WriteTeamScores(h, t.teamScores);
    Grew(start, TABLE_PARTS, vs, 3, mark, Encode(Maybe(Many(TEAM_ENTRY)), vs[3]));
  }

  /** The next three: experience, action counts and last activity. */
  method WriteActivity(h: SyncHasher, t: Tables, ghost start: seq<byte>, ghost vs: seq<Value>)
    requires h.Valid() && RowOk(TABLE_PARTS, vs) && h.written == start + RowPrefix(TABLE_PARTS, vs, 4)
    requires vs[4] == EntriesValue(t.xp) && vs[5] == EntriesValue(t.actions) && vs[6] == EntriesValue(t.activity)
    modifies h
    ensures h.Valid() && h.written == start + RowPrefix(TABLE_PARTS, vs, 7)
  {
    WriteTable(h, t.xp, start, vs, 4);
    WriteTable(h, t.actions, start, vs, 5);
    WriteTable(h, t.activity, start, vs, 6);
  }

  method WriteTables(h: SyncHasher, t: Tables)
    requires h.Valid()
    modifies h
    ensures h.Valid() && Fits(Row(TABLE_PARTS), RowValue(TablesValues(t)))
    ensures h.written == old(h.written) + Encode(Row(TABLE_PARTS), RowValue(TablesValues(t)))
  {
    ghost var start, vs := h.written, TablesValues(t);
    TablesFit(t);
    WholeRow(TABLE_PARTS, vs);
    WriteStandings(h, t, start, vs);
    WriteActivity(h, t, start, vs);
    WriteIdle(h, t, start, vs);
  }

  /** The first three parts of the settings. */
  method WriteLimits(h: SyncHasher, s: Settings, ghost vs: seq<Value>)
    requires h.Valid() && RowOk(SETTING_PARTS, vs) && vs[0] == Nums([s.foodTarget, s.tickMs])
    requires vs[1] == Optional(s.timeLimit, WordValue) && vs[2] == Optional(s.scoreLimit, WordValue)
    modifies h
    ensures h.Valid() && h.written == old(h.written) + RowPrefix(SETTING_PARTS, vs, 3)
  {
    ghost var start := h.written;
    WriteTarget(h, s);
    Grew(start, SETTING_PARTS, vs, 0, start, BlockBytes([8, 4], [s.foodTarget, s.tickMs]));
    ghost var mark := h.written;
    WriteOptionalWord(h, s.timeLimit);
    Grew(start, SETTING_PARTS, vs, 1, mark, Encode(Maybe(WORD32), vs[1]));
    mark := h.written;
    WriteOptionalWord(h, s.scoreLimit);
    Grew(start, SETTING_PARTS, vs, 2, mark, Encode(Maybe(WORD32), vs[2]));
  }

  method WriteTarget(h: SyncHasher, s: Settings)
    requires h.Valid()
    modifies h
    ensures h.Valid() && h.written == old(h.written) + BlockBytes([8, 4], [s.foodTarget, s.tickMs])
  {
    RangeValues();
    WriteBlock(h, [8, 4], [s.foodTarget, s.tickMs]);
  }

  method WriteBoost(h: SyncHasher, boost: Option<Boost>)
    requires h.Valid()
    modifies h
    ensures h.Valid() && Fits(Maybe(BOOST), Optional(boost, BoostValue))
    ensures h.written == old(h.written) + Encode(Maybe(BOOST), Optional(boost, BoostValue))
  {
    if boost.Some? {
      BoostFits(boost.value);
      WriteOptionalBlock(h, true, [2, 4, 4, 4, 2, 2, 1], BoostValue(boost.value).numbers);
    } else {
      WriteOptionalBlock(h, false, [2, 4, 4, 4, 2, 2, 1], []);
    }
  }

  method WriteSettings(h: SyncHasher, s: Settings)
    requires h.Valid()
    modifies h
    ensures h.Valid() && Fits(Row(SETTING_PARTS), RowValue(SettingsValues(s)))
    ensures h.written == old(h.written) + Encode(Row(SETTING_PARTS), RowValue(SettingsValues(s)))
  {
    SettingsFit(s);
    WholeRow(SETTING_PARTS, SettingsValues(s));
    ghost var start, vs := h.written, SettingsValues(s);
    WriteLimits(h, s, vs);
    ghost var mark := h.written;
    WriteBoost(h, s.boost);
    Grew(start, SETTING_PARTS, vs, 3, mark, Encode(Maybe(BOOST), vs[3]));
    mark := h.written;
    WriteBlock(h, [4, 4, 2, 4, 4], [s.comboWindow, s.comboMaxValue, s.comboRules, s.idleTimeout, s.idleWarning]);
    Grew(start, SETTING_PARTS, vs, 4, mark, Encode(Block([4, 4, 2, 4, 4]), vs[4]));
  }

  /** Header, field, tables, settings and commands, one after another. */
  method WriteGame(h: SyncHasher, g: GameView, ghost vs: seq<Value>)
    requires h.Valid() && h.written == [] && RowOk(GAME_PARTS, vs)
    requires vs[0] == RowValue(HeaderValues(g.header)) && vs[1] == RowValue(FieldValues(g.field))
    requires vs[2] == RowValue(TablesValues(g.tables)) && vs[3] == RowValue(SettingsValues(g.settings))
    requires vs[4] == CommandsValue(g.commands)
    modifies h
    ensures h.Valid() && h.written == RowPrefix(GAME_PARTS, vs, 5)
  {
    WriteHeader(h, g.header);
    Grew([], GAME_PARTS, vs, 0, [], Encode(Row(HEADER_PARTS), vs[0]));
    ghost var mark := h.written;
    WriteField(h, g.field);
    Grew([], GAME_PARTS, vs, 1, mark, Encode(Row(FIELD_PARTS), vs[1]));
    mark := h.written;
    WriteTables(h, g.tables);
    Grew([], GAME_PARTS, vs, 2, mark, Encode(Row(TABLE_PARTS), vs[2]));
    mark := h.written;
    WriteSettings(h, g.settings);
    Grew([], GAME_PARTS, vs, 3, mark, Encode(Row(SETTING_PARTS), vs[3]));
    mark := h.written;
    WriteCommands(h, g.commands);
    Grew([], GAME_PARTS, vs, 4, mark, Encode(Many(QUEUED), vs[4]));
  }

  /** The fingerprint of a state is the digest of its stream. */
  method SyncHash(g: GameView) returns (hash: u64)
    ensures hash == Digest(FNV_OFFSET, Stream(g))
  {
    GameFits(g);
    WholeRow(GAME_PARTS, GameValues(g));
    var h := new SyncHasher();
    WriteGame(h, g, GameValues(g));
    hash := h.Finish();
  }

  /** States that agree up to the order of their collections are hashed alike. */
  lemma OrderNeverShows(a: GameView, b: GameView)
    requires UniqueIds(a) && SameUpToOrder(a, b)
    ensures Digest(FNV_OFFSET, Stream(a)) == Digest(FNV_OFFSET, Stream(b))
  {
    StreamsAgreeExactly(a, b);
  }
}
