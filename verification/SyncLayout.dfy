/** The fingerprint's byte stream written out flat: which number stands where, how wide, and
    in which order. */
module SyncLayout {
  import opened Simulation
  import opened SnakeBody
  import opened SyncEncoding
  import opened Sorting
  import opened SyncView

  /** One number of the stream, `width` bytes little-endian. */
  datatype Word = Word(width: nat, number: nat)

  function U8(n: nat): (w: Word) { Word(1, n) }
  function U16(n: nat): (w: Word) { Word(2, n) }
  function U32(n: nat): (w: Word) { Word(4, n) }
  function U64(n: nat): (w: Word) { Word(8, n) }
  function I16(x: int): (w: Word) { Word(2, x % 0x1_0000) }
  function Bit(b: bool): (w: Word) { Word(1, if b then 1 else 0) }
  function Heading(d: Direction): (w: Word) { U8(if d == Up then 0 else if d == Down then 1 else if d == Left then 2 else 3) }

  ghost function Bytes(words: seq<Word>): (bytes: seq<byte>) {
    if words == [] then [] else LittleEndian(words[0].width, words[0].number) + Bytes(words[1..])
  }

  // ------------------------------------------------------------------------ the layout

  function Flat<T>(xs: seq<T>, f: T -> seq<Word>): (words: seq<Word>) {
    if xs == [] then [] else f(xs[0]) + Flat(xs[1..], f)
  }

  function Joined(parts: seq<seq<Word>>): (words: seq<Word>) {
    if parts == [] then [] else parts[0] + Joined(parts[1..])
  }

  /** A 32-bit count and the items. */
  function Counting<T>(xs: seq<T>, f: T -> seq<Word>): (words: seq<Word>) { [U32(|xs|)] + Flat(xs, f) }

  /** A presence byte and, if present, the item. */
  function Present<T>(o: Option<T>, f: T -> seq<Word>): (words: seq<Word>) {
    if o.None? then [U8(0)] else [U8(1)] + f(o.value)
  }

  function CellWords(c: Cell): (words: seq<Word>) { [I16(c.x), I16(c.y)] }
  function EntryWords(e: Entry): (words: seq<Word>) { [U32(e.key), U32(e.value)] }
  function TeamEntryWords(e: TeamEntry): (words: seq<Word>) { [U8(e.team), U32(e.score)] }
  function ByteWords(n: byte): (words: seq<Word>) { [U8(n)] }
  function NumberWords(n: u32): (words: seq<Word>) { [U32(n)] }
  function ZoneWords(z: Zone): (words: seq<Word>) { [U16(z.endZoneDepth), U16(z.goalWidth)] }

  function StatusWords(s: Status): (words: seq<Word>) {
    match s
    case Stopped => [U8(0)]
    case Started => [U8(1)]
    case Complete(winner) => [U8(2)] + Present(winner, NumberWords)
  }

  function SnakeWords(s: SnakeView): (words: seq<Word>) {
    [Bit(s.alive), Heading(s.direction), U32(s.food), U16(s.speed), U32(s.credit), U32(s.charge),
     Bit(s.active), Bit(s.intent), U32(s.chain), U32(s.remaining)] +
    (Present(s.team, ByteWords) + Counting(s.body, CellWords))
  }

  function PadWords(p: Pad): (words: seq<Word>) {
    [U8(p.id), I16(p.position.x), I16(p.position.y), U32(p.charge), U8(p.size)] + Present(p.respawnAt, NumberWords)
  }

  function BoostWords(b: Boost): (words: seq<Word>) {
    [U16(b.speed), U32(b.capacity), U32(b.packet), U32(b.respawn), U16(b.layout), U16(b.rules), Bit(b.unlimited)]
  }

  function QueuedWords(q: Queued): (words: seq<Word>) {
    [U32(q.tick), U32(q.user), U32(q.sequence)] + ActionWords(q.action)
  }

  function ActionWords(a: Action): (words: seq<Word>) {
    match a
    case TurnTo(snake, d) => [U8(0), U32(snake), Heading(d)]
    case StartBoost(snake) => [U8(1), U32(snake)]
    case StopBoost(snake) => [U8(2), U32(snake)]
    case Presence(snake) => [U8(3), U32(snake)]
  }

  function MapWords(es: seq<Entry>): (words: seq<Word>) { Counting(Sort(es, EntryKey), EntryWords) }
  function TeamWords(es: seq<TeamEntry>): (words: seq<Word>) { Counting(Sort(es, TeamKey), TeamEntryWords) }

  function HeaderWords(h: Header): (words: seq<Word>) {
    Joined([[U32(h.tick)], StatusWords(h.status), [U16(h.width), U16(h.height)], Present(h.zone, ZoneWords)])
  }

  function FieldWords(f: Field): (words: seq<Word>) {
    Joined([Counting(f.snakes, SnakeWords), Counting(Sort(f.pads, PadKey), PadWords),
            Counting(Sort(f.food, CellKey), CellWords)])
  }

  function TableWords(t: Tables): (words: seq<Word>) {
    Joined([MapWords(t.players), MapWords(t.scores), MapWords(t.pickups), Present(t.teamScores, TeamWords), MapWords(t.xp),
            MapWords(t.actions), MapWords(t.activity), Counting(t.idleKicked, NumberWords), [Bit(t.byInactivity)]])
  }

  function SettingWords(s: Settings): (words: seq<Word>) {
    Joined([[U64(s.foodTarget), U32(s.tickMs)], Present(s.timeLimit, NumberWords), Present(s.scoreLimit, NumberWords),
            Present(s.boost, BoostWords),
            [U32(s.comboWindow), U32(s.comboMaxValue), U16(s.comboRules), U32(s.idleTimeout), U32(s.idleWarning)]])
  }

  /** Everything the fingerprint hashes, in order. */
  function GameWords(g: GameView): (words: seq<Word>) {
    Joined([HeaderWords(g.header), FieldWords(g.field), TableWords(g.tables), SettingWords(g.settings),
            Counting(Sort(g.commands, QueuedKey), QueuedWords)])
  }

  // -------------------------------------------------------------------- generic parts

  lemma {:induction false} BytesConcat(a: seq<Word>, b: seq<Word>)
    ensures Bytes(a + b) == Bytes(a) + Bytes(b)
    decreases |a|
  {
    if a == [] {
      assert a + b == b;
    } else {
      assert (a + b)[0] == a[0] && (a + b)[1..] == a[1..] + b;
      BytesConcat(a[1..], b);
      Regroup(LittleEndian(a[0].width, a[0].number), Bytes(a[1..]), Bytes(b));
    }
  }

  lemma OneWord(w: Word)
    ensures Bytes([w]) == LittleEndian(w.width, w.number)
  {
    assert [w][1..] == [];
    assert LittleEndian(w.width, w.number) + [] == LittleEndian(w.width, w.number);
  }

  ghost predicate Zipped(ws: seq<nat>, ns: seq<nat>, words: seq<Word>) {
    |ws| == |ns| == |words| && forall i :: 0 <= i < |ws| ==> words[i] == Word(ws[i], ns[i])
  }

  lemma {:induction false} BlockLaidOut(ws: seq<nat>, ns: seq<nat>, words: seq<Word>)
    requires Zipped(ws, ns, words)
    ensures BlockBytes(ws, ns) == Bytes(words)
    decreases |ws|
  {
    if ws != [] { BlockLaidOut(ws[1..], ns[1..], words[1..]); }
  }

  /** The value `v` of shape `sh` is laid out as `words`. */
  ghost predicate LaidOut(sh: Shape, v: Value, words: seq<Word>) {
    Fits(sh, v) && Encode(sh, v) == Bytes(words)
  }

  lemma PairLaidOut(s: Shape, t: Shape, a: Value, b: Value, first: seq<Word>, second: seq<Word>)
    requires LaidOut(s, a, first) && LaidOut(t, b, second)
    ensures LaidOut(Pair(s, t), Both(a, b), first + second)
  {
    BytesConcat(first, second);
  }

  lemma CaseLaidOut(cases: seq<Shape>, tag: nat, v: Value, words: seq<Word>)
    requires tag < |cases| <= 256 && LaidOut(cases[tag], v, words)
    ensures LaidOut(Choice(cases), Case(tag, v), [U8(tag)] + words)
  {
    BytesConcat([U8(tag)], words);
    OneWord(U8(tag));
  }

  lemma NothingLaidOut()
    ensures LaidOut(NOTHING, Nums([]), [])
  {
  }

  lemma OptionLaidOut<T>(sh: Shape, o: Option<T>, value: T -> Value, words: T -> seq<Word>)
    requires o.Some? ==> LaidOut(sh, value(o.value), words(o.value))
    ensures LaidOut(Maybe(sh), Optional(o, value), Present(o, words))
  {
    match o
    case None =>
      NothingLaidOut();
      CaseLaidOut([NOTHING, sh], 0, Nums([]), []);
      assert [U8(0)] + [] == [U8(0)];
    case Some(x) =>
      CaseLaidOut([NOTHING, sh], 1, value(x), words(x));
  }

  lemma {:induction false} ItemsLaidOut<T>(sh: Shape, xs: seq<T>, vs: seq<Value>, value: T -> Value, words: T -> seq<Word>)
    requires |vs| == |xs| && forall i :: 0 <= i < |xs| ==> vs[i] == value(xs[i])
    requires forall i :: 0 <= i < |xs| ==> LaidOut(sh, value(xs[i]), words(xs[i]))
    ensures (forall i :: 0 <= i < |vs| ==> Fits(sh, vs[i])) && EncodeAll(sh, vs) == Bytes(Flat(xs, words))
    decreases |xs|
  {
    if xs != [] {
      ItemsLaidOut(sh, xs[1..], vs[1..], value, words);
      assert LaidOut(sh, value(xs[0]), words(xs[0]));
      BytesConcat(words(xs[0]), Flat(xs[1..], words));
    }
  }

  lemma ListLaidOut<T>(sh: Shape, xs: seq<T>, value: T -> Value, words: T -> seq<Word>)
    requires forall i :: 0 <= i < |xs| ==> LaidOut(sh, value(xs[i]), words(xs[i]))
    ensures LaidOut(Many(sh), List(Mapped(xs, value)), Counting(xs, words))
  {
    ItemsLaidOut(sh, xs, Mapped(xs, value), value, words);
    BytesConcat([U32(|xs|)], Flat(xs, words));
    OneWord(U32(|xs|));
  }

  lemma {:induction false} RowLaidOut(shapes: seq<Shape>, vs: seq<Value>, parts: seq<seq<Word>>)
    requires |shapes| == |vs| == |parts| && forall i :: 0 <= i < |vs| ==> LaidOut(shapes[i], vs[i], parts[i])
    ensures LaidOut(Row(shapes), RowValue(vs), Joined(parts))
    decreases |vs|
  {
    if vs != [] {
      RowLaidOut(shapes[1..], vs[1..], parts[1..]);
      PairLaidOut(shapes[0], Row(shapes[1..]), vs[0], RowValue(vs[1..]), parts[0], Joined(parts[1..]));
    }
  }

  // ------------------------------------------------------------------------- records

  lemma NumbersLaidOut(ws: seq<nat>, ns: seq<nat>, words: seq<Word>)
    requires Fits(Block(ws), Nums(ns)) && Zipped(ws, ns, words)
    ensures LaidOut(Block(ws), Nums(ns), words)
  {
    BlockLaidOut(ws, ns, words);
  }

  lemma SmallLaidOut()
    ensures forall n: u32 :: LaidOut(WORD32, WordValue(n), NumberWords(n))
    ensures forall n: byte :: LaidOut(Block([1]), TeamValue(n), ByteWords(n))
    ensures forall c: Cell :: LaidOut(CELL, CellValue(c), CellWords(c))
    ensures forall e: Entry :: LaidOut(ENTRY, EntryValue(e), EntryWords(e))
    ensures forall e: TeamEntry :: LaidOut(TEAM_ENTRY, TeamEntryValue(e), TeamEntryWords(e))
    ensures forall z: Zone :: LaidOut(Block([2, 2]), ZoneValue(z), ZoneWords(z))
  {
    SmallValuesFit();
    forall n: u32 ensures LaidOut(WORD32, WordValue(n), NumberWords(n)) { NumbersLaidOut([4], [n], NumberWords(n)); }
    forall n: byte ensures LaidOut(Block([1]), TeamValue(n), ByteWords(n)) { NumbersLaidOut([1], [n], ByteWords(n)); }
    forall c: Cell ensures LaidOut(CELL, CellValue(c), CellWords(c)) {
      NumbersLaidOut([2, 2], [Unsigned(c.x), Unsigned(c.y)], CellWords(c));
    }
    forall e: Entry ensures LaidOut(ENTRY, EntryValue(e), EntryWords(e)) {
      NumbersLaidOut([4, 4], [e.key, e.value], EntryWords(e));
    }
    forall e: TeamEntry ensures LaidOut(TEAM_ENTRY, TeamEntryValue(e), TeamEntryWords(e)) {
      NumbersLaidOut([1, 4], [e.team, e.score], TeamEntryWords(e));
    }
    forall z: Zone ensures LaidOut(Block([2, 2]), ZoneValue(z), ZoneWords(z)) {
      NumbersLaidOut([2, 2], [z.endZoneDepth, z.goalWidth], ZoneWords(z));
    }
  }

  lemma StatusLaidOut(s: Status)
    ensures LaidOut(STATUS, StatusValue(s), StatusWords(s))
  {
    NothingLaidOut();
    match s
    case Stopped =>
      CaseLaidOut([NOTHING, NOTHING, Maybe(WORD32)], 0, Nums([]), []);
      assert [U8(0)] + [] == [U8(0)];
    case Started =>
      CaseLaidOut([NOTHING, NOTHING, Maybe(WORD32)], 1, Nums([]), []);
      assert [U8(1)] + [] == [U8(1)];
    case Complete(winner) =>
      OptionalWordLaidOut(winner);
      CaseLaidOut([NOTHING, NOTHING, Maybe(WORD32)], 2, Optional(winner, WordValue), Present(winner, NumberWords));
  }

  lemma CellsLaidOut(cells: seq<Cell>)
    ensures LaidOut(Many(CELL), List(Mapped(cells, CellValue)), Counting(cells, CellWords))
  {
    SmallLaidOut();
    ListLaidOut(CELL, cells, CellValue, CellWords);
  }

  lemma BodyLaidOut(s: SnakeView)
    ensures LaidOut(Pair(Maybe(Block([1])), Many(CELL)), Both(Optional(s.team, TeamValue), List(Mapped(s.body, CellValue))),
                    Present(s.team, ByteWords) + Counting(s.body, CellWords))
  {
    SmallLaidOut();
    OptionLaidOut(Block([1]), s.team, TeamValue, ByteWords);
    CellsLaidOut(s.body);
    PairLaidOut(Maybe(Block([1])), Many(CELL), Optional(s.team, TeamValue), List(Mapped(s.body, CellValue)),
                Present(s.team, ByteWords), Counting(s.body, CellWords));
  }

  lemma SnakeLaidOut(s: SnakeView)
    ensures LaidOut(SNAKE, SnakeValue(s), SnakeWords(s))
  {
    SnakeNumbersFit(s);
    var numbers := [Bit(s.alive), Heading(s.direction), U32(s.food), U16(s.speed), U32(s.credit), U32(s.charge),
                    Bit(s.active), Bit(s.intent), U32(s.chain), U32(s.remaining)];
    NumbersLaidOut([1, 1, 4, 2, 4, 4, 1, 1, 4, 4], SnakeNumbers(s), numbers);
    BodyLaidOut(s);
    PairLaidOut(Block([1, 1, 4, 2, 4, 4, 1, 1, 4, 4]), Pair(Maybe(Block([1])), Many(CELL)), Nums(SnakeNumbers(s)),
                Both(Optional(s.team, TeamValue), List(Mapped(s.body, CellValue))), numbers,
                Present(s.team, ByteWords) + Counting(s.body, CellWords));
  }

  lemma PadLaidOut(p: Pad)
    ensures LaidOut(PAD, PadValue(p), PadWords(p))
  {
    PadFits(p);
    var numbers := [U8(p.id), I16(p.position.x), I16(p.position.y), U32(p.charge), U8(p.size)];
    NumbersLaidOut([1, 2, 2, 4, 1], [p.id, Unsigned(p.position.x), Unsigned(p.position.y), p.charge, p.size], numbers);
    OptionalWordLaidOut(p.respawnAt);
    PairLaidOut(Block([1, 2, 2, 4, 1]), Maybe(WORD32), PadValue(p).a, PadValue(p).b, numbers, Present(p.respawnAt, NumberWords));
  }

  lemma BoostLaidOut(b: Boost)
    ensures LaidOut(BOOST, BoostValue(b), BoostWords(b))
  {
    BoostFits(b);
    NumbersLaidOut([2, 4, 4, 4, 2, 2, 1], BoostValue(b).numbers, BoostWords(b));
  }

  lemma QueuedLaidOut(q: Queued)
    ensures LaidOut(QUEUED, QueuedValue(q), QueuedWords(q))
  {
    QueuedFits(q);
    NumbersLaidOut([4, 4, 4], [q.tick, q.user, q.sequence], [U32(q.tick), U32(q.user), U32(q.sequence)]);
    var action := ActionWords(q.action);
    ActionLaidOut(q.action);
    PairLaidOut(Block([4, 4, 4]), ACTION, Nums([q.tick, q.user, q.sequence]), ActionValue(q.action),
                [U32(q.tick), U32(q.user), U32(q.sequence)], action);
  }

  lemma ActionLaidOut(a: Action)
    ensures LaidOut(ACTION, ActionValue(a), ActionWords(a))
  {
    var cases := [Block([4, 1]), WORD32, WORD32, WORD32];
    RangeValues();
    SmallLaidOut();
    match a
    case TurnTo(s, d) =>
      NumbersLaidOut([4, 1], [s, DirectionTag(d)], [U32(s), Heading(d)]);
      CaseLaidOut(cases, 0, Nums([s, DirectionTag(d)]), [U32(s), Heading(d)]);
    case StartBoost(s) => CaseLaidOut(cases, 1, WordValue(s), NumberWords(s));
    case StopBoost(s) => CaseLaidOut(cases, 2, WordValue(s), NumberWords(s));
    case Presence(s) => CaseLaidOut(cases, 3, WordValue(s), NumberWords(s));
  }

  // --------------------------------------------------------------------- the whole

  lemma HeaderLaidOut(h: Header)
    ensures LaidOut(Row(HEADER_PARTS), RowValue(HeaderValues(h)), HeaderWords(h))
  {
    RangeValues();
    SmallLaidOut();
    StatusLaidOut(h.status);
    NumbersLaidOut([4], [h.tick], [U32(h.tick)]);
    NumbersLaidOut([2, 2], [h.width, h.height], [U16(h.width), U16(h.height)]);
    OptionLaidOut(Block([2, 2]), h.zone, ZoneValue, ZoneWords);
    RowLaidOut(HEADER_PARTS, HeaderValues(h),
               [[U32(h.tick)], StatusWords(h.status), [U16(h.width), U16(h.height)], Present(h.zone, ZoneWords)]);
  }

  lemma FieldLaidOut(f: Field)
    ensures LaidOut(Row(FIELD_PARTS), RowValue(FieldValues(f)), FieldWords(f))
  {
    forall i | 0 <= i < |f.snakes| ensures LaidOut(SNAKE, SnakeValue(f.snakes[i]), SnakeWords(f.snakes[i])) {
      SnakeLaidOut(f.snakes[i]);
    }
    ListLaidOut(SNAKE, f.snakes, SnakeValue, SnakeWords);
    var pads := Sort(f.pads, PadKey);
    forall i | 0 <= i < |pads| ensures LaidOut(PAD, PadValue(pads[i]), PadWords(pads[i])) { PadLaidOut(pads[i]); }
    ListLaidOut(PAD, pads, PadValue, PadWords);
    CellsLaidOut(Sort(f.food, CellKey));
    RowLaidOut(FIELD_PARTS, FieldValues(f),
               [Counting(f.snakes, SnakeWords), Counting(pads, PadWords), Counting(Sort(f.food, CellKey), CellWords)]);
  }

  lemma MapLaidOut(es: seq<Entry>)
    ensures LaidOut(Many(ENTRY), EntriesValue(es), MapWords(es))
  {
    SmallLaidOut();
    ListLaidOut(ENTRY, Sort(es, EntryKey), EntryValue, EntryWords);
  }

  lemma TeamsLaidOut(o: Option<seq<TeamEntry>>)
    ensures LaidOut(Maybe(Many(TEAM_ENTRY)), Optional(o, TeamScoresValue), Present(o, TeamWords))
  {
    SmallLaidOut();
    if o.Some? { ListLaidOut(TEAM_ENTRY, Sort(o.value, TeamKey), TeamEntryValue, TeamEntryWords); }
    OptionLaidOut(Many(TEAM_ENTRY), o, TeamScoresValue, TeamWords);
  }

  lemma IdleLaidOut(t: Tables)
    ensures LaidOut(Many(WORD32), List(Mapped(t.idleKicked, WordValue)), Counting(t.idleKicked, NumberWords))
    ensures LaidOut(Block([1]), Nums([Flag(t.byInactivity)]), [Bit(t.byInactivity)])
  {
    RangeValues();
    SmallLaidOut();
    ListLaidOut(WORD32, t.idleKicked, WordValue, NumberWords);
    NumbersLaidOut([1], [Flag(t.byInactivity)], [Bit(t.byInactivity)]);
  }

  lemma TablesLaidOut(t: Tables)
    ensures LaidOut(Row(TABLE_PARTS), RowValue(TablesValues(t)), TableWords(t))
  {
    MapLaidOut(t.players);
    MapLaidOut(t.scores);
    MapLaidOut(t.pickups);
    TeamsLaidOut(t.teamScores);
    MapLaidOut(t.xp);
    MapLaidOut(t.actions);
    MapLaidOut(t.activity);
    IdleLaidOut(t);
    var parts := [MapWords(t.players), MapWords(t.scores), MapWords(t.pickups), Present(t.teamScores, TeamWords), MapWords(t.xp),
                  MapWords(t.actions), MapWords(t.activity), Counting(t.idleKicked, NumberWords), [Bit(t.byInactivity)]];
    RowLaidOut(TABLE_PARTS, TablesValues(t), parts);
  }

  lemma BoostOptionLaidOut(o: Option<Boost>)
    ensures LaidOut(Maybe(BOOST), Optional(o, BoostValue), Present(o, BoostWords))
  {
    if o.Some? { BoostLaidOut(o.value); }
    OptionLaidOut(BOOST, o, BoostValue, BoostWords);
  }

  lemma OptionalWordLaidOut(o: Option<u32>)
    ensures LaidOut(Maybe(WORD32), Optional(o, WordValue), Present(o, NumberWords))
  {
    SmallLaidOut();
    OptionLaidOut(WORD32, o, WordValue, NumberWords);
  }

  lemma SettingNumbersLaidOut(s: Settings)
    ensures LaidOut(Block([8, 4]), Nums([s.foodTarget, s.tickMs]), [U64(s.foodTarget), U32(s.tickMs)])
    ensures LaidOut(Block([4, 4, 2, 4, 4]), Nums([s.comboWindow, s.comboMaxValue, s.comboRules, s.idleTimeout, s.idleWarning]),
                    [U32(s.comboWindow), U32(s.comboMaxValue), U16(s.comboRules), U32(s.idleTimeout), U32(s.idleWarning)])
  {
    RangeValues();
    NumbersLaidOut([8, 4], [s.foodTarget, s.tickMs], [U64(s.foodTarget), U32(s.tickMs)]);
    NumbersLaidOut([4, 4, 2, 4, 4], [s.comboWindow, s.comboMaxValue, s.comboRules, s.idleTimeout, s.idleWarning],
                   [U32(s.comboWindow), U32(s.comboMaxValue), U16(s.comboRules), U32(s.idleTimeout), U32(s.idleWarning)]);
  }

  lemma SettingsLaidOut(s: Settings)
    ensures LaidOut(Row(SETTING_PARTS), RowValue(SettingsValues(s)), SettingWords(s))
  {
    SettingNumbersLaidOut(s);
    OptionalWordLaidOut(s.timeLimit);
    OptionalWordLaidOut(s.scoreLimit);
    BoostOptionLaidOut(s.boost);
    RowLaidOut(SETTING_PARTS, SettingsValues(s),
               [[U64(s.foodTarget), U32(s.tickMs)], Present(s.timeLimit, NumberWords), Present(s.scoreLimit, NumberWords),
                Present(s.boost, BoostWords),
                [U32(s.comboWindow), U32(s.comboMaxValue), U16(s.comboRules), U32(s.idleTimeout), U32(s.idleWarning)]]);
  }

  lemma CommandsLaidOut(qs: seq<Queued>)
    ensures LaidOut(Many(QUEUED), CommandsValue(qs), Counting(Sort(qs, QueuedKey), QueuedWords))
  {
    var sorted := Sort(qs, QueuedKey);
    forall i | 0 <= i < |sorted| ensures LaidOut(QUEUED, QueuedValue(sorted[i]), QueuedWords(sorted[i])) {
      QueuedLaidOut(sorted[i]);
    }
    ListLaidOut(QUEUED, sorted, QueuedValue, QueuedWords);
  }

  /** The hashed stream is the flat layout, number by number. */
  lemma StreamIsLaidOut(g: GameView)
    ensures Stream(g) == Bytes(GameWords(g))
  {
    HeaderLaidOut(g.header);
    FieldLaidOut(g.field);
    TablesLaidOut(g.tables);
    SettingsLaidOut(g.settings);
    CommandsLaidOut(g.commands);
    RowLaidOut(GAME_PARTS, GameValues(g),
               [HeaderWords(g.header), FieldWords(g.field), TableWords(g.tables), SettingWords(g.settings),
                Counting(Sort(g.commands, QueuedKey), QueuedWords)]);
  }

  /** And the collections in it are ordered as tuples are. */
  lemma KeysAreLexicographic()
    ensures forall a: Cell, b: Cell :: CellKey(a) <= CellKey(b) <==> a.x < b.x || (a.x == b.x && a.y <= b.y)
    ensures forall a: Entry, b: Entry :: EntryKey(a) <= EntryKey(b) <==> a.key < b.key || (a.key == b.key && a.value <= b.value)
    ensures forall a: TeamEntry, b: TeamEntry :: TeamKey(a) <= TeamKey(b) <==>
              a.team < b.team || (a.team == b.team && a.score <= b.score)
    ensures forall a: Pad, b: Pad :: PadKey(a) <= PadKey(b) <==> a.id <= b.id
    ensures forall a: Queued, b: Queued :: QueuedKey(a) <= QueuedKey(b) <==>
              || a.tick < b.tick
              || (a.tick == b.tick && a.user < b.user)
              || (a.tick == b.tick && a.user == b.user && a.sequence <= b.sequence)
  {
  }
}
