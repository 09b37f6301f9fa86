/** The sync-critical view of a game state and the byte stream its fingerprint hashes. */
module SyncView {
  import opened Simulation
  import opened SnakeBody
  import opened SyncEncoding
  import opened Sorting

  datatype Cell = Cell(x: i16, y: i16)

  datatype Status = Stopped | Started | Complete(winner: Option<u32>)

  datatype Zone = Zone(endZoneDepth: u16, goalWidth: u16)

  datatype SnakeView = SnakeView(
    alive: bool, direction: Direction, food: u32, speed: u16, credit: u32, charge: u32, active: bool, intent: bool,
    chain: u32, remaining: u32, team: Option<byte>, body: seq<Cell>)

  datatype Pad = Pad(id: byte, position: Cell, charge: u32, size: byte, respawnAt: Option<u32>)

  datatype Entry = Entry(key: u32, value: u32)

  datatype TeamEntry = TeamEntry(team: byte, score: u32)

  datatype Boost = Boost(speed: u16, capacity: u32, packet: u32, respawn: u32, layout: u16, rules: u16, unlimited: bool)

  datatype Action =
    | TurnTo(snake: u32, direction: Direction)
    | StartBoost(snake: u32)
    | StopBoost(snake: u32)
    | Presence(snake: u32)

  datatype Queued = Queued(tick: u32, user: u32, sequence: u32, action: Action)

  datatype Header = Header(tick: u32, status: Status, width: u16, height: u16, zone: Option<Zone>)

  /** Pads and food are collections; their order carries no meaning. */
  datatype Field = Field(snakes: seq<SnakeView>, pads: seq<Pad>, food: seq<Cell>)

  /** Hash maps are given by their entries in iteration order. */
  datatype Tables = Tables(
    players: seq<Entry>, scores: seq<Entry>, pickups: seq<Entry>, teamScores: Option<seq<TeamEntry>>,
    xp: seq<Entry>, actions: seq<Entry>, activity: seq<Entry>, idleKicked: seq<u32>, byInactivity: bool)

  datatype Settings = Settings(
    foodTarget: u64, tickMs: u32, timeLimit: Option<u32>, scoreLimit: Option<u32>, boost: Option<Boost>,
    comboWindow: u32, comboMaxValue: u32, comboRules: u16, idleTimeout: u32, idleWarning: u32)

  datatype GameView = GameView(header: Header, field: Field, tables: Tables, settings: Settings, commands: seq<Queued>)

  // ------------------------------------------------------------------ primitives

  function DirectionTag(d: Direction): (t: byte) {
    match d case Up => 0 case Down => 1 case Left => 2 case Right => 3
  }

  function Flag(b: bool): (n: byte) { if b then 1 else 0 }

  /** Two's complement. */
  function Unsigned(x: i16): (n: u16) { if x < 0 then x + 0x1_0000 else x }

  // ------------------------------------------------------------- values and shapes

  const NOTHING: Shape := Block([])
  const CELL: Shape := Block([2, 2])
  const ENTRY: Shape := Block([4, 4])
  const TEAM_ENTRY: Shape := Block([1, 4])
  const WORD32: Shape := Block([4])

  function Maybe(sh: Shape): (s: Shape) { Choice([NOTHING, sh]) }

  const STATUS: Shape := Choice([NOTHING, NOTHING, Maybe(WORD32)])
  const SNAKE: Shape := Pair(Block([1, 1, 4, 2, 4, 4, 1, 1, 4, 4]), Pair(Maybe(Block([1])), Many(CELL)))
  const PAD: Shape := Pair(Block([1, 2, 2, 4, 1]), Maybe(WORD32))
  const ACTION: Shape := Choice([Block([4, 1]), WORD32, WORD32, WORD32])
  const QUEUED: Shape := Pair(Block([4, 4, 4]), ACTION)
  const BOOST: Shape := Block([2, 4, 4, 4, 2, 2, 1])
  const HEADER_PARTS: seq<Shape> := [WORD32, STATUS, Block([2, 2]), Maybe(Block([2, 2]))]
  const FIELD_PARTS: seq<Shape> := [Many(SNAKE), Many(PAD), Many(CELL)]
  const TABLE_PARTS: seq<Shape> :=
    [Many(ENTRY), Many(ENTRY), Many(ENTRY), Maybe(Many(TEAM_ENTRY)), Many(ENTRY), Many(ENTRY), Many(ENTRY),
        Many(WORD32), Block([1])]
  const SETTING_PARTS: seq<Shape> := [Block([8, 4]), Maybe(WORD32), Maybe(WORD32), Maybe(BOOST), Block([4, 4, 2, 4, 4])]
  const GAME_PARTS: seq<Shape> := [Row(HEADER_PARTS), Row(FIELD_PARTS), Row(TABLE_PARTS), Row(SETTING_PARTS), Many(QUEUED)]

  function Mapped<T>(xs: seq<T>, f: T -> Value): (vs: seq<Value>)
    ensures |vs| == |xs| && forall i :: 0 <= i < |xs| ==> vs[i] == f(xs[i])
  {
    seq(|xs|, i requires 0 <= i < |xs| => f(xs[i]))
  }

  function Optional<T>(o: Option<T>, f: T -> Value): (v: Value) {
    match o case None => Case(0, Nums([])) case Some(x) => Case(1, f(x))
  }

  function WordValue(n: u32): (v: Value) { Nums([n]) }
  function TeamValue(n: byte): (v: Value) { Nums([n]) }
  function CellValue(c: Cell): (v: Value) { Nums([Unsigned(c.x), Unsigned(c.y)]) }
  function EntryValue(e: Entry): (v: Value) { Nums([e.key, e.value]) }
  function TeamEntryValue(e: TeamEntry): (v: Value) { Nums([e.team, e.score]) }
  function ZoneValue(z: Zone): (v: Value) { Nums([z.endZoneDepth, z.goalWidth]) }

  function StatusValue(s: Status): (v: Value) {
    match s
    case Stopped => Case(0, Nums([]))
    case Started => Case(1, Nums([]))
    case Complete(w) => Case(2, Optional(w, WordValue))
  }

  function SnakeNumbers(s: SnakeView): (ns: seq<nat>) {
    [Flag(s.alive), DirectionTag(s.direction), s.food, s.speed, s.credit, s.charge, Flag(s.active), Flag(s.intent),
        s.chain, s.remaining]
  }

  function SnakeValue(s: SnakeView): (v: Value) {
    Both(Nums(SnakeNumbers(s)), Both(Optional(s.team, TeamValue), List(Mapped(s.body, CellValue))))
  }

  function PadValue(p: Pad): (v: Value) {
    Both(Nums([p.id, Unsigned(p.position.x), Unsigned(p.position.y), p.charge, p.size]), Optional(p.respawnAt, WordValue))
  }

  function ActionValue(a: Action): (v: Value) {
    match a
    case TurnTo(s, d) => Case(0, Nums([s, DirectionTag(d)]))
    case StartBoost(s) => Case(1, Nums([s]))
    case StopBoost(s) => Case(2, Nums([s]))
    case Presence(s) => Case(3, Nums([s]))
  }

  function QueuedValue(q: Queued): (v: Value) { Both(Nums([q.tick, q.user, q.sequence]), ActionValue(q.action)) }

  function BoostValue(b: Boost): (v: Value) {
    Nums([b.speed, b.capacity, b.packet, b.respawn, b.layout, b.rules, Flag(b.unlimited)])
  }

  function HeaderValues(h: Header): (vs: seq<Value>) {
    [Nums([h.tick]), StatusValue(h.status), Nums([h.width, h.height]), Optional(h.zone, ZoneValue)]
  }

  // ------------------------------------------------------------- canonical order

  /** Tuples of fixed width, ordered as one number. */
  function CellKey(c: Cell): (k: int) { c.x * 0x1_0000 + (c.y + 0x8000) }
  function EntryKey(e: Entry): (k: int) { e.key * 0x1_0000_0000 + e.value }
  function TeamKey(e: TeamEntry): (k: int) { e.team * 0x1_0000_0000 + e.score }
  function PadKey(p: Pad): (k: int) { p.id }
  function QueuedKey(q: Queued): (k: int) { (q.tick * 0x1_0000_0000 + q.user) * 0x1_0000_0000 + q.sequence }

  function FieldValues(f: Field): (vs: seq<Value>) {
    [List(Mapped(f.snakes, SnakeValue)), PadsValue(f.pads), FoodValue(f.food)]
  }

  function PadsValue(ps: seq<Pad>): (v: Value) { List(Mapped(Sort(ps, PadKey), PadValue)) }

  function FoodValue(cs: seq<Cell>): (v: Value) { List(Mapped(Sort(cs, CellKey), CellValue)) }

  function EntriesValue(es: seq<Entry>): (v: Value) { List(Mapped(Sort(es, EntryKey), EntryValue)) }

  function TeamScoresValue(es: seq<TeamEntry>): (v: Value) { List(Mapped(Sort(es, TeamKey), TeamEntryValue)) }

  function TablesValues(t: Tables): (vs: seq<Value>) {
    [EntriesValue(t.players), EntriesValue(t.scores), EntriesValue(t.pickups), Optional(t.teamScores, TeamScoresValue),
     EntriesValue(t.xp), EntriesValue(t.actions), EntriesValue(t.activity), List(Mapped(t.idleKicked, WordValue)),
         Nums([Flag(t.byInactivity)])]
  }

  function SettingsValues(s: Settings): (vs: seq<Value>) {
    [Nums([s.foodTarget, s.tickMs]), Optional(s.timeLimit, WordValue), Optional(s.scoreLimit, WordValue),
        Optional(s.boost, BoostValue),
     Nums([s.comboWindow, s.comboMaxValue, s.comboRules, s.idleTimeout, s.idleWarning])]
  }

  function CommandsValue(qs: seq<Queued>): (v: Value) { List(Mapped(Sort(qs, QueuedKey), QueuedValue)) }

  function GameValues(g: GameView): (vs: seq<Value>) {
    [RowValue(HeaderValues(g.header)), RowValue(FieldValues(g.field)), RowValue(TablesValues(g.tables)),
        RowValue(SettingsValues(g.settings)), CommandsValue(g.commands)]
  }

  // ---------------------------------------------------------------- values fit shapes

  lemma ListFits<T(!new)>(sh: Shape, xs: seq<T>, f: T -> Value)
    requires forall i :: 0 <= i < |xs| ==> Fits(sh, f(xs[i]))
    ensures Fits(Many(sh), List(Mapped(xs, f)))
  {
    RangeValues();
  }

  lemma SmallValuesFit()
    ensures forall n: u32 :: Fits(WORD32, WordValue(n))
    ensures forall n: byte :: Fits(Block([1]), TeamValue(n))
    ensures forall c: Cell :: Fits(CELL, CellValue(c))
    ensures forall e: Entry :: Fits(ENTRY, EntryValue(e))
    ensures forall e: TeamEntry :: Fits(TEAM_ENTRY, TeamEntryValue(e))
    ensures forall z: Zone :: Fits(Block([2, 2]), ZoneValue(z))
    ensures Fits(NOTHING, Nums([]))
  {
    RangeValues();
  }

  lemma StatusFits(s: Status)
    ensures Fits(STATUS, StatusValue(s))
  {
    SmallValuesFit();
  }

  lemma SnakeNumbersFit(s: SnakeView)
    ensures Fits(Block([1, 1, 4, 2, 4, 4, 1, 1, 4, 4]), Nums(SnakeNumbers(s)))
  {
    RangeValues();
  }

  lemma SnakeFits(s: SnakeView)
    ensures Fits(SNAKE, SnakeValue(s))
  {
    SnakeNumbersFit(s);
    SmallValuesFit();
    ListFits(CELL, s.body, CellValue);
  }

  lemma PadFits(p: Pad)
    ensures Fits(PAD, PadValue(p))
  {
    RangeValues();
    SmallValuesFit();
  }

  lemma QueuedFits(q: Queued)
    ensures Fits(QUEUED, QueuedValue(q))
  {
    RangeValues();
  }

  lemma HeaderFits(h: Header)
    ensures RowOk(HEADER_PARTS, HeaderValues(h))
  {
    RangeValues();
    SmallValuesFit();
    StatusFits(h.status);
  }

  lemma FieldFits(f: Field)
    ensures RowOk(FIELD_PARTS, FieldValues(f))
  {
    forall i | 0 <= i < |f.snakes| ensures Fits(SNAKE, SnakeValue(f.snakes[i])) { SnakeFits(f.snakes[i]); }
    ListFits(SNAKE, f.snakes, SnakeValue);
    var pads, food := Sort(f.pads, PadKey), Sort(f.food, CellKey);
    forall i | 0 <= i < |pads| ensures Fits(PAD, PadValue(pads[i])) { PadFits(pads[i]); }
    ListFits(PAD, pads, PadValue);
    SmallValuesFit();
    ListFits(CELL, food, CellValue);
  }

  lemma EntriesFit(es: seq<Entry>)
    ensures Fits(Many(ENTRY), EntriesValue(es))
  {
    SmallValuesFit();
    ListFits(ENTRY, Sort(es, EntryKey), EntryValue);
  }

  lemma TeamScoresFit(o: Option<seq<TeamEntry>>)
    ensures Fits(Maybe(Many(TEAM_ENTRY)), Optional(o, TeamScoresValue))
  {
    SmallValuesFit();
    if o.Some? {
      ListFits(TEAM_ENTRY, Sort(o.value, TeamKey), TeamEntryValue);
    }
  }

  lemma TablesFit(t: Tables)
    ensures RowOk(TABLE_PARTS, TablesValues(t))
  {
    EntriesFit(t.players);
    EntriesFit(t.scores);
    EntriesFit(t.pickups);
    TeamScoresFit(t.teamScores);
    EntriesFit(t.xp);
    EntriesFit(t.actions);
    EntriesFit(t.activity);
    SmallValuesFit();
    ListFits(WORD32, t.idleKicked, WordValue);
    assert Fits(Block([1]), Nums([Flag(t.byInactivity)])) by { RangeValues(); }
  }

  lemma BoostFits(b: Boost)
    ensures Fits(BOOST, BoostValue(b))
  {
    RangeValues();
  }

  lemma SettingsFit(s: Settings)
    ensures RowOk(SETTING_PARTS, SettingsValues(s))
  {
    RangeValues();
    SmallValuesFit();
    if s.boost.Some? { BoostFits(s.boost.value); }
  }

  lemma CommandsFit(qs: seq<Queued>)
    ensures Fits(Many(QUEUED), CommandsValue(qs))
  {
    var sorted := Sort(qs, QueuedKey);
    forall i | 0 <= i < |sorted| ensures Fits(QUEUED, QueuedValue(sorted[i])) { QueuedFits(sorted[i]); }
    ListFits(QUEUED, sorted, QueuedValue);
  }

  lemma GameFits(g: GameView)
    ensures RowOk(GAME_PARTS, GameValues(g)) && Fits(Row(GAME_PARTS), RowValue(GameValues(g)))
  {
    HeaderFits(g.header);
    RowFits(HEADER_PARTS, HeaderValues(g.header));
    FieldFits(g.field);
    RowFits(FIELD_PARTS, FieldValues(g.field));
    TablesFit(g.tables);
    RowFits(TABLE_PARTS, TablesValues(g.tables));
    SettingsFit(g.settings);
    RowFits(SETTING_PARTS, SettingsValues(g.settings));
    CommandsFit(g.commands);
    RowFits(GAME_PARTS, GameValues(g));
  }

  /** The bytes the fingerprint is computed over. */
  ghost function Stream(g: GameView): (bytes: seq<byte>)
  {
    GameFits(g);
    Encode(Row(GAME_PARTS), RowValue(GameValues(g)))
  }

  // ------------------------------------------------------------ countable lists

  ghost predicate Short<T>(xs: seq<T>) { |xs| < 0x1_0000_0000 }

  /** Every list's length survives the cast to 32 bits. */
  ghost predicate SmallField(f: Field) {
    Short(f.snakes) && Short(f.pads) && Short(f.food) && forall i :: 0 <= i < |f.snakes| ==> Short(f.snakes[i].body)
  }

  ghost predicate SmallTables(t: Tables) {
    Short(t.players) && Short(t.scores) && Short(t.pickups) && (t.teamScores.Some? ==> Short(t.teamScores.value)) &&
    Short(t.xp) && Short(t.actions) && Short(t.activity) && Short(t.idleKicked)
  }

  ghost predicate Small(g: GameView) { SmallField(g.field) && SmallTables(g.tables) && Short(g.commands) }

  lemma SortedLength<T(!new)>(xs: seq<T>, key: T -> int)
    ensures |Sort(xs, key)| == |xs|
  {
    SortPermutes(xs, key);
    assert |multiset(Sort(xs, key))| == |Sort(xs, key)| && |multiset(xs)| == |xs|;
  }

  lemma ListCounted<T(!new)>(xs: seq<T>, f: T -> Value)
    requires Short(xs) && forall i :: 0 <= i < |xs| ==> Counted(f(xs[i]))
    ensures Counted(List(Mapped(xs, f)))
  {
    RangeValues();
  }

  lemma SortedCounted<T(!new)>(xs: seq<T>, key: T -> int, f: T -> Value)
    requires Short(xs) && forall x :: Counted(f(x))
    ensures Counted(List(Mapped(Sort(xs, key), f)))
  {
    SortedLength(xs, key);
    ListCounted(Sort(xs, key), f);
  }

  lemma OptionCounted<T(!new)>(o: Option<T>, f: T -> Value)
    requires o.Some? ==> Counted(f(o.value))
    ensures Counted(Optional(o, f))
  {
    match o case None => case Some(x) =>
  }

  lemma SnakeCounted(s: SnakeView)
    requires Short(s.body)
    ensures Counted(SnakeValue(s))
  {
    ListCounted(s.body, CellValue);
    var team, body := Optional(s.team, TeamValue), List(Mapped(s.body, CellValue));
    assert Counted(team) && Counted(Both(team, body));
  }

  lemma PadCounted(p: Pad)
    ensures Counted(PadValue(p))
  {
    assert Counted(Optional(p.respawnAt, WordValue));
  }

  lemma QueuedCounted(q: Queued)
    ensures Counted(QueuedValue(q))
  {
    assert Counted(ActionValue(q.action));
  }

  lemma HeaderCounted(h: Header)
    ensures Counted(RowValue(HeaderValues(h)))
  {
    if h.status.Complete? { assert Counted(Optional(h.status.winner, WordValue)); }
    assert Counted(StatusValue(h.status)) && Counted(Optional(h.zone, ZoneValue));
    RowCounted(HeaderValues(h));
  }

  lemma SettingsCounted(s: Settings)
    ensures Counted(RowValue(SettingsValues(s)))
  {
    OptionCounted(s.timeLimit, WordValue);
    OptionCounted(s.scoreLimit, WordValue);
    OptionCounted(s.boost, BoostValue);
    RowCounted(SettingsValues(s));
  }

  lemma CommandsCounted(qs: seq<Queued>)
    requires Short(qs)
    ensures Counted(CommandsValue(qs))
  {
    forall q: Queued ensures Counted(QueuedValue(q)) { QueuedCounted(q); }
    SortedCounted(qs, QueuedKey, QueuedValue);
  }

  lemma FieldCounted(f: Field)
    requires SmallField(f)
    ensures Counted(RowValue(FieldValues(f)))
  {
    forall i | 0 <= i < |f.snakes| ensures Counted(SnakeValue(f.snakes[i])) { SnakeCounted(f.snakes[i]); }
    ListCounted(f.snakes, SnakeValue);
    forall p: Pad ensures Counted(PadValue(p)) { PadCounted(p); }
    SortedCounted(f.pads, PadKey, PadValue);
    SortedCounted(f.food, CellKey, CellValue);
    RowCounted(FieldValues(f));
  }

  lemma TablesCounted(t: Tables)
    requires SmallTables(t)
    ensures Counted(RowValue(TablesValues(t)))
  {
    SortedCounted(t.players, EntryKey, EntryValue);
    SortedCounted(t.scores, EntryKey, EntryValue);
    SortedCounted(t.pickups, EntryKey, EntryValue);
    if t.teamScores.Some? { SortedCounted(t.teamScores.value, TeamKey, TeamEntryValue); }
    SortedCounted(t.xp, EntryKey, EntryValue);
    SortedCounted(t.actions, EntryKey, EntryValue);
    SortedCounted(t.activity, EntryKey, EntryValue);
    ListCounted(t.idleKicked, WordValue);
    RowCounted(TablesValues(t));
  }

  lemma GameCounted(g: GameView)
    requires Small(g)
    ensures Counted(RowValue(GameValues(g)))
  {
    HeaderCounted(g.header);
    FieldCounted(g.field);
    TablesCounted(g.tables);
    SettingsCounted(g.settings);
    CommandsCounted(g.commands);
    RowCounted(GameValues(g));
  }

  // ------------------------------------------------------ values determine the view

  lemma ListInjective<T(!new)>(xs: seq<T>, ys: seq<T>, f: T -> Value)
    requires Mapped(xs, f) == Mapped(ys, f)
    requires forall x, y :: f(x) == f(y) ==> x == y
    ensures xs == ys
  {
    var vs, ws := Mapped(xs, f), Mapped(ys, f);
    assert |vs| == |xs| && |ws| == |ys|;
    forall i | 0 <= i < |xs| ensures xs[i] == ys[i] { assert vs[i] == ws[i]; }
  }

  lemma CellInjective(a: Cell, b: Cell)
    requires CellValue(a) == CellValue(b)
    ensures a == b
  {
    assert CellValue(a).numbers[0] == CellValue(b).numbers[0] && CellValue(a).numbers[1] == CellValue(b).numbers[1];
  }

  lemma EntryInjective(a: Entry, b: Entry)
    requires EntryValue(a) == EntryValue(b)
    ensures a == b
  {
    assert EntryValue(a).numbers[0] == EntryValue(b).numbers[0] && EntryValue(a).numbers[1] == EntryValue(b).numbers[1];
  }

  lemma TeamEntryInjective(a: TeamEntry, b: TeamEntry)
    requires TeamEntryValue(a) == TeamEntryValue(b)
    ensures a == b
  {
    assert TeamEntryValue(a).numbers[0] == TeamEntryValue(b).numbers[0] &&
        TeamEntryValue(a).numbers[1] == TeamEntryValue(b).numbers[1];
  }

  lemma WordInjective(a: u32, b: u32)
    requires WordValue(a) == WordValue(b)
    ensures a == b
  {
    assert WordValue(a).numbers[0] == WordValue(b).numbers[0];
  }

  lemma WordsInjective()
    ensures forall a: u32, b: u32 :: WordValue(a) == WordValue(b) ==> a == b
  {
    forall a: u32, b: u32 | WordValue(a) == WordValue(b) ensures a == b { WordInjective(a, b); }
  }

  lemma CellsInjective()
    ensures forall a: Cell, b: Cell :: CellValue(a) == CellValue(b) ==> a == b
  {
    forall a: Cell, b: Cell | CellValue(a) == CellValue(b) ensures a == b { CellInjective(a, b); }
  }

  lemma SnakeNumbersInjective(a: SnakeView, b: SnakeView)
    requires SnakeNumbers(a) == SnakeNumbers(b)
    ensures a.(team := None, body := []) == b.(team := None, body := [])
  {
    var m, n := SnakeNumbers(a), SnakeNumbers(b);
    assert m[0] == n[0] && m[1] == n[1] && m[2] == n[2] && m[3] == n[3] && m[4] == n[4];
    assert m[5] == n[5] && m[6] == n[6] && m[7] == n[7] && m[8] == n[8] && m[9] == n[9];
  }

  lemma SnakeInjective(a: SnakeView, b: SnakeView)
    requires SnakeValue(a) == SnakeValue(b)
    ensures a == b
  {
    SnakeNumbersInjective(a, b);
    CellsInjective();
    ListInjective(a.body, b.body, CellValue);
    if a.team.Some? && b.team.Some? { assert TeamValue(a.team.value).numbers[0] == TeamValue(b.team.value).numbers[0]; }
  }

  lemma PadInjective(a: Pad, b: Pad)
    requires PadValue(a) == PadValue(b)
    ensures a == b
  {
    var m, n := PadValue(a).a.numbers, PadValue(b).a.numbers;
    assert m[0] == n[0] && m[1] == n[1] && m[2] == n[2] && m[3] == n[3] && m[4] == n[4];
    if a.respawnAt.Some? && b.respawnAt.Some? { WordInjective(a.respawnAt.value, b.respawnAt.value); }
  }

  lemma QueuedInjective(a: Queued, b: Queued)
    requires QueuedValue(a) == QueuedValue(b)
    ensures a == b
  {
    var m, n := QueuedValue(a).a.numbers, QueuedValue(b).a.numbers;
    assert m[0] == n[0] && m[1] == n[1] && m[2] == n[2];
    var p, q := ActionValue(a.action).payload.numbers, ActionValue(b.action).payload.numbers;
    assert p[0] == q[0] && (a.action.TurnTo? ==> p[1] == q[1]);
  }

  lemma OptionalWordInjective(a: Option<u32>, b: Option<u32>)
    requires Optional(a, WordValue) == Optional(b, WordValue)
    ensures a == b
  {
    if a.Some? && b.Some? { WordInjective(a.value, b.value); }
  }

  lemma HeaderInjective(a: Header, b: Header)
    requires HeaderValues(a) == HeaderValues(b)
    ensures a == b
  {
    var vs, ws := HeaderValues(a), HeaderValues(b);
    assert vs[0] == ws[0] && vs[1] == ws[1] && vs[2] == ws[2] && vs[3] == ws[3];
    assert vs[0].numbers[0] == ws[0].numbers[0];
    assert vs[2].numbers[0] == ws[2].numbers[0] && vs[2].numbers[1] == ws[2].numbers[1];
    if a.status.Complete? && b.status.Complete? { OptionalWordInjective(a.status.winner, b.status.winner); }
    if a.zone.Some? && b.zone.Some? {
      var m, n := ZoneValue(a.zone.value).numbers, ZoneValue(b.zone.value).numbers;
      assert m[0] == n[0] && m[1] == n[1];
    }
  }

  lemma BoostInjective(a: Boost, b: Boost)
    requires BoostValue(a) == BoostValue(b)
    ensures a == b
  {
    var m, n := BoostValue(a).numbers, BoostValue(b).numbers;
    assert m[0] == n[0] && m[1] == n[1] && m[2] == n[2] && m[3] == n[3] && m[4] == n[4] && m[5] == n[5] && m[6] == n[6];
  }

  lemma SettingsInjective(a: Settings, b: Settings)
    requires SettingsValues(a) == SettingsValues(b)
    ensures a == b
  {
    var vs, ws := SettingsValues(a), SettingsValues(b);
    assert vs[0] == ws[0] && vs[1] == ws[1] && vs[2] == ws[2] && vs[3] == ws[3] && vs[4] == ws[4];
    assert vs[0].numbers[0] == ws[0].numbers[0] && vs[0].numbers[1] == ws[0].numbers[1];
    OptionalWordInjective(a.timeLimit, b.timeLimit);
    OptionalWordInjective(a.scoreLimit, b.scoreLimit);
    if a.boost.Some? && b.boost.Some? { BoostInjective(a.boost.value, b.boost.value); }
    var m, n := vs[4].numbers, ws[4].numbers;
    assert m[0] == n[0] && m[1] == n[1] && m[2] == n[2] && m[3] == n[3] && m[4] == n[4];
  }

  // ------------------------------------------------------------- collections

  /** A collection's value depends on its items alone, and determines them. */
  lemma CollectionCanonical<T(!new)>(xs: seq<T>, ys: seq<T>, key: T -> int, f: T -> Value)
    requires forall x, y :: f(x) == f(y) ==> x == y
    ensures Mapped(Sort(xs, key), f) == Mapped(Sort(ys, key), f) ==> multiset(xs) == multiset(ys)
    ensures DistinctKeys(xs, key) && multiset(xs) == multiset(ys) ==> Mapped(Sort(xs, key), f) == Mapped(Sort(ys, key), f)
  {
    SortIsCanonical(xs, ys, key);
    if Mapped(Sort(xs, key), f) == Mapped(Sort(ys, key), f) {
      ListInjective(Sort(xs, key), Sort(ys, key), f);
    }
  }

  lemma FoodCanonical(xs: seq<Cell>, ys: seq<Cell>)
    ensures FoodValue(xs) == FoodValue(ys) <==> multiset(xs) == multiset(ys)
  {
    CellsInjective();
    assert DistinctKeys(xs, CellKey);
    CollectionCanonical(xs, ys, CellKey, CellValue);
  }

  lemma EntriesCanonical(xs: seq<Entry>, ys: seq<Entry>)
    ensures EntriesValue(xs) == EntriesValue(ys) <==> multiset(xs) == multiset(ys)
  {
    forall a: Entry, b: Entry | EntryValue(a) == EntryValue(b) ensures a == b { EntryInjective(a, b); }
    assert DistinctKeys(xs, EntryKey);
    CollectionCanonical(xs, ys, EntryKey, EntryValue);
  }

  lemma TeamScoresCanonical(xs: seq<TeamEntry>, ys: seq<TeamEntry>)
    ensures TeamScoresValue(xs) == TeamScoresValue(ys) <==> multiset(xs) == multiset(ys)
  {
    forall a: TeamEntry, b: TeamEntry | TeamEntryValue(a) == TeamEntryValue(b) ensures a == b { TeamEntryInjective(a, b); }
    assert DistinctKeys(xs, TeamKey);
    CollectionCanonical(xs, ys, TeamKey, TeamEntryValue);
  }

  lemma PadsCanonical(xs: seq<Pad>, ys: seq<Pad>)
    ensures PadsValue(xs) == PadsValue(ys) ==> multiset(xs) == multiset(ys)
    ensures DistinctKeys(xs, PadKey) && multiset(xs) == multiset(ys) ==> PadsValue(xs) == PadsValue(ys)
  {
    forall a: Pad, b: Pad | PadValue(a) == PadValue(b) ensures a == b { PadInjective(a, b); }
    CollectionCanonical(xs, ys, PadKey, PadValue);
  }

  lemma CommandsCanonical(xs: seq<Queued>, ys: seq<Queued>)
    ensures CommandsValue(xs) == CommandsValue(ys) ==> multiset(xs) == multiset(ys)
    ensures DistinctKeys(xs, QueuedKey) && multiset(xs) == multiset(ys) ==> CommandsValue(xs) == CommandsValue(ys)
  {
    forall a: Queued, b: Queued | QueuedValue(a) == QueuedValue(b) ensures a == b { QueuedInjective(a, b); }
    CollectionCanonical(xs, ys, QueuedKey, QueuedValue);
  }

  // ----------------------------------------------------------------- main theorem

  ghost predicate SameField(a: Field, b: Field) {
    a.snakes == b.snakes && multiset(a.pads) == multiset(b.pads) && multiset(a.food) == multiset(b.food)
  }

  ghost predicate SameTables(a: Tables, b: Tables) {
    && multiset(a.players) == multiset(b.players) && multiset(a.scores) == multiset(b.scores)
    && multiset(a.pickups) == multiset(b.pickups) && multiset(a.xp) == multiset(b.xp)
    && multiset(a.actions) == multiset(b.actions) && multiset(a.activity) == multiset(b.activity)
    && (match (a.teamScores, b.teamScores)
        case (Some(x), Some(y)) => multiset(x) == multiset(y)
        case (None, None) => true
        case _ => false)
    && a.idleKicked == b.idleKicked && a.byInactivity == b.byInactivity
  }

  /** Two views that differ only in the order of collections and map iteration. */
  ghost predicate SameUpToOrder(a: GameView, b: GameView) {
    && a.header == b.header && SameField(a.field, b.field) && SameTables(a.tables, b.tables)
    && a.settings == b.settings && multiset(a.commands) == multiset(b.commands)
  }

  /** Pads and queued commands carry unique identifiers. */
  ghost predicate UniqueIds(g: GameView) {
    DistinctKeys(g.field.pads, PadKey) && DistinctKeys(g.commands, QueuedKey)
  }

  lemma SnakesInjective(xs: seq<SnakeView>, ys: seq<SnakeView>)
    requires Mapped(xs, SnakeValue) == Mapped(ys, SnakeValue)
    ensures xs == ys
  {
    forall a: SnakeView, b: SnakeView | SnakeValue(a) == SnakeValue(b) ensures a == b { SnakeInjective(a, b); }
    ListInjective(xs, ys, SnakeValue);
  }

  lemma FieldCanonical(a: Field, b: Field)
    ensures FieldValues(a) == FieldValues(b) ==> SameField(a, b)
    ensures DistinctKeys(a.pads, PadKey) && SameField(a, b) ==> FieldValues(a) == FieldValues(b)
  {
    PadsCanonical(a.pads, b.pads);
    FoodCanonical(a.food, b.food);
    var vs, ws := FieldValues(a), FieldValues(b);
    if vs == ws {
      assert vs[0] == ws[0] && vs[1] == ws[1] && vs[2] == ws[2];
      SnakesInjective(a.snakes, b.snakes);
    }
  }

  lemma TablesCanonical(a: Tables, b: Tables)
    ensures TablesValues(a) == TablesValues(b) <==> SameTables(a, b)
  {
    EntriesCanonical(a.players, b.players);
    EntriesCanonical(a.scores, b.scores);
    EntriesCanonical(a.pickups, b.pickups);
    EntriesCanonical(a.xp, b.xp);
    EntriesCanonical(a.actions, b.actions);
    EntriesCanonical(a.activity, b.activity);
    if a.teamScores.Some? && b.teamScores.Some? { TeamScoresCanonical(a.teamScores.value, b.teamScores.value); }
    var vs, ws := TablesValues(a), TablesValues(b);
    if vs == ws {
      assert vs[0] == ws[0] && vs[1] == ws[1] && vs[2] == ws[2] && vs[3] == ws[3] && vs[4] == ws[4];
      assert vs[5] == ws[5] && vs[6] == ws[6] && vs[7] == ws[7] && vs[8] == ws[8];
      assert vs[8].numbers[0] == ws[8].numbers[0];
      WordsInjective();
      ListInjective(a.idleKicked, b.idleKicked, WordValue);
    }
  }

  lemma ValuesCanonical(a: GameView, b: GameView)
    ensures GameValues(a) == GameValues(b) ==> SameUpToOrder(a, b)
    ensures UniqueIds(a) && SameUpToOrder(a, b) ==> GameValues(a) == GameValues(b)
  {
    FieldCanonical(a.field, b.field);
    TablesCanonical(a.tables, b.tables);
    CommandsCanonical(a.commands, b.commands);
    var vs, ws := GameValues(a), GameValues(b);
    if vs == ws {
      assert vs[0] == ws[0] && vs[1] == ws[1] && vs[2] == ws[2] && vs[3] == ws[3] && vs[4] == ws[4];
      RowsEqual(HeaderValues(a.header), HeaderValues(b.header));
      RowsEqual(FieldValues(a.field), FieldValues(b.field));
      HeaderInjective(a.header, b.header);
      RowsEqual(TablesValues(a.tables), TablesValues(b.tables));
      RowsEqual(SettingsValues(a.settings), SettingsValues(b.settings));
      SettingsInjective(a.settings, b.settings);
    }
  }

  /** The fingerprinted stream is faithful: states that feed the hash the same bytes agree
      on everything sync-critical, up to the order of food, pads, queued commands and map
      iteration. With unique identifiers it is canonical too: that order never shows. */
  lemma StreamsAgreeExactly(a: GameView, b: GameView)
    ensures Small(a) && Small(b) && Stream(a) == Stream(b) ==> SameUpToOrder(a, b)
    ensures UniqueIds(a) && SameUpToOrder(a, b) ==> Stream(a) == Stream(b)
  {
    ValuesCanonical(a, b);
    GameFits(a);
    GameFits(b);
    if Small(a) && Small(b) && Stream(a) == Stream(b) {
      GameCounted(a);
      GameCounted(b);
      var empty: seq<byte> := [];
      assert Stream(a) + empty == Stream(b) + empty;
      UniquelyDecodable(Row(GAME_PARTS), RowValue(GameValues(a)), RowValue(GameValues(b)), empty, empty);
      RowsEqual(GameValues(a), GameValues(b));
    }
  }
}
