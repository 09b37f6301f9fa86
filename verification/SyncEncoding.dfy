/** The byte layout discipline of the sync fingerprint: little-endian blocks, tagged
    choices and counted lists, and why such a stream can be read back in one way only. */
module SyncEncoding {

  type byte = n: nat | n < 256
  type u16 = n: nat | n < 0x1_0000
  type u32 = n: nat | n < 0x1_0000_0000
  type u64 = n: nat | n < 0x1_0000_0000_0000_0000
  type i16 = n: int | -0x8000 <= n < 0x8000

  /** 256 to the power `w`. */
  function Range(w: nat): (n: nat)
    ensures n >= 1
  {
    if w == 0 then 1 else 256 * Range(w - 1)
  }

  lemma RangeValues()
    ensures Range(1) == 0x100 && Range(2) == 0x1_0000 && Range(4) == 0x1_0000_0000 && Range(8) == 0x1_0000_0000_0000_0000
  {
    assert Range(2) == 256 * Range(1) && Range(3) == 256 * Range(2) && Range(4) == 256 * Range(3);
    assert Range(5) == 256 * Range(4) && Range(6) == 256 * Range(5) && Range(7) == 256 * Range(6);
  }

  /** `to_le_bytes` of a `w`-byte unsigned number. */
  function LittleEndian(w: nat, n: nat): (bytes: seq<byte>)
    ensures |bytes| == w
  {
    if w == 0 then [] else [n % 256] + LittleEndian(w - 1, n / 256)
  }

  /** The number that bytes spell, least significant first. */
  function Spelled(bytes: seq<byte>): (n: nat) {
    if bytes == [] then 0 else bytes[0] + 256 * Spelled(bytes[1..])
  }

  lemma {:induction false} LittleEndianSpells(w: nat, n: nat)
    requires n < Range(w)
    ensures Spelled(LittleEndian(w, n)) == n
    decreases w
  {
    if w > 0 {
      LittleEndianSpells(w - 1, n / 256);
      assert LittleEndian(w, n)[1..] == LittleEndian(w - 1, n / 256);
    }
  }

  lemma {:induction false} LittleEndianInjective(w: nat, n: nat, m: nat)
    requires n < Range(w) && m < Range(w) && LittleEndian(w, n) == LittleEndian(w, m)
    ensures n == m
    decreases w
  {
    if w > 0 {
      var a, b := LittleEndian(w, n), LittleEndian(w, m);
      assert a[0] == b[0] && a[1..] == b[1..];
      LittleEndianInjective(w - 1, n / 256, m / 256);
    }
  }

  // -------------------------------------------------------------------- shapes

  /** Layouts: a run of fixed-width numbers, one layout after another, a 32-bit count
      followed by that many items, a tag byte followed by the tag's layout. */
  datatype Shape =
    | Block(widths: seq<nat>)
    | Pair(first: Shape, second: Shape)
    | Many(each: Shape)
    | Choice(cases: seq<Shape>)

  datatype Value =
    | Nums(numbers: seq<nat>)
    | Both(a: Value, b: Value)
    | List(items: seq<Value>)
    | Case(tag: nat, payload: Value)

  ghost predicate Fits(sh: Shape, v: Value)
    decreases v
  {
    match (sh, v)
    case (Block(ws), Nums(ns)) => |ws| == |ns| && forall i :: 0 <= i < |ns| ==> ns[i] < Range(ws[i])
    case (Pair(s, t), Both(a, b)) => Fits(s, a) && Fits(t, b)
    case (Many(s), List(vs)) => forall i :: 0 <= i < |vs| ==> Fits(s, vs[i])
    case (Choice(cases), Case(tag, p)) => tag < |cases| <= 256 && Fits(cases[tag], p)
    case _ => false
  }

  /** Every list's length survives the cast to 32 bits. */
  ghost predicate Counted(v: Value)
    decreases v
  {
    match v
    case Nums(_) => true
    case Both(a, b) => Counted(a) && Counted(b)
    case List(vs) => |vs| < Range(4) && forall i :: 0 <= i < |vs| ==> Counted(vs[i])
    case Case(_, p) => Counted(p)
  }

  function BlockBytes(ws: seq<nat>, ns: seq<nat>): (bytes: seq<byte>)
    requires |ws| == |ns|
  {
    if ws == [] then [] else LittleEndian(ws[0], ns[0]) + BlockBytes(ws[1..], ns[1..])
  }

  ghost function Encode(sh: Shape, v: Value): (bytes: seq<byte>)
    requires Fits(sh, v)
    decreases v, 1
  {
    match (sh, v)
    case (Block(ws), Nums(ns)) => BlockBytes(ws, ns)
    case (Pair(s, t), Both(a, b)) => Encode(s, a) + Encode(t, b)
    case (Many(s), List(vs)) => LittleEndian(4, |vs|) + EncodeAll(s, vs)
    case (Choice(cases), Case(tag, p)) => LittleEndian(1, tag) + Encode(cases[tag], p)
  }

  ghost function EncodeAll(sh: Shape, vs: seq<Value>): (bytes: seq<byte>)
    requires forall i :: 0 <= i < |vs| ==> Fits(sh, vs[i])
    decreases vs, 0
  {
    if vs == [] then [] else Encode(sh, vs[0]) + EncodeAll(sh, vs[1..])
  }

  // ------------------------------------------------------------ unique decoding

  lemma Regroup(a: seq<byte>, b: seq<byte>, c: seq<byte>)
    ensures a + b + c == a + (b + c)
  {
  }

  /** Equal streams that start with parts of equal length start with equal parts. */
  lemma Peel(a: seq<byte>, b: seq<byte>, r: seq<byte>, s: seq<byte>)
    requires |a| == |b| && a + r == b + s
    ensures a == b && r == s
  {
    assert a == (a + r)[..|a|] && b == (b + s)[..|b|];
    assert r == (a + r)[|a|..] && s == (b + s)[|b|..];
  }

  lemma {:induction false} BlockIsUnique(ws: seq<nat>, ns: seq<nat>, ms: seq<nat>, r: seq<byte>, s: seq<byte>)
    requires Fits(Block(ws), Nums(ns)) && Fits(Block(ws), Nums(ms))
    requires BlockBytes(ws, ns) + r == BlockBytes(ws, ms) + s
    ensures ns == ms && r == s
    decreases |ws|
  {
    if ws == [] {
      Peel([], [], r, s);
    } else {
      var a, b := LittleEndian(ws[0], ns[0]), LittleEndian(ws[0], ms[0]);
      var ar, br := BlockBytes(ws[1..], ns[1..]), BlockBytes(ws[1..], ms[1..]);
      Regroup(a, ar, r);
      Regroup(b, br, s);
      Peel(a, b, ar + r, br + s);
      LittleEndianInjective(ws[0], ns[0], ms[0]);
      BlockIsUnique(ws[1..], ns[1..], ms[1..], r, s);
      assert ns == [ns[0]] + ns[1..] && ms == [ms[0]] + ms[1..];
    }
  }

  /** The stream is uniquely decodable: whatever follows, two values of one shape with
      equal encodings are equal, and so are the remainders. */
  lemma {:induction false} UniquelyDecodable(sh: Shape, v: Value, w: Value, r: seq<byte>, s: seq<byte>)
    requires Fits(sh, v) && Fits(sh, w) && Counted(v) && Counted(w) && Encode(sh, v) + r == Encode(sh, w) + s
    ensures v == w && r == s
    decreases v, 1
  {
    match sh {
      case Block(ws) =>
        BlockIsUnique(ws, v.numbers, w.numbers, r, s);
      case Pair(s1, s2) =>
        Regroup(Encode(s1, v.a), Encode(s2, v.b), r);
        Regroup(Encode(s1, w.a), Encode(s2, w.b), s);
        UniquelyDecodable(s1, v.a, w.a, Encode(s2, v.b) + r, Encode(s2, w.b) + s);
        UniquelyDecodable(s2, v.b, w.b, r, s);
      case Many(each) =>
        var n, m := LittleEndian(4, |v.items|), LittleEndian(4, |w.items|);
        Regroup(n, EncodeAll(each, v.items), r);
        Regroup(m, EncodeAll(each, w.items), s);
        Peel(n, m, EncodeAll(each, v.items) + r, EncodeAll(each, w.items) + s);
        LittleEndianInjective(4, |v.items|, |w.items|);
        ListsUniquelyDecodable(each, v.items, w.items, r, s);
      case Choice(cases) =>
        var n, m := LittleEndian(1, v.tag), LittleEndian(1, w.tag);
        Regroup(n, Encode(cases[v.tag], v.payload), r);
        Regroup(m, Encode(cases[w.tag], w.payload), s);
        Peel(n, m, Encode(cases[v.tag], v.payload) + r, Encode(cases[w.tag], w.payload) + s);
        RangeValues();
        LittleEndianInjective(1, v.tag, w.tag);
        UniquelyDecodable(cases[v.tag], v.payload, w.payload, r, s);
    }
  }

  lemma {:induction false} ListsUniquelyDecodable(sh: Shape, vs: seq<Value>, ws: seq<Value>, r: seq<byte>, s: seq<byte>)
    requires |vs| == |ws|
    requires (forall i :: 0 <= i < |vs| ==> Fits(sh, vs[i])) && (forall i :: 0 <= i < |ws| ==> Fits(sh, ws[i]))
    requires (forall i :: 0 <= i < |vs| ==> Counted(vs[i])) && (forall i :: 0 <= i < |ws| ==> Counted(ws[i]))
    requires EncodeAll(sh, vs) + r == EncodeAll(sh, ws) + s
    ensures vs == ws && r == s
    decreases vs, 0
  {
    if vs == [] {
      Peel([], [], r, s);
    } else {
      Regroup(Encode(sh, vs[0]), EncodeAll(sh, vs[1..]), r);
      Regroup(Encode(sh, ws[0]), EncodeAll(sh, ws[1..]), s);
      UniquelyDecodable(sh, vs[0], ws[0], EncodeAll(sh, vs[1..]) + r, EncodeAll(sh, ws[1..]) + s);
      ListsUniquelyDecodable(sh, vs[1..], ws[1..], r, s);
      assert vs == [vs[0]] + vs[1..] && ws == [ws[0]] + ws[1..];
    }
  }

  // ------------------------------------------------------------------------ rows

  /** Several layouts in a row. */
  function Row(shapes: seq<Shape>): (sh: Shape) {
    if shapes == [] then Block([]) else Pair(shapes[0], Row(shapes[1..]))
  }

  function RowValue(vs: seq<Value>): (v: Value) {
    if vs == [] then Nums([]) else Both(vs[0], RowValue(vs[1..]))
  }

  ghost predicate RowOk(shapes: seq<Shape>, vs: seq<Value>) {
    |shapes| == |vs| && forall i :: 0 <= i < |vs| ==> Fits(shapes[i], vs[i])
  }

  lemma {:induction false} RowFits(shapes: seq<Shape>, vs: seq<Value>)
    requires RowOk(shapes, vs)
    ensures Fits(Row(shapes), RowValue(vs))
    decreases |vs|
  {
    if vs != [] { RowFits(shapes[1..], vs[1..]); }
  }

  lemma {:induction false} RowCounted(vs: seq<Value>)
    requires forall i :: 0 <= i < |vs| ==> Counted(vs[i])
    ensures Counted(RowValue(vs))
    decreases |vs|
  {
    if vs != [] { RowCounted(vs[1..]); }
  }

  lemma {:induction false} RowsEqual(vs: seq<Value>, ws: seq<Value>)
    requires |vs| == |ws| && RowValue(vs) == RowValue(ws)
    ensures vs == ws
    decreases |vs|
  {
    if vs != [] {
      RowsEqual(vs[1..], ws[1..]);
      assert vs == [vs[0]] + vs[1..] && ws == [ws[0]] + ws[1..];
    }
  }
}
