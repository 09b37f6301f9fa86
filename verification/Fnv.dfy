/** FNV-1a, 64 bit, as the fingerprint hashes with it. */
module Fnv {
  import opened SyncEncoding

  const WORD: nat := 0x1_0000_0000_0000_0000
  const FNV_OFFSET: nat := 0xcbf29ce484222325
  const FNV_PRIME: nat := 0x100000001b3
  /** The inverse of the prime modulo 2^64. */
  const FNV_INVERSE: nat := 0xce965057aff6957b

  function Power2(k: nat): (p: nat) { if k == 0 then 1 else 2 * Power2(k - 1) }

  /** Exclusive or of the low `k` bits. */
  function XorBits(k: nat, a: nat, b: nat): (c: nat)
    ensures c < Power2(k)
  {
    if k == 0 then 0 else 2 * XorBits(k - 1, a / 2, b / 2) + (if a % 2 != b % 2 then 1 else 0)
  }

  lemma {:induction false} XorUndoes(k: nat, a: nat, b: nat)
    requires a < Power2(k)
    ensures XorBits(k, XorBits(k, a, b), b) == a
    decreases k
  {
    if k > 0 {
      XorUndoes(k - 1, a / 2, b / 2);
      var c := XorBits(k, a, b);
      assert c / 2 == XorBits(k - 1, a / 2, b / 2);
    }
  }

  lemma {:induction false} XorCommutes(k: nat, a: nat, b: nat)
    ensures XorBits(k, a, b) == XorBits(k, b, a)
    decreases k
  {
    if k > 0 { XorCommutes(k - 1, a / 2, b / 2); }
  }

  lemma ByteRange()
    ensures Power2(8) == 256
  {
    assert Power2(4) == 16;
    assert Power2(5) == 32 && Power2(6) == 64 && Power2(7) == 128;
  }

  /** `state ^= v as u64`: only the low byte changes. */
  function XorByte(h: u64, b: byte): (g: u64) {
    ByteRange();
    h / 256 * 256 + XorBits(8, h % 256, b)
  }

  /** One FNV-1a step, with the multiplication wrapping at 64 bits. */
  function Mix(h: u64, b: byte): (g: u64) {
    XorByte(h, b) * FNV_PRIME % WORD
  }

  function Unmix(g: u64, b: byte): (h: u64) {
    XorByte(g * FNV_INVERSE % WORD, b)
  }

  lemma SplitAt256(q: nat, low: nat)
    requires low < 256
    ensures (q * 256 + low) / 256 == q && (q * 256 + low) % 256 == low
  {
  }

  /** Above the low byte nothing changes. */
  lemma XorByteHigh(h: u64, b: byte)
    ensures XorByte(h, b) / 256 == h / 256
  {
    ByteRange();
    SplitAt256(h / 256, XorBits(8, h % 256, b));
  }

  lemma XorByteLow(h: u64, b: byte)
    ensures XorByte(h, b) % 256 == XorBits(8, h % 256, b)
  {
    ByteRange();
    SplitAt256(h / 256, XorBits(8, h % 256, b));
  }

  lemma XorByteUndoes(h: u64, b: byte)
    ensures XorByte(XorByte(h, b), b) == h
  {
    XorByteHigh(h, b);
    XorByteLow(h, b);
    assert XorBits(8, XorBits(8, h % 256, b), b) == h % 256 by {
      ByteRange();
      XorUndoes(8, h % 256, b);
    }
  }

  /** Multiplying by one of two inverses is undone by multiplying by the other. */
  lemma InversesUndo(x: u64, p: nat, q: nat, c: nat)
    requires p * q == 1 + c * WORD
    ensures x * p % WORD * q % WORD == x
  {
    var t, y := x * p / WORD, x * p % WORD;
    assert y == x * p - t * WORD;
    assert y * q == x * (p * q) - t * WORD * q == x + (x * c - t * q) * WORD;
  }

  lemma PrimeIsInvertible(x: u64)
    ensures x * FNV_PRIME % WORD * FNV_INVERSE % WORD == x
    ensures x * FNV_INVERSE % WORD * FNV_PRIME % WORD == x
  {
    var c := FNV_PRIME * FNV_INVERSE / WORD;
    assert FNV_PRIME * FNV_INVERSE == 1 + c * WORD;
    InversesUndo(x, FNV_PRIME, FNV_INVERSE, c);
    InversesUndo(x, FNV_INVERSE, FNV_PRIME, c);
  }

  /** Each step is a bijection of the hash state, with an explicit two-sided inverse. */
  lemma MixIsInvertible(h: u64, b: byte)
    ensures Unmix(Mix(h, b), b) == h && Mix(Unmix(h, b), b) == h
  {
    PrimeIsInvertible(XorByte(h, b));
    XorByteUndoes(h, b);
    PrimeIsInvertible(h);
    XorByteUndoes(h * FNV_INVERSE % WORD, b);
  }

  /** From one state, different bytes lead to different states. */
  lemma MixSeparates(h: u64, a: byte, b: byte)
    requires a != b
    ensures Mix(h, a) != Mix(h, b)
  {
    ByteRange();
    PrimeIsInvertible(XorByte(h, a));
    PrimeIsInvertible(XorByte(h, b));
    XorCommutes(8, h % 256, a);
    XorCommutes(8, h % 256, b);
    XorUndoes(8, a, h % 256);
    XorUndoes(8, b, h % 256);
  }

  function Digest(h: u64, bytes: seq<byte>): (g: u64)
    decreases |bytes|
  {
    if bytes == [] then h else Digest(Mix(h, bytes[0]), bytes[1..])
  }

  lemma {:induction false} XorZero(k: nat, a: nat)
    requires a < Power2(k)
    ensures XorBits(k, a, 0) == a
    decreases k
  {
    if k > 0 { XorZero(k - 1, a / 2); }
  }

  lemma MixZero(h: u64)
    ensures Mix(h, 0) == h * FNV_PRIME % WORD
  {
    ByteRange();
    XorZero(8, h % 256);
  }

  lemma DigestOfOne(h: u64, b: byte)
    ensures Digest(h, [b]) == Mix(h, b)
  {
    assert [b][1..] == [];
  }

  lemma OffsetTimesPrime()
    ensures FNV_OFFSET * FNV_PRIME % WORD == 0xaf63bd4c8601b7df
  {
  }

  /** The published digest of a single zero byte. */
  lemma KnownDigest()
    ensures Digest(FNV_OFFSET, [0]) == 0xaf63bd4c8601b7df
  {
    MixZero(FNV_OFFSET);
    OffsetTimesPrime();
    DigestOfOne(FNV_OFFSET, 0);
  }

  lemma {:induction false} DigestConcat(h: u64, a: seq<byte>, b: seq<byte>)
    ensures Digest(h, a + b) == Digest(Digest(h, a), b)
    decreases |a|
  {
    if a == [] {
      assert a + b == b;
    } else {
      assert (a + b)[0] == a[0] && (a + b)[1..] == a[1..] + b;
      DigestConcat(Mix(h, a[0]), a[1..], b);
    }
  }

  /** A common suffix never brings two states together. */
  lemma {:induction false} SuffixKeepsApart(h: u64, g: u64, bytes: seq<byte>)
    requires h != g
    ensures Digest(h, bytes) != Digest(g, bytes)
    decreases |bytes|
  {
    if bytes != [] {
      MixIsInvertible(h, bytes[0]);
      MixIsInvertible(g, bytes[0]);
      SuffixKeepsApart(Mix(h, bytes[0]), Mix(g, bytes[0]), bytes[1..]);
    }
  }

  /** Two streams of equal length that differ in exactly one byte never collide. */
  lemma OneByteAlwaysShows(a: seq<byte>, b: seq<byte>, i: nat)
    requires |a| == |b| && i < |a| && a[i] != b[i]
    requires forall j :: 0 <= j < |a| && j != i ==> a[j] == b[j]
    ensures Digest(FNV_OFFSET, a) != Digest(FNV_OFFSET, b)
  {
    var before, after := a[..i], a[i + 1..];
    assert a == before + ([a[i]] + after) && b == before + ([b[i]] + after);
    DigestConcat(FNV_OFFSET, before, [a[i]] + after);
    DigestConcat(FNV_OFFSET, before, [b[i]] + after);
    var h := Digest(FNV_OFFSET, before);
    MixSeparates(h, a[i], b[i]);
    SuffixKeepsApart(Mix(h, a[i]), Mix(h, b[i]), after);
    assert ([a[i]] + after)[1..] == after && ([b[i]] + after)[1..] == after;
  }

  /** `SyncHasher`: the state is the digest of everything written so far. */
  class SyncHasher {
    var state: u64
    ghost var written: seq<byte>

    ghost predicate Valid()
      reads this
    {
      state == Digest(FNV_OFFSET, written)
    }

    constructor ()
      ensures Valid() && written == []
    {
      state := FNV_OFFSET;
      written := [];
    }

    method WriteU8(v: byte)
      requires Valid()
      modifies this
      ensures Valid() && written == old(written) + [v]
    {
      state := XorByte(state, v);
      state := state * FNV_PRIME % WORD;
      DigestConcat(FNV_OFFSET, written, [v]);
      assert Digest(old(state), [v]) == Mix(old(state), v);
      written := written + [v];
    }

    method WriteBytes(bytes: seq<byte>)
      requires Valid()
      modifies this
      ensures Valid() && written == old(written) + bytes
    {
      var i := 0;
      while i < |bytes|
        invariant 0 <= i <= |bytes| && Valid() && written == old(written) + bytes[..i]
      {
        WriteU8(bytes[i]);
        assert bytes[..i + 1] == bytes[..i] + [bytes[i]];
        i := i + 1;
      }
      assert bytes[..i] == bytes;
    }

    /** `write_u16`, `write_u32` and `write_u64`: the low bytes of a width, least first. */
    method WriteNumber(width: nat, v: nat)
      requires Valid()
      modifies this
      ensures Valid() && written == old(written) + LittleEndian(width, v)
    {
      WriteBytes(LittleEndian(width, v));
    }

    method Finish() returns (hash: u64)
      requires Valid()
      ensures hash == Digest(FNV_OFFSET, written)
    {
      return state;
    }
  }
}
