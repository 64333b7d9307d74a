/** Folding a compression function over the 64-byte blocks of a message, and copying bytes. */
module Blocks {
  type Byte = bv8
  type Word = bv32

  /** Addition modulo 2^32. */
  function Plus(x: Word, y: Word): Word { x + y }

  lemma PlusAssoc(x: Word, y: Word, z: Word)
    ensures Plus(Plus(x, y), z) == Plus(x, Plus(y, z))
  {
    calc {
      Plus(Plus(x, y), z);
      Plus(x + y, z);
      (x + y) + z;
      x + (y + z);
      Plus(x, y + z);
      Plus(x, Plus(y, z));
    }
  }

  lemma PlusCommutes(x: Word, y: Word)
    ensures Plus(x, y) == Plus(y, x)
  {
  }

  /** Word t of a block, high-order byte first. */
  function BigWord(block: seq<Byte>, t: nat): Word {
    if 4 * t + 4 <= |block| then
      ((block[4 * t] as Word) << 24) | ((block[4 * t + 1] as Word) << 16)
      | ((block[4 * t + 2] as Word) << 8) | (block[4 * t + 3] as Word)
    else 0
  }

  /** Word t of a block, low-order byte first. */
  function LittleWord(block: seq<Byte>, t: nat): Word {
    if 4 * t + 4 <= |block| then
      (block[4 * t] as Word) | ((block[4 * t + 1] as Word) << 8)
      | ((block[4 * t + 2] as Word) << 16) | ((block[4 * t + 3] as Word) << 24)
    else 0
  }

  function BigBytes(w: Word): seq<Byte> {
    [((w >> 24) & 0xff) as Byte, ((w >> 16) & 0xff) as Byte, ((w >> 8) & 0xff) as Byte, (w & 0xff) as Byte]
  }

  function LittleBytes(w: Word): seq<Byte> {
    [(w & 0xff) as Byte, ((w >> 8) & 0xff) as Byte, ((w >> 16) & 0xff) as Byte, ((w >> 24) & 0xff) as Byte]
  }

  /** The chaining value after all complete blocks of 'data'. */
  function Fold<S>(compress: (S, seq<Byte>) -> S, s: S, data: seq<Byte>): S {
    if |data| < 64 then s else Fold(compress, compress(s, data[..64]), data[64..])
  }

  lemma {:induction false} FoldAppend<S>(compress: (S, seq<Byte>) -> S, s: S, a: seq<Byte>, b: seq<Byte>)
    requires |a| % 64 == 0
    ensures Fold(compress, s, a + b) == Fold(compress, Fold(compress, s, a), b)
  {
    if a == [] {
      assert a + b == b;
    } else {
      assert (a + b)[..64] == a[..64] && (a + b)[64..] == a[64..] + b;
      FoldAppend(compress, compress(s, a[..64]), a[64..], b);
    }
  }

  lemma FoldOne<S>(compress: (S, seq<Byte>) -> S, s: S, a: seq<Byte>, block: seq<Byte>)
    requires |a| % 64 == 0 && |block| == 64
    ensures Fold(compress, s, a + block) == compress(Fold(compress, s, a), block)
  {
    FoldAppend(compress, s, a, block);
    assert block[..64] == block;
    assert Fold(compress, Fold(compress, s, a), block) ==
      Fold(compress, compress(Fold(compress, s, a), block), block[64..]);
  }

  function Zeros(n: nat): (z: seq<Byte>)
    ensures |z| == n
  {
    seq(n, _ => 0)
  }

  /** The least number of zero bytes that, after the 0x80 byte, leaves room for exactly eight more
      bytes in the last block. */
  function ZerosNeeded(n: nat): (z: nat)
    ensures z < 64 && (n + 1 + z + 8) % 64 == 0
  {
    (119 - n % 64) % 64
  }

  /** A message with its padding: one 0x80 byte, zeros, and the eight length bytes. */
  function Padded(msg: seq<Byte>, length: seq<Byte>): (p: seq<Byte>)
    requires |length| == 8
    ensures |p| % 64 == 0
  {
    msg + [0x80] + Zeros(ZerosNeeded(|msg|)) + length
  }

  lemma CopyStep(d: seq<Byte>, b: seq<Byte>, src: seq<Byte>, at: nat, k: nat)
    requires k < |src| && at + |src| <= |d| && b == d[..at] + src[..k] + d[at + k..]
    ensures |b| == |d| && b[at + k := src[k]] == d[..at] + src[..k + 1] + d[at + k + 1..]
  {
    assert d[at + k..] == [d[at + k]] + d[at + k + 1..] && src[..k + 1] == src[..k] + [src[k]];
  }

  /** memcpy. */
  method Copy(dst: array<Byte>, at: nat, src: seq<Byte>)
    requires at + |src| <= dst.Length
    modifies dst
    ensures dst[..] == old(dst[..at]) + src + old(dst[at + |src|..])
  {
    ghost var d := dst[..];
    var k := 0;
    while k < |src|
      invariant k <= |src|
      invariant dst[..] == d[..at] + src[..k] + d[at + k..]
    {
      ghost var before := dst[..];
      dst[at + k] := src[k];
      assert dst[..] == before[at + k := src[k]];
      CopyStep(d, before, src, at, k);
      k := k + 1;
    }
    assert src[..k] == src;
  }

  const TWO_61 := 0x2000_0000_0000_0000
  const TWO_64 := 0x1_0000_0000_0000_0000
  const TWO_32 := 0x1_0000_0000
  const TWO_29 := 0x2000_0000

  /** A bit count kept modulo 2^64 still gives the number of bytes in the last block. */
  lemma BytesBuffered(n: nat)
    ensures (8 * n) % TWO_64 == 8 * (n % TWO_61)
    ensures ((8 * n) % TWO_64) / 8 % 64 == n % 64
  {
    var q := n / TWO_61;
    assert n == q * TWO_61 + n % TWO_61;
    assert 8 * n == q * TWO_64 + 8 * (n % TWO_61);
    assert n % TWO_61 % 64 == n % 64;
  }

  /** The big-endian bytes of a 64-bit number. */
  function BigEndian64(n: nat): (b: seq<Byte>)
    ensures |b| == 8
  {
    seq(8, i requires 0 <= i < 8 => ((n / Power256(7 - i)) % 256) as Byte)
  }

  /** The low-order word first, and in each word the low-order byte first. */
  function LittleEndian32(n: nat): (b: seq<Byte>)
    ensures |b| == 4
  {
    [(n % 256) as Byte, (n / 256 % 256) as Byte, (n / 65536 % 256) as Byte, (n / 16777216 % 256) as Byte]
  }

  function LittleEndian64(n: nat): (b: seq<Byte>)
    ensures |b| == 8
  {
    LittleEndian32(n % TWO_32) + LittleEndian32(n / TWO_32)
  }

  function Power256(k: nat): (p: nat)
    ensures p > 0
  {
    if k == 0 then 1 else 256 * Power256(k - 1)
  }

  ghost function Joined(chunks: seq<seq<Byte>>): seq<Byte> {
    if chunks == [] then [] else chunks[0] + Joined(chunks[1..])
  }

  lemma JoinedStep(m: seq<Byte>, chunks: seq<seq<Byte>>, k: nat)
    requires k < |chunks|
    ensures m + Joined(chunks[k..]) == (m + chunks[k]) + Joined(chunks[k + 1..])
  {
    assert chunks[k..][0] == chunks[k] && chunks[k..][1..] == chunks[k + 1..];
  }

  lemma JoinedEnd(m: seq<Byte>, chunks: seq<seq<Byte>>)
    ensures m + Joined(chunks[|chunks|..]) == m
  {
  }

  // ----- complete blocks and the bytes after them -----

  ghost function Complete(m: seq<Byte>): seq<Byte> { m[..|m| - |m| % 64] }

  ghost function Partial(m: seq<Byte>): (p: seq<Byte>)
    ensures |p| == |m| % 64
  {
    m[|m| - |m| % 64..]
  }

  lemma StillPartial(m: seq<Byte>, src: seq<Byte>)
    requires |m| % 64 + |src| < 64
    ensures Complete(m + src) == Complete(m) && Partial(m + src) == Partial(m) + src
    ensures |m + src| % 64 == |m| % 64 + |src|
  {
    LastBlock(|m|, |src|);
  }

  lemma LastBlock(n: nat, k: nat)
    requires n % 64 + k < 64
    ensures (n + k) % 64 == n % 64 + k
  {
  }

  lemma FirstBlock(m: seq<Byte>, src: seq<Byte>)
    requires |m| % 64 + |src| >= 64
    ensures |Complete(m)| % 64 == 0
    ensures var k := 64 - |m| % 64; Complete(m) + (Partial(m) + src[..k]) == m + src[..k] && (|m| + k) % 64 == 0
  {
  }

  lemma LastBytes(m: seq<Byte>, src: seq<Byte>, at: nat)
    requires at <= |src| && (|m| + at) % 64 == 0 && |src| - at < 64
    ensures Complete(m + src) == m + src[..at] && Partial(m + src) == src[at..]
    ensures |m + src| % 64 == |src| - at
  {
    LastBlock(|m| + at, |src| - at);
  }

  lemma OneMoreBlock(m: seq<Byte>, length: seq<Byte>)
    requires |m| % 64 < 56 && |length| == 8
    ensures |Complete(m)| % 64 == 0
    ensures Padded(m, length) == Complete(m) + (Partial(m) + [0x80] + Zeros(55 - |m| % 64) + length)
  {
    assert ZerosNeeded(|m|) == 55 - |m| % 64;
    assert m == Complete(m) + Partial(m);
  }

  lemma TwoMoreBlocks(m: seq<Byte>, length: seq<Byte>)
    requires |m| % 64 >= 56 && |length| == 8
    ensures |Complete(m)| % 64 == 0
    ensures Padded(m, length)
            == Complete(m) + (Partial(m) + [0x80] + Zeros(63 - |m| % 64)) + (Zeros(56) + length)
  {
    assert ZerosNeeded(|m|) == 63 - |m| % 64 + 56;
    assert m == Complete(m) + Partial(m);
    assert Zeros(63 - |m| % 64 + 56) == Zeros(63 - |m| % 64) + Zeros(56);
  }
}
