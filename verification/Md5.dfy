/** The streaming implementation of MD5 in scripts/mkhash.c. */
module Md5 {
  import opened Blocks
  import opened Md5Transform

  const INITIAL := Chain(0x67452301, 0xefcdab89, 0x98badcfe, 0x10325476)

  /** Sections 3.1 to 3.5 of RFC 1321: padding, the bit count modulo 2^64 with its low-order word
      first, the compression of every block, and the output. */
  function Digest(msg: seq<Byte>): seq<Byte> {
    var c := Fold(Compress, INITIAL, Padded(msg, LittleEndian64((8 * |msg|) % TWO_64)));
    LittleBytes(c.a) + LittleBytes(c.b) + LittleBytes(c.c) + LittleBytes(c.d)
  }

  /** The byte count split in two: lo has 29 bits, hi counts its carries modulo 2^32. */
  ghost predicate Counts(lo: nat, hi: nat, n: nat) {
    lo < TWO_29 && hi < TWO_32 && hi * TWO_29 + lo == n % TWO_61
  }

  /** The carry test and the shift of MD5_hash count every chunk size right, across all carries. */
  lemma CountsAdd(lo: nat, hi: nat, n: nat, size: nat)
    requires Counts(lo, hi, n)
    ensures var lo' := (lo + size) % TWO_29;
            Counts(lo', ((if lo' < lo then hi + 1 else hi) + size / TWO_29) % TWO_32, n + size)
  {
    var q, s := size / TWO_29, size % TWO_29;
    var lo' := (lo + size) % TWO_29;
    assert size == q * TWO_29 + s;
    assert lo' == (lo + s) % TWO_29;
    var carry := if lo + s >= TWO_29 then 1 else 0;
    assert lo' == lo + s - carry * TWO_29;
    assert lo' < lo <==> carry == 1;
    var h := hi + carry + q;
    assert h * TWO_29 + lo' == hi * TWO_29 + lo + size;
    WrapSum(h, lo', n, hi * TWO_29 + lo, size);
  }

  lemma ReduceTwice(h: nat, q: nat)
    ensures (h % TWO_32 + q) % TWO_32 == (h + q) % TWO_32
  {
  }

  lemma WrapSum(h: nat, lo: nat, n: nat, m: nat, size: nat)
    requires lo < TWO_29 && h * TWO_29 + lo == m + size && m == n % TWO_61
    ensures (h % TWO_32) * TWO_29 + lo == (n + size) % TWO_61
  {
    var k := h / TWO_32;
    assert h == k * TWO_32 + h % TWO_32;
    assert m + size == k * TWO_61 + ((h % TWO_32) * TWO_29 + lo);
    var j := n / TWO_61;
    assert n + size == (j + k) * TWO_61 + ((h % TWO_32) * TWO_29 + lo);
  }

  class Context {
    var lo: nat
    var hi: nat
    var chain: Chain
    var buffer: array<Byte>
    ghost var msg: seq<Byte>

    ghost predicate Valid()
      reads this, buffer
    {
      && buffer.Length == 64
      && Counts(lo, hi, |msg|)
      && chain == Fold(Compress, INITIAL, Complete(msg))
      && buffer[..|msg| % 64] == Partial(msg)
    }

    /** MD5_begin. */
    constructor ()
      ensures Valid() && fresh(buffer) && msg == []
    {
      chain := INITIAL;
      lo, hi := 0, 0;
      buffer := new Byte[64];
      msg := [];
    }

    /** MD5_body: one or more blocks. */
    method Body(data: seq<Byte>)
      requires |data| > 0 && |data| % 64 == 0
      modifies `chain
      ensures chain == Fold(Compress, old(chain), data)
    {
      hide Fold, Compress;
      var at := 0;
      FoldNothing(chain);
      assert data[..0] == [];
      while true
        invariant at < |data| && at % 64 == 0 && chain == Fold(Compress, old(chain), data[..at])
        decreases |data| - at
      {
        FoldOne(Compress, old(chain), data[..at], data[at..at + 64]);
        assert data[..at + 64] == data[..at] + data[at..at + 64];
        chain := Transform(chain, data[at..at + 64]);
        at := at + 64;
        if at == |data| {
          break;
        }
      }
      assert data[..at] == data;
    }

    /** MD5_hash. */
    method Hash(data: seq<Byte>)
      requires Valid()
      modifies this, buffer
      ensures Valid() && buffer == old(buffer) && msg == old(msg) + data
    {
      hide Fold, Compress, Complete, Partial, Counts;
      UsedBytes(lo, hi, |msg|);
      var used := lo % 64;
      AddToCount(|data|);
      ghost var m0 := msg;
      msg := msg + data;
      var at := 0;
      if used != 0 {
        var available := 64 - used;
        if |data| < available {
          StillPartial(m0, data);
          Copy(buffer, used, data);
          return;
        }
        FirstBlock(m0, data);
        Copy(buffer, used, data[..available]);
        assert buffer[..] == Partial(m0) + data[..available];
        at := available;
        FoldAppend(Compress, INITIAL, Complete(m0), buffer[..]);
        Body(buffer[..]);
      } else {
        AlignedStart(m0, data);
      }
      Rest(m0, data, at);
    }

    /** The split counter: lo, its carry, and the high part of the size. */
    method AddToCount(size: nat)
      requires Counts(lo, hi, |msg|)
      modifies `lo, `hi
      ensures Counts(lo, hi, |msg| + size)
    {
      CountsAdd(lo, hi, |msg|, size);
      ReduceTwice(hi + 1, size / TWO_29);
      hide Counts;
      var savedLo := lo;
      lo := (savedLo + size) % TWO_29;
      if lo < savedLo {
        hi := (hi + 1) % TWO_32;
      }
      hi := (hi + size / TWO_29) % TWO_32;
    }

    /** The second half of MD5_hash: whole blocks straight from the input, then the leftover. */
    method Rest(ghost m0: seq<Byte>, data: seq<Byte>, start: nat)
      requires buffer.Length == 64 && start <= |data| && (|m0| + start) % 64 == 0
      requires msg == m0 + data && Counts(lo, hi, |msg|)
      requires chain == Fold(Compress, INITIAL, m0 + data[..start])
      modifies `chain, buffer
      ensures Valid()
    {
      hide Fold, Compress, Complete, Partial, Counts;
      var at := start;
      if |data| - at >= 64 {
        var whole := (|data| - at) / 64 * 64;
        var blocks := data[at..at + whole];
        FoldAppend(Compress, INITIAL, m0 + data[..at], blocks);
        assert m0 + data[..at] + blocks == m0 + data[..at + whole];
        Body(blocks);
        at := at + whole;
      }
      LastBytes(m0, data, at);
      Copy(buffer, 0, data[at..]);
    }

    /** MD5_end; the context is cleared afterwards and must not be used again. */
    method End() returns (digest: seq<Byte>)
      requires Valid()
      modifies this, buffer
      ensures digest == Digest(old(msg))
    {
      hide Fold, Compress, Complete, Partial, Padded, LittleEndian32, LittleEndian64, Counts, LittleBytes;
      LengthBytes(lo, hi, |msg|);
      UsedBytes(lo, hi, |msg|);
      ghost var length := LittleEndian64((8 * |msg|) % TWO_64);
      var used := lo % 64;
      lo := lo * 8 % TWO_32;
      if 64 - (used + 1) < 8 {
        TwoMoreBlocks(msg, length);
        Copy(buffer, used, [0x80] + Zeros(63 - used));
        ghost var first := buffer[..];
        assert first == Partial(msg) + [0x80] + Zeros(63 - used);
        FoldAppend(Compress, INITIAL, Complete(msg), first);
        Body(buffer[..]);
        Copy(buffer, 0, Zeros(56));
        Copy(buffer, 56, LittleEndian32(lo) + LittleEndian32(hi));
        assert buffer[..] == Zeros(56) + length;
        FoldAppend(Compress, INITIAL, Complete(msg) + first, buffer[..]);
      } else {
        OneMoreBlock(msg, length);
        Copy(buffer, used, [0x80] + Zeros(55 - used));
        Copy(buffer, 56, LittleEndian32(lo) + LittleEndian32(hi));
        assert buffer[..] == Partial(msg) + [0x80] + Zeros(55 - used) + length;
        FoldAppend(Compress, INITIAL, Complete(msg), buffer[..]);
      }
      Body(buffer[..]);
      digest := LittleBytes(chain.a) + LittleBytes(chain.b) + LittleBytes(chain.c) + LittleBytes(chain.d);
    }
  }

  /** The two counter words, the first one times 8, are the bit count modulo 2^64. */
  lemma LengthBytes(lo: nat, hi: nat, n: nat)
    requires Counts(lo, hi, n)
    ensures LittleEndian32(lo * 8 % TWO_32) + LittleEndian32(hi) == LittleEndian64((8 * n) % TWO_64)
  {
    hide LittleEndian32;
    BytesBuffered(n);
    SplitWords(hi, lo * 8);
    assert (8 * n) % TWO_64 == hi * TWO_32 + lo * 8;
  }

  lemma SplitWords(hi: nat, lo: nat)
    requires lo < TWO_32
    ensures (hi * TWO_32 + lo) % TWO_32 == lo && (hi * TWO_32 + lo) / TWO_32 == hi && lo % TWO_32 == lo
  {
  }

  // ----- md5_hash -----

  /** However the input is cut into chunks, the result is the digest of the whole. */
  method HashChunks(chunks: seq<seq<Byte>>) returns (digest: seq<Byte>)
    ensures digest == Digest(Joined(chunks))
  {
    hide *;
    var ctx := new Context();
    var k := 0;
    while k < |chunks|
      invariant k <= |chunks| && ctx.Valid() && fresh(ctx) && fresh(ctx.buffer)
      invariant ctx.msg + Joined(chunks[k..]) == Joined(chunks)
    {
      JoinedStep(ctx.msg, chunks, k);
      ctx.Hash(chunks[k]);
      k := k + 1;
    }
    JoinedEnd(ctx.msg, chunks);
    digest := ctx.End();
  }

  lemma FoldNothing(s: Chain)
    ensures Fold(Compress, s, []) == s
  {
  }

  lemma UsedBytes(lo: nat, hi: nat, n: nat)
    requires Counts(lo, hi, n)
    ensures lo % 64 == n % 64
  {
  }

  lemma AlignedStart(m: seq<Byte>, data: seq<Byte>)
    requires |m| % 64 == 0
    ensures Complete(m) == m + data[..0] && (|m| + 0) % 64 == 0
  {
  }
}
