/** SHA-256 as section 6.2 of FIPS 180-4 defines it, and the streaming implementation of
    scripts/mkhash.c. */
module Sha256 {
  import opened Blocks

  // ----- FIPS 180-4 -----

  /** The eight working variables a to h, or the chaining value H0 to H7. */
  datatype Regs = Regs(a: Word, b: Word, c: Word, d: Word, e: Word, f: Word, g: Word, h: Word)

  function RotR(x: Word, n: nat): Word
    requires n <= 32
  {
    (x >> n) | (x << (32 - n))
  }

  function Ch(x: Word, y: Word, z: Word): Word { (x & y) ^ (!x & z) }
  function Maj(x: Word, y: Word, z: Word): Word { (x & y) ^ (x & z) ^ (y & z) }
  function BigSigma0(x: Word): Word { RotR(x, 2) ^ RotR(x, 13) ^ RotR(x, 22) }
  function BigSigma1(x: Word): Word { RotR(x, 6) ^ RotR(x, 11) ^ RotR(x, 25) }
  function SmallSigma0(x: Word): Word { RotR(x, 7) ^ RotR(x, 18) ^ (x >> 3) }
  function SmallSigma1(x: Word): Word { RotR(x, 17) ^ RotR(x, 19) ^ (x >> 10) }

  function RoundCount(): (n: nat)
    ensures n == 64
  {
    64
  }

  /** The round constants, eight to a row. */
  function RoundConstants(row: nat): (k: seq<nat>)
    ensures |k| == 8
  {
    match row
    case 0 => [0x428a2f98, 0x71374491, 0xb5c0fbcf, 0xe9b5dba5, 0x3956c25b, 0x59f111f1, 0x923f82a4, 0xab1c5ed5]
    case 1 => [0xd807aa98, 0x12835b01, 0x243185be, 0x550c7dc3, 0x72be5d74, 0x80deb1fe, 0x9bdc06a7, 0xc19bf174]
    case 2 => [0xe49b69c1, 0xefbe4786, 0x0fc19dc6, 0x240ca1cc, 0x2de92c6f, 0x4a7484aa, 0x5cb0a9dc, 0x76f988da]
    case 3 => [0x983e5152, 0xa831c66d, 0xb00327c8, 0xbf597fc7, 0xc6e00bf3, 0xd5a79147, 0x06ca6351, 0x14292967]
    case 4 => [0x27b70a85, 0x2e1b2138, 0x4d2c6dfc, 0x53380d13, 0x650a7354, 0x766a0abb, 0x81c2c92e, 0x92722c85]
    case 5 => [0xa2bfe8a1, 0xa81a664b, 0xc24b8b70, 0xc76c51a3, 0xd192e819, 0xd6990624, 0xf40e3585, 0x106aa070]
    case 6 => [0x19a4c116, 0x1e376c08, 0x2748774c, 0x34b0bcb5, 0x391c0cb3, 0x4ed8aa4a, 0x5b9cca4f, 0x682e6ff3]
    case _ => [0x748f82ee, 0x78a5636f, 0x84c87814, 0x8cc70208, 0x90befffa, 0xa4506ceb, 0xbef9a3f7, 0xc67178f2]
  }

  function RoundConstant(t: nat): Word { (RoundConstants(t / 8)[t % 8] % TWO_32) as Word }

  /** The message schedule. */
  function Schedule(block: seq<Byte>, t: nat): Word {
    if t < 16 then BigWord(block, t)
    else Plus(Plus(Plus(SmallSigma1(Schedule(block, t - 2)), Schedule(block, t - 7)),
                   SmallSigma0(Schedule(block, t - 15))), Schedule(block, t - 16))
  }

  function T1(v: Regs, k: Word, w: Word): Word {
    Plus(Plus(Plus(Plus(v.h, BigSigma1(v.e)), Ch(v.e, v.f, v.g)), k), w)
  }

  function T2(v: Regs): Word { Plus(BigSigma0(v.a), Maj(v.a, v.b, v.c)) }

  function Round(v: Regs, k: Word, w: Word): Regs {
    Regs(Plus(T1(v, k, w), T2(v)), v.a, v.b, v.c, Plus(v.d, T1(v, k, w)), v.e, v.f, v.g)
  }

  /** The working variables after t rounds. */
  function Rounds(v: Regs, block: seq<Byte>, t: nat): Regs {
    if t == 0 then v else Round(Rounds(v, block, t - 1), RoundConstant(t - 1), Schedule(block, t - 1))
  }

  function Add(x: Regs, y: Regs): Regs {
    Regs(Plus(x.a, y.a), Plus(x.b, y.b), Plus(x.c, y.c), Plus(x.d, y.d),
         Plus(x.e, y.e), Plus(x.f, y.f), Plus(x.g, y.g), Plus(x.h, y.h))
  }

  function Compress(v: Regs, block: seq<Byte>): Regs { Add(v, Rounds(v, block, RoundCount())) }

  const INITIAL := Regs(0x6a09e667, 0xbb67ae85, 0x3c6ef372, 0xa54ff53a, 0x510e527f, 0x9b05688c, 0x1f83d9ab, 0x5be0cd19)

  function DigestBytes(v: Regs): seq<Byte> {
    BigBytes(v.a) + BigBytes(v.b) + BigBytes(v.c) + BigBytes(v.d)
    + BigBytes(v.e) + BigBytes(v.f) + BigBytes(v.g) + BigBytes(v.h)
  }

  /** The digest of a whole message; the length field holds the bit count modulo 2^64. */
  function Digest(msg: seq<Byte>): seq<Byte> {
    DigestBytes(Fold(Compress, INITIAL, Padded(msg, BigEndian64((8 * |msg|) % TWO_64))))
  }

  // ----- SHA256_Transform -----

  /** The implementation's Ch and Maj save operations. */
  lemma FastForms(x: Word, y: Word, z: Word)
    ensures (x & (y ^ z)) ^ z == Ch(x, y, z)
    ensures (x & (y | z)) | (y & z) == Maj(x, y, z)
  {
  }

  /** ROTR and the macros S0, S1, s0 and s1. */
  function Rotr(x: Word, n: bv5): Word { (x >> n) | (x << (32 - (n as bv6))) }
  function MacroS0(x: Word): Word { Rotr(x, 2) ^ Rotr(x, 13) ^ Rotr(x, 22) }
  function MacroS1(x: Word): Word { Rotr(x, 6) ^ Rotr(x, 11) ^ Rotr(x, 25) }
  function MacroLowS0(x: Word): Word { Rotr(x, 7) ^ Rotr(x, 18) ^ (x >> 3) }
  function MacroLowS1(x: Word): Word { Rotr(x, 17) ^ Rotr(x, 19) ^ (x >> 10) }

  lemma Rotations(x: Word)
    ensures Rotr(x, 2) == RotR(x, 2) && Rotr(x, 13) == RotR(x, 13) && Rotr(x, 22) == RotR(x, 22)
    ensures Rotr(x, 6) == RotR(x, 6) && Rotr(x, 11) == RotR(x, 11) && Rotr(x, 25) == RotR(x, 25)
  {
  }

  lemma LowRotations(x: Word)
    ensures Rotr(x, 7) == RotR(x, 7) && Rotr(x, 18) == RotR(x, 18)
    ensures Rotr(x, 17) == RotR(x, 17) && Rotr(x, 19) == RotR(x, 19)
  {
  }

  lemma MacroS0Form(x: Word)
    ensures MacroS0(x) == BigSigma0(x)
  {
    hide RotR, Rotr;
    Rotations(x);
  }

  lemma MacroS1Form(x: Word)
    ensures MacroS1(x) == BigSigma1(x)
  {
    hide RotR, Rotr;
    Rotations(x);
  }

  lemma MacroLowS0Form(x: Word)
    ensures MacroLowS0(x) == SmallSigma0(x)
  {
    hide RotR, Rotr;
    LowRotations(x);
  }

  lemma MacroLowS1Form(x: Word)
    ensures MacroLowS1(x) == SmallSigma1(x)
  {
    hide RotR, Rotr;
    LowRotations(x);
  }

  function FastCh(x: Word, y: Word, z: Word): Word { (x & (y ^ z)) ^ z }
  function FastMaj(x: Word, y: Word, z: Word): Word { (x & (y | z)) | (y & z) }

  lemma FastFunctions(x: Word, y: Word, z: Word)
    ensures FastCh(x, y, z) == Ch(x, y, z) && FastMaj(x, y, z) == Maj(x, y, z)
  {
    hide Ch, Maj;
    FastForms(x, y, z);
  }

  /** The array index that holds working variable j (0 for a, 7 for h) before round i. */
  function Slot(i: nat, j: nat): (k: nat)
    requires i <= 16 && j < 8
    ensures k < 8
  {
    (64 + j - i) % 8
  }

  /** The working variables before round i, read through the rotated register numbers. */
  function Rotated(s: seq<Word>, i: nat): Regs
    requires |s| == 8 && i <= 16
  {
    Regs(s[Slot(i, 0)], s[Slot(i, 1)], s[Slot(i, 2)], s[Slot(i, 3)],
         s[Slot(i, 4)], s[Slot(i, 5)], s[Slot(i, 6)], s[Slot(i, 7)])
  }

  lemma SlotShift(i: nat, j: nat)
    requires i < 16 && j < 7
    ensures Slot(i + 1, j + 1) == Slot(i, j)
    ensures Slot(i + 1, 0) == Slot(i, 7)
  {
  }

  lemma SlotDistinct(i: nat, j: nat, k: nat)
    requires i <= 16 && j < 8 && k < 8 && j != k
    ensures Slot(i, j) != Slot(i, k)
  {
  }

  /** Writing only d and h, and renumbering, is a whole rotation of the working variables. */
  lemma RotatedUpdate(s: seq<Word>, i: nat, x: Word, y: Word)
    requires |s| == 8 && i < 16
    ensures var v := Rotated(s, i);
            Rotated(s[Slot(i, 3) := x][Slot(i, 7) := y], i + 1) == Regs(y, v.a, v.b, v.c, x, v.e, v.f, v.g)
  {
    forall j: nat | j < 7 ensures Slot(i + 1, j + 1) == Slot(i, j) && Slot(i + 1, 0) == Slot(i, 7) {
      SlotShift(i, j);
    }
    forall j: nat, k: nat | j < 8 && k < 8 && j != k ensures Slot(i, j) != Slot(i, k) {
      SlotDistinct(i, j, k);
    }
    hide Slot;
    assert Slot(i + 1, 1) == Slot(i, 0) && Slot(i + 1, 2) == Slot(i, 1) && Slot(i + 1, 3) == Slot(i, 2);
    assert Slot(i + 1, 4) == Slot(i, 3) && Slot(i + 1, 5) == Slot(i, 4) && Slot(i + 1, 6) == Slot(i, 5);
    assert Slot(i + 1, 7) == Slot(i, 6) && Slot(i + 1, 0) == Slot(i, 7);
  }

  /** The additions of RND, in its order. */
  lemma RoundSums(v: Regs, k: Word, w: Word)
    ensures Plus(v.h, Plus(Plus(MacroS1(v.e), FastCh(v.e, v.f, v.g)), Plus(w, k))) == T1(v, k, w)
    ensures Plus(MacroS0(v.a), FastMaj(v.a, v.b, v.c)) == T2(v)
  {
    hide Plus, BigSigma0, BigSigma1, MacroS0, MacroS1, Ch, Maj, FastCh, FastMaj;
    FastFunctions(v.e, v.f, v.g);
    FastFunctions(v.a, v.b, v.c);
    MacroS1Form(v.e);
    MacroS0Form(v.a);
    var h, s, c := v.h, BigSigma1(v.e), Ch(v.e, v.f, v.g);
    PlusCommutes(w, k);
    PlusAssoc(h, Plus(s, c), Plus(k, w));
    PlusAssoc(h, s, c);
    PlusAssoc(Plus(Plus(h, s), c), k, w);
  }

  /** RNDr: only two registers are written, the others are renumbered. */
  method RotatedRound(s: array<Word>, i: nat, w: Word, k: Word)
    requires s.Length == 8 && i < 16
    modifies s
    ensures Rotated(s[..], i + 1) == Round(Rotated(old(s[..]), i), k, w)
  {
    hide MacroS0, MacroS1, FastCh, FastMaj, T1, T2, Plus, Slot;
    ghost var s0, v := s[..], Rotated(s[..], i);
    var a, b, c, d := s[Slot(i, 0)], s[Slot(i, 1)], s[Slot(i, 2)], s[Slot(i, 3)];
    var e, f, g, h := s[Slot(i, 4)], s[Slot(i, 5)], s[Slot(i, 6)], s[Slot(i, 7)];
    RoundSums(v, k, w);
    SlotDistinct(i, 3, 7);
    h := Plus(h, Plus(Plus(MacroS1(e), FastCh(e, f, g)), Plus(w, k)));
    d := Plus(d, h);
    s[Slot(i, 3)] := d;
    h := Plus(h, Plus(MacroS0(a), FastMaj(a, b, c)));
    s[Slot(i, 7)] := h;
    RotatedUpdate(s0, i, d, h);
    assert s[..] == s0[Slot(i, 3) := d][Slot(i, 7) := h];
  }

  // ----- the 64 rounds, interleaved with the message schedule in groups of 16 -----

  function FromSeq(s: seq<Word>): Regs
    requires |s| == 8
  {
    Regs(s[0], s[1], s[2], s[3], s[4], s[5], s[6], s[7])
  }

  lemma ScheduleStep(block: seq<Byte>, t: nat)
    ensures Schedule(block, t + 16) ==
      Plus(Plus(Plus(MacroLowS1(Schedule(block, t + 14)), Schedule(block, t + 9)),
                MacroLowS0(Schedule(block, t + 1))), Schedule(block, t))
  {
    hide Plus, SmallSigma0, SmallSigma1, MacroLowS0, MacroLowS1, BigWord;
    MacroLowS1Form(Schedule(block, t + 14));
    MacroLowS0Form(Schedule(block, t + 1));
  }

  /** MSCH for the sixteen words after the current group. */
  method ExtendSchedule(w: array<Word>, i: nat, ghost block: seq<Byte>)
    requires w.Length == 64 && i + 32 <= 64
    requires forall t :: 0 <= t < i + 16 ==> w[t] == Schedule(block, t)
    modifies w
    ensures forall t :: 0 <= t < i + 32 ==> w[t] == Schedule(block, t)
  {
    hide *;
    var ii := 0;
    while ii < 16
      invariant ii <= 16
      invariant forall t :: 0 <= t < i + ii + 16 ==> w[t] == Schedule(block, t)
    {
      var t: nat := i + ii;
      ScheduleStep(block, t);
      assert w[t] == Schedule(block, t) && w[t + 1] == Schedule(block, t + 1);
      assert w[t + 9] == Schedule(block, t + 9) && w[t + 14] == Schedule(block, t + 14);
      w[t + 16] := Plus(Plus(Plus(MacroLowS1(w[t + 14]), w[t + 9]), MacroLowS0(w[t + 1])), w[t]);
      ii := ii + 1;
    }
  }

  /** Sixteen rounds on the current group of schedule words. */
  method SixteenRounds(w: array<Word>, s: array<Word>, i: nat, ghost v: Regs, ghost block: seq<Byte>)
    requires w.Length == 64 && s.Length == 8 && w != s && i + 16 <= 64
    requires forall k :: 0 <= k < i + 16 ==> w[k] == Schedule(block, k)
    requires Rotated(s[..], 0) == Rounds(v, block, i)
    modifies s
    ensures Rotated(s[..], 0) == Rounds(v, block, i + 16)
  {
    hide *;
    var ii := 0;
    while ii < 16
      invariant ii <= 16
      invariant Rotated(s[..], ii) == Rounds(v, block, i + ii)
    {
      RotatedRound(s, ii, w[i + ii], RoundConstant(i + ii));
      RoundsStep(v, block, i + ii);
      ii := ii + 1;
    }
    SameNumbering(s[..]);
  }

  /** After sixteen rounds the numbering is back where it started. */
  lemma SameNumbering(s: seq<Word>)
    requires |s| == 8
    ensures Rotated(s, 16) == Rotated(s, 0) == FromSeq(s)
  {
  }

  lemma RoundsStep(v: Regs, block: seq<Byte>, t: nat)
    ensures Rounds(v, block, t + 1) == Round(Rounds(v, block, t), RoundConstant(t), Schedule(block, t))
  {
  }

  lemma NoRounds(v: Regs, block: seq<Byte>)
    ensures Rounds(v, block, 0) == v
  {
  }

  /** The loop over four groups of rounds; the last one needs no more schedule words. */
  method Mix(w: array<Word>, s: array<Word>, ghost v: Regs, ghost block: seq<Byte>)
    requires w.Length == 64 && s.Length == 8 && w != s
    requires forall k :: 0 <= k < 16 ==> w[k] == Schedule(block, k)
    requires FromSeq(s[..]) == v
    modifies w, s
    ensures FromSeq(s[..]) == Rounds(v, block, RoundCount())
  {
    hide *;
    SameNumbering(s[..]);
    NoRounds(v, block);
    var i := 0;
    while true
      invariant i <= 48 && i % 16 == 0
      invariant forall k :: 0 <= k < i + 16 ==> w[k] == Schedule(block, k)
      invariant Rotated(s[..], 0) == Rounds(v, block, i)
      decreases 64 - i
    {
      SixteenRounds(w, s, i, v, block);
      if i == 48 {
        break;
      }
      ExtendSchedule(w, i, block);
      i := i + 16;
    }
    SameNumbering(s[..]);
  }

  /** SHA256_Transform computes the compression function of the standard. */
  method Transform(state: array<Word>, block: seq<Byte>)
    requires state.Length == 8 && |block| == 64
    modifies state
    ensures FromSeq(state[..]) == Compress(FromSeq(old(state[..])), block)
  {
    hide *;
    var w := new Word[64];
    var t := 0;
    while t < 16
      invariant t <= 16 && forall k :: 0 <= k < t ==> w[k] == Schedule(block, k)
      invariant unchanged(state)
    {
      FirstWords(block, t);
      Be32DecWord(block, t);
      w[t] := Be32Dec(block, 4 * t);
      t := t + 1;
    }
    ghost var h := state[..];
    var s := new Word[8];
    forall k | 0 <= k < 8 { s[k] := state[k]; }
    assert s[..] == h;
    Mix(w, s, FromSeq(h), block);
    ghost var r := s[..];
    assert state[..] == h && h == old(state[..]);
    forall k | 0 <= k < 8 { state[k] := Plus(state[k], s[k]); }
    AddedUp(h, r, state[..], block);
    assert FromSeq(state[..]) == Compress(FromSeq(h), block);
  }

  /** be16dec and be32dec at byte p. */
  function Be16Dec(block: seq<Byte>, p: nat): Word
    requires p + 2 <= |block|
  {
    ((block[p] as Word) << 8) | (block[p + 1] as Word)
  }

  function Be32Dec(block: seq<Byte>, p: nat): Word
    requires p + 4 <= |block|
  {
    (Be16Dec(block, p) << 16) | Be16Dec(block, p + 2)
  }

  lemma Be32DecWord(block: seq<Byte>, t: nat)
    requires 4 * t + 4 <= |block|
    ensures Be32Dec(block, 4 * t) == BigWord(block, t)
  {
  }

  lemma FirstWords(block: seq<Byte>, t: nat)
    requires t < 16
    ensures Schedule(block, t) == BigWord(block, t)
  {
  }

  lemma AddedUp(h: seq<Word>, r: seq<Word>, x: seq<Word>, block: seq<Byte>)
    requires |h| == 8 && |r| == 8 && |x| == 8 && forall k :: 0 <= k < 8 ==> x[k] == Plus(h[k], r[k])
    requires FromSeq(r) == Rounds(FromSeq(h), block, RoundCount())
    ensures FromSeq(x) == Compress(FromSeq(h), block)
  {
    hide Plus, Rounds, RoundCount;
  }

  // ----- the context: SHA256_Init, SHA256_Update, SHA256_Final -----

  class Context {
    var state: array<Word>
    var count: nat            // bits so far, modulo 2^64
    var buf: array<Byte>
    ghost var msg: seq<Byte>  // every byte since the last initialization

    ghost predicate Valid()
      reads this, state, buf
    {
      && state.Length == 8 && buf.Length == 64
      && count == (8 * |msg|) % TWO_64
      && FromSeq(state[..]) == Fold(Compress, INITIAL, Complete(msg))
      && buf[..|msg| % 64] == Partial(msg)
    }

    /** SHA256_Init. */
    constructor ()
      ensures Valid() && fresh(state) && fresh(buf) && msg == []
    {
      state := new Word[] [0x6a09e667, 0xbb67ae85, 0x3c6ef372, 0xa54ff53a, 0x510e527f, 0x9b05688c, 0x1f83d9ab,
        0x5be0cd19];
      count := 0;
      buf := new Byte[64];
      msg := [];
    }

    /** SHA256_Update. */
    method Update(src: seq<Byte>)
      requires Valid()
      modifies this`count, this`msg, state, buf
      ensures Valid() && msg == old(msg) + src
    {
      hide Compress, Fold, FromSeq, Complete, Partial;
      var r := count / 8 % 64;
      BytesBuffered(|msg|);
      CountAdds(|msg|, |src|);
      count := (count + (8 * |src|) % TWO_64) % TWO_64;
      ghost var m0 := msg;
      msg := msg + src;
      if |src| < 64 - r {
        StillPartial(m0, src);
        Copy(buf, r, src);
        return;
      }
      Copy(buf, r, src[..64 - r]);
      FirstBlock(m0, src);
      assert buf[..] == Partial(m0) + src[..64 - r];
      FoldOne(Compress, INITIAL, Complete(m0), buf[..]);
      Transform(state, buf[..]);
      var at := CompleteBlocks(m0, src, 64 - r);
      LastBytes(m0, src, at);
      Copy(buf, 0, src[at..]);
    }

    /** SHA256_Pad. */
    method Pad()
      requires Valid()
      modifies state, buf
      ensures state.Length == 8 && unchanged(`state)
      ensures FromSeq(state[..]) == Fold(Compress, INITIAL, Padded(msg, BigEndian64((8 * |msg|) % TWO_64)))
    {
      hide Compress, Fold, FromSeq, Complete, Partial, Padded, BigEndian64;
      var r := count / 8 % 64;
      BytesBuffered(|msg|);
      ghost var length := BigEndian64(count);
      if r < 56 {
        Copy(buf, r, [0x80] + Zeros(55 - r));
        Copy(buf, 56, BigEndian64(count));
        OneMoreBlock(msg, length);
        assert buf[..] == Partial(msg) + [0x80] + Zeros(55 - r) + length;
        FoldOne(Compress, INITIAL, Complete(msg), buf[..]);
        Transform(state, buf[..]);
      } else {
        TwoMoreBlocks(msg, length);
        Copy(buf, r, [0x80] + Zeros(63 - r));
        assert buf[..] == Partial(msg) + [0x80] + Zeros(63 - r);
        FoldOne(Compress, INITIAL, Complete(msg), buf[..]);
        ghost var first := buf[..];
        Transform(state, buf[..]);
        Copy(buf, 0, Zeros(56));
        Copy(buf, 56, BigEndian64(count));
        assert buf[..] == Zeros(56) + length;
        FoldOne(Compress, INITIAL, Complete(msg) + first, buf[..]);
        Transform(state, buf[..]);
      }
    }

    /** SHA256_Final; the context is cleared afterwards and must not be used again. */
    method Final() returns (digest: seq<Byte>)
      requires Valid()
      modifies this, state, buf
      ensures digest == Digest(old(msg))
    {
      hide Compress, Fold, FromSeq;
      Pad();
      digest := [];
      var i := 0;
      ghost var words := state[..];
      while i < 8
        invariant i <= 8 && state[..] == words && digest == Encoded(words[..i])
      {
        EncodedAppend(words[..i], words[i]);
        assert words[..i + 1] == words[..i] + [words[i]];
        digest := digest + BigBytes(state[i]);
        i := i + 1;
      }
      assert words[..8] == words;
      EncodedDigest(words);
      count := 0;
    }

    /** The loop of SHA256_Update over complete blocks. */
    method CompleteBlocks(ghost m: seq<Byte>, src: seq<Byte>, start: nat) returns (at: nat)
      requires state.Length == 8 && start <= |src| && (|m| + start) % 64 == 0
      requires FromSeq(state[..]) == Fold(Compress, INITIAL, m + src[..start])
      modifies state
      ensures start <= at <= |src| && |src| - at < 64 && (|m| + at) % 64 == 0
      ensures FromSeq(state[..]) == Fold(Compress, INITIAL, m + src[..at])
    {
      hide *;
      at := start;
      while |src| - at >= 64
        invariant start <= at <= |src| && (|m| + at) % 64 == 0
        invariant FromSeq(state[..]) == Fold(Compress, INITIAL, m + src[..at])
      {
        FoldOne(Compress, INITIAL, m + src[..at], src[at..at + 64]);
        assert m + src[..at + 64] == m + src[..at] + src[at..at + 64];
        Transform(state, src[at..at + 64]);
        at := at + 64;
      }
    }
  }

  /** be32enc_vect. */
  ghost function Encoded(ws: seq<Word>): seq<Byte> {
    if ws == [] then [] else BigBytes(ws[0]) + Encoded(ws[1..])
  }

  lemma {:induction false} EncodedAppend(ws: seq<Word>, w: Word)
    ensures Encoded(ws + [w]) == Encoded(ws) + BigBytes(w)
  {
    hide BigBytes;
    if ws != [] {
      assert (ws + [w])[1..] == ws[1..] + [w];
      EncodedAppend(ws[1..], w);
    } else {
      assert ws + [w] == [w] && [w][1..] == [];
    }
  }

  lemma EncodedDigest(ws: seq<Word>)
    requires |ws| == 8
    ensures Encoded(ws) == DigestBytes(FromSeq(ws))
  {
    hide BigBytes;
    assert ws[..0] == [] && ws[..8] == ws;
    forall k | 0 <= k < 8 ensures Encoded(ws[..k + 1]) == Encoded(ws[..k]) + BigBytes(ws[k]) {
      assert ws[..k + 1] == ws[..k] + [ws[k]];
      EncodedAppend(ws[..k], ws[k]);
    }
    assert Encoded(ws[..1]) == BigBytes(ws[0]);
    assert Encoded(ws[..2]) == Encoded(ws[..1]) + BigBytes(ws[1]);
    assert Encoded(ws[..3]) == Encoded(ws[..2]) + BigBytes(ws[2]);
    assert Encoded(ws[..4]) == Encoded(ws[..3]) + BigBytes(ws[3]);
    assert Encoded(ws[..5]) == Encoded(ws[..4]) + BigBytes(ws[4]);
    assert Encoded(ws[..6]) == Encoded(ws[..5]) + BigBytes(ws[5]);
    assert Encoded(ws[..7]) == Encoded(ws[..6]) + BigBytes(ws[6]);
    assert Encoded(ws[..8]) == Encoded(ws[..7]) + BigBytes(ws[7]);
  }

  // ----- sha256_hash -----

  /** However the input is cut into chunks, the result is the digest of the whole. */
  method Hash(chunks: seq<seq<Byte>>) returns (digest: seq<Byte>)
    ensures digest == Digest(Joined(chunks))
  {
    hide *;
    var ctx := new Context();
    var k := 0;
    while k < |chunks|
      invariant k <= |chunks| && ctx.Valid() && fresh(ctx) && fresh(ctx.state) && fresh(ctx.buf)
      invariant ctx.msg + Joined(chunks[k..]) == Joined(chunks)
    {
      JoinedStep(ctx.msg, chunks, k);
      ctx.Update(chunks[k]);
      k := k + 1;
    }
    JoinedEnd(ctx.msg, chunks);
    digest := ctx.Final();
  }

  lemma CountAdds(n: nat, k: nat)
    ensures ((8 * n) % TWO_64 + (8 * k) % TWO_64) % TWO_64 == (8 * (n + k)) % TWO_64
  {
  }

  /** Below 2^61 bytes the length field is the bit count itself, as section 5.1.1 of FIPS 180-4
      asks, and the padding is the shortest possible. */
  lemma StandardPadding(msg: seq<Byte>, z: nat)
    requires |msg| < TWO_61
    ensures (8 * |msg|) % TWO_64 == 8 * |msg|
    ensures (|msg| + 1 + z) % 64 == 56 ==> ZerosNeeded(|msg|) <= z
    ensures (|msg| + 1 + ZerosNeeded(|msg|)) % 64 == 56
  {
    ShortestPadding(|msg|, z);
  }

  lemma ShortestPadding(n: nat, z: nat)
    ensures (n + 1 + z) % 64 == 56 ==> ZerosNeeded(n) <= z
    ensures (n + 1 + ZerosNeeded(n)) % 64 == 56
  {
    var r, q := n % 64, n / 64;
    assert n == 64 * q + r;
    assert (n + 1 + z) % 64 == (r + 1 + z) % 64;
    assert (n + 1 + ZerosNeeded(n)) % 64 == (r + 1 + ZerosNeeded(n)) % 64;
  }

  // ----- where the constants come from (sections 4.2.2 and 5.3.3 of FIPS 180-4) -----

  const TWO_96 := TWO_32 * TWO_32 * TWO_32

  /** n is the cube root of p, times 2^32, rounded down. */
  predicate CubeRoot(p: nat, n: nat) { n * n * n <= p * TWO_96 < (n + 1) * (n + 1) * (n + 1) }

  predicate SquareRoot(p: nat, n: nat) { n * n <= p * TWO_64 < (n + 1) * (n + 1) }

  function FirstPrimes(row: nat): (p: seq<nat>)
    ensures |p| == 8
  {
    match row
    case 0 => [2, 3, 5, 7, 11, 13, 17, 19]
    case 1 => [23, 29, 31, 37, 41, 43, 47, 53]
    case 2 => [59, 61, 67, 71, 73, 79, 83, 89]
    case 3 => [97, 101, 103, 107, 109, 113, 127, 131]
    case 4 => [137, 139, 149, 151, 157, 163, 167, 173]
    case 5 => [179, 181, 191, 193, 197, 199, 211, 223]
    case 6 => [227, 229, 233, 239, 241, 251, 257, 263]
    case _ => [269, 271, 277, 281, 283, 293, 307, 311]
  }

  /** Those cube roots. */
  function Roots(row: nat): (n: seq<nat>)
    ensures |n| == 8
  {
    match row
    case 0 => [0x1428a2f98, 0x171374491, 0x1b5c0fbcf, 0x1e9b5dba5, 0x23956c25b, 0x259f111f1, 0x2923f82a4, 0x2ab1c5ed5]
    case 1 => [0x2d807aa98, 0x312835b01, 0x3243185be, 0x3550c7dc3, 0x372be5d74, 0x380deb1fe, 0x39bdc06a7, 0x3c19bf174]
    case 2 => [0x3e49b69c1, 0x3efbe4786, 0x40fc19dc6, 0x4240ca1cc, 0x42de92c6f, 0x44a7484aa, 0x45cb0a9dc, 0x476f988da]
    case 3 => [0x4983e5152, 0x4a831c66d, 0x4b00327c8, 0x4bf597fc7, 0x4c6e00bf3, 0x4d5a79147, 0x506ca6351, 0x514292967]
    case 4 => [0x527b70a85, 0x52e1b2138, 0x54d2c6dfc, 0x553380d13, 0x5650a7354, 0x5766a0abb, 0x581c2c92e, 0x592722c85]
    case 5 => [0x5a2bfe8a1, 0x5a81a664b, 0x5c24b8b70, 0x5c76c51a3, 0x5d192e819, 0x5d6990624, 0x5f40e3585, 0x6106aa070]
    case 6 => [0x619a4c116, 0x61e376c08, 0x62748774c, 0x634b0bcb5, 0x6391c0cb3, 0x64ed8aa4a, 0x65b9cca4f, 0x6682e6ff3]
    case _ => [0x6748f82ee, 0x678a5636f, 0x684c87814, 0x68cc70208, 0x690befffa, 0x6a4506ceb, 0x6bef9a3f7, 0x6c67178f2]
  }

  predicate RootAt(row: nat, k: nat)
    requires k < 8
  {
    CubeRoot(FirstPrimes(row)[k], Roots(row)[k]) && RoundConstants(row)[k] == Roots(row)[k] % TWO_32
  }

  lemma RootRow(row: nat)
    requires row < 8
    ensures forall k: nat :: k < 8 ==> RootAt(row, k)
  {
    hide RootAt;
    if row <= 1 { FirstRows(row); } else if row <= 3 { SecondRows(row); }
    else if row <= 5 { ThirdRows(row); } else { FourthRows(row); }
  }

  lemma FirstRows(row: nat)
    requires row == 0 || row == 1
    ensures forall k: nat :: k < 8 ==> RootAt(row, k)
  {
    assert RootAt(row, 0) && RootAt(row, 1) && RootAt(row, 2) && RootAt(row, 3);
    assert RootAt(row, 4) && RootAt(row, 5) && RootAt(row, 6) && RootAt(row, 7);
  }

  lemma SecondRows(row: nat)
    requires row == 2 || row == 3
    ensures forall k: nat :: k < 8 ==> RootAt(row, k)
  {
    assert RootAt(row, 0) && RootAt(row, 1) && RootAt(row, 2) && RootAt(row, 3);
    assert RootAt(row, 4) && RootAt(row, 5) && RootAt(row, 6) && RootAt(row, 7);
  }

  lemma ThirdRows(row: nat)
    requires row == 4 || row == 5
    ensures forall k: nat :: k < 8 ==> RootAt(row, k)
  {
    assert RootAt(row, 0) && RootAt(row, 1) && RootAt(row, 2) && RootAt(row, 3);
    assert RootAt(row, 4) && RootAt(row, 5) && RootAt(row, 6) && RootAt(row, 7);
  }

  lemma FourthRows(row: nat)
    requires row == 6 || row == 7
    ensures forall k: nat :: k < 8 ==> RootAt(row, k)
  {
    assert RootAt(row, 0) && RootAt(row, 1) && RootAt(row, 2) && RootAt(row, 3);
    assert RootAt(row, 4) && RootAt(row, 5) && RootAt(row, 6) && RootAt(row, 7);
  }

  /** Round constant t is made of the first 32 bits of the fraction of the cube root of prime t. */
  lemma ConstantsFromPrimes(t: nat)
    requires t < RoundCount()
    ensures exists n: nat :: CubeRoot(FirstPrimes(t / 8)[t % 8], n) && RoundConstant(t) == (n % TWO_32) as Word
  {
    hide CubeRoot, FirstPrimes, Roots, RoundConstants;
    RootRow(t / 8);
    assert RootAt(t / 8, t % 8);
  }

  /** The initial values are made of the first 32 bits of the fractions of the square roots of the
      first eight primes. */
  lemma InitialFromPrimes()
    ensures INITIAL == Regs(0x6a09e667, 0xbb67ae85, 0x3c6ef372, 0xa54ff53a, 0x510e527f, 0x9b05688c, 0x1f83d9ab,
      0x5be0cd19)
    ensures SquareRoot(2, 1 * TWO_32 + 0x6a09e667) && SquareRoot(3, 1 * TWO_32 + 0xbb67ae85)
    ensures SquareRoot(5, 2 * TWO_32 + 0x3c6ef372) && SquareRoot(7, 2 * TWO_32 + 0xa54ff53a)
    ensures SquareRoot(11, 3 * TWO_32 + 0x510e527f) && SquareRoot(13, 3 * TWO_32 + 0x9b05688c)
    ensures SquareRoot(17, 4 * TWO_32 + 0x1f83d9ab) && SquareRoot(19, 4 * TWO_32 + 0x5be0cd19)
  {
  }

  /** Encoding a word and decoding it again. */
  lemma BigRoundTrip(w: Word, b: seq<Byte>)
    requires |b| == 4
    ensures BigWord(BigBytes(w), 0) == w && BigBytes(BigWord(b, 0)) == b
  {
  }
}
