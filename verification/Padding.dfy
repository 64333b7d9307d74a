/** Padding of a flash image to several block sizes (tools/padjffs2/src/padjffs2.c). */
module Padding {

  import Blocks

  type Byte = Blocks.Byte

  const FILLER: Byte := 0xff
  const EOF_MARK: seq<Byte> := [0xde, 0xad, 0xc0, 0xde]
  const JFFS2_PAD_BE: seq<Byte> := [0x19, 0x85, 0x20, 0x04, 0x04, 0, 0, 0, 0xc4, 0x94, 0xdb, 0xf4]
  const JFFS2_PAD_LE: seq<Byte> := [0x85, 0x19, 0x04, 0x20, 0, 0, 0, 0x04, 0xa8, 0xfb, 0xa0, 0xb4]

  const BUF_SIZE: nat := 65536
  /** Only bits 10 to 31 of the pad mask are looked at. */
  const LOW: nat := 10
  const HIGH: nat := 32

  // ----- bits of a number, the lowest first -----

  function Pow2(i: nat): (m: nat)
    ensures m > 0
  {
    if i == 0 then 1 else 2 * Pow2(i - 1)
  }

  /** The i lowest bits are zero: x & (2^i - 1) == 0. */
  predicate Aligned(x: nat, i: nat) {
    i == 0 || (x % 2 == 0 && Aligned(x / 2, i - 1))
  }

  /** x & ~(2^i - 1). */
  function ClearLow(x: nat, i: nat): nat {
    if i == 0 then x else 2 * ClearLow(x / 2, i - 1)
  }

  /** The k lowest bits of x. */
  function Truncate(x: nat, k: nat): (r: nat)
    ensures r < Pow2(k) && r <= x
  {
    if k == 0 then 0 else 2 * Truncate(x / 2, k - 1) + x % 2
  }

  lemma {:induction false} TruncateFits(x: nat, k: nat)
    ensures Truncate(x, k) == x <==> x < Pow2(k)
  {
    if k > 0 { TruncateFits(x / 2, k - 1); }
  }

  lemma {:induction false} TruncateAligned(x: nat, i: nat, k: nat)
    requires i <= k
    ensures Aligned(Truncate(x, k), i) <==> Aligned(x, i)
  {
    if i > 0 { TruncateAligned(x / 2, i - 1, k - 1); }
  }

  lemma {:induction false} ClearTruncated(x: nat, i: nat, k: nat)
    requires i <= k
    ensures ClearLow(Truncate(x, k), i) == Truncate(ClearLow(x, i), k)
  {
    if i > 0 { ClearTruncated(x / 2, i - 1, k - 1); }
  }

  /** What is aligned to a block is aligned to every smaller one. */
  lemma {:induction false} AlignedLess(x: nat, i: nat, j: nat)
    requires i <= j && Aligned(x, j)
    ensures Aligned(x, i)
  {
    if i > 0 { AlignedLess(x / 2, i - 1, j - 1); }
  }

  /** Two different aligned sizes are at least one block apart. */
  lemma {:induction false} AlignedGap(x: nat, y: nat, i: nat)
    requires Aligned(x, i) && Aligned(y, i) && x < y
    ensures x + Pow2(i) <= y
  {
    if i > 0 { AlignedGap(x / 2, y / 2, i - 1); }
  }

  lemma {:induction false} PowMonotone(i: nat, j: nat)
    requires i <= j
    ensures Pow2(i) <= Pow2(j)
  {
    if i < j { PowMonotone(i, j - 1); }
  }

  // ----- rounding up -----

  /** The least multiple of 2^i that is not below x. */
  function RoundUp(x: nat, i: nat): (y: nat)
    ensures x <= y < x + Pow2(i) && Aligned(y, i)
  {
    if i == 0 then x else 2 * RoundUp((x + 1) / 2, i - 1)
  }

  lemma {:induction false} RoundUpLeast(x: nat, i: nat, y: nat)
    requires x <= y && Aligned(y, i)
    ensures RoundUp(x, i) <= y
  {
    if i > 0 { RoundUpLeast((x + 1) / 2, i - 1, y / 2); }
  }

  lemma RoundUpFixed(x: nat, i: nat)
    ensures RoundUp(x, i) == x <==> Aligned(x, i)
  {
    if Aligned(x, i) { RoundUpLeast(x, i, x); }
  }

  /** Rounding to smaller blocks first changes nothing. */
  lemma RoundUpTwice(x: nat, i: nat, j: nat)
    requires i <= j
    ensures RoundUp(RoundUp(x, i), j) == RoundUp(x, j) >= RoundUp(x, i)
  {
    AlignedLess(RoundUp(x, j), i, j);
    RoundUpLeast(x, i, RoundUp(x, j));
    RoundUpLeast(RoundUp(x, i), j, RoundUp(x, j));
    RoundUpLeast(x, j, RoundUp(RoundUp(x, i), j));
  }

  /** ALIGN(x, 2^i): the mask is 32 bits wide, so the upper bits of x are lost as well. */
  function Align(x: nat, i: nat): (y: nat) {
    ClearLow(Truncate(x + Pow2(i) - 1, HIGH), i)
  }

  lemma {:induction false} ClearRoundsUp(x: nat, i: nat)
    ensures ClearLow(x + Pow2(i) - 1, i) == RoundUp(x, i)
  {
    if i > 0 {
      assert (x + Pow2(i) - 1) / 2 == (x + 1) / 2 + Pow2(i - 1) - 1;
      ClearRoundsUp((x + 1) / 2, i - 1);
    }
  }

  lemma AlignIsRoundUp(x: nat, i: nat)
    requires i <= HIGH
    ensures Align(x, i) == Truncate(RoundUp(x, i), HIGH)
    ensures Align(x, i) == RoundUp(x, i) <==> RoundUp(x, i) < Pow2(HIGH)
    ensures forall j :: i <= j <= HIGH ==> (Aligned(Align(x, i), j) <==> Aligned(RoundUp(x, i), j))
  {
    hide Truncate, ClearLow, RoundUp, Aligned, Pow2;
    ClearTruncated(x + Pow2(i) - 1, i, HIGH);
    ClearRoundsUp(x, i);
    TruncateFits(RoundUp(x, i), HIGH);
    forall j | i <= j <= HIGH ensures Aligned(Truncate(RoundUp(x, i), HIGH), j) <==> Aligned(RoundUp(x, i), j) {
      TruncateAligned(RoundUp(x, i), j, HIGH);
    }
  }

  // ----- where markers are written -----

  predicate Mask(bits: set<nat>) { forall i :: i in bits ==> LOW <= i < HIGH }

  /** The lowest bit of a mask that is not empty. */
  predicate Lowest(i: nat, bits: set<nat>) { i in bits && forall j :: j in bits ==> i <= j }

  ghost function First(bits: set<nat>): (i: nat)
    requires bits != {}
    ensures Lowest(i, bits)
  {
    FirstExists(bits);
    var i :| Lowest(i, bits); i
  }

  lemma {:induction false} FirstExists(bits: set<nat>)
    requires bits != {}
    ensures exists i :: Lowest(i, bits)
  {
    var b :| b in bits;
    if bits != {b} {
      FirstExists(bits - {b});
      var i :| Lowest(i, bits - {b});
      assert forall j :: j in bits ==> j == b || j in bits - {b};
      assert Lowest(if b < i then b else i, bits);
    } else {
      assert Lowest(b, bits);
    }
  }

  /** The bits that are still to be served once the image is x bytes long. */
  function Unserved(bits: set<nat>, x: nat): (r: set<nat>)
    ensures r <= bits
  {
    set i | i in bits && !Aligned(x, i)
  }

  lemma FirstServed(bits: set<nat>, x: nat)
    requires bits != {} && Mask(bits)
    ensures First(bits) !in Unserved(bits, Align(x, First(bits)))
  {
    hide Align, Aligned, RoundUp;
    AlignIsRoundUp(x, First(bits));
  }

  /** The image sizes the loop rounds up to, starting from a size of x bytes. */
  ghost function Stops(x: nat, bits: set<nat>): seq<nat>
    requires Mask(bits)
    decreases bits
  {
    if bits == {} then []
    else
      var y := Align(x, First(bits));
      FirstServed(bits, x);
      [y] + Stops(y, Unserved(bits, y))
  }

  function Fill(n: nat): (s: seq<Byte>)
    ensures |s| == n && forall k :: 0 <= k < n ==> s[k] == FILLER
  {
    seq(n, _ => FILLER)
  }

  /** What is written when 'at' bytes are there already: filler up to each stop, and a marker. */
  function Written(at: nat, stops: seq<nat>, pad: seq<Byte>): seq<Byte>
    decreases |stops|
  {
    if stops == [] then []
    else
      var to := if stops[0] > at then stops[0] else at;
      Fill(to - at) + pad + Written(to + |pad|, stops[1..], pad)
  }

  /** pad_image for an image (extra offset included) of 'length' bytes: returns what it appends. */
  method PadImage(length: nat, mask: set<nat>, pad: seq<Byte>) returns (out: seq<Byte>)
    requires Mask(mask)
    ensures out == Written(length, Stops(length, mask), pad)
  {
    hide Align, Aligned, First, Fill, Unserved, Stops, Written, Pow2;
    var inLen, outLen, padMask := length, length, mask;
    out := [];
    while padMask != {}
      invariant padMask <= mask
      invariant outLen == length + |out|
      invariant out + Written(outLen, Stops(inLen, padMask), pad) == Written(length, Stops(length, mask), pad)
      decreases padMask
    {
      var i := LowestBit(padMask);
      FirstServed(padMask, inLen);
      ghost var before, was := padMask, out;
      var y := Align(inLen, i);
      padMask := ClearServed(padMask, y);
      StopsNext(inLen, before, y, outLen, pad);
      inLen := y;
      var filler := WriteFiller(outLen, inLen);
      out := out + filler;
      outLen := outLen + |filler|;
      out := out + pad;
      outLen := outLen + |pad|;
      assert was + (filler + pad + Written(outLen, Stops(inLen, padMask), pad)) ==
        out + Written(outLen, Stops(inLen, padMask), pad);
    }
    NothingWritten(outLen, inLen, pad);
    assert out + [] == out;
  }

  lemma StopsNext(x: nat, bits: set<nat>, y: nat, at: nat, pad: seq<Byte>)
    requires Mask(bits) && bits != {} && y == Align(x, First(bits))
    ensures var to := if y > at then y else at;
      Written(at, Stops(x, bits), pad) == Fill(to - at) + pad + Written(to + |pad|, Stops(y, Unserved(bits, y)), pad)
  {
    hide Align, Aligned, First;
    FirstServed(bits, x);
    assert Stops(x, bits) == [y] + Stops(y, Unserved(bits, y));
    assert Stops(x, bits)[1..] == Stops(y, Unserved(bits, y));
  }

  /** The first scan of the loop: the lowest bit from 10 on. */
  method LowestBit(bits: set<nat>) returns (i: nat)
    requires Mask(bits) && bits != {}
    ensures i == First(bits)
  {
    i := LOW;
    while i < HIGH
      invariant LOW <= i <= HIGH
      invariant forall j :: j in bits ==> i <= j
    {
      if i in bits { return; }
      i := i + 1;
    }
  }

  /** The second scan: clears every bit the new size is aligned to. */
  method ClearServed(bits: set<nat>, x: nat) returns (left: set<nat>)
    requires Mask(bits)
    ensures left == Unserved(bits, x)
  {
    hide Aligned;
    left := bits;
    for i := LOW to HIGH
      invariant left == set j | j in bits && (j < i ==> !Aligned(x, j))
    {
      if Aligned(x, i) { left := left - {i}; }
    }
  }

  /** The filler is written a buffer at a time. */
  method WriteFiller(at: nat, to: nat) returns (s: seq<Byte>)
    ensures s == Fill(if to > at then to - at else 0)
  {
    var buf := Fill(BUF_SIZE);
    s := [];
    while at + |s| < to
      invariant at + |s| <= to || s == []
      invariant forall k :: 0 <= k < |s| ==> s[k] == FILLER
    {
      var len := to - (at + |s|);
      if len > BUF_SIZE { len := BUF_SIZE; }
      s := s + buf[..len];
    }
  }

  // ----- what the image looks like -----

  /** A marker at the end of every requested block, where 'out' stands behind 'at' bytes, x of them
      image. */
  ghost predicate Marked(at: nat, x: nat, bits: set<nat>, pad: seq<Byte>, out: seq<Byte>) {
    forall i :: i in bits ==>
      at <= RoundUp(x, i) && RoundUp(x, i) - at + |pad| <= |out| && out[RoundUp(x, i) - at..][..|pad|] == pad
  }

  /** Byte p belongs to the marker of some block. */
  ghost predicate InMarker(x: nat, bits: set<nat>, size: nat, p: nat) {
    exists i :: i in bits && RoundUp(x, i) <= p < RoundUp(x, i) + size
  }

  ghost predicate Filled(at: nat, x: nat, bits: set<nat>, pad: seq<Byte>, out: seq<Byte>) {
    forall p :: 0 <= p < |out| ==> out[p] == FILLER || InMarker(x, bits, |pad|, at + p)
  }

  /** The last byte is the last byte of a marker. */
  ghost predicate Ends(at: nat, x: nat, bits: set<nat>, pad: seq<Byte>, out: seq<Byte>) {
    if bits == {} then out == [] else exists i :: i in bits && RoundUp(x, i) - at + |pad| == |out|
  }

  ghost predicate PaddedFrom(at: nat, x: nat, bits: set<nat>, pad: seq<Byte>, out: seq<Byte>) {
    Marked(at, x, bits, pad, out) && Filled(at, x, bits, pad, out) && Ends(at, x, bits, pad, out)
  }

  /** Markers at the ends of the requested blocks, filler everywhere else, and nothing behind the
      last marker. */
  ghost predicate Padded(length: nat, bits: set<nat>, pad: seq<Byte>, out: seq<Byte>) {
    PaddedFrom(length, length, bits, pad, out)
  }

  predicate Fits(x: nat, bits: set<nat>) { forall i :: i in bits ==> RoundUp(x, i) < Pow2(HIGH) }

  /** Requested blocks that end where the lowest one ends need no marker of their own; the others
      end at least 1024 bytes further on, where they ended before. */
  lemma UnservedBlocks(x: nat, bits: set<nat>, y: nat)
    requires Mask(bits) && bits != {} && y == RoundUp(x, First(bits))
    ensures forall j :: j in bits && j !in Unserved(bits, y) ==> RoundUp(x, j) == y
    ensures forall j :: j in Unserved(bits, y) ==> RoundUp(x, j) == RoundUp(y, j) >= y + 1024
  {
    hide RoundUp, Aligned, First;
    forall j | j in bits
      ensures RoundUp(x, j) == RoundUp(y, j) &&
        (if Aligned(y, j) then RoundUp(y, j) == y else RoundUp(y, j) >= y + 1024)
    {
      RoundUpTwice(x, First(bits), j);
      RoundUpFixed(y, j);
      if !Aligned(y, j) { NextBlock(y, First(bits), j); }
    }
  }

  lemma NextBlock(y: nat, i: nat, j: nat)
    requires LOW <= i <= j && Aligned(y, i) && !Aligned(y, j)
    ensures RoundUp(y, j) >= y + 1024
  {
    hide RoundUp, Aligned;
    RoundUpFixed(y, j);
    AlignedLess(RoundUp(y, j), i, j);
    AlignedGap(y, RoundUp(y, j), i);
    PowMonotone(LOW, i);
  }

  lemma MarkedStep(at: nat, x: nat, bits: set<nat>, pad: seq<Byte>, y: nat, rest: seq<Byte>)
    requires Mask(bits) && bits != {} && y == RoundUp(x, First(bits)) && at <= y
    requires Marked(y + |pad|, y, Unserved(bits, y), pad, rest)
    ensures Marked(at, x, bits, pad, Fill(y - at) + pad + rest)
  {
    hide RoundUp, Aligned, First, Pow2, Fill, Unserved;
    UnservedBlocks(x, bits, y);
    var out, left := Fill(y - at) + pad + rest, Unserved(bits, y);
    forall i | i in bits
      ensures at <= RoundUp(x, i) && RoundUp(x, i) - at + |pad| <= |out| && out[RoundUp(x, i) - at..][..|pad|] == pad
    {
      if i in left {
        assert RoundUp(y, i) >= y + |pad|;
        assert out[RoundUp(x, i) - at..] == rest[RoundUp(y, i) - (y + |pad|)..];
      } else {
        assert out[y - at..] == pad + rest;
      }
    }
  }

  lemma FilledStep(at: nat, x: nat, bits: set<nat>, pad: seq<Byte>, y: nat, rest: seq<Byte>)
    requires Mask(bits) && bits != {} && y == RoundUp(x, First(bits)) && at <= y
    requires Filled(y + |pad|, y, Unserved(bits, y), pad, rest)
    ensures Filled(at, x, bits, pad, Fill(y - at) + pad + rest)
  {
    hide RoundUp, Aligned, First, Pow2;
    UnservedBlocks(x, bits, y);
    var out, left := Fill(y - at) + pad + rest, Unserved(bits, y);
    forall p | 0 <= p < |out| && out[p] != FILLER ensures InMarker(x, bits, |pad|, at + p) {
      if at + p < y + |pad| {
        assert First(bits) in bits;
      } else {
        assert out[p] == rest[at + p - y - |pad|];
        var i :| i in left && RoundUp(y, i) <= at + p < RoundUp(y, i) + |pad|;
        assert i in bits && RoundUp(x, i) <= at + p < RoundUp(x, i) + |pad|;
      }
    }
  }

  lemma EndsStep(at: nat, x: nat, bits: set<nat>, pad: seq<Byte>, y: nat, rest: seq<Byte>)
    requires Mask(bits) && bits != {} && y == RoundUp(x, First(bits)) && at <= y
    ensures Ends(y + |pad|, y, Unserved(bits, y), pad, rest) ==> Ends(at, x, bits, pad, Fill(y - at) + pad + rest)
  {
    hide RoundUp, Aligned, First, Pow2;
    UnservedBlocks(x, bits, y);
    var out, left := Fill(y - at) + pad + rest, Unserved(bits, y);
    if left == {} && rest == [] {
      assert First(bits) in bits && RoundUp(x, First(bits)) - at + |pad| == |out|;
    } else if left != {} && Ends(y + |pad|, y, left, pad, rest) {
      var i :| i in left && RoundUp(y, i) - (y + |pad|) + |pad| == |rest|;
      assert i in bits && RoundUp(x, i) - at + |pad| == |out|;
    }
  }

  lemma StopFits(x: nat, bits: set<nat>, y: nat)
    requires Mask(bits) && bits != {} && y == RoundUp(x, First(bits))
    ensures Fits(x, bits) ==> y == Align(x, First(bits)) && Unserved(bits, y) < bits && Fits(y, Unserved(bits, y))
  {
    hide RoundUp, Align, Aligned, First, Pow2;
    AlignIsRoundUp(x, First(bits));
    FirstServed(bits, x);
    UnservedBlocks(x, bits, y);
  }

  lemma PaddedNothing(at: nat, x: nat, pad: seq<Byte>)
    ensures PaddedFrom(at, x, {}, pad, Written(at, Stops(x, {}), pad))
  {
  }

  lemma {:induction false} PaddedWhenFits(at: nat, x: nat, bits: set<nat>, pad: seq<Byte>)
    requires Mask(bits) && 0 < |pad| <= 1024 && Fits(x, bits)
    requires forall i :: i in bits ==> at <= RoundUp(x, i)
    ensures PaddedFrom(at, x, bits, pad, Written(at, Stops(x, bits), pad))
    decreases bits
  {
    hide RoundUp, Align, Aligned, First, Fill, Pow2, Unserved, Fits, Written, Stops, Marked, Filled, Ends;
    if bits == {} {
      PaddedNothing(at, x, pad);
    } else {
      var y := RoundUp(x, First(bits));
      var left := Unserved(bits, y);
      StopFits(x, bits, y);
      UnservedBlocks(x, bits, y);
      StopsNext(x, bits, y, at, pad);
      var rest := Written(y + |pad|, Stops(y, left), pad);
      assert PaddedFrom(y + |pad|, y, left, pad, rest) by {
        forall i | i in left ensures y + |pad| <= RoundUp(y, i) {}
        PaddedWhenFits(y + |pad|, y, left, pad);
      }
      MarkedStep(at, x, bits, pad, y, rest);
      FilledStep(at, x, bits, pad, y, rest);
      EndsStep(at, x, bits, pad, y, rest);
    }
  }

  /** Markers never overlap: two blocks end at the same place or at least 1024 bytes apart. */
  lemma BlocksApart(x: nat, i: nat, j: nat)
    requires LOW <= i <= j
    ensures RoundUp(x, i) == RoundUp(x, j) || RoundUp(x, i) + 1024 <= RoundUp(x, j)
  {
    hide RoundUp, Aligned;
    RoundUpTwice(x, i, j);
    RoundUpFixed(RoundUp(x, i), j);
    if !Aligned(RoundUp(x, i), j) { NextBlock(RoundUp(x, i), i, j); }
  }

  // ----- images of 4 GiB and more -----

  lemma {:induction false} AlignedPow(i: nat, j: nat)
    requires i <= j
    ensures Aligned(Pow2(j), i)
  {
    if i > 0 { AlignedPow(i - 1, j - 1); }
  }

  lemma BelowTop(y: nat, i: nat)
    requires LOW <= i <= HIGH && Aligned(y, i) && y < Pow2(HIGH)
    ensures y + 1024 <= Pow2(HIGH)
  {
    hide Aligned, Pow2;
    AlignedPow(i, HIGH);
    AlignedGap(y, Pow2(HIGH), i);
    PowMonotone(LOW, i);
    assert Pow2(LOW) >= 1024 by { Pow2Of10(); }
  }

  lemma Pow2Of10()
    ensures Pow2(LOW) == 1024
  {
    assert Pow2(4) == 16;
    assert Pow2(8) == 256;
  }

  /** A block that ends at 2^32 is rounded to something smaller, and serves every request. */
  lemma TopBlock(x: nat, bits: set<nat>)
    requires Mask(bits) && bits != {} && x < Pow2(HIGH) && RoundUp(x, First(bits)) >= Pow2(HIGH)
    ensures var y := Align(x, First(bits)); y < Pow2(HIGH) && Unserved(bits, y) == {}
  {
    hide RoundUp, Align, Aligned, Pow2, First;
    var i := First(bits);
    AlignIsRoundUp(x, i);
    AlignedPow(i, HIGH);
    RoundUpLeast(x, i, Pow2(HIGH));
    forall j | j in bits ensures Aligned(Align(x, i), j) { AlignedPow(j, HIGH); }
  }

  lemma WrittenLength(at: nat, x: nat, bits: set<nat>, pad: seq<Byte>)
    requires Mask(bits) && bits != {}
    ensures var y := Align(x, First(bits));
      var to := if y > at then y else at;
      at + |Written(at, Stops(x, bits), pad)| == to + |pad| + |Written(to + |pad|, Stops(y, Unserved(bits, y)), pad)|
    ensures var y := Align(x, First(bits));
      Unserved(bits, y) == {} ==> |Written(at, Stops(x, bits), pad)| == (if y > at then y - at else 0) + |pad|
  {
    hide Align, Aligned, First;
    StopsNext(x, bits, Align(x, First(bits)), at, pad);
  }

  /** Below 4 GiB, a block that ends at 2^32 is not reached. */
  lemma {:induction false} StopsShort(at: nat, x: nat, bits: set<nat>, pad: seq<Byte>, i: nat)
    requires Mask(bits) && 0 < |pad| < 1024 && x < Pow2(HIGH) && at < Pow2(HIGH)
    requires forall j :: j in bits ==> at <= RoundUp(x, j)
    requires i in bits && RoundUp(x, i) >= Pow2(HIGH)
    ensures at + |Written(at, Stops(x, bits), pad)| < Pow2(HIGH) + |pad|
    decreases bits
  {
    hide RoundUp, Align, Aligned, First, Fill, Pow2, Unserved, Written, Stops;
    var z := RoundUp(x, First(bits));
    WrittenLength(at, x, bits, pad);
    if z >= Pow2(HIGH) {
      TopBlock(x, bits);
    } else {
      AlignIsRoundUp(x, First(bits));
      FirstServed(bits, x);
      UnservedBlocks(x, bits, z);
      BelowTop(z, First(bits));
      StopsShort(z + |pad|, z, Unserved(bits, z), pad, i);
    }
  }

  lemma {:induction false} FewBits(bits: set<nat>, top: nat)
    requires forall i :: i in bits ==> LOW <= i < top
    requires LOW <= top
    ensures |bits| <= top - LOW
  {
    if top == LOW {
      assert bits == {};
    } else {
      FewBits(bits - {top - 1}, top - 1);
    }
  }

  /** From 4 GiB on nothing but markers is written. */
  lemma {:induction false} OnlyMarkers(at: nat, x: nat, bits: set<nat>, pad: seq<Byte>)
    requires Mask(bits) && |pad| <= 12 && at >= Pow2(HIGH)
    ensures |Written(at, Stops(x, bits), pad)| <= 12 * |bits|
    decreases bits
  {
    hide RoundUp, Align, Aligned, First, Fill, Pow2, Unserved, Written, Stops;
    if bits == {} {
      NothingWritten(at, x, pad);
    } else {
      var y := Align(x, First(bits));
      AlignIsRoundUp(x, First(bits));
      FirstServed(bits, x);
      WrittenLength(at, x, bits, pad);
      OnlyMarkers(at + |pad|, y, Unserved(bits, y), pad);
      Fewer(Unserved(bits, y), bits, First(bits));
    }
  }

  lemma NothingWritten(at: nat, x: nat, pad: seq<Byte>)
    ensures Written(at, Stops(x, {}), pad) == []
  {
  }

  lemma {:induction false} Fewer(a: set<nat>, b: set<nat>, i: nat)
    requires a <= b && i in b && i !in a
    ensures |a| + 1 <= |b|
  {
    if a != {} {
      var k :| k in a;
      Fewer(a - {k}, b - {k}, i);
    }
  }

  predicate Served(x: nat, bits: set<nat>) { forall i :: i in bits ==> Aligned(x, i) }

  /** An image that needs no padding gets its one marker whatever its size. */
  lemma ServedPadded(x: nat, bits: set<nat>, pad: seq<Byte>)
    requires Mask(bits) && bits != {} && Served(x, bits)
    ensures Padded(x, bits, pad, Written(x, Stops(x, bits), pad))
  {
    hide RoundUp, Align, Aligned, First, Fill, Pow2;
    var i := First(bits);
    AlignIsRoundUp(x, i);
    forall j | j in bits ensures RoundUp(x, j) == x { RoundUpFixed(x, j); }
    assert Unserved(bits, Align(x, i)) == {};
    AlignNoMore(x, i);
    StopsNext(x, bits, Align(x, i), x, pad);
    NothingWritten(x + |pad|, Align(x, i), pad);
    assert Fill(0) + pad + [] == pad;
    assert pad[0..] == pad && pad[..|pad|] == pad;
    assert i in bits && RoundUp(x, i) - x + |pad| == |pad|;
  }

  lemma AlignNoMore(x: nat, i: nat)
    requires i <= HIGH && RoundUp(x, i) == x
    ensures Align(x, i) <= x
  {
    hide RoundUp, Align, Pow2, Aligned, Truncate;
    AlignIsRoundUp(x, i);
  }

  /** Above 4 GiB, an image that needs padding does not get it. */
  lemma LargeNotPadded(x: nat, bits: set<nat>, pad: seq<Byte>, j: nat)
    requires Mask(bits) && 0 < |pad| <= 12 && x >= Pow2(HIGH)
    requires j in bits && !Aligned(x, j)
    ensures !Padded(x, bits, pad, Written(x, Stops(x, bits), pad))
  {
    hide RoundUp, Align, Aligned, First, Fill, Pow2, Written, Stops;
    var i := First(bits);
    var y, out := Align(x, i), Written(x, Stops(x, bits), pad);
    AlignIsRoundUp(x, i);
    WrittenLength(x, x, bits, pad);
    RoundUpFixed(x, j);
    if Unserved(bits, y) == {} {
      assert Marked(x, x, bits, pad, out) ==> RoundUp(x, j) - x + |pad| <= |out|;
    } else {
      var k :| k in Unserved(bits, y);
      OnlyMarkers(x, x, bits, pad);
      FewBits(bits, HIGH);
      RoundUpTwice(x, i, k);
      NextBlock(RoundUp(x, i), i, k);
      assert Marked(x, x, bits, pad, out) ==> RoundUp(x, k) - x + |pad| <= |out|;
    }
  }

  /** The image is padded as requested exactly when every block ends below 4 GiB, or none needs
      any filler. */
  lemma PaddedExact(length: nat, bits: set<nat>, pad: seq<Byte>)
    requires Mask(bits) && 0 < |pad| <= 12
    ensures Padded(length, bits, pad, Written(length, Stops(length, bits), pad)) <==>
      Fits(length, bits) || Served(length, bits)
  {
    hide RoundUp, Align, Aligned, First, Fill, Pow2, Written, Stops;
    if Fits(length, bits) {
      PaddedWhenFits(length, length, bits, pad);
    } else if Served(length, bits) {
      ServedPadded(length, bits, pad);
    } else if length >= Pow2(HIGH) {
      var j :| j in bits && !Aligned(length, j);
      LargeNotPadded(length, bits, pad, j);
    } else {
      var i :| i in bits && RoundUp(length, i) >= Pow2(HIGH);
      StopsShort(length, length, bits, pad, i);
    }
  }

  /** The end-of-filesystem mark and the two fake jffs2 elements all fit between two blocks. */
  lemma EveryMarkerFits(length: nat, bits: set<nat>, pad: seq<Byte>)
    requires Mask(bits) && pad in {EOF_MARK, JFFS2_PAD_BE, JFFS2_PAD_LE}
    ensures Padded(length, bits, pad, Written(length, Stops(length, bits), pad)) <==>
      Fits(length, bits) || Served(length, bits)
  {
    assert |pad| == 4 || |pad| == 12;
    PaddedExact(length, bits, pad);
  }
}
