/** The compression function of MD5 (RFC 1321, section 3.4) and its unrolled form in
    scripts/mkhash.c. */
module Md5Transform {
  import opened Blocks

  datatype Chain = Chain(a: Word, b: Word, c: Word, d: Word)

  // ----- section 3.4 of RFC 1321 -----

  datatype Fn = FnF | FnG | FnH | FnI

  function Auxiliary(f: Fn, x: Word, y: Word, z: Word): Word {
    match f
    case FnF => AuxF(x, y, z)
    case FnG => AuxG(x, y, z)
    case FnH => x ^ y ^ z
    case FnI => y ^ (x | !z)
  }

  function AuxF(x: Word, y: Word, z: Word): Word { (x & y) | (!x & z) }
  function AuxG(x: Word, y: Word, z: Word): Word { (x & z) | (y & !z) }

  function RotL(x: Word, n: nat): Word
    requires n < 32
  {
    (x << n) | (x >> (32 - n))
  }

  /** Operation i (from 0) uses the auxiliary function of its round, ... */
  function FnOf(i: nat): Fn { if i < 16 then FnF else if i < 32 then FnG else if i < 48 then FnH else FnI }

  /** ... word k of the block, ... */
  function WordOf(i: nat): (k: nat)
    ensures k < 16
  {
    if i < 16 then i else if i < 32 then (5 * i + 1) % 16 else if i < 48 then (3 * i + 5) % 16 else 7 * i % 16
  }

  /** ... and a rotation that depends on the round and on i modulo 4. */
  function ShiftOf(i: nat): (s: nat)
    ensures s < 32
  {
    var r := i % 4;
    if i < 16 then 7 + 5 * r
    else if i < 32 then if r == 0 then 5 else if r == 1 then 9 else if r == 2 then 14 else 20
    else if i < 48 then if r == 0 then 4 else if r == 1 then 11 else if r == 2 then 16 else 23
    else if r == 0 then 6 else if r == 1 then 10 else if r == 2 then 15 else 21
  }

  /** The table T of the standard, numbered from 0. */
  function T(i: nat): Word {
    if i < 16 then T1(i) else if i < 32 then T2(i) else if i < 48 then T3(i) else T4(i)
  }

  function T1(i: nat): Word {
    match i
    case 0 => 0xd76aa478
    case 1 => 0xe8c7b756
    case 2 => 0x242070db
    case 3 => 0xc1bdceee
    case 4 => 0xf57c0faf
    case 5 => 0x4787c62a
    case 6 => 0xa8304613
    case 7 => 0xfd469501
    case 8 => 0x698098d8
    case 9 => 0x8b44f7af
    case 10 => 0xffff5bb1
    case 11 => 0x895cd7be
    case 12 => 0x6b901122
    case 13 => 0xfd987193
    case 14 => 0xa679438e
    case _ => 0x49b40821
  }

  function T2(i: nat): Word {
    match i
    case 16 => 0xf61e2562
    case 17 => 0xc040b340
    case 18 => 0x265e5a51
    case 19 => 0xe9b6c7aa
    case 20 => 0xd62f105d
    case 21 => 0x02441453
    case 22 => 0xd8a1e681
    case 23 => 0xe7d3fbc8
    case 24 => 0x21e1cde6
    case 25 => 0xc33707d6
    case 26 => 0xf4d50d87
    case 27 => 0x455a14ed
    case 28 => 0xa9e3e905
    case 29 => 0xfcefa3f8
    case 30 => 0x676f02d9
    case _ => 0x8d2a4c8a
  }

  function T3(i: nat): Word {
    match i
    case 32 => 0xfffa3942
    case 33 => 0x8771f681
    case 34 => 0x6d9d6122
    case 35 => 0xfde5380c
    case 36 => 0xa4beea44
    case 37 => 0x4bdecfa9
    case 38 => 0xf6bb4b60
    case 39 => 0xbebfbc70
    case 40 => 0x289b7ec6
    case 41 => 0xeaa127fa
    case 42 => 0xd4ef3085
    case 43 => 0x04881d05
    case 44 => 0xd9d4d039
    case 45 => 0xe6db99e5
    case 46 => 0x1fa27cf8
    case _ => 0xc4ac5665
  }

  function T4(i: nat): Word {
    match i
    case 48 => 0xf4292244
    case 49 => 0x432aff97
    case 50 => 0xab9423a7
    case 51 => 0xfc93a039
    case 52 => 0x655b59c3
    case 53 => 0x8f0ccc92
    case 54 => 0xffeff47d
    case 55 => 0x85845dd1
    case 56 => 0x6fa87e4f
    case 57 => 0xfe2ce6e0
    case 58 => 0xa3014314
    case 59 => 0x4e0811a1
    case 60 => 0xf7537e82
    case 61 => 0xbd3af235
    case 62 => 0x2ad7d2bb
    case _ => 0xeb86d391
  }

  function OperationCount(): nat { 64 }

  /** One operation a = b + ((a + f(b,c,d) + X[k] + T[i]) <<< s), after which the registers swap
      roles. */
  function Operation(v: Chain, f: Fn, x: Word, t: Word, s: nat): Chain
    requires s < 32
  {
    Chain(v.d, Plus(v.b, RotL(Plus(Plus(Plus(v.a, Auxiliary(f, v.b, v.c, v.d)), x), t), s)), v.b, v.c)
  }

  function Operations(v: Chain, block: seq<Byte>, i: nat): Chain {
    if i == 0 then v
    else
      Operation(Operations(v, block, i - 1), FnOf(i - 1), LittleWord(block, WordOf(i - 1)), T(i - 1), ShiftOf(i - 1))
  }

  function Sum(x: Chain, y: Chain): Chain {
    Chain(Plus(x.a, y.a), Plus(x.b, y.b), Plus(x.c, y.c), Plus(x.d, y.d))
  }

  function Compress(v: Chain, block: seq<Byte>): Chain { Sum(Operations(v, block, OperationCount()), v) }

  // ----- the macros -----

  datatype Macro = F | G | H | H2 | I

  function Apply(m: Macro, x: Word, y: Word, z: Word): Word {
    match m
    case F => MacroF(x, y, z)
    case G => MacroG(x, y, z)
    case H => (x ^ y) ^ z
    case H2 => MacroH2(x, y, z)
    case I => y ^ (x | !z)
  }

  function MacroF(x: Word, y: Word, z: Word): Word { z ^ (x & (y ^ z)) }
  function MacroG(x: Word, y: Word, z: Word): Word { y ^ (z & (x ^ y)) }
  function MacroH2(x: Word, y: Word, z: Word): Word { x ^ (y ^ z) }

  function Computes(m: Macro): Fn {
    match m case F => FnF case G => FnG case H => FnH case H2 => FnH case I => FnI
  }

  lemma FastF(x: Word, y: Word, z: Word)
    ensures z ^ (x & (y ^ z)) == AuxF(x, y, z)
  {
  }

  lemma FastG(x: Word, y: Word, z: Word)
    ensures y ^ (z & (x ^ y)) == AuxG(x, y, z)
  {
  }

  lemma FastH(x: Word, y: Word, z: Word)
    ensures MacroH2(x, y, z) == x ^ y ^ z
  {
  }

  lemma FastFG(x: Word, y: Word, z: Word)
    ensures MacroF(x, y, z) == AuxF(x, y, z) && MacroG(x, y, z) == AuxG(x, y, z)
  {
    hide AuxF, AuxG;
    FastF(x, y, z);
    FastG(x, y, z);
  }

  /** The forms without AND-NOT are the functions of the standard. */
  lemma FastForms(m: Macro, x: Word, y: Word, z: Word)
    ensures Apply(m, x, y, z) == Auxiliary(Computes(m), x, y, z)
  {
    hide MacroF, MacroG, MacroH2, AuxF, AuxG;
    FastFG(x, y, z);
    FastH(x, y, z);
  }

  /** STEP, the new value of its first register. */
  function Step(m: Macro, a: Word, b: Word, c: Word, d: Word, x: Word, t: Word, s: nat): Word
    requires s < 32
  {
    Plus(RotL(Plus(a, Plus(Plus(Apply(m, b, c, d), x), t)), s), b)
  }

  lemma StepIsOperation(m: Macro, v: Chain, x: Word, t: Word, s: nat)
    requires s < 32
    ensures Operation(v, Computes(m), x, t, s) == Chain(v.d, Step(m, v.a, v.b, v.c, v.d, x, t, s), v.b, v.c)
  {
    hide Plus, RotL, Apply, Auxiliary;
    FastForms(m, v.b, v.c, v.d);
    var f := Apply(m, v.b, v.c, v.d);
    PlusAssoc(v.a, f, x);
    PlusAssoc(v.a, Plus(f, x), t);
    PlusCommutes(v.b, RotL(Plus(v.a, Plus(Plus(f, x), t)), s));
  }

  /** The constants written in line i of the unrolled code are those of operation i. */
  predicate RightConstants(i: nat, m: Macro, k: nat, t: Word, s: nat) {
    Computes(m) == FnOf(i) && k == WordOf(i) && t == T(i) && s == ShiftOf(i)
  }

  lemma Line(i: nat, m: Macro, v: Chain, block: seq<Byte>, now: Chain, k: nat, t: Word, s: nat)
    ensures now == Operations(v, block, i) && RightConstants(i, m, k, t, s) ==>
      s < 32 && Operations(v, block, i + 1) ==
        Chain(now.d, Step(m, now.a, now.b, now.c, now.d, LittleWord(block, k), t, s), now.b, now.c)
  {
    hide Operation, Step, LittleWord, WordOf, T, ShiftOf, FnOf;
    if RightConstants(i, m, k, t, s) { StepIsOperation(m, now, LittleWord(block, k), t, s); }
  }

  lemma FirstTable()
    ensures T(0) == 0xd76aa478
    ensures T(1) == 0xe8c7b756
    ensures T(2) == 0x242070db
    ensures T(3) == 0xc1bdceee
    ensures T(4) == 0xf57c0faf
    ensures T(5) == 0x4787c62a
    ensures T(6) == 0xa8304613
    ensures T(7) == 0xfd469501
    ensures T(8) == 0x698098d8
    ensures T(9) == 0x8b44f7af
    ensures T(10) == 0xffff5bb1
    ensures T(11) == 0x895cd7be
    ensures T(12) == 0x6b901122
    ensures T(13) == 0xfd987193
    ensures T(14) == 0xa679438e
    ensures T(15) == 0x49b40821
  {
  }

  lemma FirstConstants()
    ensures RightConstants(0, F, 0, 0xd76aa478, 7)
    ensures RightConstants(1, F, 1, 0xe8c7b756, 12)
    ensures RightConstants(2, F, 2, 0x242070db, 17)
    ensures RightConstants(3, F, 3, 0xc1bdceee, 22)
    ensures RightConstants(4, F, 4, 0xf57c0faf, 7)
    ensures RightConstants(5, F, 5, 0x4787c62a, 12)
    ensures RightConstants(6, F, 6, 0xa8304613, 17)
    ensures RightConstants(7, F, 7, 0xfd469501, 22)
    ensures RightConstants(8, F, 8, 0x698098d8, 7)
    ensures RightConstants(9, F, 9, 0x8b44f7af, 12)
    ensures RightConstants(10, F, 10, 0xffff5bb1, 17)
    ensures RightConstants(11, F, 11, 0x895cd7be, 22)
    ensures RightConstants(12, F, 12, 0x6b901122, 7)
    ensures RightConstants(13, F, 13, 0xfd987193, 12)
    ensures RightConstants(14, F, 14, 0xa679438e, 17)
    ensures RightConstants(15, F, 15, 0x49b40821, 22)
  {
    hide T;
    FirstTable();
  }

  method FirstRound(now: Chain, block: seq<Byte>, ghost v: Chain) returns (r: Chain)
    requires now == Operations(v, block, 0)
    ensures r == Operations(v, block, 16)
  {
    hide *;
    FirstConstants();
    var Chain(a, b, c, d) := now;
    Line(0, F, v, block, Chain(a, b, c, d), 0, 0xd76aa478, 7);
    a := Step(F, a, b, c, d, LittleWord(block, 0), 0xd76aa478, 7);
    Line(1, F, v, block, Chain(d, a, b, c), 1, 0xe8c7b756, 12);
    d := Step(F, d, a, b, c, LittleWord(block, 1), 0xe8c7b756, 12);
    Line(2, F, v, block, Chain(c, d, a, b), 2, 0x242070db, 17);
    c := Step(F, c, d, a, b, LittleWord(block, 2), 0x242070db, 17);
    Line(3, F, v, block, Chain(b, c, d, a), 3, 0xc1bdceee, 22);
    b := Step(F, b, c, d, a, LittleWord(block, 3), 0xc1bdceee, 22);
    Line(4, F, v, block, Chain(a, b, c, d), 4, 0xf57c0faf, 7);
    a := Step(F, a, b, c, d, LittleWord(block, 4), 0xf57c0faf, 7);
    Line(5, F, v, block, Chain(d, a, b, c), 5, 0x4787c62a, 12);
    d := Step(F, d, a, b, c, LittleWord(block, 5), 0x4787c62a, 12);
    Line(6, F, v, block, Chain(c, d, a, b), 6, 0xa8304613, 17);
    c := Step(F, c, d, a, b, LittleWord(block, 6), 0xa8304613, 17);
    Line(7, F, v, block, Chain(b, c, d, a), 7, 0xfd469501, 22);
    b := Step(F, b, c, d, a, LittleWord(block, 7), 0xfd469501, 22);
    Line(8, F, v, block, Chain(a, b, c, d), 8, 0x698098d8, 7);
    a := Step(F, a, b, c, d, LittleWord(block, 8), 0x698098d8, 7);
    Line(9, F, v, block, Chain(d, a, b, c), 9, 0x8b44f7af, 12);
    d := Step(F, d, a, b, c, LittleWord(block, 9), 0x8b44f7af, 12);
    Line(10, F, v, block, Chain(c, d, a, b), 10, 0xffff5bb1, 17);
    c := Step(F, c, d, a, b, LittleWord(block, 10), 0xffff5bb1, 17);
    Line(11, F, v, block, Chain(b, c, d, a), 11, 0x895cd7be, 22);
    b := Step(F, b, c, d, a, LittleWord(block, 11), 0x895cd7be, 22);
    Line(12, F, v, block, Chain(a, b, c, d), 12, 0x6b901122, 7);
    a := Step(F, a, b, c, d, LittleWord(block, 12), 0x6b901122, 7);
    Line(13, F, v, block, Chain(d, a, b, c), 13, 0xfd987193, 12);
    d := Step(F, d, a, b, c, LittleWord(block, 13), 0xfd987193, 12);
    Line(14, F, v, block, Chain(c, d, a, b), 14, 0xa679438e, 17);
    c := Step(F, c, d, a, b, LittleWord(block, 14), 0xa679438e, 17);
    Line(15, F, v, block, Chain(b, c, d, a), 15, 0x49b40821, 22);
    b := Step(F, b, c, d, a, LittleWord(block, 15), 0x49b40821, 22);
    r := Chain(a, b, c, d);
  }

  lemma SecondTable()
    ensures T(16) == 0xf61e2562
    ensures T(17) == 0xc040b340
    ensures T(18) == 0x265e5a51
    ensures T(19) == 0xe9b6c7aa
    ensures T(20) == 0xd62f105d
    ensures T(21) == 0x02441453
    ensures T(22) == 0xd8a1e681
    ensures T(23) == 0xe7d3fbc8
    ensures T(24) == 0x21e1cde6
    ensures T(25) == 0xc33707d6
    ensures T(26) == 0xf4d50d87
    ensures T(27) == 0x455a14ed
    ensures T(28) == 0xa9e3e905
    ensures T(29) == 0xfcefa3f8
    ensures T(30) == 0x676f02d9
    ensures T(31) == 0x8d2a4c8a
  {
  }

  lemma SecondConstants()
    ensures RightConstants(16, G, 1, 0xf61e2562, 5)
    ensures RightConstants(17, G, 6, 0xc040b340, 9)
    ensures RightConstants(18, G, 11, 0x265e5a51, 14)
    ensures RightConstants(19, G, 0, 0xe9b6c7aa, 20)
    ensures RightConstants(20, G, 5, 0xd62f105d, 5)
    ensures RightConstants(21, G, 10, 0x02441453, 9)
    ensures RightConstants(22, G, 15, 0xd8a1e681, 14)
    ensures RightConstants(23, G, 4, 0xe7d3fbc8, 20)
    ensures RightConstants(24, G, 9, 0x21e1cde6, 5)
    ensures RightConstants(25, G, 14, 0xc33707d6, 9)
    ensures RightConstants(26, G, 3, 0xf4d50d87, 14)
    ensures RightConstants(27, G, 8, 0x455a14ed, 20)
    ensures RightConstants(28, G, 13, 0xa9e3e905, 5)
    ensures RightConstants(29, G, 2, 0xfcefa3f8, 9)
    ensures RightConstants(30, G, 7, 0x676f02d9, 14)
    ensures RightConstants(31, G, 12, 0x8d2a4c8a, 20)
  {
    hide T;
    SecondTable();
  }

  method SecondRound(now: Chain, block: seq<Byte>, ghost v: Chain) returns (r: Chain)
    requires now == Operations(v, block, 16)
    ensures r == Operations(v, block, 32)
  {
    hide *;
    SecondConstants();
    var Chain(a, b, c, d) := now;
    Line(16, G, v, block, Chain(a, b, c, d), 1, 0xf61e2562, 5);
    a := Step(G, a, b, c, d, LittleWord(block, 1), 0xf61e2562, 5);
    Line(17, G, v, block, Chain(d, a, b, c), 6, 0xc040b340, 9);
    d := Step(G, d, a, b, c, LittleWord(block, 6), 0xc040b340, 9);
    Line(18, G, v, block, Chain(c, d, a, b), 11, 0x265e5a51, 14);
    c := Step(G, c, d, a, b, LittleWord(block, 11), 0x265e5a51, 14);
    Line(19, G, v, block, Chain(b, c, d, a), 0, 0xe9b6c7aa, 20);
    b := Step(G, b, c, d, a, LittleWord(block, 0), 0xe9b6c7aa, 20);
    Line(20, G, v, block, Chain(a, b, c, d), 5, 0xd62f105d, 5);
    a := Step(G, a, b, c, d, LittleWord(block, 5), 0xd62f105d, 5);
    Line(21, G, v, block, Chain(d, a, b, c), 10, 0x02441453, 9);
    d := Step(G, d, a, b, c, LittleWord(block, 10), 0x02441453, 9);
    Line(22, G, v, block, Chain(c, d, a, b), 15, 0xd8a1e681, 14);
    c := Step(G, c, d, a, b, LittleWord(block, 15), 0xd8a1e681, 14);
    Line(23, G, v, block, Chain(b, c, d, a), 4, 0xe7d3fbc8, 20);
    b := Step(G, b, c, d, a, LittleWord(block, 4), 0xe7d3fbc8, 20);
    Line(24, G, v, block, Chain(a, b, c, d), 9, 0x21e1cde6, 5);
    a := Step(G, a, b, c, d, LittleWord(block, 9), 0x21e1cde6, 5);
    Line(25, G, v, block, Chain(d, a, b, c), 14, 0xc33707d6, 9);
    d := Step(G, d, a, b, c, LittleWord(block, 14), 0xc33707d6, 9);
    Line(26, G, v, block, Chain(c, d, a, b), 3, 0xf4d50d87, 14);
    c := Step(G, c, d, a, b, LittleWord(block, 3), 0xf4d50d87, 14);
    Line(27, G, v, block, Chain(b, c, d, a), 8, 0x455a14ed, 20);
    b := Step(G, b, c, d, a, LittleWord(block, 8), 0x455a14ed, 20);
    Line(28, G, v, block, Chain(a, b, c, d), 13, 0xa9e3e905, 5);
    a := Step(G, a, b, c, d, LittleWord(block, 13), 0xa9e3e905, 5);
    Line(29, G, v, block, Chain(d, a, b, c), 2, 0xfcefa3f8, 9);
    d := Step(G, d, a, b, c, LittleWord(block, 2), 0xfcefa3f8, 9);
    Line(30, G, v, block, Chain(c, d, a, b), 7, 0x676f02d9, 14);
    c := Step(G, c, d, a, b, LittleWord(block, 7), 0x676f02d9, 14);
    Line(31, G, v, block, Chain(b, c, d, a), 12, 0x8d2a4c8a, 20);
    b := Step(G, b, c, d, a, LittleWord(block, 12), 0x8d2a4c8a, 20);
    r := Chain(a, b, c, d);
  }

  lemma ThirdTable()
    ensures T(32) == 0xfffa3942
    ensures T(33) == 0x8771f681
    ensures T(34) == 0x6d9d6122
    ensures T(35) == 0xfde5380c
    ensures T(36) == 0xa4beea44
    ensures T(37) == 0x4bdecfa9
    ensures T(38) == 0xf6bb4b60
    ensures T(39) == 0xbebfbc70
    ensures T(40) == 0x289b7ec6
    ensures T(41) == 0xeaa127fa
    ensures T(42) == 0xd4ef3085
    ensures T(43) == 0x04881d05
    ensures T(44) == 0xd9d4d039
    ensures T(45) == 0xe6db99e5
    ensures T(46) == 0x1fa27cf8
    ensures T(47) == 0xc4ac5665
  {
  }

  lemma ThirdConstants()
    ensures RightConstants(32, H, 5, 0xfffa3942, 4)
    ensures RightConstants(33, H2, 8, 0x8771f681, 11)
    ensures RightConstants(34, H, 11, 0x6d9d6122, 16)
    ensures RightConstants(35, H2, 14, 0xfde5380c, 23)
    ensures RightConstants(36, H, 1, 0xa4beea44, 4)
    ensures RightConstants(37, H2, 4, 0x4bdecfa9, 11)
    ensures RightConstants(38, H, 7, 0xf6bb4b60, 16)
    ensures RightConstants(39, H2, 10, 0xbebfbc70, 23)
    ensures RightConstants(40, H, 13, 0x289b7ec6, 4)
    ensures RightConstants(41, H2, 0, 0xeaa127fa, 11)
    ensures RightConstants(42, H, 3, 0xd4ef3085, 16)
    ensures RightConstants(43, H2, 6, 0x04881d05, 23)
    ensures RightConstants(44, H, 9, 0xd9d4d039, 4)
    ensures RightConstants(45, H2, 12, 0xe6db99e5, 11)
    ensures RightConstants(46, H, 15, 0x1fa27cf8, 16)
    ensures RightConstants(47, H2, 2, 0xc4ac5665, 23)
  {
    hide T;
    ThirdTable();
  }

  method ThirdRound(now: Chain, block: seq<Byte>, ghost v: Chain) returns (r: Chain)
    requires now == Operations(v, block, 32)
    ensures r == Operations(v, block, 48)
  {
    hide *;
    ThirdConstants();
    var Chain(a, b, c, d) := now;
    Line(32, H, v, block, Chain(a, b, c, d), 5, 0xfffa3942, 4);
    a := Step(H, a, b, c, d, LittleWord(block, 5), 0xfffa3942, 4);
    Line(33, H2, v, block, Chain(d, a, b, c), 8, 0x8771f681, 11);
    d := Step(H2, d, a, b, c, LittleWord(block, 8), 0x8771f681, 11);
    Line(34, H, v, block, Chain(c, d, a, b), 11, 0x6d9d6122, 16);
    c := Step(H, c, d, a, b, LittleWord(block, 11), 0x6d9d6122, 16);
    Line(35, H2, v, block, Chain(b, c, d, a), 14, 0xfde5380c, 23);
    b := Step(H2, b, c, d, a, LittleWord(block, 14), 0xfde5380c, 23);
    Line(36, H, v, block, Chain(a, b, c, d), 1, 0xa4beea44, 4);
    a := Step(H, a, b, c, d, LittleWord(block, 1), 0xa4beea44, 4);
    Line(37, H2, v, block, Chain(d, a, b, c), 4, 0x4bdecfa9, 11);
    d := Step(H2, d, a, b, c, LittleWord(block, 4), 0x4bdecfa9, 11);
    Line(38, H, v, block, Chain(c, d, a, b), 7, 0xf6bb4b60, 16);
    c := Step(H, c, d, a, b, LittleWord(block, 7), 0xf6bb4b60, 16);
    Line(39, H2, v, block, Chain(b, c, d, a), 10, 0xbebfbc70, 23);
    b := Step(H2, b, c, d, a, LittleWord(block, 10), 0xbebfbc70, 23);
    Line(40, H, v, block, Chain(a, b, c, d), 13, 0x289b7ec6, 4);
    a := Step(H, a, b, c, d, LittleWord(block, 13), 0x289b7ec6, 4);
    Line(41, H2, v, block, Chain(d, a, b, c), 0, 0xeaa127fa, 11);
    d := Step(H2, d, a, b, c, LittleWord(block, 0), 0xeaa127fa, 11);
    Line(42, H, v, block, Chain(c, d, a, b), 3, 0xd4ef3085, 16);
    c := Step(H, c, d, a, b, LittleWord(block, 3), 0xd4ef3085, 16);
    Line(43, H2, v, block, Chain(b, c, d, a), 6, 0x04881d05, 23);
    b := Step(H2, b, c, d, a, LittleWord(block, 6), 0x04881d05, 23);
    Line(44, H, v, block, Chain(a, b, c, d), 9, 0xd9d4d039, 4);
    a := Step(H, a, b, c, d, LittleWord(block, 9), 0xd9d4d039, 4);
    Line(45, H2, v, block, Chain(d, a, b, c), 12, 0xe6db99e5, 11);
    d := Step(H2, d, a, b, c, LittleWord(block, 12), 0xe6db99e5, 11);
    Line(46, H, v, block, Chain(c, d, a, b), 15, 0x1fa27cf8, 16);
    c := Step(H, c, d, a, b, LittleWord(block, 15), 0x1fa27cf8, 16);
    Line(47, H2, v, block, Chain(b, c, d, a), 2, 0xc4ac5665, 23);
    b := Step(H2, b, c, d, a, LittleWord(block, 2), 0xc4ac5665, 23);
    r := Chain(a, b, c, d);
  }

  lemma FourthTable()
    ensures T(48) == 0xf4292244
    ensures T(49) == 0x432aff97
    ensures T(50) == 0xab9423a7
    ensures T(51) == 0xfc93a039
    ensures T(52) == 0x655b59c3
    ensures T(53) == 0x8f0ccc92
    ensures T(54) == 0xffeff47d
    ensures T(55) == 0x85845dd1
    ensures T(56) == 0x6fa87e4f
    ensures T(57) == 0xfe2ce6e0
    ensures T(58) == 0xa3014314
    ensures T(59) == 0x4e0811a1
    ensures T(60) == 0xf7537e82
    ensures T(61) == 0xbd3af235
    ensures T(62) == 0x2ad7d2bb
    ensures T(63) == 0xeb86d391
  {
  }

  lemma FourthConstants()
    ensures RightConstants(48, I, 0, 0xf4292244, 6)
    ensures RightConstants(49, I, 7, 0x432aff97, 10)
    ensures RightConstants(50, I, 14, 0xab9423a7, 15)
    ensures RightConstants(51, I, 5, 0xfc93a039, 21)
    ensures RightConstants(52, I, 12, 0x655b59c3, 6)
    ensures RightConstants(53, I, 3, 0x8f0ccc92, 10)
    ensures RightConstants(54, I, 10, 0xffeff47d, 15)
    ensures RightConstants(55, I, 1, 0x85845dd1, 21)
    ensures RightConstants(56, I, 8, 0x6fa87e4f, 6)
    ensures RightConstants(57, I, 15, 0xfe2ce6e0, 10)
    ensures RightConstants(58, I, 6, 0xa3014314, 15)
    ensures RightConstants(59, I, 13, 0x4e0811a1, 21)
    ensures RightConstants(60, I, 4, 0xf7537e82, 6)
    ensures RightConstants(61, I, 11, 0xbd3af235, 10)
    ensures RightConstants(62, I, 2, 0x2ad7d2bb, 15)
    ensures RightConstants(63, I, 9, 0xeb86d391, 21)
  {
    hide T;
    FourthTable();
  }

  method FourthRound(now: Chain, block: seq<Byte>, ghost v: Chain) returns (r: Chain)
    requires now == Operations(v, block, 48)
    ensures r == Operations(v, block, 64)
  {
    hide *;
    FourthConstants();
    var Chain(a, b, c, d) := now;
    Line(48, I, v, block, Chain(a, b, c, d), 0, 0xf4292244, 6);
    a := Step(I, a, b, c, d, LittleWord(block, 0), 0xf4292244, 6);
    Line(49, I, v, block, Chain(d, a, b, c), 7, 0x432aff97, 10);
    d := Step(I, d, a, b, c, LittleWord(block, 7), 0x432aff97, 10);
    Line(50, I, v, block, Chain(c, d, a, b), 14, 0xab9423a7, 15);
    c := Step(I, c, d, a, b, LittleWord(block, 14), 0xab9423a7, 15);
    Line(51, I, v, block, Chain(b, c, d, a), 5, 0xfc93a039, 21);
    b := Step(I, b, c, d, a, LittleWord(block, 5), 0xfc93a039, 21);
    Line(52, I, v, block, Chain(a, b, c, d), 12, 0x655b59c3, 6);
    a := Step(I, a, b, c, d, LittleWord(block, 12), 0x655b59c3, 6);
    Line(53, I, v, block, Chain(d, a, b, c), 3, 0x8f0ccc92, 10);
    d := Step(I, d, a, b, c, LittleWord(block, 3), 0x8f0ccc92, 10);
    Line(54, I, v, block, Chain(c, d, a, b), 10, 0xffeff47d, 15);
    c := Step(I, c, d, a, b, LittleWord(block, 10), 0xffeff47d, 15);
    Line(55, I, v, block, Chain(b, c, d, a), 1, 0x85845dd1, 21);
    b := Step(I, b, c, d, a, LittleWord(block, 1), 0x85845dd1, 21);
    Line(56, I, v, block, Chain(a, b, c, d), 8, 0x6fa87e4f, 6);
    a := Step(I, a, b, c, d, LittleWord(block, 8), 0x6fa87e4f, 6);
    Line(57, I, v, block, Chain(d, a, b, c), 15, 0xfe2ce6e0, 10);
    d := Step(I, d, a, b, c, LittleWord(block, 15), 0xfe2ce6e0, 10);
    Line(58, I, v, block, Chain(c, d, a, b), 6, 0xa3014314, 15);
    c := Step(I, c, d, a, b, LittleWord(block, 6), 0xa3014314, 15);
    Line(59, I, v, block, Chain(b, c, d, a), 13, 0x4e0811a1, 21);
    b := Step(I, b, c, d, a, LittleWord(block, 13), 0x4e0811a1, 21);
    Line(60, I, v, block, Chain(a, b, c, d), 4, 0xf7537e82, 6);
    a := Step(I, a, b, c, d, LittleWord(block, 4), 0xf7537e82, 6);
    Line(61, I, v, block, Chain(d, a, b, c), 11, 0xbd3af235, 10);
    d := Step(I, d, a, b, c, LittleWord(block, 11), 0xbd3af235, 10);
    Line(62, I, v, block, Chain(c, d, a, b), 2, 0x2ad7d2bb, 15);
    c := Step(I, c, d, a, b, LittleWord(block, 2), 0x2ad7d2bb, 15);
    Line(63, I, v, block, Chain(b, c, d, a), 9, 0xeb86d391, 21);
    b := Step(I, b, c, d, a, LittleWord(block, 9), 0xeb86d391, 21);
    r := Chain(a, b, c, d);
  }

  lemma NoOperations(v: Chain, block: seq<Byte>)
    ensures Operations(v, block, 0) == v
  {
  }

  /** One pass of MD5_body's loop computes the compression function of the standard. */
  method Transform(v: Chain, block: seq<Byte>) returns (r: Chain)
    ensures r == Compress(v, block)
  {
    hide Operations;
    NoOperations(v, block);
    r := FirstRound(v, block, v);
    r := SecondRound(r, block, v);
    r := ThirdRound(r, block, v);
    r := FourthRound(r, block, v);
    r := Sum(r, v);
  }
}
