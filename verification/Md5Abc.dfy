/** The digest of "abc" that RFC 1321 gives in its test suite (appendix A.5). */
module Md5Abc {
  import opened Blocks
  import opened Md5Transform
  import Md5

  const ABC: seq<Byte> := [0x61, 0x62, 0x63]

  /** The words of its only block: the text, the 0x80 byte, and the bit count. */
  function AbcWord(k: nat): Word { if k == 0 then 0x80636261 else if k == 14 then 24 else 0 }

  function AbcBlock(): seq<Byte> { Padded(ABC, LittleEndian64(24)) }

  lemma AbcWords(k: nat)
    requires k < 16
    ensures |AbcBlock()| == 64 && LittleWord(AbcBlock(), k) == AbcWord(k)
  {
    var length := LittleEndian64(24);
    assert length == [24, 0, 0, 0, 0, 0, 0, 0];
    assert AbcBlock() == ABC + [0x80] + Zeros(52) + length;
    assert forall i :: 4 <= i < 56 ==> AbcBlock()[i] == 0;
    assert AbcBlock()[..4] == [0x61, 0x62, 0x63, 0x80];
    assert AbcBlock()[56..] == length;
  }

  /** One operation on known registers. */
  lemma Next(i: nat, a: Word, b: Word, c: Word, d: Word, f: Fn, k: nat, t: Word, s: nat, x: Word)
    requires i < 64 && Operations(Md5.INITIAL, AbcBlock(), i) == Chain(a, b, c, d)
    requires FnOf(i) == f && WordOf(i) == k && T(i) == t && ShiftOf(i) == s
    requires Operation(Chain(a, b, c, d), f, AbcWord(k), t, s).b == x
    ensures Operations(Md5.INITIAL, AbcBlock(), i + 1) == Chain(d, x, b, c)
  {
    hide AbcBlock, LittleWord, T, Auxiliary, RotL, Plus;
    AbcWords(k);
  }

  lemma After4()
    ensures Operations(Md5.INITIAL, AbcBlock(), 4) == Chain(0xd6d117b4, 0x7ad956f2, 0x2f6fbd72, 0x344a8432)
  {
    hide Operations, AbcBlock;
    NoOperations(Md5.INITIAL, AbcBlock());
    Next(0, 0x67452301, 0xefcdab89, 0x98badcfe, 0x10325476, FnF, 0, 0xd76aa478, 7, 0xd6d117b4);
    Next(1, 0x10325476, 0xd6d117b4, 0xefcdab89, 0x98badcfe, FnF, 1, 0xe8c7b756, 12, 0x344a8432);
    Next(2, 0x98badcfe, 0x344a8432, 0xd6d117b4, 0xefcdab89, FnF, 2, 0x242070db, 17, 0x2f6fbd72);
    Next(3, 0xefcdab89, 0x2f6fbd72, 0x344a8432, 0xd6d117b4, FnF, 3, 0xc1bdceee, 22, 0x7ad956f2);
  }

  lemma After8()
    ensures Operations(Md5.INITIAL, AbcBlock(), 8) == Chain(0xc73741ef, 0x928d99f6, 0x207dc67b, 0x8bac3051)
  {
    hide Operations, AbcBlock;
    After4();
    Next(4, 0xd6d117b4, 0x7ad956f2, 0x2f6fbd72, 0x344a8432, FnF, 4, 0xf57c0faf, 7, 0xc73741ef);
    Next(5, 0x344a8432, 0xc73741ef, 0x7ad956f2, 0x2f6fbd72, FnF, 5, 0x4787c62a, 12, 0x8bac3051);
    Next(6, 0x2f6fbd72, 0x8bac3051, 0xc73741ef, 0x7ad956f2, FnF, 6, 0xa8304613, 17, 0x207dc67b);
    Next(7, 0x7ad956f2, 0x207dc67b, 0x8bac3051, 0xc73741ef, FnF, 7, 0xfd469501, 22, 0x928d99f6);
  }

  lemma After12()
    ensures Operations(Md5.INITIAL, AbcBlock(), 12) == Chain(0x854b3712, 0x5ed49596, 0x3020401c, 0x74e2f284)
  {
    hide Operations, AbcBlock;
    After8();
    Next(8, 0xc73741ef, 0x928d99f6, 0x207dc67b, 0x8bac3051, FnF, 8, 0x698098d8, 7, 0x854b3712);
    Next(9, 0x8bac3051, 0x854b3712, 0x928d99f6, 0x207dc67b, FnF, 9, 0x8b44f7af, 12, 0x74e2f284);
    Next(10, 0x207dc67b, 0x74e2f284, 0x854b3712, 0x928d99f6, FnF, 10, 0xffff5bb1, 17, 0x3020401c);
    Next(11, 0x928d99f6, 0x3020401c, 0x74e2f284, 0x854b3712, FnF, 11, 0x895cd7be, 22, 0x5ed49596);
  }

  lemma After16()
    ensures Operations(Md5.INITIAL, AbcBlock(), 16) == Chain(0xdda9b9a6, 0x72aff2e0, 0xe396856b, 0xa1051895)
  {
    hide Operations, AbcBlock;
    After12();
    Next(12, 0x854b3712, 0x5ed49596, 0x3020401c, 0x74e2f284, FnF, 12, 0x6b901122, 7, 0xdda9b9a6);
    Next(13, 0x74e2f284, 0xdda9b9a6, 0x5ed49596, 0x3020401c, FnF, 13, 0xfd987193, 12, 0xa1051895);
    Next(14, 0x3020401c, 0xa1051895, 0xdda9b9a6, 0x5ed49596, FnF, 14, 0xa679438e, 17, 0xe396856b);
    Next(15, 0x5ed49596, 0xe396856b, 0xa1051895, 0xdda9b9a6, FnF, 15, 0x49b40821, 22, 0x72aff2e0);
  }

  lemma After20()
    ensures Operations(Md5.INITIAL, AbcBlock(), 20) == Chain(0x3e9e9126, 0xb5b204e4, 0xe25e1652, 0x4a1d804e)
  {
    hide Operations, AbcBlock;
    After16();
    Next(16, 0xdda9b9a6, 0x72aff2e0, 0xe396856b, 0xa1051895, FnG, 1, 0xf61e2562, 5, 0x3e9e9126);
    Next(17, 0xa1051895, 0x3e9e9126, 0x72aff2e0, 0xe396856b, FnG, 6, 0xc040b340, 9, 0x4a1d804e);
    Next(18, 0xe396856b, 0x4a1d804e, 0x3e9e9126, 0x72aff2e0, FnG, 11, 0x265e5a51, 14, 0xe25e1652);
    Next(19, 0x72aff2e0, 0xe25e1652, 0x4a1d804e, 0x3e9e9126, FnG, 0, 0xe9b6c7aa, 20, 0xb5b204e4);
  }

  lemma After24()
    ensures Operations(Md5.INITIAL, AbcBlock(), 24) == Chain(0x59a8ffda, 0x47092c07, 0xabfc7920, 0x6d002f1e)
  {
    hide Operations, AbcBlock;
    After20();
    Next(20, 0x3e9e9126, 0xb5b204e4, 0xe25e1652, 0x4a1d804e, FnG, 5, 0xd62f105d, 5, 0x59a8ffda);
    Next(21, 0x4a1d804e, 0x59a8ffda, 0xb5b204e4, 0xe25e1652, FnG, 10, 0x02441453, 9, 0x6d002f1e);
    Next(22, 0xe25e1652, 0x6d002f1e, 0x59a8ffda, 0xb5b204e4, FnG, 15, 0xd8a1e681, 14, 0xabfc7920);
    Next(23, 0xb5b204e4, 0xabfc7920, 0x6d002f1e, 0x59a8ffda, FnG, 4, 0xe7d3fbc8, 20, 0x47092c07);
  }

  lemma After28()
    ensures Operations(Md5.INITIAL, AbcBlock(), 28) == Chain(0xb7f268cf, 0x786acb8f, 0xfe1623b1, 0x09388eff)
  {
    hide Operations, AbcBlock;
    After24();
    Next(24, 0x59a8ffda, 0x47092c07, 0xabfc7920, 0x6d002f1e, FnG, 9, 0x21e1cde6, 5, 0xb7f268cf);
    Next(25, 0x6d002f1e, 0xb7f268cf, 0x47092c07, 0xabfc7920, FnG, 14, 0xc33707d6, 9, 0x09388eff);
    Next(26, 0xabfc7920, 0x09388eff, 0xb7f268cf, 0x47092c07, FnG, 3, 0xf4d50d87, 14, 0xfe1623b1);
    Next(27, 0x47092c07, 0xfe1623b1, 0x09388eff, 0xb7f268cf, FnG, 8, 0x455a14ed, 20, 0x786acb8f);
  }

  lemma After32()
    ensures Operations(Md5.INITIAL, AbcBlock(), 32) == Chain(0x790a77fb, 0x726342d3, 0xa62884aa, 0x9f47e4f8)
  {
    hide Operations, AbcBlock;
    After28();
    Next(28, 0xb7f268cf, 0x786acb8f, 0xfe1623b1, 0x09388eff, FnG, 13, 0xa9e3e905, 5, 0x790a77fb);
    Next(29, 0x09388eff, 0x790a77fb, 0x786acb8f, 0xfe1623b1, FnG, 2, 0xfcefa3f8, 9, 0x9f47e4f8);
    Next(30, 0xfe1623b1, 0x9f47e4f8, 0x790a77fb, 0x786acb8f, FnG, 7, 0x676f02d9, 14, 0xa62884aa);
    Next(31, 0x786acb8f, 0xa62884aa, 0x9f47e4f8, 0x790a77fb, FnG, 12, 0x8d2a4c8a, 20, 0x726342d3);
  }

  lemma After36()
    ensures Operations(Md5.INITIAL, AbcBlock(), 36) == Chain(0xb3707ebf, 0x3b0875c7, 0x8d212ff5, 0x60127b2e)
  {
    hide Operations, AbcBlock;
    After32();
    Next(32, 0x790a77fb, 0x726342d3, 0xa62884aa, 0x9f47e4f8, FnH, 5, 0xfffa3942, 4, 0xb3707ebf);
    Next(33, 0x9f47e4f8, 0xb3707ebf, 0x726342d3, 0xa62884aa, FnH, 8, 0x8771f681, 11, 0x60127b2e);
    Next(34, 0xa62884aa, 0x60127b2e, 0xb3707ebf, 0x726342d3, FnH, 11, 0x6d9d6122, 16, 0x8d212ff5);
    Next(35, 0x726342d3, 0x8d212ff5, 0x60127b2e, 0xb3707ebf, FnH, 14, 0xfde5380c, 23, 0x3b0875c7);
  }

  lemma After40()
    ensures Operations(Md5.INITIAL, AbcBlock(), 40) == Chain(0x21b117b9, 0x5a2f5ea5, 0x3575227e, 0x6e7429d5)
  {
    hide Operations, AbcBlock;
    After36();
    Next(36, 0xb3707ebf, 0x3b0875c7, 0x8d212ff5, 0x60127b2e, FnH, 1, 0xa4beea44, 4, 0x21b117b9);
    Next(37, 0x60127b2e, 0x21b117b9, 0x3b0875c7, 0x8d212ff5, FnH, 4, 0x4bdecfa9, 11, 0x6e7429d5);
    Next(38, 0x8d212ff5, 0x6e7429d5, 0x21b117b9, 0x3b0875c7, FnH, 7, 0xf6bb4b60, 16, 0x3575227e);
    Next(39, 0x3b0875c7, 0x3575227e, 0x6e7429d5, 0x21b117b9, FnH, 10, 0xbebfbc70, 23, 0x5a2f5ea5);
  }

  lemma After44()
    ensures Operations(Md5.INITIAL, AbcBlock(), 44) == Chain(0x11de1779, 0x4c6124f4, 0x31c465ca, 0xfadcaa38)
  {
    hide Operations, AbcBlock;
    After40();
    Next(40, 0x21b117b9, 0x5a2f5ea5, 0x3575227e, 0x6e7429d5, FnH, 13, 0x289b7ec6, 4, 0x11de1779);
    Next(41, 0x6e7429d5, 0x11de1779, 0x5a2f5ea5, 0x3575227e, FnH, 0, 0xeaa127fa, 11, 0xfadcaa38);
    Next(42, 0x3575227e, 0xfadcaa38, 0x11de1779, 0x5a2f5ea5, FnH, 3, 0xd4ef3085, 16, 0x31c465ca);
    Next(43, 0x5a2f5ea5, 0x31c465ca, 0xfadcaa38, 0x11de1779, FnH, 6, 0x04881d05, 23, 0x4c6124f4);
  }

  lemma After48()
    ensures Operations(Md5.INITIAL, AbcBlock(), 48) == Chain(0x7f2e507b, 0x7beb9700, 0x8fae6399, 0x99d9679d)
  {
    hide Operations, AbcBlock;
    After44();
    Next(44, 0x11de1779, 0x4c6124f4, 0x31c465ca, 0xfadcaa38, FnH, 9, 0xd9d4d039, 4, 0x7f2e507b);
    Next(45, 0xfadcaa38, 0x7f2e507b, 0x4c6124f4, 0x31c465ca, FnH, 12, 0xe6db99e5, 11, 0x99d9679d);
    Next(46, 0x31c465ca, 0x99d9679d, 0x7f2e507b, 0x4c6124f4, FnH, 15, 0x1fa27cf8, 16, 0x8fae6399);
    Next(47, 0x4c6124f4, 0x8fae6399, 0x99d9679d, 0x7f2e507b, FnH, 2, 0xc4ac5665, 23, 0x7beb9700);
  }

  lemma After52()
    ensures Operations(Md5.INITIAL, AbcBlock(), 52) == Chain(0x7b201df8, 0x8bf025c4, 0xb298cefd, 0xf4e8e96e)
  {
    hide Operations, AbcBlock;
    After48();
    Next(48, 0x7f2e507b, 0x7beb9700, 0x8fae6399, 0x99d9679d, FnI, 0, 0xf4292244, 6, 0x7b201df8);
    Next(49, 0x99d9679d, 0x7b201df8, 0x7beb9700, 0x8fae6399, FnI, 7, 0x432aff97, 10, 0xf4e8e96e);
    Next(50, 0x8fae6399, 0xf4e8e96e, 0x7b201df8, 0x7beb9700, FnI, 14, 0xab9423a7, 15, 0xb298cefd);
    Next(51, 0x7beb9700, 0xb298cefd, 0xf4e8e96e, 0x7b201df8, FnI, 5, 0xfc93a039, 21, 0x8bf025c4);
  }

  lemma After56()
    ensures Operations(Md5.INITIAL, AbcBlock(), 56) == Chain(0x06cc5e8a, 0x3bfa2c27, 0x7d632dd0, 0x5b0d97aa)
  {
    hide Operations, AbcBlock;
    After52();
    Next(52, 0x7b201df8, 0x8bf025c4, 0xb298cefd, 0xf4e8e96e, FnI, 12, 0x655b59c3, 6, 0x06cc5e8a);
    Next(53, 0xf4e8e96e, 0x06cc5e8a, 0x8bf025c4, 0xb298cefd, FnI, 3, 0x8f0ccc92, 10, 0x5b0d97aa);
    Next(54, 0xb298cefd, 0x5b0d97aa, 0x06cc5e8a, 0x8bf025c4, FnI, 10, 0xffeff47d, 15, 0x7d632dd0);
    Next(55, 0x8bf025c4, 0x7d632dd0, 0x5b0d97aa, 0x06cc5e8a, FnI, 1, 0x85845dd1, 21, 0x3bfa2c27);
  }

  lemma After60()
    ensures Operations(Md5.INITIAL, AbcBlock(), 60) == Chain(0x7f81cc35, 0x7327d604, 0x4f9dbe3f, 0x094454ab)
  {
    hide Operations, AbcBlock;
    After56();
    Next(56, 0x06cc5e8a, 0x3bfa2c27, 0x7d632dd0, 0x5b0d97aa, FnI, 8, 0x6fa87e4f, 6, 0x7f81cc35);
    Next(57, 0x5b0d97aa, 0x7f81cc35, 0x3bfa2c27, 0x7d632dd0, FnI, 15, 0xfe2ce6e0, 10, 0x094454ab);
    Next(58, 0x7d632dd0, 0x094454ab, 0x7f81cc35, 0x3bfa2c27, FnI, 6, 0xa3014314, 15, 0x4f9dbe3f);
    Next(59, 0x3bfa2c27, 0x4f9dbe3f, 0x094454ab, 0x7f81cc35, FnI, 13, 0x4e0811a1, 21, 0x7327d604);
  }

  lemma After64()
    ensures Operations(Md5.INITIAL, AbcBlock(), 64) == Chain(0x310ade8f, 0xc08226b3, 0xe484b9d8, 0x624d8cb2)
  {
    hide Operations, AbcBlock;
    After60();
    Next(60, 0x7f81cc35, 0x7327d604, 0x4f9dbe3f, 0x094454ab, FnI, 4, 0xf7537e82, 6, 0x310ade8f);
    Next(61, 0x094454ab, 0x310ade8f, 0x7327d604, 0x4f9dbe3f, FnI, 11, 0xbd3af235, 10, 0x624d8cb2);
    Next(62, 0x4f9dbe3f, 0x624d8cb2, 0x310ade8f, 0x7327d604, FnI, 2, 0x2ad7d2bb, 15, 0xe484b9d8);
    Next(63, 0x7327d604, 0xe484b9d8, 0x624d8cb2, 0x310ade8f, FnI, 9, 0xeb86d391, 21, 0xc08226b3);
  }

  lemma AbcDigest()
    ensures Md5.Digest(ABC) ==
      [0x90, 0x01, 0x50, 0x98, 0x3c, 0xd2, 0x4f, 0xb0,
       0xd6, 0x96, 0x3f, 0x7d, 0x28, 0xe1, 0x7f, 0x72]
  {
    hide Operations, LittleEndian64, Padded;
    After64();
    AbcWords(0);
    assert Fold(Compress, Md5.INITIAL, AbcBlock()) == Compress(Md5.INITIAL, AbcBlock()) by { OneBlock(AbcBlock()); }
    assert Compress(Md5.INITIAL, AbcBlock()) == Chain(0x98500190, 0xb04fd23c, 0x7d3f96d6, 0x727fe128);
  }

  lemma OneBlock(block: seq<Byte>)
    requires |block| == 64
    ensures Fold(Compress, Md5.INITIAL, block) == Compress(Md5.INITIAL, block)
  {
    assert block[..64] == block;
    assert Fold(Compress, Compress(Md5.INITIAL, block), block[64..]) == Compress(Md5.INITIAL, block);
  }
}
