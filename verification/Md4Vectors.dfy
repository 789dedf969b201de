/** The digests of two messages of the test suite in appendix A.5 of RFC 1320, worked out step by step. */
module Md4Vectors {
  import opened Bytes
  import opened Md4

  lemma StepsEnd(r: Regs<word>, x: seq<word>)
    requires |x| == 16
    ensures Steps(RFC1320, r, x, 48) == r
  {
  }

  lemma OneBlock(msg: seq<byte>)
    requires |Pad(msg)| == BLOCK
    ensures Digest(RFC1320, msg) == Output(RFC1320, Compress(RFC1320, RFC1320.iv, Words(RFC1320, Pad(msg))))
  {
    hide Pad, Words, Compress, Output;
    assert [] + Pad(msg) == Pad(msg);
    FoldAppendsBlock(RFC1320, RFC1320.iv, [], Pad(msg));
  }

  lemma ZeroWord()
    ensures FromLe(0, 0, 0, 0) == 0
  {
  }

  /** A block of four octets, zeros and a bit count below 256. */
  lemma ShortBlock(b: seq<byte>)
    requires |b| == BLOCK && forall i :: 4 <= i < BLOCK && i != 56 ==> b[i] == 0
    ensures var w := Words(RFC1320, b);
            && w[0] == FromLe(b[0], b[1], b[2], b[3]) && w[14] == FromLe(b[56], 0, 0, 0)
            && forall i :: 0 < i < 16 && i != 14 ==> w[i] == 0
  {
    hide FromLe;
    ZeroWord();
  }

  // ---------------------------------------------------------------- the empty message

  const EMPTY: seq<byte> := []

  const EMPTY_WORDS: seq<word> :=
    [0x00000080, 0, 0, 0, 0, 0, 0, 0, 0, 0, 0, 0, 0, 0, 0, 0]

  lemma Empty0()
    ensures Steps(RFC1320, Regs(0x67452301, 0xefcdab89, 0x98badcfe, 0x10325476), EMPTY_WORDS, 0) ==
            Steps(RFC1320, Regs(0x000003f8, 0x740f9e7d, 0x0446b910, 0x769a0254), EMPTY_WORDS, 4)
  {
    hide Steps;
    FourSteps(RFC1320, Regs(0x67452301, 0xefcdab89, 0x98badcfe, 0x10325476), EMPTY_WORDS, 0);
  }

  lemma Empty4()
    ensures Steps(RFC1320, Regs(0x000003f8, 0x740f9e7d, 0x0446b910, 0x769a0254), EMPTY_WORDS, 4) ==
            Steps(RFC1320, Regs(0x34b4e040, 0xf5ef256b, 0x6c2bc1c2, 0x704dd255), EMPTY_WORDS, 8)
  {
    hide Steps;
    FourSteps(RFC1320, Regs(0x000003f8, 0x740f9e7d, 0x0446b910, 0x769a0254), EMPTY_WORDS, 4);
  }

  lemma Empty8()
    ensures Steps(RFC1320, Regs(0x34b4e040, 0xf5ef256b, 0x6c2bc1c2, 0x704dd255), EMPTY_WORDS, 8) ==
            Steps(RFC1320, Regs(0xc7059cb4, 0x18be2386, 0x8bf5399c, 0xbe8bdbae), EMPTY_WORDS, 12)
  {
    hide Steps;
    FourSteps(RFC1320, Regs(0x34b4e040, 0xf5ef256b, 0x6c2bc1c2, 0x704dd255), EMPTY_WORDS, 8);
  }

  lemma Empty12()
    ensures Steps(RFC1320, Regs(0xc7059cb4, 0x18be2386, 0x8bf5399c, 0xbe8bdbae), EMPTY_WORDS, 12) ==
            Steps(RFC1320, Regs(0xaddcb303, 0x3665f296, 0x8ee8f245, 0xa483a664), EMPTY_WORDS, 16)
  {
    hide Steps;
    FourSteps(RFC1320, Regs(0xc7059cb4, 0x18be2386, 0x8bf5399c, 0xbe8bdbae), EMPTY_WORDS, 12);
  }

  lemma Empty16()
    ensures Steps(RFC1320, Regs(0xaddcb303, 0x3665f296, 0x8ee8f245, 0xa483a664), EMPTY_WORDS, 16) ==
            Steps(RFC1320, Regs(0x7a08fb05, 0x66cec932, 0x98bbca4f, 0xade24047), EMPTY_WORDS, 20)
  {
    hide Steps;
    FourSteps(RFC1320, Regs(0xaddcb303, 0x3665f296, 0x8ee8f245, 0xa483a664), EMPTY_WORDS, 16);
  }

  lemma Empty20()
    ensures Steps(RFC1320, Regs(0x7a08fb05, 0x66cec932, 0x98bbca4f, 0xade24047), EMPTY_WORDS, 20) ==
            Steps(RFC1320, Regs(0x0bb1e72c, 0x3d0db9ec, 0x9e4a14b3, 0x6410a1c2), EMPTY_WORDS, 24)
  {
    hide Steps;
    FourSteps(RFC1320, Regs(0x7a08fb05, 0x66cec932, 0x98bbca4f, 0xade24047), EMPTY_WORDS, 20);
  }

  lemma Empty24()
    ensures Steps(RFC1320, Regs(0x0bb1e72c, 0x3d0db9ec, 0x9e4a14b3, 0x6410a1c2), EMPTY_WORDS, 24) ==
            Steps(RFC1320, Regs(0x11e8953d, 0xc8d84161, 0x727f1264, 0x7b76231b), EMPTY_WORDS, 28)
  {
    hide Steps;
    FourSteps(RFC1320, Regs(0x0bb1e72c, 0x3d0db9ec, 0x9e4a14b3, 0x6410a1c2), EMPTY_WORDS, 24);
  }

  lemma Empty28()
    ensures Steps(RFC1320, Regs(0x11e8953d, 0xc8d84161, 0x727f1264, 0x7b76231b), EMPTY_WORDS, 28) ==
            Steps(RFC1320, Regs(0x374891bf, 0x6f952b2e, 0xb49a4dae, 0x0a15c329), EMPTY_WORDS, 32)
  {
    hide Steps;
    FourSteps(RFC1320, Regs(0x11e8953d, 0xc8d84161, 0x727f1264, 0x7b76231b), EMPTY_WORDS, 28);
  }

  lemma Empty32()
    ensures Steps(RFC1320, Regs(0x374891bf, 0x6f952b2e, 0xb49a4dae, 0x0a15c329), EMPTY_WORDS, 32) ==
            Steps(RFC1320, Regs(0xb9e91c4b, 0x28f076bd, 0x1ab10ced, 0xac532bb7), EMPTY_WORDS, 36)
  {
    hide Steps;
    FourSteps(RFC1320, Regs(0x374891bf, 0x6f952b2e, 0xb49a4dae, 0x0a15c329), EMPTY_WORDS, 32);
  }

  lemma Empty36()
    ensures Steps(RFC1320, Regs(0xb9e91c4b, 0x28f076bd, 0x1ab10ced, 0xac532bb7), EMPTY_WORDS, 36) ==
            Steps(RFC1320, Regs(0x36aace9e, 0xb8b9000f, 0x6f678dca, 0x31984c40), EMPTY_WORDS, 40)
  {
    hide Steps;
    FourSteps(RFC1320, Regs(0xb9e91c4b, 0x28f076bd, 0x1ab10ced, 0xac532bb7), EMPTY_WORDS, 36);
  }

  lemma Empty40()
    ensures Steps(RFC1320, Regs(0x36aace9e, 0xb8b9000f, 0x6f678dca, 0x31984c40), EMPTY_WORDS, 40) ==
            Steps(RFC1320, Regs(0x5e5bde24, 0x187317b3, 0xb69f1f41, 0xef178453), EMPTY_WORDS, 44)
  {
    hide Steps;
    FourSteps(RFC1320, Regs(0x36aace9e, 0xb8b9000f, 0x6f678dca, 0x31984c40), EMPTY_WORDS, 40);
  }

  lemma Empty44()
    ensures Steps(RFC1320, Regs(0x5e5bde24, 0x187317b3, 0xb69f1f41, 0xef178453), EMPTY_WORDS, 44) ==
            Steps(RFC1320, Regs(0x798ab330, 0x421bbf48, 0x3e9e5fb9, 0xb0576c6a), EMPTY_WORDS, 48)
  {
    hide Steps;
    FourSteps(RFC1320, Regs(0x5e5bde24, 0x187317b3, 0xb69f1f41, 0xef178453), EMPTY_WORDS, 44);
  }

  lemma EmptyCompresses()
    ensures Compress(RFC1320, RFC1320.iv, EMPTY_WORDS) == Regs(0xe0cfd631, 0x31e96ad1, 0xd7593cb7, 0xc089c0e0)
  {
    hide Steps;
    Empty0(); Empty4(); Empty8(); Empty12();
    Empty16(); Empty20(); Empty24(); Empty28();
    Empty32(); Empty36(); Empty40(); Empty44();
    StepsEnd(Regs(0x798ab330, 0x421bbf48, 0x3e9e5fb9, 0xb0576c6a), EMPTY_WORDS);
  }

  lemma EmptyPads()
    ensures Pad(EMPTY) == EMPTY + [0x80] + Zeros(55) + [0, 0, 0, 0, 0, 0, 0, 0] && |Pad(EMPTY)| == BLOCK
  {
  }

  lemma EmptyWords()
    ensures |Pad(EMPTY)| == BLOCK && Words(RFC1320, Pad(EMPTY)) == EMPTY_WORDS
  {
    EmptyPads();
    hide Pad, Words;
    ShortBlock(Pad(EMPTY));
  }

  lemma EmptyOctets()
    ensures ToLe(0xe0cfd631) == [0x31, 0xd6, 0xcf, 0xe0]
    ensures ToLe(0x31e96ad1) == [0xd1, 0x6a, 0xe9, 0x31]
    ensures ToLe(0xd7593cb7) == [0xb7, 0x3c, 0x59, 0xd7]
    ensures ToLe(0xc089c0e0) == [0xe0, 0xc0, 0x89, 0xc0]
  {
  }

  lemma EmptyOutput()
    ensures Output(RFC1320, Regs(0xe0cfd631, 0x31e96ad1, 0xd7593cb7, 0xc089c0e0)) ==
            [0x31, 0xd6, 0xcf, 0xe0, 0xd1, 0x6a, 0xe9, 0x31, 0xb7, 0x3c, 0x59, 0xd7, 0xe0, 0xc0, 0x89, 0xc0]
  {
    EmptyOctets();
    hide ToLe;
  }

  /** The digest of the empty message is 31d6cfe0d16ae931b73c59d7e0c089c0. */
  lemma EmptyDigest()
    ensures Digest(RFC1320, EMPTY) ==
            [0x31, 0xd6, 0xcf, 0xe0, 0xd1, 0x6a, 0xe9, 0x31, 0xb7, 0x3c, 0x59, 0xd7, 0xe0, 0xc0, 0x89, 0xc0]
  {
    EmptyWords();
    EmptyCompresses();
    EmptyOutput();
    hide Pad, Words, Compress, Output, Digest;
    OneBlock(EMPTY);
  }

  // ---------------------------------------------------------------- "abc"

  const ABC: seq<byte> := [0x61, 0x62, 0x63]

  const ABC_WORDS: seq<word> :=
    [0x80636261, 0, 0, 0, 0, 0, 0, 0, 0, 0, 0, 0, 0, 0, 0x00000018, 0]

  lemma Abc0()
    ensures Steps(RFC1320, Regs(0x67452301, 0xefcdab89, 0x98badcfe, 0x10325476), ABC_WORDS, 0) ==
            Steps(RFC1320, Regs(0x031b1304, 0xf66d8f45, 0xd38454e4, 0xee123855), ABC_WORDS, 4)
  {
    hide Steps;
    FourSteps(RFC1320, Regs(0x67452301, 0xefcdab89, 0x98badcfe, 0x10325476), ABC_WORDS, 0);
  }

  lemma Abc4()
    ensures Steps(RFC1320, Regs(0x031b1304, 0xf66d8f45, 0xd38454e4, 0xee123855), ABC_WORDS, 4) ==
            Steps(RFC1320, Regs(0xe98a3ac6, 0x613b2bc8, 0x97854e65, 0x0f435cf0), ABC_WORDS, 8)
  {
    hide Steps;
    FourSteps(RFC1320, Regs(0x031b1304, 0xf66d8f45, 0xd38454e4, 0xee123855), ABC_WORDS, 4);
  }

  lemma Abc8()
    ensures Steps(RFC1320, Regs(0xe98a3ac6, 0x613b2bc8, 0x97854e65, 0x0f435cf0), ABC_WORDS, 8) ==
            Steps(RFC1320, Regs(0xc65cc9b7, 0xa7d13acb, 0x15d2eef5, 0x6e365830), ABC_WORDS, 12)
  {
    hide Steps;
    FourSteps(RFC1320, Regs(0xe98a3ac6, 0x613b2bc8, 0x97854e65, 0x0f435cf0), ABC_WORDS, 8);
  }

  lemma Abc12()
    ensures Steps(RFC1320, Regs(0xc65cc9b7, 0xa7d13acb, 0x15d2eef5, 0x6e365830), ABC_WORDS, 12) ==
            Steps(RFC1320, Regs(0xa299a540, 0xda717395, 0x24baadcb, 0x04e19293), ABC_WORDS, 16)
  {
    hide Steps;
    FourSteps(RFC1320, Regs(0xc65cc9b7, 0xa7d13acb, 0x15d2eef5, 0x6e365830), ABC_WORDS, 12);
  }

  lemma Abc16()
    ensures Steps(RFC1320, Regs(0xa299a540, 0xda717395, 0x24baadcb, 0x04e19293), ABC_WORDS, 16) ==
            Steps(RFC1320, Regs(0x1389a66c, 0x228b5116, 0xdd3d21a5, 0x43b67f2e), ABC_WORDS, 20)
  {
    hide Steps;
    FourSteps(RFC1320, Regs(0xa299a540, 0xda717395, 0x24baadcb, 0x04e19293), ABC_WORDS, 16);
  }

  lemma Abc20()
    ensures Steps(RFC1320, Regs(0x1389a66c, 0x228b5116, 0xdd3d21a5, 0x43b67f2e), ABC_WORDS, 20) ==
            Steps(RFC1320, Regs(0x8e5c895d, 0x4ec68171, 0xbd68a784, 0x8abf3b85), ABC_WORDS, 24)
  {
    hide Steps;
    FourSteps(RFC1320, Regs(0x1389a66c, 0x228b5116, 0xdd3d21a5, 0x43b67f2e), ABC_WORDS, 20);
  }

  lemma Abc24()
    ensures Steps(RFC1320, Regs(0x8e5c895d, 0x4ec68171, 0xbd68a784, 0x8abf3b85), ABC_WORDS, 24) ==
            Steps(RFC1320, Regs(0xbe6d33db, 0x0323e3b7, 0x74661d2d, 0x75cb1df4), ABC_WORDS, 28)
  {
    hide Steps;
    FourSteps(RFC1320, Regs(0x8e5c895d, 0x4ec68171, 0xbd68a784, 0x8abf3b85), ABC_WORDS, 24);
  }

  lemma Abc28()
    ensures Steps(RFC1320, Regs(0xbe6d33db, 0x0323e3b7, 0x74661d2d, 0x75cb1df4), ABC_WORDS, 28) ==
            Steps(RFC1320, Regs(0x7296594c, 0x8e531b8f, 0x3dd42422, 0x4e7e1748), ABC_WORDS, 32)
  {
    hide Steps;
    FourSteps(RFC1320, Regs(0xbe6d33db, 0x0323e3b7, 0x74661d2d, 0x75cb1df4), ABC_WORDS, 28);
  }

  lemma Abc32()
    ensures Steps(RFC1320, Regs(0x7296594c, 0x8e531b8f, 0x3dd42422, 0x4e7e1748), ABC_WORDS, 32) ==
            Steps(RFC1320, Regs(0xfe66819a, 0xfd9fcfeb, 0x2f4e3583, 0x73824016), ABC_WORDS, 36)
  {
    hide Steps;
    FourSteps(RFC1320, Regs(0x7296594c, 0x8e531b8f, 0x3dd42422, 0x4e7e1748), ABC_WORDS, 32);
  }

  lemma Abc36()
    ensures Steps(RFC1320, Regs(0xfe66819a, 0xfd9fcfeb, 0x2f4e3583, 0x73824016), ABC_WORDS, 36) ==
            Steps(RFC1320, Regs(0x74a13dc8, 0x71a2ad97, 0x03f2b578, 0x99e6af11), ABC_WORDS, 40)
  {
    hide Steps;
    FourSteps(RFC1320, Regs(0xfe66819a, 0xfd9fcfeb, 0x2f4e3583, 0x73824016), ABC_WORDS, 36);
  }

  lemma Abc40()
    ensures Steps(RFC1320, Regs(0x74a13dc8, 0x71a2ad97, 0x03f2b578, 0x99e6af11), ABC_WORDS, 40) ==
            Steps(RFC1320, Regs(0x798f0b3e, 0xacbf46ad, 0xea0ccd51, 0x3f5d0629), ABC_WORDS, 44)
  {
    hide Steps;
    FourSteps(RFC1320, Regs(0x74a13dc8, 0x71a2ad97, 0x03f2b578, 0x99e6af11), ABC_WORDS, 40);
  }

  lemma Abc44()
    ensures Steps(RFC1320, Regs(0x798f0b3e, 0xacbf46ad, 0xea0ccd51, 0x3f5d0629), ABC_WORDS, 44) ==
            Steps(RFC1320, Regs(0x12bc25a3, 0x630a7626, 0x4f4fe461, 0x8d405204), ABC_WORDS, 48)
  {
    hide Steps;
    FourSteps(RFC1320, Regs(0x798f0b3e, 0xacbf46ad, 0xea0ccd51, 0x3f5d0629), ABC_WORDS, 44);
  }

  lemma AbcCompresses()
    ensures Compress(RFC1320, RFC1320.iv, ABC_WORDS) == Regs(0x7a0148a4, 0x52d821af, 0xe80ac15f, 0x9d72a67a)
  {
    hide Steps;
    Abc0(); Abc4(); Abc8(); Abc12();
    Abc16(); Abc20(); Abc24(); Abc28();
    Abc32(); Abc36(); Abc40(); Abc44();
    StepsEnd(Regs(0x12bc25a3, 0x630a7626, 0x4f4fe461, 0x8d405204), ABC_WORDS);
  }

  lemma AbcPads()
    ensures Pad(ABC) == ABC + [0x80] + Zeros(52) + [24, 0, 0, 0, 0, 0, 0, 0] && |Pad(ABC)| == BLOCK
  {
  }

  lemma AbcWords()
    ensures |Pad(ABC)| == BLOCK && Words(RFC1320, Pad(ABC)) == ABC_WORDS
  {
    AbcPads();
    hide Pad, Words;
    ShortBlock(Pad(ABC));
  }

  lemma AbcOctets()
    ensures ToLe(0x7a0148a4) == [0xa4, 0x48, 0x01, 0x7a]
    ensures ToLe(0x52d821af) == [0xaf, 0x21, 0xd8, 0x52]
    ensures ToLe(0xe80ac15f) == [0x5f, 0xc1, 0x0a, 0xe8]
    ensures ToLe(0x9d72a67a) == [0x7a, 0xa6, 0x72, 0x9d]
  {
  }

  lemma AbcOutput()
    ensures Output(RFC1320, Regs(0x7a0148a4, 0x52d821af, 0xe80ac15f, 0x9d72a67a)) ==
            [0xa4, 0x48, 0x01, 0x7a, 0xaf, 0x21, 0xd8, 0x52, 0x5f, 0xc1, 0x0a, 0xe8, 0x7a, 0xa6, 0x72, 0x9d]
  {
    AbcOctets();
    hide ToLe;
  }

  /** The digest of "abc" is a448017aaf21d8525fc10ae87aa6729d. */
  lemma AbcDigest()
    ensures Digest(RFC1320, ABC) ==
            [0xa4, 0x48, 0x01, 0x7a, 0xaf, 0x21, 0xd8, 0x52, 0x5f, 0xc1, 0x0a, 0xe8, 0x7a, 0xa6, 0x72, 0x9d]
  {
    AbcWords();
    AbcCompresses();
    AbcOutput();
    hide Pad, Words, Compress, Output, Digest;
    OneBlock(ABC);
  }

}

