/**
  The MD4 digest of RFC 1320 and the buffered context that computes it piece by piece.

  The one-shot digest follows sections 3.1 to 3.5 of RFC 1320: pad the whole message, cut it
  into 64-byte blocks, and fold the table-driven compression function over them.  The context
  keeps at most one partial block and compresses with 48 unrolled steps on four registers.

  Everything but the word arithmetic is generic: a Machine supplies the arithmetic, and
  RFC1320 is the machine with 32-bit words.  The refinement holds on every machine.
 */
module Md4 {
  import opened Bytes

  type word = bv32

  const BLOCK := 64

  datatype Regs<W> = Regs(a: W, b: W, c: W, d: W)

  /** The word arithmetic an MD4-shaped digest is built on. */
  datatype Machine<!W> = Machine(
    iv: Regs<W>,
    zero: W,
    add: (W, W) -> W,
    round1: (W, W, W, W, W, bv5) -> W,
    round2: (W, W, W, W, W, bv5) -> W,
    round3: (W, W, W, W, W, bv5) -> W,
    fromLe: (byte, byte, byte, byte) -> W,
    toLe: W -> seq<byte>)

  // ---------------------------------------------------------------- 32-bit arithmetic

  function Lshift(x: word, s: bv5): word { (x << s) | (x >> (32 - s as bv6)) }

  function F(x: word, y: word, z: word): word { (x & y) | (!x & z) }

  function G(x: word, y: word, z: word): word { (x & y) | (x & z) | (y & z) }

  function H(x: word, y: word, z: word): word { x ^ y ^ z }

  function Round1(a: word, b: word, c: word, d: word, k: word, s: bv5): word {
    Lshift(a + F(b, c, d) + k, s)
  }

  function Round2(a: word, b: word, c: word, d: word, k: word, s: bv5): word {
    Lshift(a + G(b, c, d) + k + 0x5A827999, s)
  }

  function Round3(a: word, b: word, c: word, d: word, k: word, s: bv5): word {
    Lshift(a + H(b, c, d) + k + 0x6ED9EBA1, s)
  }

  function FromLe(b0: byte, b1: byte, b2: byte, b3: byte): word {
    (b0 + 0x100 * b1 + 0x1_0000 * b2 + 0x100_0000 * b3) as word
  }

  function ToLe(w: word): seq<byte> {
    Le32(w as int)
  }

  const RFC1320: Machine<word> := Machine(
    Regs(0x67452301, 0xefcdab89, 0x98badcfe, 0x10325476),
    0,
    (x: word, y: word) => x + y,
    Round1, Round2, Round3,
    FromLe, ToLe)

  // ---------------------------------------------------------------- one-shot definition

  /** The message word used by step i, section 3.4 of RFC 1320. */
  function WordIndex(i: nat): (k: nat)
    requires i < 48
    ensures k < 16
  {
    if i < 16 then i
    else if i < 32 then [0, 4, 8, 12, 1, 5, 9, 13, 2, 6, 10, 14, 3, 7, 11, 15][i - 16]
    else [0, 8, 4, 12, 2, 10, 6, 14, 1, 9, 5, 13, 3, 11, 7, 15][i - 32]
  }

  function ShiftOf(i: nat): bv5
    requires i < 48
  {
    if i < 16 then [3, 7, 11, 19][i % 4]
    else if i < 32 then [3, 5, 9, 13][i % 4]
    else [3, 9, 11, 15][i % 4]
  }

  /** One step, with the registers renamed by rotation rather than by position in the text. */
  function Step<W>(m: Machine<W>, r: Regs<W>, x: seq<W>, i: nat): Regs<W>
    requires |x| == 16 && i < 48
  {
    var round := if i < 16 then m.round1 else if i < 32 then m.round2 else m.round3;
    Regs(r.d, round(r.a, r.b, r.c, r.d, x[WordIndex(i)], ShiftOf(i)), r.b, r.c)
  }

  function Steps<W>(m: Machine<W>, r: Regs<W>, x: seq<W>, i: nat): Regs<W>
    requires |x| == 16 && i <= 48
    decreases 48 - i
  {
    if i == 48 then r else Steps(m, Step(m, r, x, i), x, i + 1)
  }

  function AddRegs<W>(m: Machine<W>, h: Regs<W>, r: Regs<W>): Regs<W> {
    Regs(m.add(h.a, r.a), m.add(h.b, r.b), m.add(h.c, r.c), m.add(h.d, r.d))
  }

  function Compress<W>(m: Machine<W>, h: Regs<W>, x: seq<W>): Regs<W>
    requires |x| == 16
  {
    AddRegs(m, h, Steps(m, h, x, 0))
  }

  /** A block as sixteen little-endian words. */
  function Words<W>(m: Machine<W>, b: seq<byte>): (w: seq<W>)
    requires |b| == BLOCK
    ensures |w| == 16
  {
    seq(16, i requires 0 <= i < 16 => m.fromLe(b[4 * i], b[4 * i + 1], b[4 * i + 2], b[4 * i + 3]))
  }

  /** Folds the compression function over the complete blocks of s. */
  function FoldBlocks<W>(m: Machine<W>, h: Regs<W>, s: seq<byte>): Regs<W>
    decreases |s|
  {
    if |s| < BLOCK then h else FoldBlocks(m, Compress(m, h, Words(m, s[..BLOCK])), s[BLOCK..])
  }

  function Le32(n: nat): (r: seq<byte>)
    requires n < TWO_32
    ensures |r| == 4
  {
    [n % 256, n / 256 % 256, n / 65536 % 256, n / 16777216]
  }

  /** A word stored octet by octet, least significant first, is loaded as the same number. */
  lemma LoadUndoesStore(n: nat)
    requires n < TWO_32
    ensures var s := Le32(n); FromLe(s[0], s[1], s[2], s[3]) == n as word
  {
    var a, b, c := n / 0x100, n / 0x1_0000, n / 0x100_0000;
    assert a / 0x100 == b && b / 0x100 == c;
    assert n == n % 0x100 + 0x100 * a && a == a % 0x100 + 0x100 * b && b == b % 0x100 + 0x100 * c && c < 0x100;
  }

  function Zeros(n: nat): (r: seq<byte>)
    ensures |r| == n
  {
    seq(n, _ => 0)
  }

  /** The bit count modulo 2^64. */
  function BitCount(n: nat): (bits: nat)
    ensures bits < TWO_64
  {
    8 * n % TWO_64
  }

  /** The length suffix: the bit count, low-order word first. */
  function LengthBytes(n: nat): (r: seq<byte>)
    ensures |r| == 8
  {
    Le32(BitCount(n) % TWO_32) + Le32(BitCount(n) / TWO_32)
  }

  function Pad(msg: seq<byte>): seq<byte> {
    msg + [0x80] + Zeros(PadZeros(|msg|)) + LengthBytes(|msg|)
  }

  function Output<W>(m: Machine<W>, r: Regs<W>): seq<byte> {
    m.toLe(r.a) + m.toLe(r.b) + m.toLe(r.c) + m.toLe(r.d)
  }

  function Digest<W>(m: Machine<W>, msg: seq<byte>): seq<byte> {
    Output(m, FoldBlocks(m, m.iv, Pad(msg)))
  }

  // ---------------------------------------------------------------- lemmas

  /** The padded message is a whole number of blocks that still starts with the message. */
  lemma PadFillsBlocks(msg: seq<byte>)
    ensures |Pad(msg)| % BLOCK == 0
    ensures msg <= Pad(msg)
    ensures |msg| + 9 <= |Pad(msg)| < |msg| + 9 + BLOCK
  {
    hide PadZeros, LengthBytes;
    PadTail(msg);
    var k := if |Partial(msg)| < 56 then BLOCK else 2 * BLOCK;
    DivModUnique(|Whole(msg)| + k, BLOCK, (|Whole(msg)| + k) / BLOCK, 0);
  }

  lemma {:induction false} FoldBlocksSplits<W>(m: Machine<W>, h: Regs<W>, s: seq<byte>, t: seq<byte>)
    requires Aligned(s)
    ensures FoldBlocks(m, h, s + t) == FoldBlocks(m, FoldBlocks(m, h, s), t)
    decreases |s|
  {
    if s == [] {
      assert s + t == t;
    } else {
      assert (s + t)[..BLOCK] == s[..BLOCK];
      assert (s + t)[BLOCK..] == s[BLOCK..] + t;
      FoldBlocksSplits(m, Compress(m, h, Words(m, s[..BLOCK])), s[BLOCK..], t);
    }
  }

  /** Folding one more block is one more compression. */
  lemma FoldAppendsBlock<W>(m: Machine<W>, h: Regs<W>, s: seq<byte>, b: seq<byte>)
    requires Aligned(s) && |b| == BLOCK
    ensures FoldBlocks(m, h, s + b) == Compress(m, FoldBlocks(m, h, s), Words(m, b))
    ensures Aligned(s + b)
  {
    hide Compress, Words;
    FoldBlocksSplits(m, h, s, b);
    assert b[..BLOCK] == b;
  }

  /** Four steps as the unrolled text writes them: a, d, c and b are updated in turn. */
  function Quad<W>(m: Machine<W>, r: Regs<W>, x: seq<W>, i: nat): Regs<W>
    requires |x| == 16 && i <= 44
  {
    var f := if i < 16 then m.round1 else if i < 32 then m.round2 else m.round3;
    var a := f(r.a, r.b, r.c, r.d, x[WordIndex(i)], ShiftOf(i));
    var d := f(r.d, a, r.b, r.c, x[WordIndex(i + 1)], ShiftOf(i + 1));
    var c := f(r.c, d, a, r.b, x[WordIndex(i + 2)], ShiftOf(i + 2));
    var b := f(r.b, c, d, a, x[WordIndex(i + 3)], ShiftOf(i + 3));
    Regs(a, b, c, d)
  }

  lemma FourSteps<W>(m: Machine<W>, r: Regs<W>, x: seq<W>, i: nat)
    requires |x| == 16 && i <= 44 && i % 4 == 0
    ensures Steps(m, r, x, i) == Steps(m, Quad(m, r, x, i), x, i + 4)
  {
    hide WordIndex, ShiftOf;
    var r1 := Step(m, r, x, i);
    var r2 := Step(m, r1, x, i + 1);
    var r3 := Step(m, r2, x, i + 2);
    assert Steps(m, r, x, i) == Steps(m, r1, x, i + 1) == Steps(m, r2, x, i + 2) == Steps(m, r3, x, i + 3);
    assert Step(m, r3, x, i + 3) == Quad(m, r, x, i);
  }

  /** The two words cut out of the wrapped byte count are the halves of the bit count. */
  lemma LengthWords(n: nat)
    ensures LengthBytes(n) == Le32(Wrap(Wrap(n) * 8) % TWO_32) + Le32(Wrap(n) / 0x2000_0000 % TWO_32)
  {
    var q, c := n / TWO_64, n % TWO_64;
    var c1, c0 := c / 0x2000_0000_0000_0000, c % 0x2000_0000_0000_0000;
    var b1, b0 := c0 / 0x2000_0000, c0 % 0x2000_0000;
    DivModUnique(8 * n, TWO_64, 8 * q + c1, 8 * c0);
    DivModUnique(8 * c, TWO_64, c1, 8 * c0);
    DivModUnique(8 * c0, TWO_32, b1, 8 * b0);
    DivModUnique(c, 0x2000_0000, c1 * TWO_32 + b1, b0);
    DivModUnique(c / 0x2000_0000, TWO_32, c1, b1);
  }

  /** The complete blocks of a message. */
  ghost function Whole(msg: seq<byte>): (w: seq<byte>)
    ensures Aligned(w) && w + Partial(msg) == msg
  {
    msg[..|msg| - |msg| % BLOCK]
  }

  /** The incomplete last block of a message. */
  ghost function Partial(msg: seq<byte>): (t: seq<byte>)
    ensures |t| == Offset(|msg|)
  {
    msg[|msg| - |msg| % BLOCK..]
  }

  lemma SplitUnique(w: seq<byte>, t: seq<byte>)
    requires Aligned(w) && |t| < BLOCK
    ensures Whole(w + t) == w && Partial(w + t) == t
  {
    DivModUnique(|w| + |t|, BLOCK, |w| / BLOCK, |t|);
  }

  /** Data that does not fill the current block only extends the incomplete part. */
  lemma SplitLater(msg: seq<byte>, data: seq<byte>)
    requires |Partial(msg)| + |data| < BLOCK
    ensures Whole(msg + data) == Whole(msg) && Partial(msg + data) == Partial(msg) + data
  {
    assert msg + data == Whole(msg) + (Partial(msg) + data);
    SplitUnique(Whole(msg), Partial(msg) + data);
  }

  /** The incomplete part is what follows the last block boundary inside data. */
  lemma SplitAfter(msg: seq<byte>, data: seq<byte>, at: nat)
    requires at <= |data| < at + BLOCK && Aligned(msg + data[..at])
    ensures Whole(msg + data) == msg + data[..at] && Partial(msg + data) == data[at..]
  {
    assert msg + data == (msg + data[..at]) + data[at..];
    SplitUnique(msg + data[..at], data[at..]);
  }

  lemma CountModBlock(n: nat, k: nat)
    ensures Offset(Wrap(n)) == Offset(n)
    ensures Wrap(Wrap(n) + k) == Wrap(n + k)
  {
    var q, c := n / TWO_64, n % TWO_64;
    DivModUnique(n, BLOCK, q * (TWO_64 / BLOCK) + c / BLOCK, c % BLOCK);
    DivModUnique(n + k, TWO_64, q + (c + k) / TWO_64, (c + k) % TWO_64);
  }

  /** A 64-bit byte counter. */
  function Wrap(n: nat): nat { n % TWO_64 }

  /** The place in the current block that n bytes lead to. */
  function Offset(n: nat): (o: nat)
    ensures o < BLOCK
  {
    n % BLOCK
  }

  predicate Aligned(s: seq<byte>) { |s| % BLOCK == 0 }

  function PadZeros(n: nat): (z: nat)
    ensures z < BLOCK
  {
    (55 - n) % BLOCK
  }

  /** The padding depends only on the incomplete last block; it completes one block or two. */
  lemma PadTail(msg: seq<byte>)
    ensures var t := Partial(msg);
            && PadZeros(|msg|) == PadZeros(|t|) == (if |t| < 56 then 55 - |t| else 119 - |t|)
            && Pad(msg) == Whole(msg) + (t + [0x80] + Zeros(PadZeros(|t|)) + LengthBytes(|msg|))
  {
    var t := |msg| % BLOCK;
    var z := if t < 56 then 55 - t else 119 - t;
    DivModUnique(55 - |msg|, BLOCK, (if t < 56 then 0 else -1) - |msg| / BLOCK, z);
    DivModUnique(55 - t, BLOCK, if t < 56 then 0 else -1, z);
    var u := [0x80] + Zeros(z) + LengthBytes(|msg|);
    assert Whole(msg) + (Partial(msg) + u) == msg + u;
  }

  function Concat(pieces: seq<seq<byte>>): seq<byte> {
    if pieces == [] then [] else Concat(pieces[..|pieces| - 1]) + pieces[|pieces| - 1]
  }

  lemma ConcatAppends(pieces: seq<seq<byte>>, i: nat)
    requires i < |pieces|
    ensures Concat(pieces[..i + 1]) == Concat(pieces[..i]) + pieces[i]
  {
    assert pieces[..i + 1][..i] == pieces[..i];
  }

  // ---------------------------------------------------------------- the buffered context

  method Transform<W>(m: Machine<W>, h: Regs<W>, x: seq<W>) returns (r: Regs<W>)
    requires |x| == 16
    ensures r == Compress(m, h, x)
  {
    var q := TransformRound1(m, h, x);
    q := TransformRound2(m, q, x);
    q := TransformRound3(m, q, x);
    r := Regs(m.add(h.a, q.a), m.add(h.b, q.b), m.add(h.c, q.c), m.add(h.d, q.d));
  }

  method TransformRound1<W>(m: Machine<W>, h: Regs<W>, x: seq<W>) returns (q: Regs<W>)
    requires |x| == 16
    ensures Steps(m, h, x, 0) == Steps(m, q, x, 16)
  {
    hide Steps;
    var a, b, c, d := h.a, h.b, h.c, h.d;
    FourSteps(m, Regs(a, b, c, d), x, 0);
    a := m.round1(a, b, c, d, x[0], 3);
    d := m.round1(d, a, b, c, x[1], 7);
    c := m.round1(c, d, a, b, x[2], 11);
    b := m.round1(b, c, d, a, x[3], 19);
    FourSteps(m, Regs(a, b, c, d), x, 4);
    a := m.round1(a, b, c, d, x[4], 3);
    d := m.round1(d, a, b, c, x[5], 7);
    c := m.round1(c, d, a, b, x[6], 11);
    b := m.round1(b, c, d, a, x[7], 19);
    FourSteps(m, Regs(a, b, c, d), x, 8);
    a := m.round1(a, b, c, d, x[8], 3);
    d := m.round1(d, a, b, c, x[9], 7);
    c := m.round1(c, d, a, b, x[10], 11);
    b := m.round1(b, c, d, a, x[11], 19);
    FourSteps(m, Regs(a, b, c, d), x, 12);
    a := m.round1(a, b, c, d, x[12], 3);
    d := m.round1(d, a, b, c, x[13], 7);
    c := m.round1(c, d, a, b, x[14], 11);
    b := m.round1(b, c, d, a, x[15], 19);
    q := Regs(a, b, c, d);
  }

  method TransformRound2<W>(m: Machine<W>, p: Regs<W>, x: seq<W>) returns (q: Regs<W>)
    requires |x| == 16
    ensures Steps(m, p, x, 16) == Steps(m, q, x, 32)
  {
    hide Steps;
    var a, b, c, d := p.a, p.b, p.c, p.d;
    FourSteps(m, Regs(a, b, c, d), x, 16);
    a := m.round2(a, b, c, d, x[0], 3);
    d := m.round2(d, a, b, c, x[4], 5);
    c := m.round2(c, d, a, b, x[8], 9);
    b := m.round2(b, c, d, a, x[12], 13);
    FourSteps(m, Regs(a, b, c, d), x, 20);
    a := m.round2(a, b, c, d, x[1], 3);
    d := m.round2(d, a, b, c, x[5], 5);
    c := m.round2(c, d, a, b, x[9], 9);
    b := m.round2(b, c, d, a, x[13], 13);
    FourSteps(m, Regs(a, b, c, d), x, 24);
    a := m.round2(a, b, c, d, x[2], 3);
    d := m.round2(d, a, b, c, x[6], 5);
    c := m.round2(c, d, a, b, x[10], 9);
    b := m.round2(b, c, d, a, x[14], 13);
    FourSteps(m, Regs(a, b, c, d), x, 28);
    a := m.round2(a, b, c, d, x[3], 3);
    d := m.round2(d, a, b, c, x[7], 5);
    c := m.round2(c, d, a, b, x[11], 9);
    b := m.round2(b, c, d, a, x[15], 13);
    q := Regs(a, b, c, d);
  }

  method TransformRound3<W>(m: Machine<W>, p: Regs<W>, x: seq<W>) returns (q: Regs<W>)
    requires |x| == 16
    ensures Steps(m, p, x, 32) == Steps(m, q, x, 48)
  {
    hide Steps;
    var a, b, c, d := p.a, p.b, p.c, p.d;
    FourSteps(m, Regs(a, b, c, d), x, 32);
    a := m.round3(a, b, c, d, x[0], 3);
    d := m.round3(d, a, b, c, x[8], 9);
    c := m.round3(c, d, a, b, x[4], 11);
    b := m.round3(b, c, d, a, x[12], 15);
    FourSteps(m, Regs(a, b, c, d), x, 36);
    a := m.round3(a, b, c, d, x[2], 3);
    d := m.round3(d, a, b, c, x[10], 9);
    c := m.round3(c, d, a, b, x[6], 11);
    b := m.round3(b, c, d, a, x[14], 15);
    FourSteps(m, Regs(a, b, c, d), x, 40);
    a := m.round3(a, b, c, d, x[1], 3);
    d := m.round3(d, a, b, c, x[9], 9);
    c := m.round3(c, d, a, b, x[5], 11);
    b := m.round3(b, c, d, a, x[13], 15);
    FourSteps(m, Regs(a, b, c, d), x, 44);
    a := m.round3(a, b, c, d, x[3], 3);
    d := m.round3(d, a, b, c, x[11], 9);
    c := m.round3(c, d, a, b, x[7], 11);
    b := m.round3(b, c, d, a, x[15], 15);
    q := Regs(a, b, c, d);
  }

  class Context<W> {
    const machine: Machine<W>
    const block: array<byte>
    var hash: Regs<W>
    var byteCount: nat

    /** The context has absorbed exactly msg: complete blocks are folded into hash, the rest sits in block. */
    ghost predicate Absorbed(msg: seq<byte>)
      reads this, block
    {
      && block.Length == BLOCK
      && byteCount == Wrap(|msg|)
      && hash == FoldBlocks(machine, machine.iv, Whole(msg))
      && block[..|Partial(msg)|] == Partial(msg)
    }

    constructor (m: Machine<W>)
      ensures machine == m && Absorbed([]) && fresh(block)
    {
      machine := m;
      hash := m.iv;
      block := new byte[BLOCK];
      byteCount := 0;
    }

    method Copy(at: nat, data: seq<byte>)
      requires at + |data| <= block.Length
      modifies block
      ensures block[..] == old(block[..at]) + data + old(block[at + |data|..])
    {
      forall i | 0 <= i < |data| {
        block[at + i] := data[i];
      }
    }

    method TransformHelper()
      requires block.Length == BLOCK
      modifies this`hash
      ensures hash == Compress(machine, old(hash), Words(machine, block[..]))
    {
      hash := Transform(machine, hash, Words(machine, block[..]));
    }

    method Update(data: seq<byte>, ghost msg: seq<byte>)
      requires Absorbed(msg) && |data| < TWO_32
      modifies this`hash, this`byteCount, block
      ensures Absorbed(msg + data)
    {
      hide FoldBlocks, Compress, Words, Whole, Partial, Wrap, Offset, Aligned, PadZeros, BitCount, Le32;
      ghost var done, tail := Whole(msg), Partial(msg);
      CountModBlock(|msg|, |data|);
      var avail := BLOCK - Offset(byteCount);
      byteCount := Wrap(byteCount + |data|);

      if avail > |data| {
        Copy(BLOCK - avail, data);
        assert block[..|tail + data|] == tail + data;
        SplitLater(msg, data);
        return;
      }

      FillBlock(data[..avail], msg);
      var at := ConsumeBlocks(data, avail, msg);
      Copy(0, data[at..]);
      assert block[..|data[at..]|] == data[at..];
      SplitAfter(msg, data, at);
    }

    /** Completes the partial block and compresses it. */
    method FillBlock(data: seq<byte>, ghost msg: seq<byte>)
      requires block.Length == BLOCK && |Partial(msg)| + |data| == BLOCK && block[..|Partial(msg)|] == Partial(msg)
      requires hash == FoldBlocks(machine, machine.iv, Whole(msg))
      modifies this`hash, block
      ensures hash == FoldBlocks(machine, machine.iv, msg + data) && Aligned(msg + data)
    {
      hide FoldBlocks, Compress, Words, Whole, Partial;
      ghost var done, tail := Whole(msg), Partial(msg);
      Copy(BLOCK - |data|, data);
      assert block[..] == tail + data;
      TransformHelper();
      FoldAppendsBlock(machine, machine.iv, done, block[..]);
      assert done + block[..] == msg + data;
    }

    /** The loop of Update: compresses data block by block straight from the caller's buffer. */
    method ConsumeBlocks(data: seq<byte>, start: nat, ghost msg: seq<byte>) returns (at: nat)
      requires block.Length == BLOCK && start <= |data| && Aligned(msg + data[..start])
      requires hash == FoldBlocks(machine, machine.iv, msg + data[..start])
      modifies this`hash, block
      ensures start <= at <= |data| < at + BLOCK && Aligned(msg + data[..at])
      ensures hash == FoldBlocks(machine, machine.iv, msg + data[..at])
    {
      hide FoldBlocks, Compress, Words, Aligned;
      at := start;
      while |data| - at >= BLOCK
        invariant start <= at <= |data|
        invariant Aligned(msg + data[..at])
        invariant hash == FoldBlocks(machine, machine.iv, msg + data[..at])
        decreases |data| - at
      {
        Copy(0, data[at..at + BLOCK]);
        assert block[..] == data[at..at + BLOCK];
        TransformHelper();
        FoldAppendsBlock(machine, machine.iv, msg + data[..at], block[..]);
        assert msg + data[..at] + block[..] == msg + data[..at + BLOCK];
        at := at + BLOCK;
      }
    }

    /** The bit count, low word first. */
    method CopyLength(ghost n: nat)
      requires block.Length == BLOCK && byteCount == Wrap(n)
      modifies block
      ensures block[..] == old(block[..56]) + LengthBytes(n)
    {
      hide Le32, Wrap, BitCount;
      LengthWords(n);
      Copy(56, Le32(Wrap(byteCount * 8) % TWO_32));
      Copy(60, Le32(byteCount / 0x2000_0000 % TWO_32));
    }

    /** Pads, compresses the last one or two blocks, emits the digest and wipes the context. */
    method Final(ghost msg: seq<byte>) returns (out: seq<byte>)
      requires Absorbed(msg)
      modifies this`hash, this`byteCount, block
      ensures out == Digest(machine, msg)
      ensures hash == Regs(machine.zero, machine.zero, machine.zero, machine.zero)
      ensures byteCount == 0 && block[..] == Zeros(BLOCK)
    {
      hide FoldBlocks, Compress, Words, Whole, Partial, Wrap, Offset, Aligned, PadZeros, BitCount, Le32;
      ghost var done, tail := Whole(msg), Partial(msg);
      CountModBlock(|msg|, 0);
      PadTail(msg);
      ghost var rest := tail + [0x80] + Zeros(PadZeros(|tail|)) + LengthBytes(|msg|);

      var offset: int := Offset(byteCount);
      var p := offset;
      var padding := 56 - (offset + 1);

      Copy(p, [0x80]);
      p := p + 1;
      assert block[..p] == tail + [0x80];
      if padding < 0 {
        Copy(p, Zeros(padding + 8));
        assert block[..] == rest[..BLOCK];
        TransformHelper();
        FoldAppendsBlock(machine, machine.iv, done, block[..]);
        p := 0;
        padding := 56;
        done, rest := done + block[..], rest[BLOCK..];
        assert Pad(msg) == done + rest;
        assert rest == Zeros(56) + LengthBytes(|msg|);
      }
      Copy(p, Zeros(padding));
      assert block[..56] == rest[..56];
      CopyLength(|msg|);
      assert block[..] == rest;
      TransformHelper();
      FoldAppendsBlock(machine, machine.iv, done, rest);
      out := Output(machine, hash);

      hash := Regs(machine.zero, machine.zero, machine.zero, machine.zero);
      byteCount := 0;
      Copy(0, Zeros(BLOCK));
    }
  }

  /** Every way of cutting a message into updates yields the one-shot digest of the whole message. */
  method HashPieces<W>(m: Machine<W>, pieces: seq<seq<byte>>) returns (out: seq<byte>)
    requires forall p :: p in pieces ==> |p| < TWO_32
    ensures out == Digest(m, Concat(pieces))
  {
    hide FoldBlocks, Digest, Wrap, Whole, Partial;
    var ctx := new Context(m);
    for i := 0 to |pieces|
      invariant fresh(ctx) && fresh(ctx.block) && ctx.machine == m
      invariant ctx.Absorbed(Concat(pieces[..i]))
    {
      ctx.Update(pieces[i], Concat(pieces[..i]));
      ConcatAppends(pieces, i);
    }
    assert pieces[..|pieces|] == pieces;
    out := ctx.Final(Concat(pieces));
  }

  /** On 32-bit words: the MD4 digest of RFC 1320, sixteen octets, of everything that was fed in. */
  method HashWords(pieces: seq<seq<byte>>) returns (out: seq<byte>)
    requires forall p :: p in pieces ==> |p| < TWO_32
    ensures out == Digest(RFC1320, Concat(pieces)) && |out| == 16
  {
    hide FoldBlocks;
    out := HashPieces(RFC1320, pieces);
  }
}
