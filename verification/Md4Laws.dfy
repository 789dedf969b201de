/** What the word functions and tables of MD4 are, said without their formulas (sections 3.3 and 3.4 of RFC 1320). */
module Md4Laws {
  import opened Bytes
  import opened Md4
  import opened Md4Words

  /** Bit i of a word: its lowest bit after i halvings. */
  predicate Bit(x: word, i: nat) { if i == 0 then Low(x) else Bit(Half(x), i - 1) }

  /** F chooses between y and z by x. */
  lemma {:induction false} FChooses(x: word, y: word, z: word, i: nat)
    ensures Bit(F(x, y, z), i) == if Bit(x, i) then Bit(y, i) else Bit(z, i)
    decreases i
  {
    hide F, G, H, Low, Half;
    if i == 0 {
      FLow(x, y, z);
    } else {
      FHalves(x, y, z);
      FChooses(Half(x), Half(y), Half(z), i - 1);
    }
  }

  /** G is the majority of the three bits. */
  lemma {:induction false} GIsMajority(x: word, y: word, z: word, i: nat)
    ensures Bit(G(x, y, z), i) <==> (Bit(x, i) && Bit(y, i)) || (Bit(z, i) && (Bit(x, i) || Bit(y, i)))
    decreases i
  {
    hide F, G, H, Low, Half;
    if i == 0 {
      GLow(x, y, z);
    } else {
      GHalves(x, y, z);
      GIsMajority(Half(x), Half(y), Half(z), i - 1);
    }
  }

  /** H is their parity. */
  lemma {:induction false} HIsParity(x: word, y: word, z: word, i: nat)
    ensures Bit(H(x, y, z), i) <==> ((Bit(x, i) != Bit(y, i)) != Bit(z, i))
    decreases i
  {
    hide F, G, H, Low, Half;
    if i == 0 {
      HLow(x, y, z);
    } else {
      HHalves(x, y, z);
      HIsParity(Half(x), Half(y), Half(z), i - 1);
    }
  }

  // ---------------------------------------------------------------- constants and tables

  /** c is the root of n with thirty bits behind the point. */
  ghost predicate RootOf(c: nat, n: nat) { c * c <= n * 0x1000_0000_0000_0000 < (c + 1) * (c + 1) }

  /** Round 2 adds the root of 2 and round 3 the root of 3. */
  lemma RoundsAddRoots(a: word, b: word, c: word, d: word, k: word, s: bv5)
    ensures Round1(a, b, c, d, k, s) == Lshift(a + F(b, c, d) + k, s)
    ensures exists r: nat ::
              r < TWO_32 && RootOf(r, 2) && Round2(a, b, c, d, k, s) == Lshift(a + G(b, c, d) + k + r as word, s)
    ensures exists r: nat ::
              r < TWO_32 && RootOf(r, 3) && Round3(a, b, c, d, k, s) == Lshift(a + H(b, c, d) + k + r as word, s)
  {
    assert RootOf(0x5A827999, 2) && RootOf(0x6ED9EBA1, 3);
  }

  /** Round 2 takes the words of a block column by column, round 3 in the order of their reversed indices. */
  lemma WordOrder(a: nat, b: nat, c: nat, d: nat)
    requires a < 2 && b < 2 && c < 2 && d < 2
    ensures var i := 8 * a + 4 * b + 2 * c + d;
            && WordIndex(i) == i && WordIndex(16 + i) == 8 * c + 4 * d + 2 * a + b
            && WordIndex(32 + i) == 8 * d + 4 * c + 2 * b + a
  {
  }

  /** The registers start as the octets 01 23 45 67 89 ab cd ef fe dc ba 98 76 54 32 10. */
  lemma InitialOctets()
    ensures Output(RFC1320, RFC1320.iv) ==
            [0x01, 0x23, 0x45, 0x67, 0x89, 0xab, 0xcd, 0xef, 0xfe, 0xdc, 0xba, 0x98, 0x76, 0x54, 0x32, 0x10]
  {
  }
}
