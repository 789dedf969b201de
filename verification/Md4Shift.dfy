/** The circular shift of MD4, for every number of places. */
module Md4Shift {
  import opened Md4

  /** The lower bits move up by s places. */
  lemma ShiftMovesUp(x: word, s: bv5)
    ensures Lshift(x, s) >> s == x & (0xFFFF_FFFF >> s)
  {
  }

  /** The upper s bits come in at the bottom. */
  lemma ShiftMovesAround(x: word, s: bv5)
    ensures Lshift(x, s) & (0xFFFF_FFFF >> (32 - s as bv6)) == x >> (32 - s as bv6)
  {
  }

  /** The shift that completes the round undoes it. */
  lemma ShiftUndone(x: word, s: bv5)
    ensures Lshift(Lshift(x, s), 0 - s) == x
  {
  }
}
