/** The three functions of MD4 on words, as identities that hold bit by bit. */
module Md4Words {
  import opened Md4

  predicate Low(x: word) { x & 1 == 1 }

  function Half(x: word): word { x >> 1 }

  lemma FHalves(x: word, y: word, z: word)
    ensures Half(F(x, y, z)) == F(Half(x), Half(y), Half(z))
  {
  }

  lemma FLow(x: word, y: word, z: word)
    ensures Low(F(x, y, z)) == if Low(x) then Low(y) else Low(z)
  {
  }

  lemma GHalves(x: word, y: word, z: word)
    ensures Half(G(x, y, z)) == G(Half(x), Half(y), Half(z))
  {
  }

  lemma GLow(x: word, y: word, z: word)
    ensures Low(G(x, y, z)) <==> (Low(x) && Low(y)) || (Low(z) && (Low(x) || Low(y)))
  {
  }

  lemma HHalves(x: word, y: word, z: word)
    ensures Half(H(x, y, z)) == H(Half(x), Half(y), Half(z))
  {
  }

  lemma HLow(x: word, y: word, z: word)
    ensures Low(H(x, y, z)) <==> ((Low(x) != Low(y)) != Low(z))
  {
  }
}
