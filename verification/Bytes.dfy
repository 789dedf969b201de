/** Octets and the few shapes every codec here shares. */
module Bytes {

  type byte = b: int | 0 <= b < 256

  const TWO_32 := 0x1_0000_0000
  const TWO_64 := 0x1_0000_0000_0000_0000

  datatype Option<+T> = None | Some(value: T)

  ghost predicate Distinct<T>(l: seq<T>) { forall i, j :: 0 <= i < j < |l| ==> l[i] != l[j] }

  /** The bytes s stand in buf at offset pos. */
  ghost predicate At<T>(buf: seq<T>, pos: nat, s: seq<T>) {
    pos + |s| <= |buf| && buf[pos..pos + |s|] == s
  }

  /** A concatenation stands at pos exactly when its parts stand one after the other. */
  lemma AtConcat<T>(buf: seq<T>, pos: nat, s: seq<T>, t: seq<T>)
    ensures At(buf, pos, s + t) <==> At(buf, pos, s) && At(buf, pos + |s|, t)
  {
    if At(buf, pos, s + t) {
      assert buf[pos..pos + |s|] == (s + t)[..|s|] == s;
      assert buf[pos + |s|..pos + |s| + |t|] == (s + t)[|s|..] == t;
    }
    if At(buf, pos, s) && At(buf, pos + |s|, t) {
      assert buf[pos..pos + |s + t|] == buf[pos..pos + |s|] + buf[pos + |s|..pos + |s| + |t|];
    }
  }

  /** buf with s written over it at offset pos. */
  function Splice<T>(buf: seq<T>, pos: nat, s: seq<T>): (r: seq<T>)
    requires pos + |s| <= |buf|
    ensures |r| == |buf| && At(r, pos, s) && r[..pos] == buf[..pos] && r[pos + |s|..] == buf[pos + |s|..]
  {
    buf[..pos] + s + buf[pos + |s|..]
  }

  /** memcpy into a caller's buffer. */
  method Store(buf: array<byte>, pos: nat, s: seq<byte>)
    requires pos + |s| <= buf.Length
    modifies buf
    ensures buf[..] == Splice(old(buf[..]), pos, s)
    ensures buf[..pos + |s|] == old(buf[..pos]) + s
  {
    forall i | 0 <= i < |s| {
      buf[pos + i] := s[i];
    }
    assert buf[..] == Splice(old(buf[..]), pos, s);
  }

  /** memcpy behind what has been written so far. */
  method Append(buf: array<byte>, pos: nat, s: seq<byte>) returns (pos': nat)
    requires pos + |s| <= buf.Length
    modifies buf
    ensures pos' == pos + |s| && buf[..pos'] == old(buf[..pos]) + s
  {
    Store(buf, pos, s);
    pos' := pos + |s|;
  }

  /** Quotient and remainder are determined by the division equation. */
  lemma DivModUnique(n: int, d: int, q: int, r: int)
    requires 0 <= r < d && n == q * d + r
    ensures n / d == q && n % d == r
  {
    var k := n / d - q;
    assert k * d == r - n % d;
    assert k >= 1 ==> k * d >= d;
    assert k <= -1 ==> k * d <= -d;
  }

  /** The k low-order octets of n, most significant first. */
  function BigEndian(n: nat, k: nat): (s: seq<byte>)
    ensures |s| == k
  {
    if k == 0 then [] else BigEndian(n / 0x100, k - 1) + [n % 0x100]
  }

  function Pow256(k: nat): (p: nat)
    ensures p >= 1
  {
    if k == 0 then 1 else 0x100 * Pow256(k - 1)
  }
}
