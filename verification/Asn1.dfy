/**
  The BER codec: identifier and length octets (sections 8.1.2 and 8.1.3 of ITU-T X.690), object
  identifiers (section 8.19) and the length pre-computation for nested headers.

  Shifts and masks are written with / and %; an unsigned int is a number below 2^32 and an
  unsigned long a number below 2^64, with wrap-around spelled out.
 */
module Asn1 {
  import opened Bytes

  const UNI := 0
  const APL := 1
  const CTX := 2
  const PRI := 0
  const CON := 1

  const OTS := 4
  const OJI := 6
  const ENUM := 10
  const SEQ := 16

  const ERR_NOERROR := 0
  const ERR_DEC_EMPTY := 2

  const EINVAL := 22
  const UINT_MAX := 0xFFFF_FFFF
  const TWO_35 := 0x8_0000_0000

  // ---------------------------------------------------------------- decoding, as functions

  /** Seven-bit groups, most significant first, until an octet without the continuation bit. */
  function Base128(modulus: nat, buf: seq<byte>, pos: nat, acc: nat): (r: Option<(nat, nat)>)
    requires modulus > 0
    ensures r.Some? ==> pos < r.value.1 <= |buf|
    decreases |buf| - pos
  {
    if pos >= |buf| then None
    else
      var v := acc * 128 % modulus + buf[pos] % 128;
      if buf[pos] >= 128 then Base128(modulus, buf, pos + 1, v) else Some((v, pos + 1))
  }

  /** cnt length octets, big-endian, in an unsigned int. */
  function LengthOctets(buf: seq<byte>, pos: nat, cnt: nat, acc: nat): (r: Option<(nat, nat)>)
    ensures r.Some? ==> pos <= r.value.1 && r.value.1 == pos + cnt
    ensures r.Some? && pos <= |buf| ==> r.value.1 <= |buf|
    decreases cnt
  {
    if cnt == 0 then Some((acc, pos))
    else if pos >= |buf| then None
    else LengthOctets(buf, pos + 1, cnt - 1, acc * 256 % TWO_32 + buf[pos])
  }

  datatype Length = Length(definite: bool, len: nat, next: nat)

  /** The length as it is written and where it ends; None when the octets run out. */
  function RawLength(buf: seq<byte>, pos: nat): (r: Option<Length>)
    ensures r.Some? ==> pos < r.value.next <= |buf|
  {
    if pos >= |buf| then None
    else
      var ch := buf[pos];
      if ch == 128 then Some(Length(false, 0, pos + 1))
      else if ch < 128 then Some(Length(true, ch, pos + 1))
      else
        var lp := LengthOctets(buf, pos + 1, ch % 128, 0);
        if lp.None? then None else Some(Length(true, lp.value.0, lp.value.1))
  }

  /** A length beyond the buffer is not trusted. */
  function DecodeLength(buf: seq<byte>, pos: nat): (r: Option<Length>)
    ensures r.Some? ==> pos < r.value.next && r.value.next + r.value.len <= |buf|
  {
    var l := RawLength(buf, pos);
    if l.None? || l.value.len > |buf| - l.value.next then None else l
  }

  datatype Id = Id(cls: nat, con: nat, tag: nat, next: nat)

  function DecodeId(buf: seq<byte>, pos: nat): (r: Option<Id>)
    ensures r.Some? ==> pos < r.value.next <= |buf|
  {
    if pos >= |buf| then None
    else
      var ch := buf[pos];
      if ch % 32 == 31 then
        match Base128(TWO_32, buf, pos + 1, 0)
        case None => None
        case Some((tag, next)) => Some(Id(ch / 64, ch / 32 % 2, tag, next))
      else Some(Id(ch / 64, ch / 32 % 2, ch % 32, pos + 1))
  }

  /** eoc is None for the indefinite form. */
  datatype Header = Header(cls: nat, con: nat, tag: nat, eoc: Option<nat>, next: nat)

  function DecodeHeader(buf: seq<byte>, pos: nat): (r: Option<Header>)
    ensures r.Some? ==> pos < r.value.next <= |buf|
    ensures r.Some? && r.value.eoc.Some? ==> r.value.next <= r.value.eoc.value <= |buf|
    ensures r.Some? && r.value.con == PRI ==> r.value.eoc.Some?
  {
    var id := DecodeId(buf, pos);
    if id.None? then None
    else
      var l := DecodeLength(buf, id.value.next);
      if l.None? || (id.value.con == PRI && !l.value.definite) then None
      else
        var eoc := if l.value.definite then Some(l.value.next + l.value.len) else None;
        Some(Header(id.value.cls, id.value.con, id.value.tag, eoc, l.value.next))
  }

  /** Sub-identifiers from pos until the cursor reaches eoc, with the cursor they end at. */
  function Subids(buf: seq<byte>, pos: nat, eoc: nat): (r: Option<(seq<nat>, nat)>)
    ensures r.Some? ==> eoc <= r.value.1 && pos <= r.value.1
    decreases |buf| - pos
  {
    if pos >= eoc then Some(([], pos))
    else
      match Base128(TWO_64, buf, pos, 0)
      case None => None
      case Some((v, next)) =>
        match Subids(buf, next, eoc)
        case None => None
        case Some((vs, end)) => Some(([v] + vs, end))
  }

  /** The first sub-identifier carries two arcs. */
  function SplitFirst(subid: nat): seq<nat> {
    if subid < 40 then [0, subid] else if subid < 80 then [1, subid - 40] else [2, subid - 80]
  }

  /** Room for one arc per octet and one more, as an unsigned int. */
  function OidSize(pos: nat, eoc: nat): nat
    requires pos <= eoc
  {
    (eoc - pos + 1) % TWO_32
  }

  function DecodeOid(buf: seq<byte>, pos: nat, eoc: nat): Option<(seq<nat>, nat)>
    requires pos <= eoc
  {
    if OidSize(pos, eoc) < 2 || OidSize(pos, eoc) > UINT_MAX / 8 then None
    else
      match Base128(TWO_64, buf, pos, 0)
      case None => None
      case Some((first, next)) =>
        match Subids(buf, next, eoc)
        case None => None
        case Some((vs, end)) => Some((SplitFirst(first) + vs, end))
  }

  // ---------------------------------------------------------------- encoding, as functions

  /** Octets the length field takes for a content of n octets. */
  function LengthSize(n: nat): nat {
    if n >= 0x100_0000 then 5
    else if n >= 0x1_0000 then 4
    else if n >= 0x100 then 3
    else if n >= 0x80 then 2
    else 1
  }

  /** A header and the content of n octets behind it. */
  function Wrapped(n: nat): (r: nat)
    ensures n + 2 <= r
  {
    n + LengthSize(n) + 1
  }

  /** Content of p octets inside depth headers. */
  function NestedLen(p: nat, depth: nat): (n: nat)
    ensures n >= p
  {
    if depth == 0 then p else Wrapped(NestedLen(p, depth - 1))
  }

  /** What a header inside total octets leaves for its content. */
  function Content(total: nat): (r: nat)
    requires 2 <= total
    ensures r < total
  {
    if total - 2 < 0x80 then total - 2
    else if total - 3 < 0x100 then total - 3
    else if total - 4 < 0x1_0000 then total - 4
    else if total - 5 < 0x100_0000 then total - 5
    else total - 6
  }

  function LengthField(total: nat): (s: seq<byte>)
    requires 2 <= total < TWO_32
    ensures |s| == total - 1 - Content(total)
  {
    var n := Content(total);
    if total - 2 < 0x80 then [n]
    else if total - 3 < 0x100 then [0x81] + BigEndian(n, 1)
    else if total - 4 < 0x1_0000 then [0x82] + BigEndian(n, 2)
    else if total - 5 < 0x100_0000 then [0x83] + BigEndian(n, 3)
    else [0x84] + BigEndian(n, 4)
  }

  function HeaderBytes(cls: nat, con: nat, tag: nat, total: nat): (s: seq<byte>)
    requires 2 <= total < TWO_32
    ensures |s| == total - Content(total)
  {
    [cls % 4 * 64 + con % 2 * 32 + tag % 32] + LengthField(total)
  }

  /** The k low-order seven-bit groups of v, most significant first, each with the continuation bit. */
  function Continued(v: nat, k: nat): (s: seq<byte>)
    ensures |s| == k
  {
    if k == 0 then [] else Continued(v / 128, k - 1) + [128 + v % 128]
  }

  function ArcWidth(id: nat): (w: nat)
    ensures 1 <= w <= 5
  {
    if id >= 0x1000_0000 then 5
    else if id >= 0x20_0000 then 4
    else if id >= 0x4000 then 3
    else if id >= 0x80 then 2
    else 1
  }

  function ArcBytes(id: nat): (s: seq<byte>)
    ensures |s| == ArcWidth(id)
  {
    Continued(id / 128, ArcWidth(id) - 1) + [id % 128]
  }

  function ArcsBytes(arcs: seq<nat>): (s: seq<byte>)
    ensures |s| <= 5 * |arcs|
  {
    if arcs == [] then [] else ArcsBytes(arcs[..|arcs| - 1]) + ArcBytes(arcs[|arcs| - 1])
  }

  function OidBytes(oid: seq<nat>): (s: seq<byte>)
    requires |oid| >= 2
    ensures 1 <= |s| <= 5 * |oid|
  {
    [(40 * oid[0] + oid[1]) % 256] + ArcsBytes(oid[2..])
  }

  // ---------------------------------------------------------------- headers: the laws

  /** A header laid around n octets leaves exactly n. */
  lemma ContentUndoesWrapped(n: nat)
    ensures Content(Wrapped(n)) == n
  {
  }

  /** What successive header encodings leave, None as soon as one is refused. */
  function Peel(total: nat, depth: nat): Option<nat> {
    if depth == 0 then Some(total)
    else if total < 2 then None
    else Peel(Content(total), depth - 1)
  }

  /** Every header asked for fits and the innermost leaves exactly the payload. */
  lemma {:induction false} PeelUndoesNestedLen(p: nat, depth: nat)
    ensures Peel(NestedLen(p, depth), depth) == Some(p)
  {
    if depth > 0 {
      ContentUndoesWrapped(NestedLen(p, depth - 1));
      PeelUndoesNestedLen(p, depth - 1);
    }
  }

  /** A longer content or a deeper nesting never makes a shorter element. */
  lemma {:induction false} NestedLenMonotone(p: nat, d: nat, q: nat, depth: nat)
    requires p <= q && d <= depth
    ensures NestedLen(p, d) <= NestedLen(q, depth)
  {
    if d < depth {
      NestedLenMonotone(p, d, q, depth - 1);
    } else if depth > 0 {
      NestedLenMonotone(p, d - 1, q, depth - 1);
    }
  }

  lemma {:induction false} LengthOctetsSplit(buf: seq<byte>, pos: nat, cnt: nat, acc: nat)
    requires LengthOctets(buf, pos, cnt, acc).Some? && pos + cnt < |buf|
    ensures var v := LengthOctets(buf, pos, cnt, acc).value.0;
            LengthOctets(buf, pos, cnt + 1, acc) == Some((v * 0x100 % TWO_32 + buf[pos + cnt], pos + cnt + 1))
    decreases cnt
  {
    if cnt > 0 {
      LengthOctetsSplit(buf, pos + 1, cnt - 1, acc * 0x100 % TWO_32 + buf[pos]);
    }
  }

  lemma {:induction false} BigEndianDecodes(buf: seq<byte>, pos: nat, n: nat, k: nat)
    requires At(buf, pos, BigEndian(n, k)) && n < TWO_32 && n < Pow256(k)
    ensures LengthOctets(buf, pos, k, 0) == Some((n, pos + k))
    decreases k
  {
    if k > 0 {
      AtConcat(buf, pos, BigEndian(n / 0x100, k - 1), [n % 0x100]);
      BigEndianDecodes(buf, pos, n / 0x100, k - 1);
      assert buf[pos + k - 1] == buf[pos + k - 1..pos + k][0];
      LengthOctetsSplit(buf, pos, k - 1, 0);
    }
  }

  /** The length octets written for any total, minimal or not, decode to the content length. */
  lemma LengthFieldDecodes(buf: seq<byte>, pos: nat, total: nat)
    requires 2 <= total < TWO_32 && At(buf, pos, LengthField(total))
    requires pos + |LengthField(total)| + Content(total) <= |buf|
    ensures DecodeLength(buf, pos) == Some(Length(true, Content(total), pos + |LengthField(total)|))
  {
    hide LengthOctets, BigEndian;
    var n, f := Content(total), LengthField(total);
    var k := |f| - 1;
    assert buf[pos] == buf[pos..pos + |f|][0];
    if k > 0 {
      AtConcat(buf, pos, [0x80 + k], BigEndian(n, k));
      assert Pow256(1) == 0x100 && Pow256(2) == 0x1_0000;
      assert Pow256(3) == 0x100 * Pow256(2) && Pow256(4) == 0x100 * Pow256(3);
      BigEndianDecodes(buf, pos + 1, n, k);
    }
  }

  /** Decoding a header returns the class, form and tag it was written with and the exact end of content. */
  lemma HeaderRoundTrip(buf: seq<byte>, pos: nat, cls: nat, con: nat, tag: nat, total: nat)
    requires cls < 4 && con < 2 && tag < 31 && 2 <= total < TWO_32
    requires At(buf, pos, HeaderBytes(cls, con, tag, total)) && pos + total <= |buf|
    ensures DecodeHeader(buf, pos) ==
            Some(Header(cls, con, tag, Some(pos + total), pos + total - Content(total)))
  {
    hide LengthField, DecodeLength, Content;
    AtConcat(buf, pos, [cls % 4 * 64 + con % 2 * 32 + tag % 32], LengthField(total));
    assert buf[pos] == buf[pos..pos + 1][0] == cls * 64 + con * 32 + tag;
    LengthFieldDecodes(buf, pos + 1, total);
  }

  // ---------------------------------------------------------------- object identifiers: the laws

  lemma Base128Step(buf: seq<byte>, pos: nat, acc: nat)
    requires pos < |buf| && acc * 128 < TWO_64
    ensures var v := acc * 128 + buf[pos] % 128;
            Base128(TWO_64, buf, pos, acc) ==
            if buf[pos] >= 128 then Base128(TWO_64, buf, pos + 1, v) else Some((v, pos + 1))
  {
  }

  function Pow128(k: nat): (p: nat)
    ensures p >= 1
  {
    if k == 0 then 1 else 128 * Pow128(k - 1)
  }

  lemma {:induction false} Pow128Bound(k: nat)
    requires k <= 5
    ensures Pow128(k) <= TWO_35
    ensures k == 5 ==> Pow128(k) == TWO_35
    ensures k == 4 ==> Pow128(k) == 0x1000_0000
    ensures k == 3 ==> Pow128(k) == 0x20_0000
    ensures k == 2 ==> Pow128(k) == 0x4000
    ensures k == 1 ==> Pow128(k) == 0x80
    ensures k > 0 ==> Pow128(k) == 128 * Pow128(k - 1)
  {
    if k > 0 {
      Pow128Bound(k - 1);
    }
  }

  lemma ModStep(v: nat, p: nat)
    requires p >= 1
    ensures v / 128 % p * 128 + v % 128 == v % (128 * p)
  {
    var q, r := v / 128 / p, v / 128 % p;
    assert v / 128 == q * p + r;
    assert v == q * (128 * p) + (r * 128 + v % 128);
    assert r * 128 + v % 128 < 128 * p;
    DivModUnique(v, 128 * p, q, r * 128 + v % 128);
  }

  lemma {:induction false} ContinuedRun(buf: seq<byte>, pos: nat, v: nat, k: nat)
    requires k <= 4 && At(buf, pos, Continued(v, k))
    ensures Base128(TWO_64, buf, pos, 0) == Base128(TWO_64, buf, pos + k, v % Pow128(k))
    decreases k
  {
    hide Base128;
    if k > 0 {
      AtConcat(buf, pos, Continued(v / 128, k - 1), [128 + v % 128]);
      ContinuedRun(buf, pos, v / 128, k - 1);
      assert buf[pos + k - 1] == buf[pos + k - 1..pos + k][0];
      Pow128Bound(k - 1);
      Base128Step(buf, pos + k - 1, v / 128 % Pow128(k - 1));
      ModStep(v, Pow128(k - 1));
    }
  }

  lemma ArcGroups(id: nat)
    ensures var p := Pow128(ArcWidth(id) - 1);
            p * 128 < TWO_64 && id / 128 % p * 128 + id % 128 == id % TWO_35
  {
    hide Pow128;
    var w := ArcWidth(id);
    Pow128Bound(w - 1);
    Pow128Bound(w);
    ModStep(id, Pow128(w - 1));
    if w < 5 {
      assert id < Pow128(w) <= TWO_35;
    }
  }

  /** An arc decodes to its low 35 bits. */
  lemma ArcDecodes(buf: seq<byte>, pos: nat, id: nat)
    requires At(buf, pos, ArcBytes(id))
    ensures Base128(TWO_64, buf, pos, 0) == Some((id % TWO_35, pos + |ArcBytes(id)|))
  {
    hide Base128, Pow128, ArcWidth;
    var k := ArcWidth(id) - 1;
    var acc := id / 128 % Pow128(k);
    AtConcat(buf, pos, Continued(id / 128, k), [id % 128]);
    ContinuedRun(buf, pos, id / 128, k);
    assert buf[pos + k] == buf[pos + k..pos + k + 1][0];
    ArcGroups(id);
    Base128Step(buf, pos + k, acc);
  }

  lemma {:induction false} SubidsAppend(buf: seq<byte>, pos: nat, mid: nat, eoc: nat)
    requires pos <= mid <= eoc && Subids(buf, pos, mid).Some? && Subids(buf, pos, mid).value.1 == mid
    requires Subids(buf, mid, eoc).Some?
    ensures Subids(buf, pos, eoc) ==
            Some((Subids(buf, pos, mid).value.0 + Subids(buf, mid, eoc).value.0, Subids(buf, mid, eoc).value.1))
    decreases |buf| - pos
  {
    hide Base128;
    var tail := Subids(buf, mid, eoc).value.0;
    if pos == mid {
      assert [] + tail == tail;
    } else {
      var (v, next) := Base128(TWO_64, buf, pos, 0).value;
      SubidsAppend(buf, next, mid, eoc);
      var init := Subids(buf, next, mid).value.0;
      assert [v] + (init + tail) == ([v] + init) + tail;
    }
  }

  lemma OneSubid(buf: seq<byte>, pos: nat, eoc: nat)
    requires pos < eoc && Base128(TWO_64, buf, pos, 0).Some? && Base128(TWO_64, buf, pos, 0).value.1 == eoc
    ensures Subids(buf, pos, eoc) == Some(([Base128(TWO_64, buf, pos, 0).value.0], eoc))
  {
    hide Base128;
    var v := Base128(TWO_64, buf, pos, 0).value.0;
    assert Subids(buf, eoc, eoc) == Some(([], eoc));
    assert [v] + [] == [v];
  }

  function Low35(arcs: seq<nat>): (r: seq<nat>)
    ensures |r| == |arcs|
  {
    seq(|arcs|, i requires 0 <= i < |arcs| => arcs[i] % TWO_35)
  }

  lemma {:induction false} ArcsDecode(buf: seq<byte>, pos: nat, arcs: seq<nat>)
    requires At(buf, pos, ArcsBytes(arcs))
    ensures Subids(buf, pos, pos + |ArcsBytes(arcs)|) == Some((Low35(arcs), pos + |ArcsBytes(arcs)|))
  {
    hide Base128, ArcBytes;
    if arcs != [] {
      var front, last := arcs[..|arcs| - 1], arcs[|arcs| - 1];
      var mid := pos + |ArcsBytes(front)|;
      AtConcat(buf, pos, ArcsBytes(front), ArcBytes(last));
      ArcsDecode(buf, pos, front);
      ArcDecodes(buf, mid, last);
      OneSubid(buf, mid, mid + |ArcBytes(last)|);
      SubidsAppend(buf, pos, mid, mid + |ArcBytes(last)|);
      assert Low35(arcs) == Low35(front) + [last % TWO_35];
    }
  }

  /** The numbers section 8.19 of ITU-T X.690 allows as the first two arcs. */
  predicate WellFormedOid(oid: seq<nat>) {
    |oid| >= 2 && oid[0] <= 2 && (oid[0] < 2 ==> oid[1] < 40)
  }

  /** What the one-octet first sub-identifier and the five-octet arcs can carry. */
  predicate EncodableOid(oid: seq<nat>)
    requires |oid| >= 2
  {
    40 * oid[0] + oid[1] < 128 && forall i :: 2 <= i < |oid| ==> oid[i] < TWO_35
  }

  predicate DecodableSize(n: nat) { n + 1 <= UINT_MAX / 8 }

  lemma OidDecodes(buf: seq<byte>, pos: nat, oid: seq<nat>)
    requires |oid| >= 2 && At(buf, pos, OidBytes(oid)) && DecodableSize(|OidBytes(oid)|)
    requires (40 * oid[0] + oid[1]) % 256 < 128
    ensures DecodeOid(buf, pos, pos + |OidBytes(oid)|) ==
            Some((SplitFirst((40 * oid[0] + oid[1]) % 256) + Low35(oid[2..]), pos + |OidBytes(oid)|))
  {
    hide Base128, Subids, ArcsBytes;
    var first := (40 * oid[0] + oid[1]) % 256;
    AtConcat(buf, pos, [first], ArcsBytes(oid[2..]));
    assert buf[pos] == buf[pos..pos + 1][0];
    Base128Step(buf, pos, 0);
    ArcsDecode(buf, pos + 1, oid[2..]);
  }

  /** Encoding then decoding is the identity on every encodable OID, wherever it stands in a buffer. */
  lemma OidRoundTrip(buf: seq<byte>, pos: nat, oid: seq<nat>)
    requires WellFormedOid(oid) && EncodableOid(oid)
    requires At(buf, pos, OidBytes(oid)) && DecodableSize(|OidBytes(oid)|)
    ensures DecodeOid(buf, pos, pos + |OidBytes(oid)|) == Some((oid, pos + |OidBytes(oid)|))
  {
    hide DecodeOid;
    OidDecodes(buf, pos, oid);
    assert SplitFirst(40 * oid[0] + oid[1]) == oid[..2];
    assert Low35(oid[2..]) == oid[2..];
    assert oid[..2] + oid[2..] == oid;
  }

  /** Octets without the continuation bit. */
  function Ends(s: seq<byte>): nat {
    if s == [] then 0 else (if s[0] < 128 then 1 else 0) + Ends(s[1..])
  }

  lemma {:induction false} EndsConcat(s: seq<byte>, t: seq<byte>)
    ensures Ends(s + t) == Ends(s) + Ends(t)
  {
    if s == [] {
      assert s + t == t;
    } else {
      assert (s + t)[1..] == s[1..] + t;
      EndsConcat(s[1..], t);
    }
  }

  lemma {:induction false} EndsContinued(v: nat, k: nat)
    ensures Ends(Continued(v, k)) == 0
  {
    if k > 0 {
      EndsContinued(v / 128, k - 1);
      EndsConcat(Continued(v / 128, k - 1), [128 + v % 128]);
    }
  }

  lemma {:induction false} EndsArcs(arcs: seq<nat>)
    ensures Ends(ArcsBytes(arcs)) == |arcs|
  {
    if arcs != [] {
      var front, last := arcs[..|arcs| - 1], arcs[|arcs| - 1];
      EndsArcs(front);
      EndsContinued(last / 128, ArcWidth(last) - 1);
      EndsConcat(Continued(last / 128, ArcWidth(last) - 1), [last % 128]);
      EndsConcat(ArcsBytes(front), ArcBytes(last));
    }
  }

  /** A sub-identifier that decodes consumes exactly one ending octet. */
  lemma {:induction false} Base128Ends(buf: seq<byte>, pos: nat, acc: nat)
    requires Base128(TWO_64, buf, pos, acc).Some?
    ensures Ends(buf[pos..]) == 1 + Ends(buf[Base128(TWO_64, buf, pos, acc).value.1..])
    decreases |buf| - pos
  {
    assert buf[pos..][1..] == buf[pos + 1..];
    if buf[pos] >= 128 {
      Base128Ends(buf, pos + 1, acc * 128 % TWO_64 + buf[pos] % 128);
    }
  }

  lemma {:induction false} SubidsEnds(buf: seq<byte>, pos: nat)
    requires pos <= |buf| && Subids(buf, pos, |buf|).Some?
    ensures |Subids(buf, pos, |buf|).value.0| == Ends(buf[pos..])
    decreases |buf| - pos
  {
    if pos < |buf| {
      Base128Ends(buf, pos, 0);
      SubidsEnds(buf, Base128(TWO_64, buf, pos, 0).value.1);
    }
  }

  lemma SurvivorIsEncodable(oid: seq<nat>)
    requires |oid| >= 2
    requires (40 * oid[0] + oid[1]) % 256 < 128
    requires SplitFirst((40 * oid[0] + oid[1]) % 256) + Low35(oid[2..]) == oid
    ensures WellFormedOid(oid) && EncodableOid(oid)
  {
    var pair, low := SplitFirst((40 * oid[0] + oid[1]) % 256), Low35(oid[2..]);
    assert pair[0] == (pair + low)[0] && pair[1] == (pair + low)[1];
    forall i | 2 <= i < |oid|
      ensures oid[i] < TWO_35
    {
      assert oid[i] == (pair + low)[i] == low[i - 2];
    }
  }

  /** A first octet with the continuation bit swallows the octet after it, so one arc is lost. */
  lemma LargeFirstLosesArc(oid: seq<nat>)
    requires |oid| >= 2 && (40 * oid[0] + oid[1]) % 256 >= 128
    requires DecodeOid(OidBytes(oid), 0, |OidBytes(oid)|).Some?
    ensures |DecodeOid(OidBytes(oid), 0, |OidBytes(oid)|).value.0| < |oid|
  {
    hide Base128, Subids, ArcsBytes;
    var s := OidBytes(oid);
    var (_, next) := Base128(TWO_64, s, 0, 0).value;
    Base128Ends(s, 0, 0);
    SubidsEnds(s, next);
    EndsArcs(oid[2..]);
    EndsConcat([(40 * oid[0] + oid[1]) % 256], ArcsBytes(oid[2..]));
    assert s[0..] == s;
  }

  /** The conditions of OidRoundTrip are exact: no other OID survives the round trip. */
  lemma OidRoundTripExactly(oid: seq<nat>)
    requires |oid| >= 2 && DecodableSize(|OidBytes(oid)|)
    ensures var s := OidBytes(oid);
            DecodeOid(s, 0, |s|) == Some((oid, |s|)) <==> WellFormedOid(oid) && EncodableOid(oid)
  {
    hide DecodeOid, OidBytes;
    var s := OidBytes(oid);
    assert At(s, 0, s);
    if WellFormedOid(oid) && EncodableOid(oid) {
      OidRoundTrip(s, 0, oid);
    } else if (40 * oid[0] + oid[1]) % 256 < 128 {
      OidDecodes(s, 0, oid);
      if DecodeOid(s, 0, |s|) == Some((oid, |s|)) {
        SurvivorIsEncodable(oid);
      }
    } else if DecodeOid(s, 0, |s|).Some? {
      LargeFirstLosesArc(oid);
    }
  }
}
