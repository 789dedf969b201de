/** The cursor decoder and the pointer-advancing encoder, proved against the functions of Asn1. */
module Asn1Codec {
  import opened Bytes
  import opened Asn1

  /** A read cursor over a buffer. */
  class Ctx {
    const buf: seq<byte>
    var pointer: nat
    var error: nat

    ghost predicate Valid()
      reads this
    {
      pointer <= |buf| < TWO_32
    }

    constructor Open(buf: seq<byte>)
      requires |buf| < TWO_32
      ensures Valid() && this.buf == buf && pointer == 0 && error == ERR_NOERROR
    {
      this.buf := buf;
      pointer := 0;
      error := ERR_NOERROR;
    }

    method OctetDecode() returns (ok: bool, ch: byte)
      requires Valid()
      modifies this
      ensures Valid() && ok == (old(pointer) < |buf|)
      ensures ok ==> ch == buf[old(pointer)] && pointer == old(pointer) + 1 && error == old(error)
      ensures !ok ==> pointer == old(pointer) && error == ERR_DEC_EMPTY
    {
      if pointer >= |buf| {
        error := ERR_DEC_EMPTY;
        return false, 0;
      }
      ch := buf[pointer];
      pointer := pointer + 1;
      ok := true;
    }

    /** The tag loop (unsigned int, modulus 2^32) and the sub-identifier loop (unsigned long, modulus 2^64). */
    method GroupsDecode(modulus: nat) returns (ok: bool, v: nat)
      requires Valid() && modulus > 0
      modifies this
      ensures Valid() && old(pointer) <= pointer
      ensures ok == Base128(modulus, buf, old(pointer), 0).Some?
      ensures ok ==> Base128(modulus, buf, old(pointer), 0) == Some((v, pointer)) && error == old(error)
      ensures !ok ==> error == ERR_DEC_EMPTY && pointer == |buf|
    {
      v := 0;
      var more := true;
      while more
        invariant Valid() && old(pointer) <= pointer && error == old(error)
        invariant Base128(modulus, buf, old(pointer), 0) ==
                  if more then Base128(modulus, buf, pointer, v) else Some((v, pointer))
        decreases |buf| - pointer + if more then 1 else 0
      {
        var got, ch := OctetDecode();
        if !got {
          return false, v;
        }
        v := v * 128 % modulus + ch % 128;
        more := ch >= 128;
      }
      ok := true;
    }

    method IdDecode() returns (ok: bool, cls: nat, con: nat, tag: nat)
      requires Valid()
      modifies this
      ensures Valid()
      ensures ok == DecodeId(buf, old(pointer)).Some?
      ensures ok ==> DecodeId(buf, old(pointer)) == Some(Id(cls, con, tag, pointer)) && error == old(error)
      ensures !ok ==> error == ERR_DEC_EMPTY && pointer == |buf|
    {
      cls, con, tag := 0, 0, 0;
      var got, ch := OctetDecode();
      if !got {
        return false, cls, con, tag;
      }
      cls := ch / 64;
      con := ch / 32 % 2;
      tag := ch % 32;
      if tag == 31 {
        got, tag := GroupsDecode(TWO_32);
        if !got {
          return false, cls, con, tag;
        }
      }
      ok := true;
    }

    method LengthDecode() returns (ok: bool, def: bool, len: nat)
      requires Valid()
      modifies this
      ensures Valid()
      ensures ok == DecodeLength(buf, old(pointer)).Some?
      ensures ok ==> DecodeLength(buf, old(pointer)) == Some(Length(def, len, pointer)) && error == old(error)
      ensures !ok ==>
                match RawLength(buf, old(pointer))
                case None => error == ERR_DEC_EMPTY && pointer == |buf|
                case Some(l) => error == old(error) && pointer == l.next
    {
      def, len := false, 0;
      var got, ch := OctetDecode();
      if !got {
        return false, def, len;
      }
      if ch != 128 {
        def := true;
        if ch < 128 {
          len := ch;
        } else {
          var cnt: nat := ch % 128;
          ghost var all := LengthOctets(buf, pointer, cnt, 0);
          while cnt > 0
            invariant Valid() && error == old(error)
            invariant LengthOctets(buf, pointer, cnt, len) == all
          {
            got, ch := OctetDecode();
            if !got {
              return false, def, len;
            }
            len := len * 256 % TWO_32 + ch;
            cnt := cnt - 1;
          }
        }
      }
      if len > |buf| - pointer {
        return false, def, len;
      }
      ok := true;
    }

    method HeaderDecode() returns (ok: bool, eoc: Option<nat>, cls: nat, con: nat, tag: nat)
      requires Valid()
      modifies this
      ensures Valid()
      ensures ok == DecodeHeader(buf, old(pointer)).Some?
      ensures ok ==> DecodeHeader(buf, old(pointer)) == Some(Header(cls, con, tag, eoc, pointer))
      ensures ok ==> error == old(error)
      ensures !ok ==>
                var id := DecodeId(buf, old(pointer));
                if id.None? || RawLength(buf, id.value.next).None? then error == ERR_DEC_EMPTY && pointer == |buf|
                else error == old(error) && pointer == RawLength(buf, id.value.next).value.next
    {
      eoc := None;
      ok, cls, con, tag := IdDecode();
      if !ok {
        return;
      }
      var got, def, len := LengthDecode();
      if !got || (con == PRI && !def) {
        return false, eoc, cls, con, tag;
      }
      if def {
        eoc := Some(pointer + len);
      }
    }

    /** Decodes into room for OidSize arcs; the overflow arm of the loop is never reached. */
    method OidDecode(eoc: nat) returns (ok: bool, oid: seq<nat>)
      requires Valid() && pointer <= eoc <= |buf|
      modifies this
      ensures Valid()
      ensures ok == DecodeOid(buf, old(pointer), eoc).Some?
      ensures ok ==> DecodeOid(buf, old(pointer), eoc) == Some((oid, pointer)) && |oid| <= OidSize(old(pointer), eoc)
      ensures error == old(error) || error == ERR_DEC_EMPTY
    {
      hide Base128, Subids;
      oid := [];
      var size := OidSize(pointer, eoc);
      if size < 2 || size > UINT_MAX / 8 {
        return false, oid;
      }
      var optr := new nat[size](_ => 0);
      var got, subid := GroupsDecode(TWO_64);
      if !got {
        return false, oid;
      }
      if subid < 40 {
        optr[0], optr[1] := 0, subid;
      } else if subid < 80 {
        optr[0], optr[1] := 1, subid - 40;
      } else {
        optr[0], optr[1] := 2, subid - 80;
      }
      assert optr[..2] == SplitFirst(subid);
      var len;
      got, len := ArcsDecode(eoc, optr);
      if !got {
        return false, oid;
      }
      ok := true;
      oid := optr[..len];
      assert oid == optr[..2] + optr[2..len];
    }

    /** The arcs behind the first two; each takes an octet at least, so there is room for all of them. */
    method ArcsDecode(eoc: nat, optr: array<nat>) returns (ok: bool, len: nat)
      requires Valid() && eoc <= |buf| && optr.Length >= 2 && eoc - pointer <= optr.Length - 2
      modifies this, optr
      ensures Valid() && optr[..2] == old(optr[..2])
      ensures ok == Subids(buf, old(pointer), eoc).Some?
      ensures ok ==> 2 <= len <= optr.Length && Subids(buf, old(pointer), eoc) == Some((optr[2..len], pointer))
      ensures error == old(error) || error == ERR_DEC_EMPTY
    {
      hide Base128, Subids;
      len := 2;
      ghost var all := Subids(buf, pointer, eoc);
      assert optr[2..len] == [] && (all.Some? ==> [] + all.value.0 == all.value.0);
      while pointer < eoc
        invariant Valid() && error == old(error) && optr[..2] == old(optr[..2])
        invariant 2 <= len <= optr.Length && (pointer < eoc ==> eoc - pointer <= optr.Length - len)
        invariant Joined(optr[2..len], Subids(buf, pointer, eoc)) == all
        decreases |buf| - pointer
      {
        len := len + 1;
        if len > optr.Length {
          // where the source reports a bad value: never reached
          assert false;
        }
        ghost var at, was := pointer, optr[2..len - 1];
        var got, arc := GroupsDecode(TWO_64);
        if !got {
          SubidsFail(buf, at, eoc);
          return false, len;
        }
        optr[len - 1] := arc;
        assert optr[2..len] == was + [arc];
        JoinedStep(was, buf, at, eoc);
      }
      SubidsDone(optr[2..len], buf, pointer, eoc);
      ok := true;
    }
  }

  ghost function Joined(front: seq<nat>, rest: Option<(seq<nat>, nat)>): Option<(seq<nat>, nat)> {
    if rest.None? then None else Some((front + rest.value.0, rest.value.1))
  }

  lemma SubidsDone(front: seq<nat>, buf: seq<byte>, pos: nat, eoc: nat)
    requires pos >= eoc
    ensures Joined(front, Subids(buf, pos, eoc)) == Some((front, pos))
  {
    assert front + [] == front;
  }

  lemma SubidsFail(buf: seq<byte>, pos: nat, eoc: nat)
    requires pos < eoc && Base128(TWO_64, buf, pos, 0).None?
    ensures Subids(buf, pos, eoc).None?
  {
  }

  lemma JoinedStep(front: seq<nat>, buf: seq<byte>, pos: nat, eoc: nat)
    requires pos < eoc && Base128(TWO_64, buf, pos, 0).Some?
    ensures var (v, next) := Base128(TWO_64, buf, pos, 0).value;
            Joined(front, Subids(buf, pos, eoc)) == Joined(front + [v], Subids(buf, next, eoc))
  {
    hide Base128;
    var (v, next) := Base128(TWO_64, buf, pos, 0).value;
    var rest := Subids(buf, next, eoc);
    if rest.Some? {
      assert front + ([v] + rest.value.0) == (front + [v]) + rest.value.0;
    }
  }

  // ---------------------------------------------------------------- encoder

  /** The size of depth nested headers around a payload; exact whenever it fits an unsigned int. */
  method HeaderLen(payloadLen: nat, depth: int) returns (len: nat)
    requires payloadLen < TWO_32
    ensures var n := NestedLen(payloadLen, if depth < 0 then 0 else depth);
            n < TWO_32 ==> len == n
  {
    len := payloadLen;
    var i := 0;
    while i < depth
      invariant 0 <= i && (depth >= 0 ==> i <= depth) && (depth < 0 ==> i == 0)
      invariant len < TWO_32
      invariant NestedLen(payloadLen, i) < TWO_32 ==> len == NestedLen(payloadLen, i)
    {
      len := (len + LengthSize(len)) % TWO_32;
      len := (len + 1) % TWO_32;
      i := i + 1;
    }
  }

  /** Writes one header at pos inside len octets; returns the cursor behind it and what is left for the content. */
  method HeaderEncode(buf: array<byte>, pos: nat, cls: nat, con: nat, tag: nat, len: nat)
    returns (ret: int, pos': nat, len': nat)
    requires len < TWO_32
    requires 2 <= len ==> pos + len - Content(len) <= buf.Length
    modifies buf
    ensures len < 2 ==> ret == -EINVAL && pos' == pos && len' == len && buf[..] == old(buf[..])
    ensures 2 <= len ==> ret == 0 && len' == Content(len) && pos' == pos + len - len'
    ensures 2 <= len ==> buf[..] == Splice(old(buf[..]), pos, HeaderBytes(cls, con, tag, len))
    ensures 2 <= len ==> buf[..pos'] == old(buf[..pos]) + HeaderBytes(cls, con, tag, len)
  {
    hide HeaderBytes, Content;
    if len < 2 {
      return -EINVAL, pos, len;
    }
    var r, field := LengthEncode(len);
    var id: byte := cls % 4 * 64 + con % 2 * 32 + tag % 32;
    assert [id] + field == HeaderBytes(cls, con, tag, len) by { HeaderText(cls, con, tag, len); }
    Store(buf, pos, [id] + field);
    return 0, pos + 1 + |field|, r;
  }

  lemma HeaderText(cls: nat, con: nat, tag: nat, len: nat)
    requires 2 <= len < TWO_32
    ensures HeaderBytes(cls, con, tag, len) == [cls % 4 * 64 + con % 2 * 32 + tag % 32] + LengthField(len)
  {
  }

  /** The shortest length form that makes header and content fill len octets. */
  method LengthEncode(len: nat) returns (r: nat, field: seq<byte>)
    requires 2 <= len < TWO_32
    ensures r == Content(len) && field == LengthField(len)
  {
    hide BigEndian;
    r := len - 1;
    if r - 1 < 0x80 {
      r := r - 1;
      field := [r % 0x80];
    } else if r - 2 < 0x100 {
      r := r - 2;
      BigEndianText(r);
      field := [0x81, r % 0x100];
    } else if r - 3 < 0x1_0000 {
      r := r - 3;
      BigEndianText(r);
      field := [0x82, r / 0x100 % 0x100, r % 0x100];
    } else if r - 4 < 0x100_0000 {
      r := r - 4;
      BigEndianText(r);
      field := [0x83, r / 0x1_0000 % 0x100, r / 0x100 % 0x100, r % 0x100];
    } else {
      r := r - 5;
      BigEndianText(r);
      field := [0x84, r / 0x100_0000 % 0x100, r / 0x1_0000 % 0x100, r / 0x100 % 0x100, r % 0x100];
    }
  }

  lemma BigEndianText(n: nat)
    ensures BigEndian(n, 1) == [n % 0x100]
    ensures BigEndian(n, 2) == [n / 0x100 % 0x100, n % 0x100]
    ensures BigEndian(n, 3) == [n / 0x1_0000 % 0x100, n / 0x100 % 0x100, n % 0x100]
    ensures BigEndian(n, 4) == [n / 0x100_0000 % 0x100, n / 0x1_0000 % 0x100, n / 0x100 % 0x100, n % 0x100]
  {
    var a, b, c := n / 0x100, n / 0x1_0000, n / 0x100_0000;
    assert a / 0x100 == b && b / 0x100 == c;
    BigEndianDigits(n, a, b, c);
  }

  lemma BigEndianDigits(n: nat, a: nat, b: nat, c: nat)
    requires a == n / 0x100 && b == a / 0x100 && c == b / 0x100
    ensures BigEndian(n, 1) == [n % 0x100]
    ensures BigEndian(n, 2) == [a % 0x100, n % 0x100]
    ensures BigEndian(n, 3) == [b % 0x100, a % 0x100, n % 0x100]
    ensures BigEndian(n, 4) == [c % 0x100, b % 0x100, a % 0x100, n % 0x100]
  {
    hide BigEndian;
    BigEndianMore(n, a, 0);
    BigEndianMore(n, a, 1);
    BigEndianMore(n, a, 2);
    BigEndianMore(n, a, 3);
    BigEndianMore(a, b, 0);
    BigEndianMore(a, b, 1);
    BigEndianMore(a, b, 2);
    BigEndianMore(b, c, 0);
    BigEndianMore(b, c, 1);
    BigEndianMore(c, c / 0x100, 0);
  }

  lemma BigEndianMore(n: nat, q: nat, k: nat)
    requires q == n / 0x100
    ensures BigEndian(n, k + 1) == BigEndian(q, k) + [n % 0x100]
    ensures BigEndian(n, 0) == []
  {
  }

  lemma ContinuedText(id: nat)
    ensures Continued(id / 128, 1) == [128 + id / 0x80 % 128]
    ensures Continued(id / 128, 2) == [128 + id / 0x4000 % 128, 128 + id / 0x80 % 128]
    ensures Continued(id / 128, 3) == [128 + id / 0x20_0000 % 128, 128 + id / 0x4000 % 128, 128 + id / 0x80 % 128]
    ensures Continued(id / 128, 4) ==
            [128 + id / 0x1000_0000 % 128, 128 + id / 0x20_0000 % 128, 128 + id / 0x4000 % 128, 128 + id / 0x80 % 128]
  {
    ContinuedTwo(id / 0x80);
    ContinuedTwo(id / 0x4000);
    ContinuedTwo(id / 0x20_0000);
    assert id / 0x80 / 128 == id / 0x4000 && id / 0x4000 / 128 == id / 0x20_0000;
    assert id / 0x20_0000 / 128 == id / 0x1000_0000;
    assert Continued(id / 0x4000, 3) == Continued(id / 0x20_0000, 2) + [128 + id / 0x4000 % 128];
  }

  lemma ContinuedTwo(v: nat)
    ensures Continued(v, 1) == [128 + v % 128] && Continued(v, 2) == [128 + v / 128 % 128, 128 + v % 128]
  {
    assert Continued(v, 0) == [] && Continued(v / 128, 0) == [];
    assert Continued(v / 128, 1) == [128 + v / 128 % 128];
  }

  /** The body of the arc loop. */
  method ArcEncode(buf: array<byte>, pos: nat, id: nat) returns (pos': nat)
    requires pos + |ArcBytes(id)| <= buf.Length
    modifies buf
    ensures pos' == pos + |ArcBytes(id)|
    ensures buf[..] == Splice(old(buf[..]), pos, ArcBytes(id))
  {
    var s: seq<byte> := [];
    if id >= 0x1000_0000 { s := s + [128 + id / 0x1000_0000 % 128]; }
    if id >= 0x20_0000 { s := s + [128 + id / 0x20_0000 % 128]; }
    if id >= 0x4000 { s := s + [128 + id / 0x4000 % 128]; }
    if id >= 0x80 { s := s + [128 + id / 0x80 % 128]; }
    s := s + [id % 128];
    ContinuedText(id);
    assert s == ArcBytes(id);
    Store(buf, pos, s);
    pos' := pos + |s|;
  }

  /** Encodes into five octets per arc, of which the first outLen are used. */
  method OidEncode(oid: seq<nat>) returns (out: array<byte>, outLen: nat)
    requires |oid| >= 2
    ensures fresh(out) && out.Length == 5 * |oid| && outLen <= out.Length
    ensures out[..outLen] == OidBytes(oid)
  {
    hide ArcsBytes, ArcBytes, ArcWidth;
    out := new byte[5 * |oid|](_ => 0);
    out[0] := (40 * oid[0] + oid[1]) % 256;
    outLen := 1;
    for i := 2 to |oid|
      invariant fresh(out) && out.Length == 5 * |oid| && outLen <= 1 + 5 * (i - 2)
      invariant out[..outLen] == [(40 * oid[0] + oid[1]) % 256] + ArcsBytes(oid[2..i])
    {
      ghost var was := out[..outLen];
      ArcsAppend(oid, i);
      outLen := ArcEncode(out, outLen, oid[i]);
      assert out[..outLen] == was + ArcBytes(oid[i]);
    }
    assert oid[2..|oid|] == oid[2..];
  }

  lemma ArcsAppend(oid: seq<nat>, i: nat)
    requires 2 <= i < |oid|
    ensures ArcsBytes(oid[2..i + 1]) == ArcsBytes(oid[2..i]) + ArcBytes(oid[i]) && |ArcBytes(oid[i])| <= 5
  {
    hide ArcBytes;
    assert oid[2..i + 1][..i - 2] == oid[2..i];
  }
}
