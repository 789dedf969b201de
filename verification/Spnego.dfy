/**
  The SPNEGO reply (negTokenTarg of section 4.2.2 of RFC 4178) built back to front from
  pre-computed lengths, and what a BER reader finds in it.
 */
module Spnego {
  import opened Bytes
  import opened Asn1
  import opened Asn1Codec

  const KRB5_OID: seq<nat> := [1, 2, 840, 113554, 1, 2, 2]
  const MSKRB5_OID: seq<nat> := [1, 2, 840, 48018, 1, 2, 2]
  const TWO_31 := 0x8000_0000

  // ---------------------------------------------------------------- the token as a nested value

  function Tlv(cls: nat, con: nat, tag: nat, content: seq<byte>): (s: seq<byte>)
    requires Wrapped(|content|) < TWO_32
    ensures |s| == Wrapped(|content|)
  {
    ContentUndoesWrapped(|content|);
    HeaderBytes(cls, con, tag, Wrapped(|content|)) + content
  }

  /** Two headers around a content. */
  function Tlv2(tag: nat, inner: nat, content: seq<byte>): (s: seq<byte>)
    requires NestedLen(|content|, 2) < TWO_32
    ensures |s| == NestedLen(|content|, 2)
  {
    assert NestedLen(|content|, 2) == Wrapped(NestedLen(|content|, 1)) == Wrapped(Wrapped(NestedLen(|content|, 0)));
    Tlv(CTX, CON, tag, Tlv(UNI, PRI, inner, content))
  }

  function MechTokenLen(krb5: nat, blob: nat): nat { Wrapped(krb5) + 2 + blob }

  function BodyLen(sup: nat, krb5: nat, blob: nat): nat {
    NestedLen(1, 2) + NestedLen(sup, 2) + NestedLen(MechTokenLen(krb5, blob), 3)
  }

  function TokenLen(sup: nat, krb5: nat, blob: nat): nat { NestedLen(BodyLen(sup, krb5, blob), 2) }

  lemma NestedUnfold(n: nat)
    ensures NestedLen(n, 1) == Wrapped(n) && NestedLen(n, 2) == Wrapped(Wrapped(n))
    ensures NestedLen(n, 3) == Wrapped(Wrapped(Wrapped(n)))
  {
    hide Wrapped;
    assert NestedLen(n, 0) == n && NestedLen(n, 1) == Wrapped(NestedLen(n, 0));
    assert NestedLen(n, 3) == Wrapped(NestedLen(n, 2));
  }

  lemma TokenLenBounds(sup: nat, krb5: nat, blob: nat)
    ensures NestedLen(sup, 2) <= BodyLen(sup, krb5, blob)
    ensures BodyLen(sup, krb5, blob) <= Wrapped(BodyLen(sup, krb5, blob)) <= TokenLen(sup, krb5, blob)
    ensures NestedLen(MechTokenLen(krb5, blob), 3) <= BodyLen(sup, krb5, blob)
    ensures krb5 <= Wrapped(krb5) <= MechTokenLen(krb5, blob) <= Wrapped(MechTokenLen(krb5, blob))
    ensures Wrapped(MechTokenLen(krb5, blob)) <= Wrapped(Wrapped(MechTokenLen(krb5, blob)))
            <= NestedLen(MechTokenLen(krb5, blob), 3)
    ensures NestedLen(1, 2) == 5
  {
    hide LengthSize;
    NestedUnfold(MechTokenLen(krb5, blob));
    NestedUnfold(BodyLen(sup, krb5, blob));
    NestedUnfold(sup);
    FiveOctets();
  }

  lemma FiveOctets()
    ensures NestedLen(1, 2) == 5
  {
    NestedUnfold(1);
  }

  /** The GSS-API framing of the Kerberos reply: mechanism, token identifier 2,0 and the blob. */
  function MechToken(krb5: seq<byte>, blob: seq<byte>): (s: seq<byte>)
    requires Wrapped(|krb5|) < TWO_32
    ensures |s| == MechTokenLen(|krb5|, |blob|)
  {
    Tlv(UNI, PRI, OJI, krb5) + [2, 0] + blob
  }

  function ResponseToken(krb5: seq<byte>, blob: seq<byte>): (s: seq<byte>)
    requires NestedLen(MechTokenLen(|krb5|, |blob|), 3) < TWO_32
    ensures |s| == NestedLen(MechTokenLen(|krb5|, |blob|), 3)
  {
    TokenLenBounds(0, |krb5|, |blob|);
    NestedUnfold(MechTokenLen(|krb5|, |blob|));
    Tlv(CTX, CON, 2, Tlv(UNI, PRI, OTS, Tlv(APL, CON, 0, MechToken(krb5, blob))))
  }

  function Body(sup: seq<byte>, krb5: seq<byte>, blob: seq<byte>): (s: seq<byte>)
    requires BodyLen(|sup|, |krb5|, |blob|) < TWO_32
    ensures |s| == BodyLen(|sup|, |krb5|, |blob|)
  {
    TokenLenBounds(|sup|, |krb5|, |blob|);
    Tlv2(0, ENUM, [0]) + Tlv2(1, OJI, sup) + ResponseToken(krb5, blob)
  }

  function Token(sup: seq<byte>, krb5: seq<byte>, blob: seq<byte>): (s: seq<byte>)
    requires TokenLen(|sup|, |krb5|, |blob|) < TWO_32
    ensures |s| == TokenLen(|sup|, |krb5|, |blob|)
  {
    TokenLenBounds(|sup|, |krb5|, |blob|);
    NestedUnfold(BodyLen(|sup|, |krb5|, |blob|));
    Tlv(CTX, CON, 1, Tlv(UNI, CON, SEQ, Body(sup, krb5, blob)))
  }

  // ---------------------------------------------------------------- reading it back

  datatype Span = Span(start: nat, end: nat)

  /** A header that must carry the given class, form and tag, as decode_asn1_header demands. */
  function Expect(buf: seq<byte>, pos: nat, cls: nat, con: nat, tag: nat): (r: Option<Span>)
    ensures r.Some? ==> pos < r.value.start <= r.value.end <= |buf|
  {
    var h := DecodeHeader(buf, pos);
    if h.Some? && h.value.cls == cls && h.value.con == con && h.value.tag == tag && h.value.eoc.Some?
    then Some(Span(h.value.next, h.value.eoc.value)) else None
  }

  function Expect2(buf: seq<byte>, pos: nat, tag: nat, inner: nat): (r: Option<Span>)
    ensures r.Some? ==> pos < r.value.start <= r.value.end <= |buf|
  {
    var o := Expect(buf, pos, CTX, CON, tag);
    if o.None? then None
    else
      var i := Expect(buf, o.value.start, UNI, PRI, inner);
      if i.None? || i.value.end != o.value.end then None else i
  }

  datatype Reply = Reply(result: byte, mech: seq<byte>, thisMech: seq<byte>, tokenId: seq<byte>, blob: seq<byte>)

  function ReadMechToken(buf: seq<byte>, span: Span): Option<(seq<byte>, seq<byte>, seq<byte>)>
    requires span.start <= span.end <= |buf|
  {
    var g := Expect(buf, span.start, APL, CON, 0);
    if g.None? || g.value.end != span.end then None
    else
      var k := Expect(buf, g.value.start, UNI, PRI, OJI);
      if k.None? || k.value.end + 2 > g.value.end then None
      else
        var e := k.value.end;
        Some((buf[k.value.start..e], buf[e..e + 2], buf[e + 2..g.value.end]))
  }

  /** A strict reader: every element ends where its parent or the next element demands. */
  function ReadReply(buf: seq<byte>): Option<Reply> {
    var a := Expect(buf, 0, CTX, CON, 1);
    if a.None? || a.value.end != |buf| then None
    else
      var b := Expect(buf, a.value.start, UNI, CON, SEQ);
      if b.None? || b.value.end != |buf| then None
      else
        var r := Expect2(buf, b.value.start, 0, ENUM);
        if r.None? || r.value.end != r.value.start + 1 then None
        else
          var m := Expect2(buf, r.value.end, 1, OJI);
          if m.None? then None
          else
            var t := Expect2(buf, m.value.end, 2, OTS);
            if t.None? || t.value.end != |buf| then None
            else
              var g := ReadMechToken(buf, t.value);
              if g.None? then None
              else Some(Reply(buf[r.value.start], buf[m.value.start..m.value.end], g.value.0, g.value.1, g.value.2))
  }

  lemma TlvReads(buf: seq<byte>, pos: nat, cls: nat, con: nat, tag: nat, content: seq<byte>)
    requires cls < 4 && con < 2 && tag < 31 && Wrapped(|content|) < TWO_32
    requires At(buf, pos, Tlv(cls, con, tag, content))
    ensures var end := pos + |Tlv(cls, con, tag, content)|;
            && Expect(buf, pos, cls, con, tag) == Some(Span(end - |content|, end))
            && At(buf, end - |content|, content)
  {
    hide DecodeHeader, HeaderBytes, Wrapped, Content;
    var n := Wrapped(|content|);
    ContentUndoesWrapped(|content|);
    AtConcat(buf, pos, HeaderBytes(cls, con, tag, n), content);
    HeaderRoundTrip(buf, pos, cls, con, tag, n);
  }

  lemma Tlv2Reads(buf: seq<byte>, pos: nat, tag: nat, inner: nat, content: seq<byte>)
    requires tag < 31 && inner < 31 && NestedLen(|content|, 2) < TWO_32
    requires At(buf, pos, Tlv2(tag, inner, content))
    ensures var end := pos + |Tlv2(tag, inner, content)|;
            && Expect2(buf, pos, tag, inner) == Some(Span(end - |content|, end))
            && At(buf, end - |content|, content)
  {
    hide Expect, Tlv, Wrapped;
    NestedUnfold(|content|);
    var i := Tlv(UNI, PRI, inner, content);
    TlvReads(buf, pos, CTX, CON, tag, i);
    TlvReads(buf, pos + |Tlv(CTX, CON, tag, i)| - |i|, UNI, PRI, inner, content);
  }

  lemma MechTokenReads(buf: seq<byte>, span: Span, krb5: seq<byte>, blob: seq<byte>)
    requires Wrapped(MechTokenLen(|krb5|, |blob|)) < TWO_32 && Wrapped(|krb5|) < TWO_32
    requires span.end == span.start + Wrapped(MechTokenLen(|krb5|, |blob|))
    requires At(buf, span.start, Tlv(APL, CON, 0, MechToken(krb5, blob)))
    ensures ReadMechToken(buf, span) == Some((krb5, [2, 0], blob))
  {
    hide Expect, Tlv, Wrapped;
    var m := MechToken(krb5, blob);
    TlvReads(buf, span.start, APL, CON, 0, m);
    var at := span.end - |m|;
    var k := Tlv(UNI, PRI, OJI, krb5);
    assert m == (k + [2, 0]) + blob;
    AtConcat(buf, at, k + [2, 0], blob);
    AtConcat(buf, at, k, [2, 0]);
    TlvReads(buf, at, UNI, PRI, OJI, krb5);
  }

  lemma TokenParts(sup: seq<byte>, krb5: seq<byte>, blob: seq<byte>)
    requires TokenLen(|sup|, |krb5|, |blob|) < TWO_32
    ensures var buf, body := Token(sup, krb5, blob), Body(sup, krb5, blob);
            exists start: nat {:trigger Span(start, |buf|)} ::
              && Expect(buf, 0, CTX, CON, 1) == Some(Span(start, |buf|))
              && Expect(buf, start, UNI, CON, SEQ) == Some(Span(|buf| - |body|, |buf|))
              && At(buf, |buf| - |body|, body)
  {
    hide Expect, Tlv, Wrapped, BodyLen, Body;
    TokenLenBounds(|sup|, |krb5|, |blob|);
    NestedUnfold(BodyLen(|sup|, |krb5|, |blob|));
    var buf, body := Token(sup, krb5, blob), Body(sup, krb5, blob);
    var inner := Tlv(UNI, CON, SEQ, body);
    assert At(buf, 0, buf);
    TlvReads(buf, 0, CTX, CON, 1, inner);
    TlvReads(buf, |buf| - |inner|, UNI, CON, SEQ, body);
    assert Expect(buf, 0, CTX, CON, 1) == Some(Span(|buf| - |inner|, |buf|));
  }

  lemma ResponseReads(buf: seq<byte>, pos: nat, krb5: seq<byte>, blob: seq<byte>)
    requires NestedLen(MechTokenLen(|krb5|, |blob|), 3) < TWO_32
    requires At(buf, pos, ResponseToken(krb5, blob))
    ensures var t := Expect2(buf, pos, 2, OTS);
            && t.Some? && t.value.end == pos + |ResponseToken(krb5, blob)|
            && ReadMechToken(buf, t.value) == Some((krb5, [2, 0], blob))
  {
    hide Expect, ReadMechToken, Tlv, Wrapped, MechToken, MechTokenLen;
    TokenLenBounds(0, |krb5|, |blob|);
    NestedUnfold(MechTokenLen(|krb5|, |blob|));
    var g := Tlv(APL, CON, 0, MechToken(krb5, blob));
    var o := Tlv(UNI, PRI, OTS, g);
    var end := pos + |ResponseToken(krb5, blob)|;
    TlvReads(buf, pos, CTX, CON, 2, o);
    TlvReads(buf, end - |o|, UNI, PRI, OTS, g);
    MechTokenReads(buf, Span(end - |g|, end), krb5, blob);
  }

  /** The reader recovers every field of the token, for every mechanism encoding and every blob. */
  lemma TokenReads(sup: seq<byte>, krb5: seq<byte>, blob: seq<byte>)
    requires TokenLen(|sup|, |krb5|, |blob|) < TWO_32
    ensures ReadReply(Token(sup, krb5, blob)) == Some(Reply(0, sup, krb5, [2, 0], blob))
  {
    hide Expect, Expect2, ReadMechToken, Tlv, Tlv2, Wrapped, NestedLen, Token, ResponseToken;
    hide BodyLen, TokenLen, MechTokenLen;
    TokenLenBounds(|sup|, |krb5|, |blob|);
    var buf, body := Token(sup, krb5, blob), Body(sup, krb5, blob);
    TokenParts(sup, krb5, blob);
    var at := |buf| - |body|;
    var e0, e1, e2 := Tlv2(0, ENUM, [0]), Tlv2(1, OJI, sup), ResponseToken(krb5, blob);
    assert body == (e0 + e1) + e2;
    AtConcat(buf, at, e0 + e1, e2);
    AtConcat(buf, at, e0, e1);
    Tlv2Reads(buf, at, 0, ENUM, [0]);
    Tlv2Reads(buf, at + |e0|, 1, OJI, sup);
    ResponseReads(buf, at + |e0| + |e1|, krb5, blob);
    assert |buf| == at + |e0| + |e1| + |e2|;
    assert buf[at + |e0| - 1..at + |e0|] == [0];
  }

  // ---------------------------------------------------------------- the builder

  method CompareOid(oid1: seq<nat>, oid2: seq<nat>) returns (r: int)
    ensures r == 0 <==> oid1 == oid2
    ensures r == 0 || r == 1
  {
    if |oid1| != |oid2| {
      return 1;
    }
    for i := 0 to |oid1|
      invariant oid1[..i] == oid2[..i]
    {
      if oid1[i] != oid2[i] {
        return 1;
      }
    }
    assert oid1 == oid1[..|oid1|] && oid2 == oid2[..|oid1|];
    return 0;
  }

  /** Lays one header around content octets at pos; the counted length leaves exactly content. */
  method Wrap(buf: array<byte>, pos: nat, cls: nat, con: nat, tag: nat, len: nat, ghost content: nat)
    returns (pos': nat, len': nat)
    requires len == Wrapped(content) < TWO_32 && pos + len - content <= buf.Length
    modifies buf
    ensures len' == content && pos' == pos + len - content
    ensures buf[..pos'] == old(buf[..pos]) + HeaderBytes(cls, con, tag, len)
  {
    ContentUndoesWrapped(content);
    var ret;
    ret, pos', len' := HeaderEncode(buf, pos, cls, con, tag, len);
  }

  /** One header and its content. */
  method PutTlv(buf: array<byte>, pos: nat, cls: nat, con: nat, tag: nat, content: seq<byte>, total: nat)
    returns (pos': nat)
    requires total == Wrapped(|content|) < TWO_32 && pos + total <= buf.Length
    modifies buf
    ensures pos' == pos + total
    ensures buf[..pos'] == old(buf[..pos]) + Tlv(cls, con, tag, content)
  {
    hide Wrapped, HeaderBytes;
    ghost var was := buf[..pos];
    var len;
    pos', len := Wrap(buf, pos, cls, con, tag, total, |content|);
    pos' := Append(buf, pos', content);
    ghost var h := HeaderBytes(cls, con, tag, total);
    assert was + h + content == was + (h + content);
  }

  /** negResult and supportedMechType: two headers and their content. */
  method PutElement(buf: array<byte>, pos: nat, tag: nat, inner: nat, content: seq<byte>, total: nat)
    returns (pos': nat)
    requires total == NestedLen(|content|, 2) < TWO_32 && pos + total <= buf.Length
    modifies buf
    ensures pos' == pos + total
    ensures buf[..pos'] == old(buf[..pos]) + Tlv2(tag, inner, content)
  {
    hide Wrapped, HeaderBytes, NestedLen;
    NestedUnfold(|content|);
    ghost var was := buf[..pos];
    var len := total;
    pos', len := Wrap(buf, pos, CTX, CON, tag, len, Wrapped(|content|));
    pos' := PutTlv(buf, pos', UNI, PRI, inner, content, len);
    ghost var h, i := HeaderBytes(CTX, CON, tag, total), Tlv(UNI, PRI, inner, content);
    assert was + h + i == was + (h + i);
  }

  /** The Kerberos OID under its own header, the identifier 2,0 and the blob. */
  method PutMechToken(buf: array<byte>, pos: nat, krb5: seq<byte>, blob: seq<byte>)
    returns (pos': nat)
    requires Wrapped(|krb5|) < TWO_32 && pos + MechTokenLen(|krb5|, |blob|) <= buf.Length
    modifies buf
    ensures pos' == pos + MechTokenLen(|krb5|, |blob|)
    ensures buf[..pos'] == old(buf[..pos]) + MechToken(krb5, blob)
  {
    hide Wrapped, NestedLen, Tlv;
    NestedUnfold(|krb5|);
    ghost var was, k := buf[..pos], Tlv(UNI, PRI, OJI, krb5);
    var len := HeaderLen(|krb5|, 1);
    pos' := PutTlv(buf, pos, UNI, PRI, OJI, krb5, len);
    pos' := Append(buf, pos', [2]);
    pos' := Append(buf, pos', [0]);
    pos' := Append(buf, pos', blob);
    assert was + k + [2] + [0] + blob == was + (k + [2, 0] + blob);
  }

  lemma Nest(was: seq<byte>, h1: seq<byte>, h2: seq<byte>, h3: seq<byte>, m: seq<byte>)
    ensures was + h1 + h2 + h3 + m == was + (h1 + (h2 + (h3 + m)))
  {
  }

  /** responseToken: three headers around the mechanism token. */
  method PutResponse(buf: array<byte>, pos: nat, krb5: seq<byte>, blob: seq<byte>, total: nat)
    returns (pos': nat)
    requires total == NestedLen(MechTokenLen(|krb5|, |blob|), 3) < TWO_32 && pos + total <= buf.Length
    modifies buf
    ensures pos' == pos + total
    ensures buf[..pos'] == old(buf[..pos]) + ResponseToken(krb5, blob)
  {
    hide Wrapped, HeaderBytes, NestedLen, MechTokenLen, MechToken;
    ghost var m := MechTokenLen(|krb5|, |blob|);
    TokenLenBounds(0, |krb5|, |blob|);
    NestedUnfold(m);
    ghost var was := buf[..pos];
    var len := total;
    ghost var h1 := HeaderBytes(CTX, CON, 2, len);
    pos', len := Wrap(buf, pos, CTX, CON, 2, len, Wrapped(Wrapped(m)));
    ghost var h2 := HeaderBytes(UNI, PRI, OTS, len);
    pos', len := Wrap(buf, pos', UNI, PRI, OTS, len, Wrapped(m));
    ghost var h3 := HeaderBytes(APL, CON, 0, len);
    pos', len := Wrap(buf, pos', APL, CON, 0, len, m);
    pos' := PutMechToken(buf, pos', krb5, blob);
    Nest(was, h1, h2, h3, MechToken(krb5, blob));
  }

  /** The reply for a chosen mechanism: the buffer is filled to its last octet with the nested token. */
  method EncodeNegTokenTarg(inBlob: seq<byte>, oid: seq<nat>) returns (out: array<byte>)
    requires |oid| >= 2
    requires TokenLen(|OidBytes(oid)|, |OidBytes(KRB5_OID)|, |inBlob|) < TWO_31
    ensures out[..] == Token(OidBytes(oid), OidBytes(KRB5_OID), inBlob)
    ensures ReadReply(out[..]) == Some(Reply(0, OidBytes(oid), OidBytes(KRB5_OID), [2, 0], inBlob))
  {
    hide OidBytes, NestedLen, Wrapped, ResponseToken, Tlv2, HeaderBytes, ReadReply;
    var supBuf, supLen := OidEncode(oid);
    var krbBuf, krbLen := OidEncode(KRB5_OID);
    var sup, krb5 := supBuf[..supLen], krbBuf[..krbLen];
    assert sup == OidBytes(oid) && krb5 == OidBytes(KRB5_OID);
    out := EncodeToken(sup, krb5, inBlob);
    TokenReads(sup, krb5, inBlob);
  }

  /** The mechanism identifiers that are sent decode back to themselves. */
  lemma MechanismsRecovered(oid: seq<nat>)
    requires oid == KRB5_OID || oid == MSKRB5_OID
    ensures DecodeOid(OidBytes(oid), 0, |OidBytes(oid)|) == Some((oid, |OidBytes(oid)|))
  {
    hide OidBytes, DecodeOid;
    OidRoundTripExactly(oid);
  }

  method TokenLengths(sup: nat, krb5: nat, blob: nat)
    returns (negResultLen: nat, supMechLen: nat, repTokenLen: nat, outLen: nat)
    requires TokenLen(sup, krb5, blob) < TWO_31
    ensures negResultLen == NestedLen(1, 2) && supMechLen == NestedLen(sup, 2)
    ensures repTokenLen == NestedLen(MechTokenLen(krb5, blob), 3) && outLen == TokenLen(sup, krb5, blob)
  {
    hide NestedLen, Wrapped;
    TokenLenBounds(sup, krb5, blob);
    NestedUnfold(krb5);
    negResultLen := HeaderLen(1, 2);
    supMechLen := HeaderLen(sup, 2);
    repTokenLen := HeaderLen(krb5, 1);
    repTokenLen := repTokenLen + 2 + blob;
    repTokenLen := HeaderLen(repTokenLen, 3);
    outLen := HeaderLen(negResultLen + supMechLen + repTokenLen, 2);
  }

  method EncodeToken(sup: seq<byte>, krb5: seq<byte>, blob: seq<byte>) returns (out: array<byte>)
    requires TokenLen(|sup|, |krb5|, |blob|) < TWO_31
    ensures out[..] == Token(sup, krb5, blob)
  {
    hide NestedLen, Wrapped, Body, BodyLen, HeaderBytes, MechTokenLen;
    TokenLenBounds(|sup|, |krb5|, |blob|);
    var negResultLen, supMechLen, repTokenLen, outLen := TokenLengths(|sup|, |krb5|, |blob|);
    out := new byte[outLen](_ => 0);

    ghost var body := Body(sup, krb5, blob);
    NestedUnfold(|body|);
    var len, pos := outLen, 0;
    ghost var h1 := HeaderBytes(CTX, CON, 1, len);
    pos, len := Wrap(out, pos, CTX, CON, 1, len, Wrapped(|body|));
    ghost var h2 := HeaderBytes(UNI, CON, SEQ, len);
    pos, len := Wrap(out, pos, UNI, CON, SEQ, len, |body|);
    pos := PutBody(out, pos, sup, krb5, blob, negResultLen, supMechLen, repTokenLen);
    assert out[..] == out[..pos] == h1 + (h2 + body);
  }

  method PutBody(buf: array<byte>, pos: nat, sup: seq<byte>, krb5: seq<byte>, blob: seq<byte>,
                 negResultLen: nat, supMechLen: nat, repTokenLen: nat) returns (pos': nat)
    requires BodyLen(|sup|, |krb5|, |blob|) < TWO_32 && pos + BodyLen(|sup|, |krb5|, |blob|) <= buf.Length
    requires negResultLen == NestedLen(1, 2) && supMechLen == NestedLen(|sup|, 2)
    requires repTokenLen == NestedLen(MechTokenLen(|krb5|, |blob|), 3)
    modifies buf
    ensures pos' == pos + BodyLen(|sup|, |krb5|, |blob|)
    ensures buf[..pos'] == old(buf[..pos]) + Body(sup, krb5, blob)
  {
    hide NestedLen, ResponseToken, Tlv2, MechTokenLen;
    TokenLenBounds(|sup|, |krb5|, |blob|);
    ghost var was := buf[..pos];
    pos' := PutElement(buf, pos, 0, ENUM, [0], negResultLen);
    pos' := PutElement(buf, pos', 1, OJI, sup, supMechLen);
    pos' := PutResponse(buf, pos', krb5, blob, repTokenLen);
    ghost var e0, e1, e2 := Tlv2(0, ENUM, [0]), Tlv2(1, OJI, sup), ResponseToken(krb5, blob);
    assert was + e0 + e1 + e2 == was + (e0 + e1 + e2);
  }

  // ---------------------------------------------------------------- octets

  /** The identifiers of Kerberos and of its older Microsoft variant, as they stand in a message. */
  lemma MechanismOctets()
    ensures OidBytes(KRB5_OID) == [0x2a, 0x86, 0x48, 0x86, 0xf7, 0x12, 0x01, 0x02, 0x02]
    ensures OidBytes(MSKRB5_OID) == [0x2a, 0x86, 0x48, 0x82, 0xf7, 0x12, 0x01, 0x02, 0x02]
  {
    ArcOctets();
    FiveArcs(KRB5_OID);
    FiveArcs(MSKRB5_OID);
    hide OidBytes, ArcBytes;
  }

  lemma ArcOctets()
    ensures ArcBytes(840) == [0x86, 0x48] && ArcBytes(1) == [1] && ArcBytes(2) == [2]
    ensures ArcBytes(113554) == [0x86, 0xf7, 0x12] && ArcBytes(48018) == [0x82, 0xf7, 0x12]
  {
    assert Continued(6, 1) == Continued(0, 0) + [128 + 6];
    assert Continued(887, 2) == Continued(6, 1) + [128 + 119];
    assert Continued(375, 2) == Continued(2, 1) + [128 + 119];
    assert Continued(2, 1) == Continued(0, 0) + [128 + 2];
  }

  lemma FiveArcs(oid: seq<nat>)
    requires |oid| == 7
    ensures OidBytes(oid) ==
            [(40 * oid[0] + oid[1]) % 256] + ArcBytes(oid[2]) + ArcBytes(oid[3]) + ArcBytes(oid[4]) + ArcBytes(oid[5]) +
            ArcBytes(oid[6])
  {
    hide ArcBytes;
    var a := oid[2..];
    assert a[..4][..3] == a[..3] && a[..3][..2] == a[..2] && a[..2][..1] == a[..1] && a[..1][..0] == [];
    assert ArcsBytes(a) == ArcsBytes(a[..4]) + ArcBytes(a[4]);
    assert ArcsBytes(a[..4]) == ArcsBytes(a[..3]) + ArcBytes(a[3]);
    assert ArcsBytes(a[..3]) == ArcsBytes(a[..2]) + ArcBytes(a[2]);
    assert ArcsBytes(a[..2]) == ArcsBytes(a[..1]) + ArcBytes(a[1]);
    assert ArcsBytes(a[..1]) == ArcsBytes([]) + ArcBytes(a[0]);
  }

  /** A short element is its identifier octet, its length and its content. */
  lemma ShortTlv(cls: nat, con: nat, tag: nat, content: seq<byte>)
    requires cls < 4 && con < 2 && tag < 31 && |content| < 0x80
    ensures Wrapped(|content|) == |content| + 2
    ensures Tlv(cls, con, tag, content) == [64 * cls + 32 * con + tag, |content|] + content
  {
  }

  lemma ShortNested(n: nat)
    requires n < 0x7e
    ensures Wrapped(n) == n + 2 && Wrapped(n + 2) == n + 4 && NestedLen(n, 2) == n + 4
  {
    NestedUnfold(n);
  }

  lemma Tlv2Nests(tag: nat, inner: nat, content: seq<byte>, i: seq<byte>)
    requires NestedLen(|content|, 2) < TWO_32 && Wrapped(|content|) < TWO_32 && Wrapped(|i|) < TWO_32
    requires i == Tlv(UNI, PRI, inner, content)
    ensures Tlv2(tag, inner, content) == Tlv(CTX, CON, tag, i)
  {
    hide Tlv;
  }

  lemma ShortTlv2(tag: nat, inner: nat, content: seq<byte>, i: seq<byte>)
    requires tag < 31 && inner < 31 && |content| < 0x7e && Wrapped(|content|) < TWO_32
    requires i == Tlv(UNI, PRI, inner, content) && |i| == |content| + 2
    ensures NestedLen(|content|, 2) == |content| + 4
    ensures Tlv2(tag, inner, content) == [0xa0 + tag, |i|] + i
  {
    hide Tlv, NestedLen, Tlv2;
    ShortNested(|content|);
    hide Wrapped;
    ShortTlv(CTX, CON, tag, i);
    Tlv2Nests(tag, inner, content, i);
  }

  lemma ShortResponse(krb5: seq<byte>, blob: seq<byte>)
    requires |krb5| + |blob| <= 90
    ensures var k := |krb5| + 4 + |blob|;
            && NestedLen(MechTokenLen(|krb5|, |blob|), 3) == k + 6
            && ResponseToken(krb5, blob) ==
               [0xa2, k + 4, 0x04, k + 2, 0x60, k, 0x06, |krb5|] + krb5 + [2, 0] + blob
  {
    hide Tlv, Wrapped;
    ShortTlv(UNI, PRI, OJI, krb5);
    var mech := MechToken(krb5, blob);
    var k := |krb5| + 4 + |blob|;
    assert mech == [0x06, |krb5|] + krb5 + [2, 0] + blob && |mech| == k;
    NestedUnfold(k);
    ShortTlv(APL, CON, 0, mech);
    var gss := [0x60, k] + mech;
    ShortTlv(UNI, PRI, OTS, gss);
    ShortTlv(CTX, CON, 2, [0x04, k + 2] + gss);
  }

  lemma ShortBody(sup: seq<byte>, krb5: seq<byte>, blob: seq<byte>)
    requires |sup| + |krb5| + |blob| <= 90
    ensures var n, k := |sup|, |krb5| + 4 + |blob|;
            && BodyLen(|sup|, |krb5|, |blob|) == n + k + 15
            && Body(sup, krb5, blob) ==
               [0xa0, 3, 0x0a, 1, 0] + ([0xa1, n + 2, 0x06, n] + sup) + ResponseToken(krb5, blob)
  {
    hide Tlv, Tlv2, Wrapped, ResponseToken, NestedLen;
    ShortResponse(krb5, blob);
    ShortTlv(UNI, PRI, ENUM, [0]);
    ShortTlv(UNI, PRI, OJI, sup);
    ShortTlv2(0, ENUM, [0], Tlv(UNI, PRI, ENUM, [0]));
    ShortTlv2(1, OJI, sup, Tlv(UNI, PRI, OJI, sup));
    assert [0xa0, 3] + ([0x0a, 1] + [0]) == [0xa0, 3, 0x0a, 1, 0];
    assert [0xa1, |sup| + 2] + ([0x06, |sup|] + sup) == [0xa1, |sup| + 2, 0x06, |sup|] + sup;
  }

  /** A reply whose lengths fit one octet each, octet by octet. */
  lemma ShortReplyOctets(sup: seq<byte>, krb5: seq<byte>, blob: seq<byte>)
    requires |sup| + |krb5| + |blob| <= 90
    ensures var n, k := |sup|, |krb5| + 4 + |blob|;
            && TokenLen(|sup|, |krb5|, |blob|) < TWO_32
            && Token(sup, krb5, blob) ==
               [0xa1, n + k + 17, 0x30, n + k + 15, 0xa0, 3, 0x0a, 1, 0, 0xa1, n + 2, 0x06, n] + sup +
               [0xa2, k + 4, 0x04, k + 2, 0x60, k, 0x06, |krb5|] + krb5 + [2, 0] + blob
  {
    hide Tlv, Wrapped, BodyLen, Body, ResponseToken;
    ShortBody(sup, krb5, blob);
    ShortResponse(krb5, blob);
    var body := Body(sup, krb5, blob);
    NestedUnfold(|body|);
    ShortTlv(UNI, CON, SEQ, body);
    ShortTlv(CTX, CON, 1, [0x30, |body|] + body);
  }
}
