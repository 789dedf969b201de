/**
  Security identifiers and the self-relative security descriptor with its four default entries
  (sections 2.4.2.2, 2.4.4.2, 2.4.5 and 2.4.6 of MS-DTYP).

  Sizes are computed apart from the bytes they describe, and the size of the access list is
  patched in after its entries are written.
 */
module Smbacl {
  import opened Bytes
  import opened Ndr
  import opened NdrCodec
  import opened NdrLists

  const NUM_AUTHS := 6
  const SID_MAX_SUB_AUTHORITIES := 15
  const SMB_ACCESS_ALLOWED := 0
  const SELF_RELATIVE_DACL_PRESENT := 0x8004
  const NTSD_SIZE := 20
  const ACL_SIZE := 8
  const NUM_DEFAULT_ACES := 4

  datatype Sid = Sid(revision: byte, authority: seq<byte>, subAuth: seq<nat>)

  ghost predicate ValidSid(sid: Sid) {
    && |sid.authority| == NUM_AUTHS
    && |sid.subAuth| < 256
    && forall i :: 0 <= i < |sid.subAuth| ==> sid.subAuth[i] < TWO_32
  }

  const EVERYONE := Sid(1, [0, 0, 0, 0, 0, 1], [0])
  const LOCAL_GROUP := Sid(1, [0, 0, 0, 0, 0, 5], [32])

  /** The owner's domain: 21 and the three generated sub-authorities. */
  function OwnerDomain(gen: seq<nat>): Sid { Sid(1, [0, 0, 0, 0, 0, 5], [21] + gen) }

  // ---------------------------------------------------------------- security identifiers

  function SidItems(sid: Sid): seq<Item>
    requires |sid.subAuth| < 256
  {
    Nums(1, [sid.revision, |sid.subAuth|] + sid.authority) + Nums(4, sid.subAuth)
  }

  lemma SidItemsValid(sid: Sid)
    requires ValidSid(sid)
    ensures AllBelow([sid.revision, |sid.subAuth|] + sid.authority, Pow256(1)) && AllBelow(sid.subAuth, Pow256(4))
    ensures ValidItems(SidItems(sid))
  {
    Pow256Four();
    NumsValid(1, [sid.revision, |sid.subAuth|] + sid.authority);
    NumsValid(4, sid.subAuth);
  }

  /** An identifier with too many sub-authorities is refused before anything is written. */
  method WriteSid(dce: Dce, sid: Sid) returns (ok: bool)
    requires ValidSid(sid)
    modifies dce`offset, dce.payload
    ensures ValidItems(SidItems(sid))
    ensures |sid.subAuth| > SID_MAX_SUB_AUTHORITIES ==> !ok && dce.Now() == old(dce.Now())
    ensures |sid.subAuth| <= SID_MAX_SUB_AUTHORITIES ==>
              (ok, dce.Now()) == PutItems(dce.ModeOf(), old(dce.Now()), SidItems(sid))
  {
    hide PutItems;
    SidItemsValid(sid);
    if |sid.subAuth| > SID_MAX_SUB_AUTHORITIES {
      return false;
    }
    ghost var head := Nums(1, [sid.revision, |sid.subAuth|] + sid.authority);
    PutItemsConcat(dce.ModeOf(), dce.Now(), head, Nums(4, sid.subAuth));
    ok := WriteNums(dce, 1, [sid.revision, |sid.subAuth|] + sid.authority);
    if !ok {
      return;
    }
    ok := WriteNums(dce, 4, sid.subAuth);
  }

  function GetSid(m: Mode, st: State): (Option<Sid>, State)
    requires ValidMode(m)
  {
    var (head, s1) := GetNums(m, st, 1, 2);
    if head.None? || head.value[1] == 0 || head.value[1] > SID_MAX_SUB_AUTHORITIES then (None, s1)
    else
      var (auth, s2) := GetNums(m, s1, 1, NUM_AUTHS);
      if auth.None? then (None, s2)
      else
        var (subs, s3) := GetNums(m, s2, 4, head.value[1]);
        if subs.None? then (None, s3)
        else (Some(Sid(head.value[0] % 256, Octets8(auth.value), subs.value)), s3)
  }

  function Octets8(vs: seq<nat>): (s: seq<byte>)
    ensures |s| == |vs|
  {
    seq(|vs|, i requires 0 <= i < |vs| => vs[i] % 256)
  }

  method ReadSid(dce: Dce) returns (sid: Option<Sid>)
    modifies dce`offset
    ensures (sid, dce.Now()) == GetSid(dce.ModeOf(), old(dce.Now()))
  {
    hide GetNums;
    var head := ReadNums(dce, 1, 2);
    if head.None? || head.value[1] == 0 || head.value[1] > SID_MAX_SUB_AUTHORITIES {
      return None;
    }
    var auth := ReadNums(dce, 1, NUM_AUTHS);
    if auth.None? {
      return None;
    }
    var subs := ReadNums(dce, 4, head.value[1]);
    if subs.None? {
      return None;
    }
    sid := Some(Sid(head.value[0] % 256, Octets8(auth.value), subs.value));
  }

  lemma SidReads(m: Mode, payload: seq<byte>, o: nat, sid: Sid)
    requires ValidMode(m) && ValidSid(sid) && |sid.subAuth| <= SID_MAX_SUB_AUTHORITIES && ValidItems(SidItems(sid))
    requires Laid(m, payload, o, AllPrims(m, SidItems(sid)))
    ensures var (r, s) := GetSid(m, State(payload, o));
            if |sid.subAuth| == 0 then r == None
            else r == Some(sid) && s == State(payload, End(m, o, AllPrims(m, SidItems(sid))))
  {
    hide Laid, End, GetNums, AllPrims;
    SidItemsValid(sid);
    var h, a, u := [sid.revision, |sid.subAuth|], sid.authority, sid.subAuth;
    NumsValid(1, h + a);
    NumsValid(1, h);
    NumsValid(1, a);
    NumsValid(4, u);
    assert Nums(1, h + a) == Nums(1, h) + Nums(1, a);
    AllPrimsConcat(m, Nums(1, h + a), Nums(4, u));
    AllPrimsConcat(m, Nums(1, h), Nums(1, a));
    var ph, pa, pu := AllPrims(m, Nums(1, h)), AllPrims(m, Nums(1, a)), AllPrims(m, Nums(4, u));
    LaidConcat(m, payload, o, ph + pa, pu);
    LaidConcat(m, payload, o, ph, pa);
    NumsRead(m, payload, o, 1, h);
    NumsRead(m, payload, End(m, o, ph), 1, a);
    NumsRead(m, payload, End(m, o, ph + pa), 4, u);
    assert Octets8(a) == a;
  }

  /** From any offset, reading undoes writing exactly when there is at least one sub-authority. */
  lemma SidRoundTrip(m: Mode, st: State, sid: Sid)
    requires ValidMode(m) && ValidSid(sid) && |sid.subAuth| <= SID_MAX_SUB_AUTHORITIES && ValidItems(SidItems(sid))
    requires PutItems(m, st, SidItems(sid)).0
    ensures var end := PutItems(m, st, SidItems(sid)).1;
            GetSid(m, State(end.payload, st.offset)) == (Some(sid), end) <==> |sid.subAuth| >= 1
  {
    hide PutItems, PutPrims, Laid, AllPrims, GetSid, End;
    PutItemsIsPutPrims(m, st, SidItems(sid));
    PutPrimsLays(m, st, AllPrims(m, SidItems(sid)));
    SidReads(m, PutItems(m, st, SidItems(sid)).1.payload, st.offset, sid);
  }

  /** Equal up to the shorter list of sub-authorities. */
  ghost predicate Matches(a: Sid, b: Sid) {
    a.revision == b.revision && a.authority == b.authority && (a.subAuth <= b.subAuth || b.subAuth <= a.subAuth)
  }

  /** First difference smaller. */
  ghost predicate SeqLess(s: seq<nat>, t: seq<nat>) {
    exists i :: 0 <= i < |s| && i < |t| && s[i] < t[i] && forall k :: 0 <= k < i ==> s[k] == t[k]
  }

  ghost predicate Less(a: Sid, b: Sid) {
    || a.revision < b.revision
    || (a.revision == b.revision && SeqLess(a.authority, b.authority))
    || (a.revision == b.revision && a.authority == b.authority && SeqLess(a.subAuth, b.subAuth))
  }

  /** Zero means the identifiers match up to the shorter one, not that they are equal. */
  method CompareSids(a: Sid, b: Sid) returns (r: int)
    requires |a.authority| == |b.authority| == NUM_AUTHS
    ensures r in {-1, 0, 1}
    ensures r == 0 <==> Matches(a, b)
    ensures r == -1 <==> Less(a, b)
    ensures r == 1 <==> Less(b, a)
    ensures r == 0 && |a.subAuth| == |b.subAuth| ==> a == b
  {
    if a.revision != b.revision {
      return if a.revision > b.revision then 1 else -1;
    }
    for i := 0 to NUM_AUTHS
      invariant forall k :: 0 <= k < i ==> a.authority[k] == b.authority[k]
    {
      if a.authority[i] != b.authority[i] {
        return if a.authority[i] > b.authority[i] then 1 else -1;
      }
    }
    assert a.authority == b.authority;
    var n := if |a.subAuth| < |b.subAuth| then |a.subAuth| else |b.subAuth|;
    for i := 0 to n
      invariant forall k :: 0 <= k < i ==> a.subAuth[k] == b.subAuth[k]
    {
      if a.subAuth[i] != b.subAuth[i] {
        return if a.subAuth[i] > b.subAuth[i] then 1 else -1;
      }
    }
    r := 0;
  }

  // ---------------------------------------------------------------- the security descriptor

  /** The identifier an entry carries: a nonzero rid becomes one more sub-authority. */
  function WithRid(sid: Sid, rid: int): Sid {
    if rid == 0 then sid else sid.(subAuth := sid.subAuth + [rid % TWO_32])
  }

  /** The size an entry declares. */
  function AceSize(sid: Sid, rid: int): nat {
    1 + 1 + 2 + 4 + 1 + 1 + 6 + 4 * |sid.subAuth| + if rid == 0 then 0 else 4
  }

  function AceItems(access: nat, rid: int, sid: Sid): seq<Item>
    requires |WithRid(sid, rid).subAuth| <= SID_MAX_SUB_AUTHORITIES
  {
    Nums(1, [SMB_ACCESS_ALLOWED, 0]) + [Num(2, AceSize(sid, rid))] + [Num(4, access)] + SidItems(WithRid(sid, rid))
  }

  ghost predicate AceArgs(access: nat, rid: int, sid: Sid) {
    && access < TWO_32
    && ValidSid(sid) && |WithRid(sid, rid).subAuth| <= SID_MAX_SUB_AUTHORITIES
  }

  lemma AceItemsValid(access: nat, rid: int, sid: Sid)
    requires AceArgs(access, rid, sid)
    ensures ValidSid(WithRid(sid, rid)) && ValidItems(SidItems(WithRid(sid, rid)))
    ensures ValidItems(AceItems(access, rid, sid))
    ensures AceSize(sid, rid) < Pow256(2) && access < Pow256(4)
  {
    Pow256Four();
    NumsValid(1, [SMB_ACCESS_ALLOWED, 0]);
    SidItemsValid(WithRid(sid, rid));
  }

  lemma FoursAdd(a: nat, b: nat)
    requires a % 4 == 0
    ensures (a + b) % 4 == b % 4
  {
    DivModUnique(a + b, 4, a / 4 + b / 4, b % 4);
  }

  /** The declared size of an entry is the number of octets it occupies from a 4-aligned offset. */
  lemma AceOccupiesItsSize(m: Mode, o: nat, access: nat, rid: int, sid: Sid)
    requires ValidMode(m) && AceArgs(access, rid, sid) && ValidItems(AceItems(access, rid, sid)) && o % 4 == 0
    ensures End(m, o, AllPrims(m, AceItems(access, rid, sid))) == o + AceSize(sid, rid)
    ensures AceSize(sid, rid) % 4 == 0 && (o + AceSize(sid, rid)) % 4 == 0
  {
    hide End, AllPrims;
    FoursAdd(o, AceSize(sid, rid));
    AceItemsValid(access, rid, sid);
    Pow256Four();
    var w := WithRid(sid, rid);
    SidItemsValid(w);
    var a, b, c, d := Nums(1, [SMB_ACCESS_ALLOWED, 0]), [Num(2, AceSize(sid, rid))], [Num(4, access)], SidItems(w);
    var e, f := Nums(1, [w.revision, |w.subAuth|] + w.authority), Nums(4, w.subAuth);
    ListEnd(m, o, a + b + c, d);
    ListEnd(m, o, a + b, c);
    ListEnd(m, o, a, b);
    NumsEnd(m, o, 1, [SMB_ACCESS_ALLOWED, 0]);
    OneEnd(m, o + 2, 2, AceSize(sid, rid));
    OneEnd(m, o + 4, 4, access);
    ListEnd(m, o + 8, e, f);
    NumsValid(1, [w.revision, |w.subAuth|] + w.authority);
    NumsValid(4, w.subAuth);
    NumsEnd(m, o + 8, 1, [w.revision, |w.subAuth|] + w.authority);
    NumsEnd(m, o + 16, 4, w.subAuth);
  }

  const ENOMEM := 12
  const EINVAL := 22

  /** One entry; the returned size is the declared one. */
  method SetAce(dce: Dce, access: nat, rid: int, sid: Sid) returns (size: int)
    requires access < TWO_32 && ValidSid(sid)
    modifies dce`offset, dce.payload
    ensures !AceArgs(access, rid, sid) ==> size < 0
    ensures size < 0 ==> size == -ENOMEM || size == -EINVAL
    ensures AceArgs(access, rid, sid) ==>
              && ValidItems(AceItems(access, rid, sid))
              && (size >= 0, dce.Now()) == PutItems(dce.ModeOf(), old(dce.Now()), AceItems(access, rid, sid))
              && (size >= 0 ==> size == AceSize(sid, rid))
  {
    hide PutItems, SidItems, PutItem, PutPrim;
    Pow256Four();
    ghost var m, st := dce.ModeOf(), dce.Now();
    if AceArgs(access, rid, sid) {
      AceItemsValid(access, rid, sid);
      AcePieces(m, st, access, rid, sid);
    }
    var ok := WriteNums(dce, 1, [SMB_ACCESS_ALLOWED, 0]);
    if !ok {
      return -ENOMEM;
    }
    size := 1 + 1 + 2 + 4 + 1 + 1 + 6 + 4 * |sid.subAuth|;
    if rid != 0 {
      size := size + 4;
    }
    ok := dce.WriteInt(2, size);
    if !ok {
      return -ENOMEM;
    }
    ok := dce.WriteInt(4, access);
    if !ok {
      return -ENOMEM;
    }
    if rid != 0 && |sid.subAuth| >= SID_MAX_SUB_AUTHORITIES {
      return -EINVAL;
    }
    ok := WriteSid(dce, WithRid(sid, rid));
    if !ok {
      return -ENOMEM;
    }
  }

  lemma AcePieces(m: Mode, st: State, access: nat, rid: int, sid: Sid)
    requires ValidMode(m) && AceArgs(access, rid, sid) && ValidItems(AceItems(access, rid, sid))
    ensures ValidItems(Nums(1, [SMB_ACCESS_ALLOWED, 0]))
    ensures ValidItem(Num(2, AceSize(sid, rid))) && ValidItem(Num(4, access))
    ensures ValidItems(SidItems(WithRid(sid, rid)))
    ensures var r1 := PutItems(m, st, Nums(1, [SMB_ACCESS_ALLOWED, 0]));
            var r2 := PutItem(m, r1.1, Num(2, AceSize(sid, rid)));
            var r3 := PutItem(m, r2.1, Num(4, access));
            PutItems(m, st, AceItems(access, rid, sid)) ==
            if !r1.0 then r1 else if !r2.0 then r2 else if !r3.0 then r3
            else PutItems(m, r3.1, SidItems(WithRid(sid, rid)))
  {
    hide PutItems, SidItems, PutItem;
    AceItemsValid(access, rid, sid);
    Pow256Four();
    NumsValid(1, [SMB_ACCESS_ALLOWED, 0]);
    var a, b := Nums(1, [SMB_ACCESS_ALLOWED, 0]), Num(2, AceSize(sid, rid));
    var c, d := Num(4, access), SidItems(WithRid(sid, rid));
    PutItemsConcat(m, st, a + [b] + [c], d);
    PutThen(m, st, a, b);
    PutThen(m, st, a + [b], c);
  }

  lemma PutThen(m: Mode, st: State, a: seq<Item>, it: Item)
    requires ValidMode(m) && ValidItems(a) && ValidItem(it)
    ensures ValidItems(a + [it])
    ensures PutItems(m, st, a + [it]) ==
            if PutItems(m, st, a).0 then PutItem(m, PutItems(m, st, a).1, it) else PutItems(m, st, a)
  {
    hide PutItems, PutItem;
    PutItemsConcat(m, st, a, [it]);
    if PutItems(m, st, a).0 {
      PutItemsAppend(m, st, a, it);
    }
  }

  ghost predicate ValidGen(gen: seq<nat>) { |gen| == 3 && AllBelow(gen, TWO_32) }

  function DaclItems(rid: int, gen: seq<nat>): seq<Item>
    requires |gen| == 3
  {
    AceItems(0x0002035b, 0, EVERYONE) + AceItems(0x000f07ff, 544, LOCAL_GROUP) +
    AceItems(0x000f07ff, 548, LOCAL_GROUP) + AceItems(0x00020044, rid, OwnerDomain(gen))
  }

  function DaclSize(rid: int, gen: seq<nat>): nat {
    AceSize(EVERYONE, 0) + AceSize(LOCAL_GROUP, 544) + AceSize(LOCAL_GROUP, 548) + AceSize(OwnerDomain(gen), rid)
  }

  lemma DaclAces(rid: int, gen: seq<nat>)
    requires ValidGen(gen)
    ensures AceArgs(0x0002035b, 0, EVERYONE) && AceArgs(0x000f07ff, 544, LOCAL_GROUP)
    ensures AceArgs(0x000f07ff, 548, LOCAL_GROUP) && AceArgs(0x00020044, rid, OwnerDomain(gen))
    ensures ValidItems(DaclItems(rid, gen))
  {
    AceItemsValid(0x0002035b, 0, EVERYONE);
    AceItemsValid(0x000f07ff, 544, LOCAL_GROUP);
    AceItemsValid(0x000f07ff, 548, LOCAL_GROUP);
    AceItemsValid(0x00020044, rid, OwnerDomain(gen));
  }

  /** The four entries; the returned size is the sum of the declared ones. */
  method SetDacl(dce: Dce, rid: int, gen: seq<nat>) returns (size: int)
    requires ValidGen(gen)
    modifies dce`offset, dce.payload
    ensures ValidItems(DaclItems(rid, gen))
    ensures (size >= 0, dce.Now()) == PutItems(dce.ModeOf(), old(dce.Now()), DaclItems(rid, gen))
    ensures size == if size >= 0 then DaclSize(rid, gen) else size
    ensures size < 0 ==> size == -ENOMEM || size == -EINVAL
  {
    hide PutItems, AceItems, AceArgs;
    DaclAces(rid, gen);
    DaclPieces(dce.ModeOf(), dce.Now(), rid, gen);
    size := 0;
    var ret := SetAce(dce, 0x0002035b, 0, EVERYONE);
    if ret < 0 {
      return ret;
    }
    size := size + ret;
    ret := SetAce(dce, 0x000f07ff, 544, LOCAL_GROUP);
    if ret < 0 {
      return ret;
    }
    size := size + ret;
    ret := SetAce(dce, 0x000f07ff, 548, LOCAL_GROUP);
    if ret < 0 {
      return ret;
    }
    size := size + ret;
    ret := SetAce(dce, 0x00020044, rid, OwnerDomain(gen));
    if ret < 0 {
      return ret;
    }
    size := size + ret;
  }

  lemma DaclPieces(m: Mode, st: State, rid: int, gen: seq<nat>)
    requires ValidMode(m) && ValidGen(gen) && ValidItems(DaclItems(rid, gen))
    ensures var a, b, c, d := AceItems(0x0002035b, 0, EVERYONE), AceItems(0x000f07ff, 544, LOCAL_GROUP),
                              AceItems(0x000f07ff, 548, LOCAL_GROUP), AceItems(0x00020044, rid, OwnerDomain(gen));
            && ValidItems(a) && ValidItems(b) && ValidItems(c) && ValidItems(d)
            && var r1 := PutItems(m, st, a);
               var r2 := PutItems(m, r1.1, b);
               var r3 := PutItems(m, r2.1, c);
               PutItems(m, st, DaclItems(rid, gen)) ==
               if !r1.0 then r1 else if !r2.0 then r2 else if !r3.0 then r3 else PutItems(m, r3.1, d)
  {
    hide PutItems, AceItems;
    var a, b, c, d := AceItems(0x0002035b, 0, EVERYONE), AceItems(0x000f07ff, 544, LOCAL_GROUP),
                      AceItems(0x000f07ff, 548, LOCAL_GROUP), AceItems(0x00020044, rid, OwnerDomain(gen));
    PutSplit(m, st, a + b + c, d);
    PutSplit(m, st, a + b, c);
    PutSplit(m, st, a, b);
  }

  lemma PutSplit(m: Mode, st: State, a: seq<Item>, b: seq<Item>)
    requires ValidMode(m) && ValidItems(a + b)
    ensures ValidItems(a) && ValidItems(b)
    ensures PutItems(m, st, a + b) ==
            if PutItems(m, st, a).0 then PutItems(m, PutItems(m, st, a).1, b) else PutItems(m, st, a)
  {
    hide PutItems;
    assert forall i :: 0 <= i < |a| ==> a[i] == (a + b)[i];
    assert forall i :: 0 <= i < |b| ==> b[i] == (a + b)[|a| + i];
    PutItemsConcat(m, st, a, b);
  }

  // ---------------------------------------------------------------- patching the size in

  lemma SpliceCommutes(p: seq<byte>, i: nat, s: seq<byte>, j: nat, t: seq<byte>)
    requires i + |s| <= j && j + |t| <= |p|
    ensures Splice(Splice(p, i, s), j, t) == Splice(Splice(p, j, t), i, s)
  {
    hide Splice;
    var a, b := Splice(Splice(p, i, s), j, t), Splice(Splice(p, j, t), i, s);
    forall k | 0 <= k < |p|
      ensures a[k] == b[k]
    {
      SpliceOctet(p, i, s, k);
      SpliceOctet(Splice(p, i, s), j, t, k);
      SpliceOctet(p, j, t, k);
      SpliceOctet(Splice(p, j, t), i, s, k);
    }
  }

  lemma SpliceOctet(p: seq<byte>, i: nat, s: seq<byte>, k: nat)
    requires i + |s| <= |p| && k < |p|
    ensures Splice(p, i, s)[k] == if i <= k < i + |s| then s[k - i] else p[k]
  {
  }

  /** Writing behind a patched place and patching it afterwards are the same. */
  lemma {:induction false} PatchCommutes(m: Mode, st: State, at: nat, s: seq<byte>, ps: seq<Prim>)
    requires ValidMode(m) && ValidPrims(ps) && at + |s| <= st.offset && at + |s| <= |st.payload|
    ensures var (ok, r) := PutPrims(m, st, ps);
            PutPrims(m, State(Splice(st.payload, at, s), st.offset), ps) ==
            (ok, State(Splice(r.payload, at, s), r.offset))
    decreases |ps|
  {
    hide Splice, Octets, Start;
    if ps != [] {
      var o := Octets(m, ps[0]);
      if !ps[0].AutoAlign? && Fits(m, ps[0], st.offset, |st.payload|) {
        SpliceCommutes(st.payload, at, s, Start(m, ps[0], st.offset), o);
      }
      var r := PutPrim(m, st, ps[0]);
      if r.0 {
        PatchCommutes(m, r.1, at, s, ps[1..]);
      }
    }
  }

  const HEAD: seq<Item> :=
    Nums(2, [1, SELF_RELATIVE_DACL_PRESENT]) + Nums(4, [0, 0, 0, NTSD_SIZE]) + [Num(2, 2)]

  function AclItems(rid: int, gen: seq<nat>): seq<Item>
    requires |gen| == 3
  {
    [Num(4, NUM_DEFAULT_ACES)] + DaclItems(rid, gen)
  }

  /** The descriptor as if its size were known in advance and everything were written in one pass. */
  function SecDescItems(rid: int, gen: seq<nat>): seq<Item>
    requires |gen| == 3
  {
    HEAD + [Num(2, DaclSize(rid, gen) + ACL_SIZE)] + AclItems(rid, gen)
  }

  function SecDescLen(rid: int, gen: seq<nat>): nat { NTSD_SIZE + ACL_SIZE + DaclSize(rid, gen) }

  lemma SecDescValid(rid: int, gen: seq<nat>)
    requires ValidGen(gen)
    ensures ValidItems(HEAD) && ValidItems(AclItems(rid, gen)) && ValidItems(SecDescItems(rid, gen))
    ensures ValidItem(Num(2, DaclSize(rid, gen) + ACL_SIZE)) && AllBelow([1, SELF_RELATIVE_DACL_PRESENT], Pow256(2))
    ensures AllBelow([0, 0, 0, NTSD_SIZE], Pow256(4)) && DaclSize(rid, gen) + ACL_SIZE < Pow256(2)
  {
    Pow256Four();
    DaclAces(rid, gen);
    NumsValid(2, [1, SELF_RELATIVE_DACL_PRESENT]);
    NumsValid(4, [0, 0, 0, NTSD_SIZE]);
  }

  /** Where the fixed part ends: the first 32-bit field decides the alignment of all that follows. */
  lemma HeadEnd(m: Mode, o: nat)
    requires ValidMode(m) && ValidItems(HEAD)
    ensures End(m, o, AllPrims(m, HEAD)) == Align(Align(o, 2) + 4, 4) + 18
  {
    hide End, AllPrims;
    Pow256Four();
    var a, b, c := Nums(2, [1, SELF_RELATIVE_DACL_PRESENT]), Nums(4, [0, 0, 0, NTSD_SIZE]), [Num(2, 2)];
    ListEnd(m, o, a + b, c);
    ListEnd(m, o, a, b);
    var x := Align(o, 2);
    var y := Align(x + 4, 4);
    PairEnd(m, o, 1, SELF_RELATIVE_DACL_PRESENT);
    QuadEnd(m, x + 4);
    OneEnd(m, y + 16, 2, 2);
  }

  lemma PairEnd(m: Mode, o: nat, u: nat, v: nat)
    requires ValidMode(m) && u < Pow256(2) && v < Pow256(2)
    ensures ValidItems(Nums(2, [u, v]))
    ensures End(m, o, AllPrims(m, Nums(2, [u, v]))) == Align(o, 2) + 4
  {
    hide End, AllPrims;
    NumsValid(2, [u, v]);
    assert Nums(2, [u, v]) == [Num(2, u)] + Nums(2, [v]);
    ListEnd(m, o, [Num(2, u)], Nums(2, [v]));
    OneEnd(m, o, 2, u);
    NumsEnd(m, Align(o, 2) + 2, 2, [v]);
  }

  lemma QuadEnd(m: Mode, o: nat)
    requires ValidMode(m) && ValidItems(Nums(4, [0, 0, 0, NTSD_SIZE]))
    ensures End(m, o, AllPrims(m, Nums(4, [0, 0, 0, NTSD_SIZE]))) == Align(o, 4) + 16
  {
    hide End, AllPrims;
    Pow256Four();
    assert Nums(4, [0, 0, 0, NTSD_SIZE]) == [Num(4, 0)] + Nums(4, [0, 0, NTSD_SIZE]);
    ListEnd(m, o, [Num(4, 0)], Nums(4, [0, 0, NTSD_SIZE]));
    OneEnd(m, o, 4, 0);
    NumsEnd(m, Align(o, 4) + 4, 4, [0, 0, NTSD_SIZE]);
  }

  lemma DaclEnd(m: Mode, o: nat, rid: int, gen: seq<nat>)
    requires ValidMode(m) && ValidGen(gen) && ValidItems(DaclItems(rid, gen)) && o % 4 == 0
    ensures End(m, o, AllPrims(m, DaclItems(rid, gen))) == o + DaclSize(rid, gen)
  {
    hide End, AllPrims, AceItems, AceArgs, AceSize;
    DaclAces(rid, gen);
    var a, b, c, d := AceItems(0x0002035b, 0, EVERYONE), AceItems(0x000f07ff, 544, LOCAL_GROUP),
                      AceItems(0x000f07ff, 548, LOCAL_GROUP), AceItems(0x00020044, rid, OwnerDomain(gen));
    ListEnd(m, o, a + b + c, d);
    ListEnd(m, o, a + b, c);
    ListEnd(m, o, a, b);
    AceOccupiesItsSize(m, o, 0x0002035b, 0, EVERYONE);
    var o1 := o + AceSize(EVERYONE, 0);
    AceOccupiesItsSize(m, o1, 0x000f07ff, 544, LOCAL_GROUP);
    var o2 := o1 + AceSize(LOCAL_GROUP, 544);
    AceOccupiesItsSize(m, o2, 0x000f07ff, 548, LOCAL_GROUP);
    var o3 := o2 + AceSize(LOCAL_GROUP, 548);
    AceOccupiesItsSize(m, o3, 0x00020044, rid, OwnerDomain(gen));
  }

  /** The descriptor occupies exactly its declared length if and only if it starts 4-aligned. */
  lemma SecDescOccupiesItsLength(m: Mode, o: nat, rid: int, gen: seq<nat>)
    requires ValidMode(m) && ValidGen(gen) && ValidItems(SecDescItems(rid, gen))
    ensures End(m, o, AllPrims(m, SecDescItems(rid, gen))) == o + SecDescLen(rid, gen) <==> o % 4 == 0
  {
    hide End, AllPrims, DaclItems, DaclSize, Align;
    SecDescValid(rid, gen);
    DaclAces(rid, gen);
    Pow256Four();
    var v := DaclSize(rid, gen) + ACL_SIZE;
    ListEnd(m, o, HEAD + [Num(2, v)], AclItems(rid, gen));
    ListEnd(m, o, HEAD, [Num(2, v)]);
    HeadEnd(m, o);
    var y := Align(Align(o, 2) + 4, 4);
    AlignedPlaces(y);
    OneEnd(m, y + 18, 2, v);
    ListEnd(m, y + 20, [Num(4, NUM_DEFAULT_ACES)], DaclItems(rid, gen));
    OneEnd(m, y + 20, 4, NUM_DEFAULT_ACES);
    DaclEnd(m, y + 24, rid, gen);
    AlignFour(o);
  }

  lemma AlignedPlaces(y: nat)
    requires y % 4 == 0
    ensures Align(y + 18, 2) == y + 18 && Align(y + 20, 4) == y + 20 && (y + 24) % 4 == 0
  {
    hide Align;
    FourIsEven(y);
    FoursAdd(y, 20);
    FoursAdd(y, 24);
  }

  lemma AlignFour(o: nat)
    ensures Align(Align(o, 2) + 4, 4) == o + 4 <==> o % 4 == 0
  {
    hide Align;
    var r := Align(Align(o, 2) + 4, 4);
    assert r % 4 == 0;
    if o % 4 == 0 {
      assert o % 2 == 0;
      assert (o + 4) % 4 == 0;
    }
  }

  lemma PutEnds(m: Mode, st: State, items: seq<Item>)
    requires ValidMode(m) && ValidItems(items) && PutItems(m, st, items).0
    ensures PutItems(m, st, items).1.offset == End(m, st.offset, AllPrims(m, items))
  {
    hide PutItems, PutPrims, End, AllPrims, Laid;
    PutItemsIsPutPrims(m, st, items);
    PutPrimsLays(m, st, AllPrims(m, items));
  }

  lemma NumTwo(m: Mode, st: State, v: nat)
    requires ValidMode(m) && v < Pow256(2) && st.offset % 2 == 0
    ensures PutItem(m, st, Num(2, v)) ==
            if st.offset + 2 > |st.payload| then (false, st)
            else (true, State(Splice(st.payload, st.offset, EncodeInt(m.little, v, 2)), st.offset + 2))
  {
    hide Splice, EncodeInt;
    OnePrim(m, st, Int(2, v));
  }

  lemma AclNeedsRoom(m: Mode, st: State, rid: int, gen: seq<nat>)
    requires ValidMode(m) && ValidGen(gen) && ValidItems(AclItems(rid, gen)) && PutItems(m, st, AclItems(rid, gen)).0
    ensures st.offset + 4 <= |st.payload|
  {
    hide PutItems, DaclItems, PutPrims;
    Pow256Four();
    PutSplit(m, st, [Num(4, NUM_DEFAULT_ACES)], DaclItems(rid, gen));
    PutThen(m, st, [], Num(4, NUM_DEFAULT_ACES));
    assert [] + [Num(4, NUM_DEFAULT_ACES)] == [Num(4, NUM_DEFAULT_ACES)];
    PutNoItems(m, st);
    OnePrim(m, st, Int(4, NUM_DEFAULT_ACES));
  }

  lemma PutNoItems(m: Mode, st: State)
    requires ValidMode(m)
    ensures PutItems(m, st, []) == (true, st)
  {
  }

  lemma PatchGap(m: Mode, s1: State, items: seq<Item>, size: seq<byte>)
    requires ValidMode(m) && ValidItems(items) && |size| == 2 && s1.offset + 2 <= |s1.payload|
    ensures var (ok, r) := PutItems(m, State(s1.payload, s1.offset + 2), items);
            PutItems(m, State(Splice(s1.payload, s1.offset, size), s1.offset + 2), items) ==
            (ok, State(Splice(r.payload, s1.offset, size), r.offset))
  {
    hide PutItems, AllPrims, Splice, PutPrims;
    var gap := State(s1.payload, s1.offset + 2);
    PutItemsIsPutPrims(m, gap, items);
    PutItemsIsPutPrims(m, State(Splice(s1.payload, s1.offset, size), s1.offset + 2), items);
    PatchCommutes(m, gap, s1.offset, size, AllPrims(m, items));
  }

  /** Leaving a gap for the size, writing the list and patching the gap is the one-pass write. */
  lemma PatchedIsOnePass(m: Mode, st: State, rid: int, gen: seq<nat>)
    requires ValidMode(m) && ValidGen(gen)
    requires ValidItems(HEAD) && ValidItems(AclItems(rid, gen)) && ValidItems(SecDescItems(rid, gen))
    requires ValidItem(Num(2, DaclSize(rid, gen) + ACL_SIZE)) && PutItems(m, st, HEAD).0
    ensures var s1 := PutItems(m, st, HEAD).1;
            var (ok, s2) := PutItems(m, State(s1.payload, s1.offset + 2), AclItems(rid, gen));
            var (patched, s3) := PutItem(m, State(s2.payload, s1.offset), Num(2, DaclSize(rid, gen) + ACL_SIZE));
            && PutItems(m, st, SecDescItems(rid, gen)).0 == ok
            && (ok ==> patched && PutItems(m, st, SecDescItems(rid, gen)).1 == State(s3.payload, s2.offset))
  {
    hide PutItems, PutItem, End, AllPrims, AclItems, DaclItems, DaclSize;
    var v := DaclSize(rid, gen) + ACL_SIZE;
    var s1 := PutItems(m, st, HEAD).1;
    HeadEven(m, st);
    hide Align, Pow256;
    PutSplit(m, st, HEAD + [Num(2, v)], AclItems(rid, gen));
    PutThen(m, st, HEAD, Num(2, v));
    if PutItems(m, State(s1.payload, s1.offset + 2), AclItems(rid, gen)).0 {
      AclNeedsRoom(m, State(s1.payload, s1.offset + 2), rid, gen);
    }
    TwoPasses(m, s1, v, AclItems(rid, gen));
  }

  lemma HeadEven(m: Mode, st: State)
    requires ValidMode(m) && ValidItems(HEAD) && PutItems(m, st, HEAD).0
    ensures PutItems(m, st, HEAD).1.offset % 2 == 0
  {
    hide PutItems, End, AllPrims, Align;
    PutEnds(m, st, HEAD);
    HeadEnd(m, st.offset);
    FourIsEven(Align(Align(st.offset, 2) + 4, 4));
  }

  lemma FourIsEven(y: nat)
    requires y % 4 == 0
    ensures (y + 18) % 2 == 0
  {
    DivModUnique(y + 18, 2, 2 * (y / 4) + 9, 0);
  }

  /** A number written into the gap afterwards is the number written first. */
  lemma TwoPasses(m: Mode, s1: State, v: nat, items: seq<Item>)
    requires ValidMode(m) && ValidItems(items) && v < Pow256(2) && s1.offset % 2 == 0
    requires PutItems(m, State(s1.payload, s1.offset + 2), items).0 ==> s1.offset + 2 <= |s1.payload|
    ensures var (ok, s2) := PutItems(m, State(s1.payload, s1.offset + 2), items);
            var (patched, s3) := PutItem(m, State(s2.payload, s1.offset), Num(2, v));
            var (first, n) := PutItem(m, s1, Num(2, v));
            && (first && PutItems(m, n, items).0) == ok
            && (ok ==> patched && PutItems(m, n, items).1 == State(s3.payload, s2.offset))
  {
    hide PutItems, PutItem, Splice, EncodeInt;
    NumTwo(m, s1, v);
    if s1.offset + 2 <= |s1.payload| {
      PatchGap(m, s1, items, EncodeInt(m.little, v, 2));
      NumTwo(m, State(PutItems(m, State(s1.payload, s1.offset + 2), items).1.payload, s1.offset), v);
    }
  }

  /** The descriptor; secdesclen is its declared length, and what it occupies when it starts 4-aligned. */
  method BuildSecDesc(dce: Dce, rid: int, gen: seq<nat>) returns (ok: bool, secdesclen: nat)
    requires ValidGen(gen)
    modifies dce`offset, dce.payload
    ensures ValidItems(SecDescItems(rid, gen))
    ensures ok == PutItems(dce.ModeOf(), old(dce.Now()), SecDescItems(rid, gen)).0
    ensures ok ==> dce.Now() == PutItems(dce.ModeOf(), old(dce.Now()), SecDescItems(rid, gen)).1
    ensures ok ==> secdesclen == SecDescLen(rid, gen)
    ensures ok ==> (dce.offset == old(dce.offset) + secdesclen <==> old(dce.offset) % 4 == 0)
  {
    hide PutItems, PutItem, AllPrims, End, DaclItems, PutPrim;
    ghost var m, st := dce.ModeOf(), dce.Now();
    SecDescValid(rid, gen);
    DaclAces(rid, gen);
    Pow256Four();
    secdesclen := 0;
    ok := WriteHead(dce);
    PutSplit(m, st, HEAD + [Num(2, DaclSize(rid, gen) + ACL_SIZE)], AclItems(rid, gen));
    PutThen(m, st, HEAD, Num(2, DaclSize(rid, gen) + ACL_SIZE));
    if !ok {
      return;
    }
    PatchedIsOnePass(m, st, rid, gen);
    var aclSizeOffset := dce.offset;
    dce.offset := dce.offset + 2;
    PutSplit(m, dce.Now(), [Num(4, NUM_DEFAULT_ACES)], DaclItems(rid, gen));
    PutThen(m, dce.Now(), [], Num(4, NUM_DEFAULT_ACES));
    assert [] + [Num(4, NUM_DEFAULT_ACES)] == [Num(4, NUM_DEFAULT_ACES)];
    PutNoItems(m, dce.Now());
    ok := dce.WriteInt(4, NUM_DEFAULT_ACES);
    if !ok {
      return;
    }
    var aclSize := SetDacl(dce, rid, gen);
    aclSize := aclSize + ACL_SIZE;
    if aclSize < 0 {
      return false, 0;
    }
    var end := dce.offset;
    dce.offset := aclSizeOffset;
    ok := dce.WriteInt(2, aclSize);
    if !ok {
      return;
    }
    dce.offset := end;
    secdesclen := NTSD_SIZE + aclSize;
    PutEnds(m, st, SecDescItems(rid, gen));
    SecDescOccupiesItsLength(m, st.offset, rid, gen);
  }

  method WriteHead(dce: Dce) returns (ok: bool)
    modifies dce`offset, dce.payload
    ensures ValidItems(HEAD)
    ensures (ok, dce.Now()) == PutItems(dce.ModeOf(), old(dce.Now()), HEAD)
  {
    hide PutItems, PutItem, PutPrim;
    Pow256Four();
    NumsValid(2, [1, SELF_RELATIVE_DACL_PRESENT]);
    NumsValid(4, [0, 0, 0, NTSD_SIZE]);
    var a, b := Nums(2, [1, SELF_RELATIVE_DACL_PRESENT]), Nums(4, [0, 0, 0, NTSD_SIZE]);
    PutThen(dce.ModeOf(), dce.Now(), a + b, Num(2, 2));
    PutSplit(dce.ModeOf(), dce.Now(), a, b);
    ok := WriteNums(dce, 2, [1, SELF_RELATIVE_DACL_PRESENT]);
    if !ok {
      return;
    }
    ok := WriteNums(dce, 4, [0, 0, 0, NTSD_SIZE]);
    if !ok {
      return;
    }
    ok := dce.WriteInt(2, 2);
  }
}
