/**
  A reader of self-relative security descriptors (sections 2.4.4.2, 2.4.5 and 2.4.6 of MS-DTYP) that follows the
  offset to the list and the sizes from entry to entry, and what it finds in the descriptor that is sent.
 */
module SmbaclReader {
  import opened Bytes
  import opened Ndr
  import opened NdrLists
  import opened Smbacl

  datatype Ace = Ace(kind: nat, flags: nat, size: nat, access: nat, sid: Sid)

  datatype Descriptor = Descriptor(revision: nat, control: nat, owner: nat, group: nat, sacl: nat,
                                   aclRevision: nat, aclSize: nat, aces: seq<Ace>)

  function GetAce(m: Mode, st: State): Option<Ace>
    requires ValidMode(m)
  {
    var (head, s1) := GetNums(m, st, 1, 2);
    if head.None? then None
    else
      var (size, s2) := GetNums(m, s1, 2, 1);
      if size.None? then None
      else
        var (access, s3) := GetNums(m, s2, 4, 1);
        if access.None? then None
        else
          var (sid, s4) := GetSid(m, s3);
          if sid.None? then None
          else Some(Ace(head.value[0], head.value[1], size.value[0], access.value[0], sid.value))
  }

  /** The next entry starts where the size of this one says. */
  function GetAces(m: Mode, payload: seq<byte>, o: nat, n: nat): Option<seq<Ace>>
    requires ValidMode(m)
    decreases n
  {
    if n == 0 then Some([])
    else
      var a := GetAce(m, State(payload, o));
      if a.None? then None
      else
        var rest := GetAces(m, payload, o + a.value.size, n - 1);
        if rest.None? then None else Some([a.value] + rest.value)
  }

  function GetDescriptor(m: Mode, payload: seq<byte>, o: nat): Option<Descriptor>
    requires ValidMode(m)
  {
    var (head, s1) := GetNums(m, State(payload, o), 2, 2);
    if head.None? then None
    else
      var (offs, s2) := GetNums(m, s1, 4, 4);
      if offs.None? then None
      else
        var (acl, s3) := GetNums(m, State(payload, o + offs.value[3]), 2, 2);
        if acl.None? then None
        else
          var (count, s4) := GetNums(m, s3, 4, 1);
          if count.None? then None
          else
            var aces := GetAces(m, payload, s4.offset, count.value[0]);
            if aces.None? then None
            else
              Some(Descriptor(head.value[0], head.value[1], offs.value[0], offs.value[1], offs.value[2],
                              acl.value[0], acl.value[1], aces.value))
  }

  // ---------------------------------------------------------------- one entry

  lemma LaidSplit(m: Mode, payload: seq<byte>, o: nat, a: seq<Item>, b: seq<Item>)
    requires ValidMode(m) && ValidItems(a + b) && Laid(m, payload, o, AllPrims(m, a + b))
    ensures ValidItems(a) && ValidItems(b)
    ensures Laid(m, payload, o, AllPrims(m, a)) && Laid(m, payload, End(m, o, AllPrims(m, a)), AllPrims(m, b))
  {
    hide Laid, End, AllPrims;
    assert forall i :: 0 <= i < |a| ==> a[i] == (a + b)[i];
    assert forall i :: 0 <= i < |b| ==> b[i] == (a + b)[|a| + i];
    AllPrimsConcat(m, a, b);
    LaidConcat(m, payload, o, AllPrims(m, a), AllPrims(m, b));
  }

  /** One number that is laid out is read, and reading goes on behind it. */
  lemma NumReads(m: Mode, payload: seq<byte>, o: nat, w: nat, v: nat)
    requires ValidMode(m) && Width(w) && v < Pow256(w) && o % w == 0
    requires ValidItems([Num(w, v)]) && Laid(m, payload, o, AllPrims(m, [Num(w, v)]))
    ensures GetNums(m, State(payload, o), w, 1) == (Some([v]), State(payload, o + w))
  {
    hide Laid, End, AllPrims, GetNums, Pow256;
    assert Nums(w, [v]) == [Num(w, v)];
    NumsRead(m, payload, o, w, [v]);
    OneEnd(m, o, w, v);
  }

  lemma AcePlaces(o: nat)
    requires o % 4 == 0
    ensures (o + 2) % 2 == 0 && (o + 4) % 4 == 0
  {
    FoursAdd(o, 4);
    DivModUnique(o + 2, 2, 2 * (o / 4) + 1, 0);
  }

  lemma AceReads(m: Mode, payload: seq<byte>, o: nat, access: nat, rid: int, sid: Sid)
    requires ValidMode(m) && AceArgs(access, rid, sid) && o % 4 == 0 && |WithRid(sid, rid).subAuth| >= 1
    requires ValidItems(AceItems(access, rid, sid)) && Laid(m, payload, o, AllPrims(m, AceItems(access, rid, sid)))
    ensures GetAce(m, State(payload, o)) == Some(Ace(0, 0, AceSize(sid, rid), access, WithRid(sid, rid)))
  {
    hide Laid, End, AllPrims, GetNums, GetSid, SidItems, Pow256;
    AceItemsValid(access, rid, sid);
    var a, b, c, d := Nums(1, [0, 0]), [Num(2, AceSize(sid, rid))], [Num(4, access)], SidItems(WithRid(sid, rid));
    assert AceItems(access, rid, sid) == a + b + c + d;
    LaidSplit(m, payload, o, a + b + c, d);
    LaidSplit(m, payload, o, a + b, c);
    LaidSplit(m, payload, o, a, b);
    ListEnd(m, o, a + b, c);
    ListEnd(m, o, a, b);
    AcePlaces(o);
    TwoOctets();
    NumsEnd(m, o, 1, [0, 0]);
    NumsRead(m, payload, o, 1, [0, 0]);
    OneEnd(m, o + 2, 2, AceSize(sid, rid));
    NumReads(m, payload, o + 2, 2, AceSize(sid, rid));
    OneEnd(m, o + 4, 4, access);
    NumReads(m, payload, o + 4, 4, access);
    SidReads(m, payload, o + 8, WithRid(sid, rid));
  }

  lemma TwoOctets()
    ensures AllBelow([0, 0], Pow256(1))
  {
    Pow256Four();
  }

  // ---------------------------------------------------------------- the four entries

  /** Everyone, the administrators, the account operators and the owner, each with its rights. */
  function DefaultAces(rid: int, gen: seq<nat>): seq<Ace> {
    [Ace(0, 0, 20, 0x0002035b, Sid(1, [0, 0, 0, 0, 0, 1], [0])),
     Ace(0, 0, 24, 0x000f07ff, Sid(1, [0, 0, 0, 0, 0, 5], [32, 544])),
     Ace(0, 0, 24, 0x000f07ff, Sid(1, [0, 0, 0, 0, 0, 5], [32, 548])),
     Ace(0, 0, if rid == 0 then 32 else 36, 0x00020044,
         Sid(1, [0, 0, 0, 0, 0, 5], [21] + gen + if rid == 0 then [] else [rid % TWO_32]))]
  }

  lemma AcesStep(m: Mode, payload: seq<byte>, o: nat, access: nat, rid: int, sid: Sid, n: nat, aces: seq<Ace>)
    requires ValidMode(m) && AceArgs(access, rid, sid) && o % 4 == 0 && |WithRid(sid, rid).subAuth| >= 1
    requires ValidItems(AceItems(access, rid, sid)) && Laid(m, payload, o, AllPrims(m, AceItems(access, rid, sid)))
    requires GetAces(m, payload, o + AceSize(sid, rid), n) == Some(aces)
    ensures GetAces(m, payload, o, n + 1) == Some([Ace(0, 0, AceSize(sid, rid), access, WithRid(sid, rid))] + aces)
  {
    hide Laid, GetAce, AllPrims, AceItems;
    AceReads(m, payload, o, access, rid, sid);
  }

  lemma WholeIdentifiers(rid: int, gen: seq<nat>)
    ensures WithRid(EVERYONE, 0) == Sid(1, [0, 0, 0, 0, 0, 1], [0])
    ensures WithRid(LOCAL_GROUP, 544) == Sid(1, [0, 0, 0, 0, 0, 5], [32, 544])
    ensures WithRid(LOCAL_GROUP, 548) == Sid(1, [0, 0, 0, 0, 0, 5], [32, 548])
    ensures WithRid(OwnerDomain(gen), rid).subAuth == [21] + gen + if rid == 0 then [] else [rid % TWO_32]
  {
    assert [32] + [544] == [32, 544] && [32] + [548] == [32, 548];
  }

  lemma DaclReads(m: Mode, payload: seq<byte>, o: nat, rid: int, gen: seq<nat>)
    requires ValidMode(m) && ValidGen(gen) && o % 4 == 0 && ValidItems(DaclItems(rid, gen))
    requires Laid(m, payload, o, AllPrims(m, DaclItems(rid, gen)))
    ensures GetAces(m, payload, o, 4) == Some(DefaultAces(rid, gen))
  {
    hide Laid, AllPrims, AceItems, End, GetAce;
    DaclAces(rid, gen);
    var a, b, c, d := AceItems(0x0002035b, 0, EVERYONE), AceItems(0x000f07ff, 544, LOCAL_GROUP),
                      AceItems(0x000f07ff, 548, LOCAL_GROUP), AceItems(0x00020044, rid, OwnerDomain(gen));
    LaidSplit(m, payload, o, a + b + c, d);
    LaidSplit(m, payload, o, a + b, c);
    LaidSplit(m, payload, o, a, b);
    ListEnd(m, o, a + b, c);
    ListEnd(m, o, a, b);
    AceOccupiesItsSize(m, o, 0x0002035b, 0, EVERYONE);
    AceOccupiesItsSize(m, o + 20, 0x000f07ff, 544, LOCAL_GROUP);
    AceOccupiesItsSize(m, o + 44, 0x000f07ff, 548, LOCAL_GROUP);
    var aces := DefaultAces(rid, gen);
    WholeIdentifiers(rid, gen);
    assert GetAces(m, payload, o + 68 + AceSize(OwnerDomain(gen), rid), 0) == Some([]);
    AcesStep(m, payload, o + 68, 0x00020044, rid, OwnerDomain(gen), 0, []);
    assert aces[3..] == [aces[3]] + [] && aces[2..] == [aces[2]] + aces[3..] && aces[1..] == [aces[1]] + aces[2..];
    AcesStep(m, payload, o + 44, 0x000f07ff, 548, LOCAL_GROUP, 1, aces[3..]);
    AcesStep(m, payload, o + 20, 0x000f07ff, 544, LOCAL_GROUP, 2, aces[2..]);
    AcesStep(m, payload, o, 0x0002035b, 0, EVERYONE, 3, aces[1..]);
    assert aces == [aces[0]] + aces[1..];
  }

  // ---------------------------------------------------------------- the descriptor

  lemma HeadNumbers()
    ensures AllBelow([1, 0x8004], Pow256(2)) && AllBelow([0, 0, 0, 20], Pow256(4)) && 2 < Pow256(2) && 4 < Pow256(4)
  {
    Pow256Four();
  }

  lemma DescriptorPlaces(o: nat)
    requires o % 4 == 0
    ensures o % 2 == 0 && (o + 4) % 4 == 0 && (o + 20) % 2 == 0 && (o + 22) % 2 == 0
    ensures (o + 24) % 4 == 0 && (o + 28) % 4 == 0
  {
    FoursAdd(o, 4);
    FoursAdd(o, 24);
    FoursAdd(o, 28);
    DivModUnique(o, 2, 2 * (o / 4), 0);
    DivModUnique(o + 20, 2, 2 * (o / 4) + 10, 0);
    DivModUnique(o + 22, 2, 2 * (o / 4) + 11, 0);
  }

  /** Where the parts of a descriptor stand that starts 4-aligned. */
  lemma DescriptorLaid(m: Mode, payload: seq<byte>, o: nat, rid: int, gen: seq<nat>)
    requires ValidMode(m) && ValidGen(gen) && o % 4 == 0 && ValidItems(SecDescItems(rid, gen))
    requires Laid(m, payload, o, AllPrims(m, SecDescItems(rid, gen)))
    ensures ValidItems(Nums(2, [1, 0x8004])) && Laid(m, payload, o, AllPrims(m, Nums(2, [1, 0x8004])))
    ensures ValidItems(Nums(4, [0, 0, 0, 20])) && Laid(m, payload, o + 4, AllPrims(m, Nums(4, [0, 0, 0, 20])))
    ensures var acl := Nums(2, [2, DaclSize(rid, gen) + 8]);
            ValidItems(acl) && Laid(m, payload, o + 20, AllPrims(m, acl))
    ensures ValidItems([Num(4, 4)]) && Laid(m, payload, o + 24, AllPrims(m, [Num(4, 4)]))
    ensures ValidItems(DaclItems(rid, gen)) && Laid(m, payload, o + 28, AllPrims(m, DaclItems(rid, gen)))
    ensures AllBelow([2, DaclSize(rid, gen) + 8], Pow256(2))
  {
    hide Laid, AllPrims, End, DaclItems, DaclSize, Pow256;
    SecDescValid(rid, gen);
    HeadNumbers();
    DescriptorPlaces(o);
    var v := DaclSize(rid, gen) + 8;
    var a, b, c, d := Nums(2, [1, 0x8004]), Nums(4, [0, 0, 0, 20]), Nums(2, [2, v]), [Num(4, 4)];
    var e := DaclItems(rid, gen);
    assert SecDescItems(rid, gen) == a + b + c + d + e;
    LaidSplit(m, payload, o, a + b + c + d, e);
    LaidSplit(m, payload, o, a + b + c, d);
    LaidSplit(m, payload, o, a + b, c);
    LaidSplit(m, payload, o, a, b);
    ListEnd(m, o, a + b + c, d);
    ListEnd(m, o, a + b, c);
    ListEnd(m, o, a, b);
    NumsEnd(m, o, 2, [1, 0x8004]);
    NumsEnd(m, o + 4, 4, [0, 0, 0, 20]);
    NumsEnd(m, o + 20, 2, [2, v]);
    OneEnd(m, o + 24, 4, 4);
  }

  /** What a reader finds in the descriptor: no owner, no group, and the four entries with their whole identifiers. */
  lemma DescriptorReads(m: Mode, st: State, rid: int, gen: seq<nat>)
    requires ValidMode(m) && ValidGen(gen) && st.offset % 4 == 0 && ValidItems(SecDescItems(rid, gen))
    requires PutItems(m, st, SecDescItems(rid, gen)).0
    ensures GetDescriptor(m, PutItems(m, st, SecDescItems(rid, gen)).1.payload, st.offset) ==
            Some(Descriptor(1, 0x8004, 0, 0, 0, 2, if rid == 0 then 108 else 112, DefaultAces(rid, gen)))
  {
    hide Laid, AllPrims, End, PutItems, PutPrims, SecDescItems, GetNums, GetAces, DaclItems, Pow256;
    PutItemsIsPutPrims(m, st, SecDescItems(rid, gen));
    PutPrimsLays(m, st, AllPrims(m, SecDescItems(rid, gen)));
    var payload, o := PutItems(m, st, SecDescItems(rid, gen)).1.payload, st.offset;
    DescriptorLaid(m, payload, o, rid, gen);
    HeadNumbers();
    DescriptorPlaces(o);
    var v := DaclSize(rid, gen) + 8;
    NumsRead(m, payload, o, 2, [1, 0x8004]);
    NumsEnd(m, o, 2, [1, 0x8004]);
    NumsRead(m, payload, o + 4, 4, [0, 0, 0, 20]);
    NumsRead(m, payload, o + 20, 2, [2, v]);
    NumsEnd(m, o + 20, 2, [2, v]);
    NumReads(m, payload, o + 24, 4, 4);
    DaclReads(m, payload, o + 28, rid, gen);
  }
}
