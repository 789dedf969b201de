/**
  NetShareEnumAll: the list of shares a pipe gathers, the references it holds on them, and the reply
  in which all of them are written and let go.
 */
module Srvsvc {
  import opened Bytes
  import opened Ndr
  import opened NdrCodec
  import opened NdrLists

  const SHARE_TYPE_DISKTREE := 0
  const SHARE_TYPE_IPC := 3
  const UNLIMITED := 0xFFFF_FFFF

  datatype Status = OK | EBadData | EMoreData

  datatype Share = Share(name: seq<bmp>, comment: seq<bmp>, path: seq<bmp>, isIpc: bool,
                         maxConnections: nat, numConnections: nat, browseable: bool, available: bool)

  ghost predicate ValidShare(s: Share) {
    |s.name| + 1 < TWO_32 && |s.comment| + 1 < TWO_32 && |s.path| + 1 < TWO_32
  }

  function ShareType(s: Share): nat { if s.isIpc then SHARE_TYPE_IPC else SHARE_TYPE_DISKTREE }

  // ---------------------------------------------------------------- what a reply holds

  predicate Supported(level: nat) { level <= 2 }

  /** How many pointers a share has at this level. */
  function RefsPerShare(level: nat): nat { if level == 0 then 1 else if level == 1 then 2 else 4 }

  /** The pointers and counters are 32 bits wide. */
  function U32(v: nat): Item { Num(4, v % TWO_32) }

  /** The fixed part of a share; p is the last referent id that has been given away. */
  function RepItems(level: nat, p: nat, s: Share): seq<Item> {
    if level == 0 then [U32(p + 1)]
    else if level == 1 then [U32(p + 1), U32(ShareType(s)), U32(p + 2)]
    else
      [U32(p + 1), U32(ShareType(s)), U32(p + 2), U32(0),
       U32(if s.maxConnections > 0 then s.maxConnections else UNLIMITED), U32(s.numConnections), U32(p + 3), U32(p + 4)]
  }

  /** The strings of a share, which follow the fixed parts of all of them. */
  function DataItems(level: nat, s: Share): seq<Item> {
    if level == 0 then [VString(s.name)]
    else if level == 1 then [VString(s.name), VString(s.comment)]
    else [VString(s.name), VString(s.comment), VString(s.path), VString([])]
  }

  function RepParts(level: nat, p: nat, ss: seq<Share>): (parts: seq<seq<Item>>)
    ensures |parts| == |ss|
  {
    seq(|ss|, i requires 0 <= i < |ss| => RepItems(level, p + i * RefsPerShare(level), ss[i]))
  }

  function DataParts(level: nat, ss: seq<Share>): (parts: seq<seq<Item>>)
    ensures |parts| == |ss|
  {
    seq(|ss|, i requires 0 <= i < |ss| => DataItems(level, ss[i]))
  }

  function ArrayItems(level: nat, p: nat, ss: seq<Share>): seq<Item> {
    Flatten(RepParts(level, p, ss)) + Flatten(DataParts(level, ss))
  }

  /** Referent id 1 is taken when the payload is set up; the container is 2 and the array 3. */
  const CONTAINER := 2

  function HeadItems(level: nat, n: nat): seq<Item> {
    [Union32(level % TWO_32), U32(CONTAINER), U32(n)] + (if n == 0 then [U32(0)] else [U32(CONTAINER + 1), U32(n)])
  }

  /** The last referent id before the resume handle. */
  function LastId(level: nat, n: nat): nat { if n == 0 then CONTAINER else CONTAINER + 1 + n * RefsPerShare(level) }

  function TailItems(total: nat, p: nat): seq<Item> { [U32(total), U32(p + 1), U32(0)] }

  /** The tail when more is to come. */
  function MoreItems(total: nat, p: nat): seq<Item> { [U32(total), U32(p + 1), U32(1)] }

  function BodyItems(level: nat, ss: seq<Share>): seq<Item> {
    HeadItems(level, |ss|) + (if ss == [] then [] else ArrayItems(level, CONTAINER + 1, ss))
  }

  function ReplyItems(level: nat, ss: seq<Share>, total: nat): seq<Item> {
    BodyItems(level, ss) + TailItems(total, LastId(level, |ss|))
  }

  /** The reply to a request for this level; entries are counted as they are let go. */
  function InfoItems(level: nat, ss: seq<Share>, drained: bool): seq<Item> {
    ReplyItems(level, if Supported(level) then ss else [], if drained then |ss| else 0)
  }

  // ---------------------------------------------------------------- validity

  lemma PartsValid(level: nat, p: nat, ss: seq<Share>)
    requires forall i :: 0 <= i < |ss| ==> ValidShare(ss[i])
    ensures AllValid(RepParts(level, p, ss)) && AllValid(DataParts(level, ss))
    ensures ValidItems(Flatten(RepParts(level, p, ss))) && ValidItems(Flatten(DataParts(level, ss)))
    ensures ValidItems(ArrayItems(level, p, ss))
  {
    hide Flatten;
    Pow256Four();
    forall i | 0 <= i < |ss|
      ensures ValidItems(RepParts(level, p, ss)[i]) && ValidItems(DataParts(level, ss)[i])
    {
    }
    FlattenValid(RepParts(level, p, ss));
    FlattenValid(DataParts(level, ss));
  }

  lemma HeadTailValid(level: nat, n: nat, total: nat, p: nat)
    ensures ValidItems(HeadItems(level, n)) && ValidItems(TailItems(total, p)) && ValidItems(MoreItems(total, p))
  {
    Pow256Four();
  }

  lemma ReplyValid(level: nat, ss: seq<Share>, total: nat)
    requires forall i :: 0 <= i < |ss| ==> ValidShare(ss[i])
    ensures ValidItems(BodyItems(level, ss)) && ValidItems(ReplyItems(level, ss, total))
  {
    hide ArrayItems, HeadItems, TailItems;
    PartsValid(level, CONTAINER + 1, ss);
    HeadTailValid(level, |ss|, total, LastId(level, |ss|));
  }

  /** Writing the items from st gives this result and this state. */
  ghost predicate Wrote(m: Mode, st: State, items: seq<Item>, ok: bool, end: State) {
    ValidMode(m) && ValidItems(items) && PutItems(m, st, items) == (ok, end)
  }

  /** There is room for the items. */
  ghost predicate HasRoom(m: Mode, st: State, items: seq<Item>) {
    ValidMode(m) && ValidItems(items) && PutItems(m, st, items).0
  }

  /** Encoding a reply lets the entries go: it empties the list first, or comes to the end of the array. */
  ghost predicate Drains(m: Mode, st: State, level: nat, ss: seq<Share>) {
    !Supported(level) || HasRoom(m, st, BodyItems(level, ss))
  }

  // ---------------------------------------------------------------- references

  /** The pipe holds one reference for each of its entries. */
  ghost predicate Holds(refs: map<nat, nat>, entries: seq<nat>) {
    && (forall i :: 0 <= i < |entries| ==> entries[i] in refs)
    && (forall id :: id in refs ==> refs[id] >= multiset(entries)[id])
  }

  /** The references that others hold. */
  ghost function Others(refs: map<nat, nat>, entries: seq<nat>): map<nat, int> {
    map id | id in refs :: (var n: int := refs[id]; n - multiset(entries)[id])
  }

  lemma TakeOne(refs: map<nat, nat>, entries: seq<nat>, id: nat)
    requires Holds(refs, entries) && id in refs
    ensures var r := refs[id := refs[id] + 1];
            Holds(r, entries + [id]) && Others(r, entries + [id]) == Others(refs, entries)
  {
    var r := refs[id := refs[id] + 1];
    forall k | k in r
      ensures r[k] - multiset(entries + [id])[k] == refs[k] - multiset(entries)[k]
    {
    }
  }

  lemma DropFirst(refs: map<nat, nat>, entries: seq<nat>)
    requires Holds(refs, entries) && entries != []
    ensures refs[entries[0]] > 0
    ensures var r := refs[entries[0] := refs[entries[0]] - 1];
            Holds(r, entries[1..]) && Others(r, entries[1..]) == Others(refs, entries)
  {
    assert entries == [entries[0]] + entries[1..];
    var r := refs[entries[0] := refs[entries[0]] - 1];
    forall k | k in r
      ensures r[k] - multiset(entries[1..])[k] == refs[k] - multiset(entries)[k]
    {
    }
  }

  /** The references that are held are those of others exactly when no entry is left. */
  lemma HoldsNothingExactly(refs: map<nat, nat>, entries: seq<nat>)
    requires Holds(refs, entries)
    ensures refs == Others(refs, entries) <==> entries == []
  {
    if entries != [] {
      assert multiset(entries)[entries[0]] > 0;
      assert refs[entries[0]] != Others(refs, entries)[entries[0]];
    }
  }

  lemma HoldsNothing(refs: map<nat, nat>)
    ensures Holds(refs, []) && Others(refs, []) == refs
  {
  }

  // ---------------------------------------------------------------- the pipe

  ghost predicate ValidShares(shares: map<nat, Share>) { forall id :: id in shares ==> ValidShare(shares[id]) }

  function Named(shares: map<nat, Share>, entries: seq<nat>): (ss: seq<Share>)
    requires forall i :: 0 <= i < |entries| ==> entries[i] in shares
    ensures |ss| == |entries|
  {
    seq(|entries|, i requires 0 <= i < |entries| => shares[entries[i]])
  }

  /** A share is listed when it can be referenced, is browseable and is available. */
  predicate IsListed(shares: map<nat, Share>, refs: map<nat, nat>, id: nat)
    requires id in refs && id in shares
  {
    refs[id] > 0 && shares[id].browseable && shares[id].available
  }

  /** The shares of the table that are listed, in the order of the table. */
  function Listed(shares: map<nat, Share>, refs: map<nat, nat>, table: seq<nat>): (l: seq<nat>)
    requires shares.Keys == refs.Keys && forall i :: 0 <= i < |table| ==> table[i] in shares
    ensures forall id ::
              id in l <==> id in table && refs[id] > 0 && shares[id].browseable && shares[id].available
    ensures forall i :: 0 <= i < |l| ==> l[i] in shares
  {
    if table == [] then []
    else
      Listed(shares, refs, table[..|table| - 1]) +
      (var id := table[|table| - 1]; if IsListed(shares, refs, id) then [id] else [])
  }

  /** A table that hands out each share once gives a list that names each share once. */
  lemma {:induction false} ListedOnce(shares: map<nat, Share>, refs: map<nat, nat>, table: seq<nat>)
    requires shares.Keys == refs.Keys && (forall i :: 0 <= i < |table| ==> table[i] in shares) && Distinct(table)
    ensures Distinct(Listed(shares, refs, table))
    decreases |table|
  {
    if table != [] {
      ListedOnce(shares, refs, table[..|table| - 1]);
      assert table[|table| - 1] !in table[..|table| - 1];
    }
  }

  lemma ListedNothing(shares: map<nat, Share>, refs: map<nat, nat>)
    requires shares.Keys == refs.Keys
    ensures Listed(shares, refs, []) == []
  {
  }

  lemma ListedStep(shares: map<nat, Share>, refs: map<nat, nat>, table: seq<nat>, k: nat)
    requires shares.Keys == refs.Keys && (forall i :: 0 <= i < |table| ==> table[i] in shares) && k < |table|
    ensures Listed(shares, refs, table[..k + 1]) ==
            Listed(shares, refs, table[..k]) + if IsListed(shares, refs, table[k]) then [table[k]] else []
  {
    assert table[..k + 1][..k] == table[..k];
  }

  class Pipe {
    const shares: map<nat, Share>
    var refs: map<nat, nat>
    var entries: seq<nat>
    var numEntries: nat
    var numProcessed: nat
    var numPointers: nat
    var entryProcessed: bool  // whether the callback is set
    var returnReady: bool
    const dce: Dce

    /** After a reset without the callback the pipe counts fewer entries than it has. */
    ghost predicate Valid()
      reads this
    {
      Listable() && refs.Keys == shares.Keys && Holds(refs, entries)
    }

    ghost predicate Listable()
      reads this`entries, this`numEntries
    {
      numEntries <= |entries| && ValidShares(shares) && forall i :: 0 <= i < |entries| ==> entries[i] in shares
    }

    /** The entries that are waiting to be sent. */
    ghost function Pending(): (ss: seq<Share>)
      requires Listable()
      reads this`entries, this`numEntries
      ensures |ss| == numEntries
      ensures forall i :: 0 <= i < numEntries ==> entries[i] in shares && ss[i] == shares[entries[i]]
      ensures forall i :: 0 <= i < |ss| ==> ValidShare(ss[i])
    {
      Named(shares, entries[..numEntries])
    }

    constructor (shares: map<nat, Share>, refs: map<nat, nat>, dce: Dce)
      requires refs.Keys == shares.Keys && ValidShares(shares)
      ensures Valid() && entries == [] && this.shares == shares && this.refs == refs && this.dce == dce
      ensures !entryProcessed && !returnReady
    {
      HoldsNothing(refs);
      this.shares, this.refs, this.dce := shares, refs, dce;
      entries, numEntries, numProcessed, numPointers := [], 0, 0, 0;
      entryProcessed, returnReady := false, false;
    }

    /** One share of the table: its reference is kept only if it is listed. */
    method EnumShare(id: nat)
      requires Valid() && id in shares
      modifies this`refs, this`entries, this`numEntries
      ensures Valid() && Others(refs, entries) == old(Others(refs, entries))
      ensures entries == if IsListed(shares, old(refs), id) then old(entries) + [id] else old(entries)
      ensures numEntries - old(numEntries) == |entries| - |old(entries)|
      ensures refs == if IsListed(shares, old(refs), id) then old(refs)[id := old(refs)[id] + 1] else old(refs)
    {
      hide Holds, Others, ValidShares;
      if refs[id] == 0 {
        return;
      }
      ghost var before := refs;
      TakeOne(refs, entries, id);
      refs := refs[id := refs[id] + 1];
      if !shares[id].browseable {
        refs := refs[id := refs[id] - 1];
        assert refs == before;
        return;
      }
      if !shares[id].available {
        refs := refs[id := refs[id] - 1];
        assert refs == before;
        return;
      }
      entries := entries + [id];
      numEntries := numEntries + 1;
    }

    /** All shares of the table, which hands them out in any order but each one once. */
    method EnumAllInvoke(table: seq<nat>)
      requires Valid() && (forall i :: 0 <= i < |table| ==> table[i] in shares)
      requires Distinct(table)
      modifies this`refs, this`entries, this`numEntries, this`entryProcessed
      ensures Valid() && entryProcessed && Others(refs, entries) == old(Others(refs, entries))
      ensures var l := Listed(shares, old(refs), table);
              entries == old(entries) + l && numEntries == old(numEntries) + |l| && Distinct(l)
    {
      hide Holds, Others, ValidShares, Listed;
      entryProcessed := true;
      ghost var refs0, entries0 := refs, entries;
      ListedNothing(shares, refs0);
      ListedOnce(shares, refs0, table);
      for k := 0 to |table|
        invariant Valid() && entryProcessed && Others(refs, entries) == Others(refs0, entries0)
        invariant numEntries - old(numEntries) == |entries| - |entries0|
        invariant entries == entries0 + Listed(shares, refs0, table[..k])
        invariant forall i :: k <= i < |table| ==> refs[table[i]] == refs0[table[i]]
      {
        ListedStep(shares, refs0, table, k);
        EnumShare(table[k]);
      }
      assert table[..|table|] == table;
    }

    /** An entry that has been sent leaves the list and its reference is dropped. */
    method ShareEntryProcessed()
      requires Valid() && entryProcessed && numEntries > 0
      modifies this`refs, this`entries, this`numEntries, this`numProcessed
      ensures Valid() && Others(refs, entries) == old(Others(refs, entries))
      ensures entries == old(entries[1..])
      ensures numEntries == old(numEntries) - 1 && numProcessed == old(numProcessed) + 1
    {
      hide Others, ValidShares;
      DropFirst(refs, entries);
      var share := entries[0];
      entries := entries[1..];
      numEntries := numEntries - 1;
      numProcessed := numProcessed + 1;
      refs := refs[share := refs[share] - 1];
    }

    /** Calls the callback once for each of the entries counted, if it is set. */
    method ProcessEntries()
      requires Valid()
      modifies this`refs, this`entries, this`numEntries, this`numProcessed
      ensures Valid() && Others(refs, entries) == old(Others(refs, entries))
      ensures entryProcessed ==>
                && entries == old(entries[numEntries..])
                && numEntries == 0 && numProcessed == old(numProcessed + numEntries)
      ensures !entryProcessed ==>
                && entries == old(entries) && refs == old(refs)
                && numEntries == old(numEntries) && numProcessed == old(numProcessed)
    {
      hide Holds, Others, ValidShares;
      if entryProcessed {
        var n := numEntries;
        ghost var entries0 := entries;
        for i := 0 to n
          invariant Valid() && Others(refs, entries) == old(Others(refs, entries))
          invariant entries == entries0[i..] && numEntries == n - i && numProcessed == old(numProcessed) + i
        {
          ShareEntryProcessed();
        }
      }
    }

    method Reset()
      requires Valid()
      modifies this`refs, this`entries, this`numEntries, this`numProcessed
      ensures Valid() && Others(refs, entries) == old(Others(refs, entries)) && numEntries == 0
      ensures refs == old(Others(refs, entries)) <==>
              old(if entryProcessed then numEntries == |entries| else entries == [])
      ensures entryProcessed ==> entries == old(entries[numEntries..]) && numProcessed == old(numProcessed + numEntries)
      ensures !entryProcessed ==> entries == old(entries) && refs == old(refs) && numProcessed == old(numProcessed)
    {
      hide Others, ValidShares, Holds;
      ProcessEntries();
      HoldsNothingExactly(refs, entries);
      numEntries := 0;
    }

    method EntryRep(level: nat, share: Share) returns (ok: bool)
      requires ValidShare(share)
      modifies this`numPointers, dce`offset, dce.payload
      ensures Wrote(dce.ModeOf(), old(dce.Now()), RepItems(level, old(numPointers), share), ok, dce.Now())
      ensures numPointers == old(numPointers) + RefsPerShare(level)
    {
      hide PutItems, RepItems, ValidItems;
      RepValid(level, numPointers, share);
      var items := RepItems(level, numPointers, share);
      numPointers := numPointers + RefsPerShare(level);
      ok := WriteItems(dce, items);
    }

    method EntryData(level: nat, share: Share) returns (ok: bool)
      requires ValidShare(share)
      modifies dce`offset, dce.payload
      ensures Wrote(dce.ModeOf(), old(dce.Now()), DataItems(level, share), ok, dce.Now())
    {
      hide PutItems, DataItems, ValidItems;
      DataValid(level, share);
      ok := WriteItems(dce, DataItems(level, share));
    }

    method WriteReps(level: nat) returns (ok: bool)
      requires Valid()
      modifies this`numPointers, dce`offset, dce.payload
      ensures Wrote(dce.ModeOf(), old(dce.Now()), Flatten(RepParts(level, old(numPointers), Pending())), ok, dce.Now())
      ensures ok ==> numPointers == old(numPointers) + numEntries * RefsPerShare(level)
    {
      hide PutItems, RepItems, ValidItems, Flatten, ValidShare, Holds, ValidShares, Pending;
      ghost var m, st, ss := dce.ModeOf(), dce.Now(), Pending();
      ghost var parts := RepParts(level, numPointers, ss);
      ghost var p := numPointers;
      PartsValid(level, p, ss);
      NoParts(m, st);
      assert parts[..0] == [];
      for i := 0 to numEntries
        invariant m == dce.ModeOf() && numPointers == p + i * RefsPerShare(level)
        invariant ValidItems(Flatten(parts[..i])) && PutItems(m, st, Flatten(parts[..i])) == (true, dce.Now())
      {
        NextPart(m, st, parts, i);
        assert ValidShare(ss[i]) && ss[i] == shares[entries[i]];
        ok := EntryRep(level, shares[entries[i]]);
        if !ok {
          return;
        }
      }
      assert parts[..numEntries] == parts;
      return true;
    }

    method WriteDatas(level: nat) returns (ok: bool)
      requires Valid()
      modifies dce`offset, dce.payload
      ensures Wrote(dce.ModeOf(), old(dce.Now()), Flatten(DataParts(level, Pending())), ok, dce.Now())
    {
      hide PutItems, DataItems, ValidItems, Flatten, ValidShare, Holds, ValidShares, Pending;
      ghost var m, st, ss := dce.ModeOf(), dce.Now(), Pending();
      ghost var parts := DataParts(level, ss);
      PartsValid(level, 0, ss);
      NoParts(m, st);
      assert parts[..0] == [];
      for i := 0 to numEntries
        invariant m == dce.ModeOf()
        invariant ValidItems(Flatten(parts[..i])) && PutItems(m, st, Flatten(parts[..i])) == (true, dce.Now())
      {
        NextPart(m, st, parts, i);
        assert ValidShare(ss[i]) && ss[i] == shares[entries[i]];
        ok := EntryData(level, shares[entries[i]]);
        if !ok {
          return;
        }
      }
      assert parts[..numEntries] == parts;
      return true;
    }

    /** Nothing has left the list and no reference has been dropped. */
    twostate predicate Kept()
      reads this
    {
      && entries == old(entries) && refs == old(refs)
      && numEntries == old(numEntries) && numProcessed == old(numProcessed)
    }

    /** Everything that was counted has left the list. */
    twostate predicate Sent()
      requires old(numEntries) <= |old(entries)|
      reads this
    {
      && entries == old(entries[numEntries..])
      && numEntries == 0 && numProcessed == old(numProcessed) + old(numEntries)
    }

    /** The fixed parts of all entries, then their strings; only then are the entries let go. */
    method WriteArrayOfStructs(level: nat) returns (status: Status)
      requires Valid()
      modifies this`refs, this`entries, this`numEntries, this`numProcessed, this`numPointers, dce`offset, dce.payload
      ensures Valid() && Others(refs, entries) == old(Others(refs, entries))
      ensures status != EMoreData
      ensures var items := ArrayItems(level, old(numPointers), old(Pending()));
              Wrote(dce.ModeOf(), old(dce.Now()), items, status == OK, dce.Now())
      ensures status == OK ==> numPointers == old(numPointers) + old(numEntries) * RefsPerShare(level)
      ensures if status == OK && entryProcessed then Sent() else Kept()
    {
      hide PutItems, ValidItems, Flatten, Others, ValidShares, RepParts, DataParts, Holds, Pending;
      PartsValid(level, numPointers, Pending());
      ArraySplits(dce.ModeOf(), dce.Now(), level, numPointers, Pending());
      var ok := WriteReps(level);
      if !ok {
        return EBadData;
      }
      ok := WriteDatas(level);
      if !ok {
        return EBadData;
      }
      ProcessEntries();
      return OK;
    }

    /** The reply; the pointer count starts at 1 with the payload. */
    method EnumAllReturn(level: nat) returns (status: Status)
      requires Valid() && numPointers == 1
      modifies this, dce`offset, dce.payload
      ensures Valid() && Others(refs, entries) == old(Others(refs, entries))
      ensures returnReady == old(returnReady) && entryProcessed == old(entryProcessed) && status != EMoreData
      ensures var ss := old(Pending());
              var items := ReplyItems(level, ss, old(numProcessed) + if entryProcessed then |ss| else 0);
              && Wrote(dce.ModeOf(), old(dce.Now()), items, status == OK, dce.Now())
              && (if entryProcessed && HasRoom(dce.ModeOf(), old(dce.Now()), BodyItems(level, ss)) then Sent()
                  else Kept())
    {
      hide PutItems, ValidItems, Holds, Others, ValidShares, HeadItems, ArrayItems, TailItems, Pending;
      ghost var m, st, ss := dce.ModeOf(), dce.Now(), Pending();
      var nr := numEntries;
      ReplySplits(m, st, level, ss, numProcessed + if entryProcessed then |ss| else 0);
      var ok := WriteItems(dce, HeadItems(level, nr));
      numPointers := if nr == 0 then CONTAINER else CONTAINER + 1;
      if !ok {
        return EBadData;
      }
      status := OK;
      if nr != 0 {
        status := WriteArrayOfStructs(level);
      }
      if status == EBadData {
        return;
      }
      status := WriteTail(status);
    }

    /** TotalEntries and the resume handle; when more is to come, the pipe is made ready for another read. */
    method WriteTail(before: Status) returns (status: Status)
      requires before != EBadData
      modifies this`numPointers, this`returnReady, dce`offset, dce.payload
      ensures status == before || status == EBadData
      ensures Wrote(dce.ModeOf(), old(dce.Now()),
                    if before == EMoreData then MoreItems(numProcessed, old(numPointers))
                    else TailItems(numProcessed, old(numPointers)), status == before, dce.Now())
      ensures returnReady == (old(returnReady) || status == EMoreData)
    {
      hide PutItems, ValidItems, TailItems, MoreItems;
      HeadTailValid(0, 0, numProcessed, numPointers);
      ghost var p := numPointers;
      numPointers := numPointers + 1;
      var ok;
      if before == EMoreData {
        ok := WriteItems(dce, MoreItems(numProcessed, numPointers - 1));
        if ok {
          returnReady := true;
        }
      } else {
        ok := WriteItems(dce, TailItems(numProcessed, numPointers - 1));
      }
      status := if ok then before else EBadData;
    }

    /** A level that is not supported empties the list first. */
    method ShareInfoBody(level: nat) returns (status: Status)
      requires Valid() && numPointers == 1
      modifies this, dce`offset, dce.payload
      ensures Valid() && Others(refs, entries) == old(Others(refs, entries))
      ensures returnReady == old(returnReady) && entryProcessed == old(entryProcessed) && status != EMoreData
      ensures var items := InfoItems(level, old(Pending()), entryProcessed);
              Wrote(dce.ModeOf(), old(dce.Now()), items, status == OK, dce.Now())
      ensures entries == if entryProcessed && Drains(dce.ModeOf(), old(dce.Now()), level, old(Pending()))
                         then old(entries[numEntries..]) else old(entries)
      ensures entryProcessed && status == OK && old(numEntries == |entries|) ==>
                entries == [] && refs == old(Others(refs, entries))
      ensures entryProcessed ==> |entries| - numEntries == old(|entries| - numEntries)
      ensures !entryProcessed ==> refs == old(refs)
    {
      hide Wrote, HasRoom, Others, Holds, ValidShares, ReplyItems, BodyItems, Pending, ValidShare;
      ghost var ss := Pending();
      numProcessed := 0;
      if !Supported(level) {
        Reset();
      }
      ghost var m, st, ss' := dce.ModeOf(), dce.Now(), Pending();
      ghost var total := numProcessed + if entryProcessed then |ss'| else 0;
      status := EnumAllReturn(level);
      if status == OK {
        ReplyHasBody(m, st, level, ss', total, dce.Now());
      }
      HoldsNothing(refs);
    }

    /** The headers go to the front once the length is known. */
    method WriteHeaders(hdr: Header, status: Status) returns (ok: bool)
      requires ValidHeader(hdr)
      modifies dce`offset, dce.payload
      ensures var items := HeaderItems(hdr, old(dce.offset), status);
              && HasRoom(dce.ModeOf(), State(old(dce.payload[..]), 0), items) == ok
              && (ok ==> dce.Now() == State(
                    PutItems(dce.ModeOf(), State(old(dce.payload[..]), 0), items).1.payload, old(dce.offset)))
    {
      hide PutItems, HeaderItems, ValidItems;
      HeaderValid(hdr, dce.offset, status);
      var payloadOffset := dce.offset;
      dce.offset := 0;
      ok := WriteItems(dce, HeaderItems(hdr, payloadOffset, status));
      if ok {
        dce.offset := payloadOffset;
      }
    }

    /** The whole message: headers, reply and return code.  False is -EBADDATA with nothing to send. */
    method ShareInfoReturn(hdr: Header, level: nat) returns (ok: bool, status: Status)
      requires Valid() && ValidHeader(hdr) && numPointers == 1
      modifies this, dce`offset, dce.payload
      ensures Valid() && Others(refs, entries) == old(Others(refs, entries))
      ensures returnReady == old(returnReady) && entryProcessed == old(entryProcessed) && status != EMoreData
      ensures var items := InfoItems(level, old(Pending()), entryProcessed);
              && (status == OK <==> HasRoom(dce.ModeOf(), State(old(dce.payload[..]), HEADERS), items))
              && (ok && status == OK ==> Message(dce.ModeOf(), dce.Now(), hdr, status, items + [U32(Code(status))]))
      ensures var st := State(old(dce.payload[..]), HEADERS);
              entries == if entryProcessed && Drains(dce.ModeOf(), st, level, old(Pending()))
                         then old(entries[numEntries..]) else old(entries)
      ensures entryProcessed && status == OK && old(numEntries == |entries|) ==>
                entries == [] && refs == old(Others(refs, entries))
      ensures entryProcessed ==> |entries| - numEntries == old(|entries| - numEntries)
      ensures !entryProcessed ==> refs == old(refs)
    {
      hide PutItems, ValidItems, Others, Holds, ValidShares, Pending, ValidShare, InfoItems, Message;
      ghost var items := InfoItems(level, Pending(), entryProcessed);
      dce.offset := HEADERS;
      ghost var m, st := dce.ModeOf(), dce.Now();
      status := ShareInfoBody(level);
      ghost var body := dce.Now();
      Pow256Four();
      ok := dce.WriteInt(4, Code(status) % TWO_32);
      if !ok {
        return;
      }
      ghost var reply := dce.Now();
      ok := WriteHeaders(hdr, status);
      if ok && status == OK {
        MessageReads(m, st, items, body, reply, hdr, status);
      }
    }

    /** One call on an empty pipe: every listed share is in the reply, and every reference taken is dropped again. */
    method EnumAll(table: seq<nat>, hdr: Header, level: nat) returns (ok: bool, status: Status)
      requires Valid() && entries == [] && (forall i :: 0 <= i < |table| ==> table[i] in shares) && ValidHeader(hdr)
      requires Distinct(table)
      modifies this, dce`offset, dce.payload
      ensures Valid() && Others(refs, entries) == old(refs)
      ensures status == OK ==> entries == [] && refs == old(refs)
      ensures Distinct(Listed(shares, old(refs), table))
      ensures var items := InfoItems(level, Named(shares, Listed(shares, old(refs), table)), true);
              && (status == OK <==> HasRoom(dce.ModeOf(), State(old(dce.payload[..]), HEADERS), items))
              && (ok && status == OK ==> Message(dce.ModeOf(), dce.Now(), hdr, status, items + [U32(Code(status))]))
      ensures ok && status == OK && Supported(level) && dce.payload.Length <= INT_MAX ==>
                ClientReads(dce.ModeOf(), dce.Now(), hdr, level, Named(shares, Listed(shares, old(refs), table)))
    {
      hide HasRoom, Message, ClientReads, Others, Holds, ValidShares, InfoItems, Listed;
      HoldsNothing(refs);
      ghost var l := Listed(shares, refs, table);
      assert [] + l == l;
      EnumAllInvoke(table);
      assert entries[..numEntries] == l;
      numPointers := 1;
      ghost var st, ss := State(dce.payload[..], HEADERS), Pending();
      ok, status := ShareInfoReturn(hdr, level);
      if ok && status == OK && Supported(level) && |st.payload| <= INT_MAX {
        MessageTells(dce.ModeOf(), st, dce.Now(), hdr, level, ss);
      }
    }

    /** The reply written elsewhere, with the callback unset: the entries and their references stay. */
    method TrialReturn(hdr: Header, level: nat, scratch: array<byte>) returns (ok: bool, length: nat)
      requires Valid() && ValidHeader(hdr)
      modifies this, dce, scratch
      ensures entries == old(entries) && refs == old(refs) && returnReady == old(returnReady)
      ensures dce.ModeOf() == old(dce.ModeOf())
    {
      hide Others, ValidShares, Holds, Pending, InfoItems, HasRoom, Message;
      entryProcessed := false;
      numPointers := 1;
      dce.payload := scratch;
      dce.offset := 0;
      var status;
      ok, status := ShareInfoReturn(hdr, level);
      length := if ok then dce.offset else 0;
    }

    /** Encodes the reply on trial, to tell its length.  The counters and the cursor are put back from copies. */
    method PendingResponseLen(hdr: Header, level: nat, scratch: array<byte>) returns (ok: bool, length: nat)
      requires Valid() && ValidHeader(hdr) && scratch != dce.payload
      modifies this, dce, scratch
      ensures Valid() && Kept() && numPointers == old(numPointers)
      ensures returnReady == old(returnReady) && entryProcessed == old(entryProcessed)
      ensures dce.Now() == old(dce.Now()) && dce.payload == old(dce.payload) && dce.ModeOf() == old(dce.ModeOf())
    {
      hide ValidShares, Holds;
      if !returnReady {
        return true, 0;
      }
      var savedEntries, savedProcessed, savedPointers, savedCallback :=
        numEntries, numProcessed, numPointers, entryProcessed;
      var savedPayload, savedOffset := dce.payload, dce.offset;
      ok, length := TrialReturn(hdr, level, scratch);
      dce.payload, dce.offset := savedPayload, savedOffset;
      numEntries, numProcessed, numPointers, entryProcessed :=
        savedEntries, savedProcessed, savedPointers, savedCallback;
    }
  }

  // ---------------------------------------------------------------- headers

  const HEADERS := 24
  const RESPONSE := 2
  const FIRST_FRAG := 1
  const LAST_FRAG := 2

  /** What the headers take over from the request. */
  datatype Header = Header(vers: byte, versMinor: byte, drep: seq<byte>, authLength: nat, callId: nat, contextId: nat)

  ghost predicate ValidHeader(h: Header) {
    |h.drep| == 4 && h.authLength < 0x1_0000 && h.callId < TWO_32 && h.contextId < 0x1_0000
  }

  function Code(status: Status): nat {
    match status
    case OK => 0
    case EBadData => 0x0D
    case EMoreData => 0xEA
  }

  function CommonItems(h: Header, length: nat, status: Status): seq<Item> {
    [Num(1, h.vers), Num(1, h.versMinor), Num(1, RESPONSE),
     Num(1, if status == EMoreData then FIRST_FRAG else FIRST_FRAG + LAST_FRAG),
     Blob(h.drep), Num(2, length % 0x1_0000), Num(2, h.authLength), Num(4, h.callId)]
  }

  function ResponseItems(h: Header, length: nat): seq<Item> {
    [U32(length), Num(2, h.contextId), Num(1, 0), Num(1, 0)]
  }

  function HeaderItems(h: Header, length: nat, status: Status): seq<Item> {
    CommonItems(h, length, status) + ResponseItems(h, length)
  }

  lemma HeaderValid(h: Header, length: nat, status: Status)
    requires ValidHeader(h)
    ensures ValidItems(HeaderItems(h, length, status))
  {
    Pow256Four();
  }

  /** The client finds the headers at the start and the reply behind them, up to the end. */
  ghost predicate Message(m: Mode, now: State, hdr: Header, status: Status, items: seq<Item>) {
    && ValidMode(m) && ValidHeader(hdr)
    && GetItems(m, State(now.payload, 0), TypesOf(HeaderItems(hdr, now.offset, status))) ==
       (Some(HeaderItems(hdr, now.offset, status)), State(now.payload, HEADERS))
    && ValidItems(items) && GetItems(m, State(now.payload, HEADERS), TypesOf(items)) == (Some(items), now)
  }

  lemma MessageReads(m: Mode, st: State, items: seq<Item>, body: State, reply: State, hdr: Header, status: Status)
    requires st.offset == HEADERS && Wrote(m, st, items, true, body) && ValidHeader(hdr)
    requires ValidItem(U32(Code(status))) && PutItem(m, body, U32(Code(status))) == (true, reply)
    requires HasRoom(m, State(reply.payload, 0), HeaderItems(hdr, reply.offset, status))
    ensures var sent := PutItems(m, State(reply.payload, 0), HeaderItems(hdr, reply.offset, status)).1.payload;
            Message(m, State(sent, reply.offset), hdr, status, items + [U32(Code(status))])
  {
    hide PutItems, PutItem, HeaderItems, GetItems, Laid, AllPrims, End, PutPrims;
    var all, head := items + [U32(Code(status))], HeaderItems(hdr, reply.offset, status);
    PutItemsAppend(m, st, items, U32(Code(status)));
    PutItemsIsPutPrims(m, st, all);
    PutPrimsLays(m, st, AllPrims(m, all));
    HeaderValid(hdr, reply.offset, status);
    RoundTrip(m, State(reply.payload, 0), head);
    HeadersTake(m, State(reply.payload, 0), hdr, reply.offset, status);
    var sent := PutItems(m, State(reply.payload, 0), head).1.payload;
    LaidKept(m, reply.payload, sent, HEADERS, AllPrims(m, all));
    ItemsRead(m, sent, HEADERS, all);
  }

  lemma HeadersTake(m: Mode, st: State, hdr: Header, length: nat, status: Status)
    requires st.offset == 0 && ValidHeader(hdr) && HasRoom(m, st, HeaderItems(hdr, length, status))
    ensures PutItems(m, st, HeaderItems(hdr, length, status)).1.offset == HEADERS
  {
    hide PutItems, PutPrims, End, AllPrims, Laid;
    var head := HeaderItems(hdr, length, status);
    PutItemsIsPutPrims(m, st, head);
    PutPrimsLays(m, st, AllPrims(m, head));
    HeaderEnds(m, hdr, length, status);
  }

  lemma HeaderEnds(m: Mode, hdr: Header, length: nat, status: Status)
    requires ValidMode(m) && ValidHeader(hdr) && ValidItems(HeaderItems(hdr, length, status))
    ensures End(m, 0, AllPrims(m, HeaderItems(hdr, length, status))) == HEADERS
  {
    hide End, AllPrims, ValidItems, CommonItems, ResponseItems;
    ListEnd(m, 0, CommonItems(hdr, length, status), ResponseItems(hdr, length));
    CommonEnds(m, hdr, length, status);
    ResponseEnds(m, hdr, length);
  }

  lemma CommonEnds(m: Mode, hdr: Header, length: nat, status: Status)
    requires ValidMode(m) && ValidHeader(hdr) && ValidItems(CommonItems(hdr, length, status))
    ensures End(m, 0, AllPrims(m, CommonItems(hdr, length, status))) == 16
  {
    hide End, AllPrims, ValidItems;
    var h := CommonItems(hdr, length, status);
    assert h[0..] == h && h[8..] == [];
    ItemEnd(m, 0, h, 0);
    ItemEnd(m, 1, h, 1);
    ItemEnd(m, 2, h, 2);
    ItemEnd(m, 3, h, 3);
    ItemEnd(m, 4, h, 4);
    ItemEnd(m, 8, h, 5);
    ItemEnd(m, 10, h, 6);
    ItemEnd(m, 12, h, 7);
    NoPrims(m, 16);
  }

  lemma ResponseEnds(m: Mode, hdr: Header, length: nat)
    requires ValidMode(m) && ValidItems(ResponseItems(hdr, length))
    ensures End(m, 16, AllPrims(m, ResponseItems(hdr, length))) == HEADERS
  {
    hide End, AllPrims, ValidItems;
    var h := ResponseItems(hdr, length);
    assert h[0..] == h && h[4..] == [];
    ItemEnd(m, 16, h, 0);
    ItemEnd(m, 20, h, 1);
    ItemEnd(m, 22, h, 2);
    ItemEnd(m, 23, h, 3);
    NoPrims(m, HEADERS);
  }

  lemma ReplyHasBody(m: Mode, st: State, level: nat, ss: seq<Share>, total: nat, end: State)
    requires (forall i :: 0 <= i < |ss| ==> ValidShare(ss[i])) && Wrote(m, st, ReplyItems(level, ss, total), true, end)
    ensures HasRoom(m, st, BodyItems(level, ss))
  {
    hide PutItems, BodyItems, TailItems;
    ReplyValid(level, ss, total);
    HeadTailValid(0, 0, total, LastId(level, |ss|));
    PutItemsConcat(m, st, BodyItems(level, ss), TailItems(total, LastId(level, |ss|)));
  }

  /** The reply as three writes one after the other. */
  lemma ReplySplits(m: Mode, st: State, level: nat, ss: seq<Share>, total: nat)
    requires ValidMode(m) && forall i :: 0 <= i < |ss| ==> ValidShare(ss[i])
    ensures ValidItems(HeadItems(level, |ss|)) && ValidItems(ArrayItems(level, CONTAINER + 1, ss))
    ensures ValidItems(TailItems(total, LastId(level, |ss|)))
    ensures ValidItems(BodyItems(level, ss)) && ValidItems(ReplyItems(level, ss, total))
    ensures var h := PutItems(m, st, HeadItems(level, |ss|));
            var b := if h.0 && ss != [] then PutItems(m, h.1, ArrayItems(level, CONTAINER + 1, ss)) else h;
            && PutItems(m, st, BodyItems(level, ss)) == b
            && PutItems(m, st, ReplyItems(level, ss, total)) ==
               if b.0 then PutItems(m, b.1, TailItems(total, LastId(level, |ss|))) else b
  {
    hide PutItems, ValidItems, HeadItems, ArrayItems, TailItems;
    ReplyValid(level, ss, total);
    PartsValid(level, CONTAINER + 1, ss);
    HeadTailValid(level, |ss|, total, LastId(level, |ss|));
    if ss == [] {
      assert HeadItems(level, |ss|) + [] == HeadItems(level, |ss|);
    } else {
      PutItemsConcat(m, st, HeadItems(level, |ss|), ArrayItems(level, CONTAINER + 1, ss));
    }
    PutItemsConcat(m, st, BodyItems(level, ss), TailItems(total, LastId(level, |ss|)));
  }

  lemma RepValid(level: nat, p: nat, s: Share)
    ensures ValidItems(RepItems(level, p, s))
  {
    Pow256Four();
  }

  lemma DataValid(level: nat, s: Share)
    requires ValidShare(s)
    ensures ValidItems(DataItems(level, s))
  {
  }

  lemma NoParts(m: Mode, st: State)
    requires ValidMode(m)
    ensures ValidItems(Flatten([])) && PutItems(m, st, Flatten([])) == (true, st)
  {
  }

  lemma ArraySplits(m: Mode, st: State, level: nat, p: nat, ss: seq<Share>)
    requires ValidMode(m) && ValidItems(Flatten(RepParts(level, p, ss))) && ValidItems(Flatten(DataParts(level, ss)))
    requires ValidItems(ArrayItems(level, p, ss))
    ensures var r := PutItems(m, st, Flatten(RepParts(level, p, ss)));
            PutItems(m, st, ArrayItems(level, p, ss)) ==
            if r.0 then PutItems(m, r.1, Flatten(DataParts(level, ss))) else r
  {
    hide PutItems, ValidItems, Flatten;
    PutItemsConcat(m, st, Flatten(RepParts(level, p, ss)), Flatten(DataParts(level, ss)));
  }

  // ---------------------------------------------------------------- what the client reads

  const INT_MAX := 0x7FFF_FFFF

  /** Items that take at least four octets. */
  ghost predicate Wide(it: Item) { ValidItem(it) && (it.Num? ==> it.width == 4) && !it.Blob? }

  ghost predicate AllWide(items: seq<Item>) { forall i :: 0 <= i < |items| ==> Wide(items[i]) }

  lemma WideTakesRoom(m: Mode, st: State, it: Item)
    requires ValidMode(m) && Wide(it) && PutItem(m, st, it).0
    ensures st.offset + 4 <= PutItem(m, st, it).1.offset <= |st.payload| + 8
  {
    hide EncodeInt, Terminated, Splice;
    Pow256Four();
    match it
    case Num(w, v) => OnePrim(m, st, Int(w, v));
    case Union32(v) => UnionPrims(m, st, v);
    case VString(t) =>
      StringPrims(m, st, t);
      StringRoom(m, st, t);
  }

  lemma StringRoom(m: Mode, st: State, t: seq<bmp>)
    requires ValidMode(m) && ValidItem(VString(t)) && PutItem(m, st, VString(t)).0
    ensures st.offset + 4 <= PutItem(m, st, VString(t)).1.offset <= |st.payload| + 8
  {
    StringPrims(m, st, t);
  }

  lemma {:induction false} ItemsTakeRoom(m: Mode, st: State, items: seq<Item>)
    requires ValidMode(m) && AllWide(items) && ValidItems(items) && items != [] && PutItems(m, st, items).0
    ensures st.offset + 4 * |items| <= PutItems(m, st, items).1.offset <= |st.payload| + 8
    decreases |items|
  {
    hide PutItem;
    WideTakesRoom(m, st, items[0]);
    var mid := PutItem(m, st, items[0]).1;
    PutItemLength(m, st, items[0]);
    if |items| > 1 {
      ItemsTakeRoom(m, mid, items[1..]);
    } else {
      assert items[1..] == [];
    }
  }

  lemma PutItemLength(m: Mode, st: State, it: Item)
    requires ValidMode(m) && ValidItem(it)
    ensures |PutItem(m, st, it).1.payload| == |st.payload|
  {
    hide Prims, PutPrims;
  }

  lemma {:induction false} FlattenWide(parts: seq<seq<Item>>)
    requires forall i :: 0 <= i < |parts| ==> AllWide(parts[i]) && parts[i] != []
    ensures AllWide(Flatten(parts)) && |Flatten(parts)| >= |parts|
  {
    hide Wide;
    if parts != [] {
      assert forall i :: 0 <= i < |parts[1..]| ==> parts[1..][i] == parts[i + 1];
      FlattenWide(parts[1..]);
    }
  }

  lemma SharesWide(level: nat, p: nat, s: Share)
    requires ValidShare(s)
    ensures AllWide(RepItems(level, p, s)) && AllWide(DataItems(level, s))
    ensures RepItems(level, p, s) != [] && DataItems(level, s) != []
  {
    Pow256Four();
  }

  lemma ArrayWide(level: nat, p: nat, ss: seq<Share>)
    requires forall i :: 0 <= i < |ss| ==> ValidShare(ss[i])
    ensures AllWide(ArrayItems(level, p, ss)) && |ArrayItems(level, p, ss)| >= |ss|
  {
    hide Wide, RepItems, DataItems, ValidShare, Flatten;
    forall i | 0 <= i < |ss|
      ensures AllWide(RepParts(level, p, ss)[i]) && RepParts(level, p, ss)[i] != []
      ensures AllWide(DataParts(level, ss)[i]) && DataParts(level, ss)[i] != []
    {
      SharesWide(level, p + i * RefsPerShare(level), ss[i]);
    }
    FlattenWide(RepParts(level, p, ss));
    FlattenWide(DataParts(level, ss));
  }

  lemma HeadTailWide(level: nat, n: nat, total: nat, p: nat)
    ensures AllWide(HeadItems(level, n)) && AllWide(TailItems(total, p))
  {
    Pow256Four();
  }

  /** A reply that fits a payload of int size cannot list so many shares that a 32-bit field wraps. */
  lemma FewShares(m: Mode, st: State, level: nat, ss: seq<Share>, total: nat)
    requires ValidMode(m) && (forall i :: 0 <= i < |ss| ==> ValidShare(ss[i])) && |st.payload| <= INT_MAX
    requires ValidItems(ReplyItems(level, ss, total)) && PutItems(m, st, ReplyItems(level, ss, total)).0
    ensures 4 * |ss| <= INT_MAX + 8
  {
    hide PutItems, ValidItems, HeadItems, ArrayItems, TailItems, Wide;
    ArrayWide(level, CONTAINER + 1, ss);
    HeadTailWide(level, |ss|, total, LastId(level, |ss|));
    TailNotEmpty(total, LastId(level, |ss|));
    ItemsTakeRoom(m, st, ReplyItems(level, ss, total));
  }

  lemma TailNotEmpty(total: nat, p: nat)
    ensures |TailItems(total, p)| == 3
  {
  }

  function NumV(it: Item): nat { if it.Num? then it.v else 0 }

  /** The pointers among the fields of the fixed part. */
  function Pointers(level: nat, p: nat, s: Share): seq<nat> {
    var rep := RepItems(level, p, s);
    if level == 0 then [NumV(rep[0])]
    else if level == 1 then [NumV(rep[0]), NumV(rep[2])]
    else [NumV(rep[0]), NumV(rep[2]), NumV(rep[6]), NumV(rep[7])]
  }

  function PointerParts(level: nat, p: nat, ss: seq<Share>): (parts: seq<seq<nat>>)
    ensures |parts| == |ss|
  {
    seq(|ss|, i requires 0 <= i < |ss| => Pointers(level, p + i * RefsPerShare(level), ss[i]))
  }

  /** The referent ids of a reply, in the order in which they are written. */
  function ReplyPointers(level: nat, ss: seq<Share>, total: nat): seq<nat> {
    var head := HeadItems(level, |ss|);
    [NumV(head[1])] +
    (if ss == [] then [] else [NumV(head[3])] + Flatten(PointerParts(level, CONTAINER + 1, ss))) +
    [NumV(TailItems(total, LastId(level, |ss|))[1])]
  }

  function CountUp(from: nat, n: nat): (s: seq<nat>)
    ensures |s| == n && forall k :: 0 <= k < n ==> s[k] == from + k
  {
    seq(n, k => from + k)
  }

  lemma PointersCountUp(level: nat, p: nat, s: Share)
    requires p + 4 < TWO_32
    ensures Pointers(level, p, s) == CountUp(p + 1, RefsPerShare(level))
  {
  }

  lemma {:induction false} ArrayPointersCountUp(level: nat, p: nat, ss: seq<Share>)
    requires p + 4 * |ss| < TWO_32
    ensures Flatten(PointerParts(level, p, ss)) == CountUp(p + 1, |ss| * RefsPerShare(level))
  {
    hide Pointers, Flatten;
    var r := RefsPerShare(level);
    if ss == [] {
      assert PointerParts(level, p, ss) == [] && CountUp(p + 1, 0) == [];
      FlattenNothing();
    } else {
      var front, n := ss[..|ss| - 1], |ss| - 1;
      ArrayPointersCountUp(level, p, front);
      assert n * r <= 4 * n && |ss| * r == n * r + r;
      PointersCountUp(level, p + n * r, ss[n]);
      assert PointerParts(level, p, ss) == PointerParts(level, p, front) + [Pointers(level, p + n * r, ss[n])];
      FlattenAppend(PointerParts(level, p, front), Pointers(level, p + n * r, ss[n]));
    }
  }

  lemma FlattenNothing()
    ensures Flatten<nat>([]) == []
  {
  }

  /**
    A reply that was encoded: the client reads back what was listed, share by share and in one order, both
    counts are the number of shares, and the referent ids are 2, 3, 4 and so on without a gap.
   */
  lemma ReplyIsExact(m: Mode, st: State, level: nat, ss: seq<Share>, total: nat)
    requires ValidMode(m) && (forall i :: 0 <= i < |ss| ==> ValidShare(ss[i])) && |st.payload| <= INT_MAX
    requires ValidItems(ReplyItems(level, ss, total)) && PutItems(m, st, ReplyItems(level, ss, total)).0
    ensures var end := PutItems(m, st, ReplyItems(level, ss, total)).1;
            GetItems(m, State(end.payload, st.offset), TypesOf(ReplyItems(level, ss, total))) ==
            (Some(ReplyItems(level, ss, total)), end)
    ensures HeadItems(level, |ss|)[2] == Num(4, |ss|) && (ss != [] ==> HeadItems(level, |ss|)[4] == Num(4, |ss|))
    ensures ReplyPointers(level, ss, total) == CountUp(2, |ReplyPointers(level, ss, total)|)
    ensures Supported(level) ==>
              TypesOf(ReplyItems(level, ss, total)) == ClientTypes(level, |ss|) &&
              ClientSees(level, ss, ReplyItems(level, ss, total))
  {
    hide PutItems, ReplyItems, GetItems, ReplyPointers, HeadItems, ValidShare, ValidItems, ClientSees, ClientTypes;
    if Supported(level) {
      FewShares(m, st, level, ss, total);
      ReplyTells(level, ss, total, []);
      assert ReplyItems(level, ss, total) + [] == ReplyItems(level, ss, total);
    }
    FewShares(m, st, level, ss, total);
    RoundTrip(m, st, ReplyItems(level, ss, total));
    HeadFields(level, |ss|);
    ReplyPointersCountUp(level, ss, total);
  }

  lemma HeadFields(level: nat, n: nat)
    requires n < TWO_32
    ensures var head := HeadItems(level, n);
            && |head| == (if n == 0 then 4 else 5) && head[1] == Num(4, 2) && head[2] == Num(4, n)
            && (n > 0 ==> head[3] == Num(4, 3) && head[4] == Num(4, n))
  {
  }

  lemma ReplyPointersCountUp(level: nat, ss: seq<Share>, total: nat)
    requires 4 * |ss| <= INT_MAX + 8
    ensures ReplyPointers(level, ss, total) == CountUp(2, |ReplyPointers(level, ss, total)|)
  {
    hide Flatten, PointerParts, HeadItems, TailItems;
    HeadFields(level, |ss|);
    ArrayPointersCountUp(level, CONTAINER + 1, ss);
    TailPointer(level, ss, total);
    TailNotEmpty(total, LastId(level, |ss|));
    var mid := if ss == [] then [] else [3] + CountUp(4, |ss| * RefsPerShare(level));
    assert ReplyPointers(level, ss, total) == [2] + mid + [LastId(level, |ss|) + 1];
  }

  lemma TailPointer(level: nat, ss: seq<Share>, total: nat)
    requires 4 * |ss| <= INT_MAX + 8
    ensures NumV(TailItems(total, LastId(level, |ss|))[1]) == LastId(level, |ss|) + 1
  {
    var r := RefsPerShare(level);
    assert |ss| * r <= 4 * |ss|;
  }

  /** TotalEntries agrees with the counts exactly for the supported levels, or when nothing is listed. */
  lemma TotalAgreesExactly(level: nat, ss: seq<Share>)
    requires 4 * |ss| <= INT_MAX + 8
    ensures var counted := if Supported(level) then ss else [];
            TailItems(|ss|, LastId(level, |counted|))[0] == HeadItems(level, |counted|)[2] <==>
            Supported(level) || ss == []
  {
  }

  // ---------------------------------------------------------------- what a client makes of it

  /** What a client is told about a share; at lower levels some of it is missing. */
  datatype Info = Info(name: seq<bmp>, kind: Option<nat>, comment: Option<seq<bmp>>, permissions: Option<nat>,
                       limit: Option<nat>, uses: Option<nat>, path: Option<seq<bmp>>, password: Option<seq<bmp>>)

  /** The fields of a share at this level. */
  function Tells(level: nat, s: Share): Info {
    if level == 0 then Info(s.name, None, None, None, None, None, None, None)
    else if level == 1 then
      Info(s.name, Some(if s.isIpc then 3 else 0), Some(s.comment), None, None, None, None, None)
    else
      Info(s.name, Some(if s.isIpc then 3 else 0), Some(s.comment), Some(0),
           Some(if s.maxConnections > 0 then s.maxConnections % TWO_32 else 0xFFFF_FFFF),
           Some(s.numConnections % TWO_32), Some(s.path), Some([]))
  }

  /** How many 32-bit fields a share has at this level, and how many strings. */
  function Fields(level: nat): nat { if level == 0 then 1 else if level == 1 then 3 else 8 }

  function Strings(level: nat): nat { if level == 0 then 1 else if level == 1 then 2 else 4 }

  function Repeated<T>(x: T, n: nat): (s: seq<T>)
    ensures |s| == n && forall i :: 0 <= i < n ==> s[i] == x
  {
    seq(n, _ => x)
  }

  /** What a client expects to find, from the level and the number of shares. */
  function ClientTypes(level: nat, n: nat): seq<Type> {
    [Union32T, NumT(4), NumT(4), NumT(4)] +
    (if n == 0 then []
     else [NumT(4)] + Repeated(NumT(4), n * Fields(level)) + Repeated(VStringT, n * Strings(level))) +
    [NumT(4), NumT(4), NumT(4)]
  }

  function FieldAt(level: nat, items: seq<Item>, i: nat, k: nat): nat {
    var at := 5 + i * Fields(level) + k;
    if at < |items| && items[at].Num? then items[at].v else 0
  }

  /** The string a referent id stands for: the ids of strings start at 4, in the order of the strings. */
  function StringAt(level: nat, n: nat, items: seq<Item>, id: nat): seq<bmp> {
    var at := 5 + n * Fields(level) + id - 4;
    if 4 <= id && 0 <= at < |items| && items[at].VString? then items[at].text else []
  }

  function Follow(level: nat, n: nat, items: seq<Item>, i: nat, k: nat): seq<bmp> {
    StringAt(level, n, items, FieldAt(level, items, i, k))
  }

  /** Share i of n in a reply: its fields, with the pointers among them followed. */
  function Reading(level: nat, n: nat, items: seq<Item>, i: nat): Info {
    var name := Follow(level, n, items, i, 0);
    if level == 0 then Info(name, None, None, None, None, None, None, None)
    else
      var kind, comment := Some(FieldAt(level, items, i, 1)), Some(Follow(level, n, items, i, 2));
      if level == 1 then Info(name, kind, comment, None, None, None, None, None)
      else
        Info(name, kind, comment,
             Some(FieldAt(level, items, i, 3)), Some(FieldAt(level, items, i, 4)), Some(FieldAt(level, items, i, 5)),
             Some(Follow(level, n, items, i, 6)), Some(Follow(level, n, items, i, 7)))
  }

  /** The client finds the level, the number of shares, and what is to be told about each of them, in order. */
  ghost predicate ClientSees(level: nat, ss: seq<Share>, items: seq<Item>) {
    && |items| >= 4 && items[0] == Union32(level) && items[2] == Num(4, |ss|)
    && (ss != [] ==> |items| >= 5 && items[4] == Num(4, |ss|))
    && forall i :: 0 <= i < |ss| ==> Reading(level, |ss|, items, i) == Tells(level, ss[i])
  }

  lemma RepAt(level: nat, ss: seq<Share>, total: nat, more: seq<Item>, i: nat, k: nat)
    requires Supported(level) && i < |ss| && k < Fields(level)
    ensures FieldAt(level, ReplyItems(level, ss, total) + more, i, k) ==
            NumV(RepItems(level, CONTAINER + 1 + i * RefsPerShare(level), ss[i])[k])
  {
    hide Flatten, TailItems;
    FlattenAt(RepParts(level, CONTAINER + 1, ss), Fields(level), i, k);
  }

  lemma DataAt(level: nat, ss: seq<Share>, total: nat, more: seq<Item>, i: nat, k: nat)
    requires Supported(level) && i < |ss| && k < Strings(level) && DataItems(level, ss[i])[k].VString?
    ensures StringAt(level, |ss|, ReplyItems(level, ss, total) + more, 4 + (i * Strings(level) + k)) ==
            DataItems(level, ss[i])[k].text
  {
    hide Flatten, TailItems;
    FlattenWidth(RepParts(level, CONTAINER + 1, ss), Fields(level));
    FlattenAt(DataParts(level, ss), Strings(level), i, k);
  }

  /** Pointer k of share i, in field f, leads to string k of share i. */
  lemma Follows(level: nat, ss: seq<Share>, total: nat, more: seq<Item>, i: nat, f: nat, k: nat)
    requires Supported(level) && i < |ss| && f < Fields(level) && k < Strings(level) && 4 * |ss| <= INT_MAX + 8
    requires NumV(RepItems(level, CONTAINER + 1 + i * RefsPerShare(level), ss[i])[f]) ==
             (CONTAINER + 1 + i * RefsPerShare(level) + 1 + k) % TWO_32
    requires DataItems(level, ss[i])[k].VString?
    ensures Follow(level, |ss|, ReplyItems(level, ss, total) + more, i, f) == DataItems(level, ss[i])[k].text
  {
    hide ReplyItems, StringAt, FieldAt;
    IdsFit(level, |ss|, i, k);
    RepAt(level, ss, total, more, i, f);
    DataAt(level, ss, total, more, i, k);
  }

  lemma IdsFit(level: nat, n: nat, i: nat, k: nat)
    requires Supported(level) && i < n && k < Strings(level) && 4 * n <= INT_MAX + 8
    ensures (CONTAINER + 1 + i * RefsPerShare(level) + 1 + k) % TWO_32 == 4 + (i * Strings(level) + k)
  {
    assert i * Strings(level) <= i * 4;
  }

  lemma ShareTells(level: nat, ss: seq<Share>, total: nat, more: seq<Item>, i: nat)
    requires Supported(level) && 4 * |ss| <= INT_MAX + 8 && i < |ss|
    ensures Reading(level, |ss|, ReplyItems(level, ss, total) + more, i) == Tells(level, ss[i])
  {
    hide ReplyItems, FieldAt, StringAt, Follow;
    Follows(level, ss, total, more, i, 0, 0);
    if level >= 1 {
      RepAt(level, ss, total, more, i, 1);
      Follows(level, ss, total, more, i, 2, 1);
    }
    if level >= 2 {
      RepAt(level, ss, total, more, i, 3);
      RepAt(level, ss, total, more, i, 4);
      RepAt(level, ss, total, more, i, 5);
      Follows(level, ss, total, more, i, 6, 2);
      Follows(level, ss, total, more, i, 7, 3);
    }
  }

  lemma {:induction false} FlattenTypes(parts: seq<seq<Item>>, w: nat, t: Type)
    requires forall i :: 0 <= i < |parts| ==> TypesOf(parts[i]) == Repeated(t, w)
    ensures TypesOf(Flatten(parts)) == Repeated(t, |parts| * w)
    decreases |parts|
  {
    if parts != [] {
      assert |parts[0]| == |TypesOf(parts[0])| == w;
      FlattenTypes(parts[1..], w, t);
      assert |parts| * w == w + |parts[1..]| * w;
    }
  }

  lemma ArrayTypes(level: nat, p: nat, ss: seq<Share>)
    requires Supported(level)
    ensures TypesOf(ArrayItems(level, p, ss)) ==
            Repeated(NumT(4), |ss| * Fields(level)) + Repeated(VStringT, |ss| * Strings(level))
  {
    hide Flatten;
    FlattenTypes(RepParts(level, p, ss), Fields(level), NumT(4));
    FlattenTypes(DataParts(level, ss), Strings(level), VStringT);
  }

  lemma ReplyTypes(level: nat, ss: seq<Share>, total: nat)
    requires Supported(level)
    ensures TypesOf(ReplyItems(level, ss, total)) == ClientTypes(level, |ss|)
  {
    hide ArrayItems;
    ArrayTypes(level, CONTAINER + 1, ss);
  }

  /** A reply of a supported level tells a client every share in order: name, kind, comment, limit, uses and path. */
  lemma ReplyTells(level: nat, ss: seq<Share>, total: nat, more: seq<Item>)
    requires Supported(level) && 4 * |ss| <= INT_MAX + 8
    ensures TypesOf(ReplyItems(level, ss, total)) == ClientTypes(level, |ss|)
    ensures ClientSees(level, ss, ReplyItems(level, ss, total) + more)
    ensures var items := ReplyItems(level, ss, total);
            items[|items| - 3] == Num(4, total % TWO_32) && items[|items| - 1] == Num(4, 0)
  {
    hide Flatten;
    ReplyTypes(level, ss, total);
    forall i | 0 <= i < |ss|
      ensures Reading(level, |ss|, ReplyItems(level, ss, total) + more, i) == Tells(level, ss[i])
    {
      ShareTells(level, ss, total, more, i);
    }
    HeadFields(level, |ss|);
  }

  // ---------------------------------------------------------------- the headers by their places

  /** The octets of the headers, by the places that section 12.6 of The Open Group C706 gives them. */
  ghost predicate HeadersSay(little: bool, payload: seq<byte>, hdr: Header, length: nat, last: bool) {
    && |payload| >= HEADERS
    && payload[0] == hdr.vers && payload[1] == hdr.versMinor && payload[2] == 2
    && payload[3] == (if last then 3 else 1)
    && payload[4..8] == hdr.drep
    && DecodeInt(little, payload[8..10]) == length % 0x1_0000
    && DecodeInt(little, payload[10..12]) == hdr.authLength
    && DecodeInt(little, payload[12..16]) == hdr.callId
    && DecodeInt(little, payload[16..20]) == length % TWO_32
    && DecodeInt(little, payload[20..22]) == hdr.contextId
    && payload[22] == 0 && payload[23] == 0
  }

  /** The rest of the headers is read behind what comes first. */
  lemma FirstPlaces(m: Mode, payload: seq<byte>, hdr: Header, length: nat, status: Status, end: State)
    requires ValidMode(m) && ValidHeader(hdr)
    requires var items := HeaderItems(hdr, length, status);
             GetItems(m, State(payload, 0), TypesOf(items)) == (Some(items), end)
    ensures |payload| >= 8
    ensures payload[0] == hdr.vers && payload[1] == hdr.versMinor && payload[2] == 2
    ensures payload[3] == (if status == EMoreData then 1 else 3) && payload[4..8] == hdr.drep
    ensures var rest := HeaderItems(hdr, length, status)[5..];
            ReadableTypes(TypesOf(rest)) && GetItems(m, State(payload, 8), TypesOf(rest)) == (Some(rest), end)
  {
    hide GetItems, DecodeInt;
    var all := HeaderItems(hdr, length, status);
    var ts := TypesOf(all);
    HeaderValid(hdr, length, status);
    GotNum(m, payload, 0, ts, all, end);
    GotNum(m, payload, 1, ts[1..], all[1..], end);
    GotNum(m, payload, 2, ts[2..], all[2..], end);
    GotNum(m, payload, 3, ts[3..], all[3..], end);
    GotBlob(m, payload, 4, ts[4..], all[4..], end);
    assert ts[5..] == TypesOf(all[5..]);
  }

  lemma SecondPlaces(m: Mode, payload: seq<byte>, hdr: Header, length: nat, status: Status, end: State)
    requires ValidMode(m) && ValidHeader(hdr)
    requires var rest := HeaderItems(hdr, length, status)[5..];
             ReadableTypes(TypesOf(rest)) && GetItems(m, State(payload, 8), TypesOf(rest)) == (Some(rest), end)
    ensures |payload| >= 16 && DecodeInt(m.little, payload[8..10]) == length % 0x1_0000
    ensures DecodeInt(m.little, payload[10..12]) == hdr.authLength && DecodeInt(m.little, payload[12..16]) == hdr.callId
    ensures var rest := ResponseItems(hdr, length);
            GetItems(m, State(payload, 16), TypesOf(rest)) == (Some(rest), end)
  {
    hide GetItems, DecodeInt;
    var all := HeaderItems(hdr, length, status)[5..];
    var ts := TypesOf(all);
    GotNum(m, payload, 8, ts, all, end);
    GotNum(m, payload, 10, ts[1..], all[1..], end);
    GotNum(m, payload, 12, ts[2..], all[2..], end);
    assert all[3..] == ResponseItems(hdr, length);
    assert ts[3..] == TypesOf(all[3..]);
  }

  lemma HeaderPlaces(m: Mode, payload: seq<byte>, hdr: Header, length: nat, status: Status, end: State)
    requires ValidMode(m) && ValidHeader(hdr)
    requires var items := HeaderItems(hdr, length, status);
             GetItems(m, State(payload, 0), TypesOf(items)) == (Some(items), end)
    ensures HeadersSay(m.little, payload, hdr, length, status != EMoreData)
  {
    hide GetItems, DecodeInt, HeaderItems;
    FirstPlaces(m, payload, hdr, length, status, end);
    SecondPlaces(m, payload, hdr, length, status, end);
    var rest := ResponseItems(hdr, length);
    ResponseValid(hdr, length);
    var ts := TypesOf(rest);
    GotNum(m, payload, 16, ts, rest, end);
    GotNum(m, payload, 20, ts[1..], rest[1..], end);
    GotNum(m, payload, 22, ts[2..], rest[2..], end);
    GotNum(m, payload, 23, ts[3..], rest[3..], end);
  }

  lemma ResponseValid(hdr: Header, length: nat)
    requires ValidHeader(hdr)
    ensures ValidItems(ResponseItems(hdr, length))
  {
    Pow256Four();
  }

  /** The client reads the headers by their places, the shares behind them, and a return code of zero at the end. */
  ghost predicate ClientReads(m: Mode, now: State, hdr: Header, level: nat, ss: seq<Share>) {
    && ValidMode(m) && HeadersSay(m.little, now.payload, hdr, now.offset, true)
    && var r := GetItems(m, State(now.payload, HEADERS), ClientTypes(level, |ss|) + [NumT(4)]);
       && r.0.Some? && r.1 == now && ClientSees(level, ss, r.0.value) && r.0.value[|r.0.value| - 1] == Num(4, 0)
  }

  lemma MessageTells(m: Mode, st: State, now: State, hdr: Header, level: nat, ss: seq<Share>)
    requires Supported(level) && |st.payload| <= INT_MAX && (forall i :: 0 <= i < |ss| ==> ValidShare(ss[i]))
    requires HasRoom(m, st, InfoItems(level, ss, true))
    requires Message(m, now, hdr, OK, InfoItems(level, ss, true) + [U32(Code(OK))])
    ensures ClientReads(m, now, hdr, level, ss)
  {
    hide GetItems, PutItems, ReplyItems, HeadersSay, ClientSees, ValidItems, HeaderItems, ClientTypes;
    FewShares(m, st, level, ss, |ss|);
    var items, code := InfoItems(level, ss, true), [U32(Code(OK))];
    ReplyTells(level, ss, |ss|, code);
    assert TypesOf(items + code) == TypesOf(items) + [NumT(4)];
    HeaderPlaces(m, now.payload, hdr, now.offset, OK, State(now.payload, HEADERS));
  }
}
