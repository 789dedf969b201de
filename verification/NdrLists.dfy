/** Loops of integer writes and reads, and how item lists compose. */
module NdrLists {
  import opened Bytes
  import opened Ndr
  import opened NdrCodec

  function Nums(w: nat, vs: seq<nat>): (items: seq<Item>)
    ensures |items| == |vs|
  {
    seq(|vs|, i requires 0 <= i < |vs| => Num(w, vs[i]))
  }

  ghost predicate AllBelow(vs: seq<nat>, n: nat) { forall i :: 0 <= i < |vs| ==> vs[i] < n }

  lemma NumsValid(w: nat, vs: seq<nat>)
    requires Width(w) && AllBelow(vs, Pow256(w))
    ensures ValidItems(Nums(w, vs))
  {
  }

  lemma {:induction false} PutItemsConcat(m: Mode, st: State, a: seq<Item>, b: seq<Item>)
    requires ValidMode(m) && ValidItems(a) && ValidItems(b) && ValidItems(a + b)
    ensures PutItems(m, st, a + b) ==
            (if PutItems(m, st, a).0 then PutItems(m, PutItems(m, st, a).1, b) else PutItems(m, st, a))
    decreases |a|
  {
    hide PutItem;
    if a == [] {
      assert a + b == b;
    } else {
      assert (a + b)[1..] == a[1..] + b && (a + b)[0] == a[0];
      var r := PutItem(m, st, a[0]);
      if r.0 {
        PutItemsConcat(m, r.1, a[1..], b);
      }
    }
  }

  lemma PutItemsAppend(m: Mode, st: State, a: seq<Item>, it: Item)
    requires ValidMode(m) && ValidItems(a) && ValidItem(it) && PutItems(m, st, a).0
    ensures ValidItems(a + [it])
    ensures PutItems(m, st, a + [it]) == PutItem(m, PutItems(m, st, a).1, it)
  {
    hide PutItem;
    PutItemsConcat(m, st, a, [it]);
    var mid := PutItems(m, st, a).1;
    var r := PutItem(m, mid, it);
    assert PutItems(m, r.1, []) == (true, r.1);
  }

  lemma {:induction false} PutItemsFails(m: Mode, st: State, a: seq<Item>, i: nat)
    requires ValidMode(m) && ValidItems(a) && i <= |a| && ValidItems(a[..i])
    requires !PutItems(m, st, a[..i]).0
    ensures PutItems(m, st, a) == PutItems(m, st, a[..i])
  {
    assert a == a[..i] + a[i..];
    PutItemsConcat(m, st, a[..i], a[i..]);
  }

  /** A loop of integer writes. */
  method WriteNums(dce: Dce, w: nat, vs: seq<nat>) returns (ok: bool)
    requires Width(w) && AllBelow(vs, Pow256(w))
    modifies dce`offset, dce.payload
    ensures ValidItems(Nums(w, vs))
    ensures (ok, dce.Now()) == PutItems(dce.ModeOf(), old(dce.Now()), Nums(w, vs))
  {
    hide PutItem, PutPrim;
    NumsValid(w, vs);
    ghost var m, st, items := dce.ModeOf(), dce.Now(), Nums(w, vs);
    ok := true;
    for i := 0 to |vs|
      invariant m == dce.ModeOf() && ok
      invariant PutItems(m, st, items[..i]) == (true, dce.Now())
    {
      assert items[..i + 1] == items[..i] + [Num(w, vs[i])];
      PutItemsAppend(m, st, items[..i], Num(w, vs[i]));
      ok := dce.WriteInt(w, vs[i]);
      if !ok {
        PutItemsFails(m, st, items, i + 1);
        return;
      }
    }
    assert items[..|vs|] == items;
  }

  /** n times the same reader. */
  function GetMany<T>(get: State -> (Option<T>, State), st: State, n: nat): (r: (Option<seq<T>>, State))
    ensures r.0.Some? ==> |r.0.value| == n
    decreases n
  {
    if n == 0 then (Some([]), st)
    else
      var (x, s) := get(st);
      if x.None? then (None, s)
      else
        var (rest, e) := GetMany(get, s, n - 1);
        if rest.None? then (None, e) else (Some([x.value] + rest.value), e)
  }

  /** What a loop that has read front already will return. */
  ghost function After<T>(front: seq<T>, r: (Option<seq<T>>, State)): (Option<seq<T>>, State) {
    if r.0.None? then r else (Some(front + r.0.value), r.1)
  }

  lemma AfterNothing<T>(get: State -> (Option<T>, State), st: State, n: nat, front: seq<T>)
    ensures After([], GetMany(get, st, n)) == GetMany(get, st, n)
    ensures After(front, GetMany(get, st, 0)) == (Some(front), st)
  {
    var r := GetMany(get, st, n);
    assert r.0.Some? ==> [] + r.0.value == r.0.value;
    assert front + [] == front;
  }

  lemma AfterOne<T>(front: seq<T>, get: State -> (Option<T>, State), st: State, n: nat)
    requires n > 0
    ensures var (x, s) := get(st);
            After(front, GetMany(get, st, n)) ==
            if x.None? then (None, s) else After(front + [x.value], GetMany(get, s, n - 1))
  {
    var (x, s) := get(st);
    if x.Some? {
      var rest := GetMany(get, s, n - 1).0;
      if rest.Some? {
        assert front + ([x.value] + rest.value) == (front + [x.value]) + rest.value;
      }
    }
  }

  function IntReader(m: Mode, w: nat): State -> (Option<nat>, State)
    requires Width(w)
  {
    (st: State) => if Width(w) then GetInt(m, st, w) else (None, st)
  }

  function GetNums(m: Mode, st: State, w: nat, n: nat): (r: (Option<seq<nat>>, State))
    requires Width(w)
    ensures r.0.Some? ==> |r.0.value| == n
  {
    GetMany(IntReader(m, w), st, n)
  }

  method ReadNums(dce: Dce, w: nat, n: nat) returns (vs: Option<seq<nat>>)
    requires Width(w)
    modifies dce`offset
    ensures (vs, dce.Now()) == GetNums(dce.ModeOf(), old(dce.Now()), w, n)
  {
    hide GetInt, GetMany, After;
    ghost var m, st := dce.ModeOf(), dce.Now();
    ghost var get := IntReader(m, w);
    var acc := [];
    AfterNothing(get, st, n, []);
    for i := 0 to n
      invariant m == dce.ModeOf() && After(acc, GetMany(get, dce.Now(), n - i)) == GetMany(get, st, n)
    {
      AfterOne(acc, get, dce.Now(), n - i);
      var v := dce.ReadInt(w);
      if v.None? {
        return None;
      }
      acc := acc + [v.value];
    }
    AfterNothing(get, dce.Now(), 0, acc);
    vs := Some(acc);
  }

  lemma {:induction false} AllPrimsConcat(m: Mode, a: seq<Item>, b: seq<Item>)
    requires ValidItems(a) && ValidItems(b) && ValidItems(a + b)
    ensures AllPrims(m, a + b) == AllPrims(m, a) + AllPrims(m, b)
    decreases |a|
  {
    hide Prims;
    if a == [] {
      assert a + b == b;
    } else {
      assert (a + b)[1..] == a[1..] + b && (a + b)[0] == a[0];
      AllPrimsConcat(m, a[1..], b);
    }
  }

  lemma {:induction false} NumsRead(m: Mode, payload: seq<byte>, o: nat, w: nat, vs: seq<nat>)
    requires ValidMode(m) && Width(w) && AllBelow(vs, Pow256(w)) && ValidItems(Nums(w, vs))
    requires Laid(m, payload, o, AllPrims(m, Nums(w, vs)))
    ensures GetNums(m, State(payload, o), w, |vs|) ==
            (Some(vs), State(payload, End(m, o, AllPrims(m, Nums(w, vs)))))
    decreases |vs|
  {
    hide Laid, GetInt;
    if vs != [] {
      assert Nums(w, vs)[1..] == Nums(w, vs[1..]);
      NumsValid(w, vs[1..]);
      var rest := AllPrims(m, Nums(w, vs[1..]));
      assert AllPrims(m, Nums(w, vs)) == [Int(w, vs[0])] + rest;
      IntLaid(m, payload, o, w, vs[0], rest);
      NumsRead(m, payload, GetInt(m, State(payload, o), w).1.offset, w, vs[1..]);
      assert [vs[0]] + vs[1..] == vs;
    }
  }

  lemma EndStep(m: Mode, o: nat, w: nat, v: nat, ps: seq<Prim>)
    requires ValidMode(m) && Width(w) && v < Pow256(w) && ValidPrims(ps)
    ensures End(m, o, [Int(w, v)] + ps) == End(m, Align(o, w) + w, ps)
  {
    assert ([Int(w, v)] + ps)[1..] == ps;
  }

  lemma ListEnd(m: Mode, o: nat, a: seq<Item>, b: seq<Item>)
    requires ValidMode(m) && ValidItems(a + b)
    ensures ValidItems(a) && ValidItems(b)
    ensures End(m, o, AllPrims(m, a + b)) == End(m, End(m, o, AllPrims(m, a)), AllPrims(m, b))
  {
    hide End, AllPrims;
    assert forall i :: 0 <= i < |a| ==> a[i] == (a + b)[i];
    assert forall i :: 0 <= i < |b| ==> b[i] == (a + b)[|a| + i];
    AllPrimsConcat(m, a, b);
    assert ValidPrims(AllPrims(m, a) + AllPrims(m, b));
    LaidConcat(m, [], o, AllPrims(m, a), AllPrims(m, b));
  }

  lemma OneEnd(m: Mode, o: nat, w: nat, v: nat)
    requires ValidMode(m) && Width(w) && v < Pow256(w)
    ensures ValidItems([Num(w, v)]) && End(m, o, AllPrims(m, [Num(w, v)])) == Align(o, w) + w
  {
    hide End;
    assert AllPrims(m, [Num(w, v)]) == [Int(w, v)] + [];
    EndStep(m, o, w, v, []);
    EndNothing(m, Align(o, w) + w);
  }

  /** An item that starts aligned leaves no gap in front of the next one. */
  lemma ItemEnd(m: Mode, o: nat, items: seq<Item>, k: nat)
    requires ValidMode(m) && ValidItems(items) && k < |items|
    requires (items[k].Num? && o % items[k].width == 0) || (items[k].Blob? && o % 2 == 0)
    ensures ValidItems(items[k..]) && ValidItems(items[k + 1..])
    ensures var size := if items[k].Num? then items[k].width else |items[k].bytes|;
            End(m, o, AllPrims(m, items[k..])) == End(m, o + size, AllPrims(m, items[k + 1..]))
  {
    hide End, AllPrims, ValidItem;
    assert items[k..] == [items[k]] + items[k + 1..];
    ListEnd(m, o, [items[k]], items[k + 1..]);
    if items[k].Num? {
      NumIsValid(items[k]);
      OneEnd(m, o, items[k].width, items[k].v);
    } else {
      BlobEnd(m, o, items[k].bytes);
    }
  }

  lemma NumIsValid(it: Item)
    requires it.Num? && ValidItem(it)
    ensures Width(it.width) && it.v < Pow256(it.width)
  {
  }

  lemma BlobEnd(m: Mode, o: nat, s: seq<byte>)
    requires ValidMode(m)
    ensures ValidItems([Blob(s)]) && End(m, o, AllPrims(m, [Blob(s)])) == Align(o, 2) + |s|
  {
    assert AllPrims(m, [Blob(s)]) == [Raw(s)];
    assert [Raw(s)][1..] == [];
  }

  /** Numbers written from an aligned offset leave no gaps. */
  lemma {:induction false} NumsEnd(m: Mode, o: nat, w: nat, vs: seq<nat>)
    requires ValidMode(m) && Width(w) && AllBelow(vs, Pow256(w)) && ValidItems(Nums(w, vs)) && o % w == 0
    ensures End(m, o, AllPrims(m, Nums(w, vs))) == o + w * |vs|
    decreases |vs|
  {
    hide End;
    if vs == [] {
      EndNothing(m, o);
    } else {
      assert Nums(w, vs)[1..] == Nums(w, vs[1..]);
      NumsValid(w, vs[1..]);
      var rest := AllPrims(m, Nums(w, vs[1..]));
      assert AllPrims(m, Nums(w, vs)) == [Int(w, vs[0])] + rest;
      EndStep(m, o, w, vs[0], rest);
      NumsEnd(m, o + w, w, vs[1..]);
      assert w + w * |vs[1..]| == w * |vs|;
    }
  }

  // ---------------------------------------------------------------- reading by types

  method ReadItem(dce: Dce, t: Type) returns (it: Option<Item>)
    requires t.NumT? ==> Width(t.width)
    modifies dce`offset
    ensures (it, dce.Now()) == GetItem(dce.ModeOf(), old(dce.Now()), t)
  {
    hide GetInt, GetVString, GetRaw;
    match t
    case NumT(w) =>
      var v := dce.ReadInt(w);
      it := if v.Some? then Some(Num(w, v.value)) else None;
    case Union32T =>
      var v := dce.ReadUnionInt32();
      it := if v.Some? then Some(Union32(v.value)) else None;
    case BlobT(n) =>
      var b := dce.ReadBytes(n);
      it := if b.Some? then Some(Blob(b.value)) else None;
    case VStringT =>
      var t := dce.ReadVString();
      it := if t.Some? then Some(VString(t.value)) else None;
  }

  /** Reads one item after the other; the first that fails ends it. */
  method ReadItems(dce: Dce, ts: seq<Type>) returns (items: Option<seq<Item>>)
    requires forall i :: 0 <= i < |ts| && ts[i].NumT? ==> Width(ts[i].width)
    modifies dce`offset
    ensures (items, dce.Now()) == GetItems(dce.ModeOf(), old(dce.Now()), ts)
    decreases |ts|
  {
    hide GetItem;
    if ts == [] {
      return Some([]);
    }
    var it := ReadItem(dce, ts[0]);
    if it.None? {
      return None;
    }
    var rest := ReadItems(dce, ts[1..]);
    items := if rest.None? then None else Some([it.value] + rest.value);
  }

  method WriteItem(dce: Dce, it: Item) returns (ok: bool)
    requires ValidItem(it)
    modifies dce`offset, dce.payload
    ensures (ok, dce.Now()) == PutItem(dce.ModeOf(), old(dce.Now()), it)
  {
    hide PutItem;
    match it
    case Num(w, v) => ok := dce.WriteInt(w, v);
    case Union32(v) => ok := dce.WriteUnionInt32(v);
    case Blob(s) => ok := dce.WriteBytes(s);
    case VString(t) => ok := dce.WriteVString(t);
  }

  /** Writes one item after the other; the first that is refused ends it. */
  method WriteItems(dce: Dce, items: seq<Item>) returns (ok: bool)
    requires ValidItems(items)
    modifies dce`offset, dce.payload
    ensures (ok, dce.Now()) == PutItems(dce.ModeOf(), old(dce.Now()), items)
    decreases |items|
  {
    hide PutItem;
    if items == [] {
      return true;
    }
    ok := WriteItem(dce, items[0]);
    if ok {
      ok := WriteItems(dce, items[1..]);
    }
  }

  // ---------------------------------------------------------------- reading a counted list

  /** Wherever these items are laid out, the reader finds x and stops behind them. */
  ghost predicate Reads<T>(m: Mode, payload: seq<byte>, get: State -> (Option<T>, State), items: seq<Item>, x: T)
    requires ValidMode(m) && ValidItems(items)
  {
    forall o: nat :: Laid(m, payload, o, AllPrims(m, items)) ==>
      get(State(payload, o)) == (Some(x), State(payload, End(m, o, AllPrims(m, items))))
  }

  function Flatten<T>(parts: seq<seq<T>>): seq<T> {
    if parts == [] then [] else parts[0] + Flatten(parts[1..])
  }

  lemma {:induction false} FlattenAppend<T>(parts: seq<seq<T>>, last: seq<T>)
    ensures Flatten(parts + [last]) == Flatten(parts) + last
  {
    if parts != [] {
      assert (parts + [last])[1..] == parts[1..] + [last];
      FlattenAppend(parts[1..], last);
    } else {
      assert parts + [last] == [last] && [last][1..] == [];
      assert Flatten([last]) == last + Flatten<T>([]);
    }
  }

  lemma {:induction false} FlattenConcat<T>(a: seq<seq<T>>, b: seq<seq<T>>)
    ensures Flatten(a + b) == Flatten(a) + Flatten(b)
  {
    if a == [] {
      assert a + b == b;
    } else {
      assert (a + b)[1..] == a[1..] + b;
      FlattenConcat(a[1..], b);
    }
  }

  /** Parts of one width stand at multiples of it. */
  lemma {:induction false} FlattenAt<T>(parts: seq<seq<T>>, w: nat, i: nat, k: nat)
    requires (forall j :: 0 <= j < |parts| ==> |parts[j]| == w) && i < |parts| && k < w
    ensures |Flatten(parts)| == |parts| * w && i * w + k < |parts| * w && Flatten(parts)[i * w + k] == parts[i][k]
    decreases |parts|
  {
    FlattenWidth(parts, w);
    PlaceInside(i, |parts|, w, k);
    if i > 0 {
      FlattenAt(parts[1..], w, i - 1, k);
      PlaceBehind(i, w);
      var at := (i - 1) * w + k;
      assert (parts[0] + Flatten(parts[1..]))[w + at] == Flatten(parts[1..])[at];
    }
  }

  lemma PlaceInside(i: nat, n: nat, w: nat, k: nat)
    requires i < n && k < w
    ensures i * w + k < n * w
  {
    assert (i + 1) * w <= n * w;
  }

  lemma PlaceBehind(i: nat, w: nat)
    requires i > 0
    ensures i * w == w + (i - 1) * w && 0 <= (i - 1) * w
  {
  }

  lemma {:induction false} FlattenWidth<T>(parts: seq<seq<T>>, w: nat)
    requires forall j :: 0 <= j < |parts| ==> |parts[j]| == w
    ensures |Flatten(parts)| == |parts| * w
    decreases |parts|
  {
    if parts != [] {
      FlattenWidth(parts[1..], w);
      assert |parts| * w == w + |parts[1..]| * w;
    }
  }

  ghost predicate AllValid(parts: seq<seq<Item>>) { forall i :: 0 <= i < |parts| ==> ValidItems(parts[i]) }

  lemma {:induction false} FlattenValid(parts: seq<seq<Item>>)
    requires AllValid(parts)
    ensures ValidItems(Flatten(parts))
  {
    if parts != [] {
      FlattenValid(parts[1..]);
    }
  }

  lemma {:induction false} ManyRead<T>(m: Mode, payload: seq<byte>, o: nat, get: State -> (Option<T>, State),
                                       parts: seq<seq<Item>>, xs: seq<T>)
    requires ValidMode(m) && AllValid(parts) && ValidItems(Flatten(parts)) && |parts| == |xs|
    requires forall i :: 0 <= i < |xs| ==> Reads(m, payload, get, parts[i], xs[i])
    requires Laid(m, payload, o, AllPrims(m, Flatten(parts)))
    ensures GetMany(get, State(payload, o), |xs|) == (Some(xs), State(payload, End(m, o, AllPrims(m, Flatten(parts)))))
    decreases |xs|
  {
    hide Laid, End, AllPrims, ValidItems;
    if xs == [] {
      NoPrims(m, o);
    } else {
      var head, rest := parts[0], Flatten(parts[1..]);
      assert AllValid(parts[1..]) by { assert forall i :: 0 <= i < |parts[1..]| ==> parts[1..][i] == parts[i + 1]; }
      FlattenValid(parts[1..]);
      AllPrimsConcat(m, head, rest);
      LaidConcat(m, payload, o, AllPrims(m, head), AllPrims(m, rest));
      assert Reads(m, payload, get, head, xs[0]);
      ManyRead(m, payload, End(m, o, AllPrims(m, head)), get, parts[1..], xs[1..]);
      assert [xs[0]] + xs[1..] == xs;
    }
  }

  /** Wherever these items are laid out, the reader refuses them. */
  ghost predicate Refuses<T>(m: Mode, payload: seq<byte>, get: State -> (Option<T>, State), items: seq<Item>)
    requires ValidMode(m) && ValidItems(items)
  {
    forall o: nat :: Laid(m, payload, o, AllPrims(m, items)) ==> get(State(payload, o)).0.None?
  }

  lemma {:induction false} ManyRefuse<T>(m: Mode, payload: seq<byte>, o: nat, get: State -> (Option<T>, State),
                                         parts: seq<seq<Item>>, xs: seq<T>, i: nat)
    requires ValidMode(m) && AllValid(parts) && ValidItems(Flatten(parts)) && |parts| == |xs| && i < |xs|
    requires forall k :: 0 <= k < i ==> Reads(m, payload, get, parts[k], xs[k])
    requires Refuses(m, payload, get, parts[i])
    requires Laid(m, payload, o, AllPrims(m, Flatten(parts)))
    ensures GetMany(get, State(payload, o), |xs|).0.None?
    decreases i
  {
    hide Laid, End, AllPrims, ValidItems;
    var head, rest := parts[0], Flatten(parts[1..]);
    assert AllValid(parts[1..]) by { assert forall k :: 0 <= k < |parts[1..]| ==> parts[1..][k] == parts[k + 1]; }
    FlattenValid(parts[1..]);
    AllPrimsConcat(m, head, rest);
    LaidConcat(m, payload, o, AllPrims(m, head), AllPrims(m, rest));
    if i > 0 {
      assert Reads(m, payload, get, head, xs[0]);
      ManyRefuse(m, payload, End(m, o, AllPrims(m, head)), get, parts[1..], xs[1..], i - 1);
    }
  }

  lemma NoPrims(m: Mode, o: nat)
    requires ValidMode(m)
    ensures AllPrims(m, []) == [] && End(m, o, []) == o
  {
  }

  /** A loop that writes one part after the other: what the first i parts and the next one leave. */
  lemma NextPart(m: Mode, st: State, parts: seq<seq<Item>>, i: nat)
    requires ValidMode(m) && AllValid(parts) && i < |parts|
    ensures ValidItems(Flatten(parts)) && ValidItems(Flatten(parts[..i])) && ValidItems(Flatten(parts[..i + 1]))
    ensures var r := PutItems(m, st, Flatten(parts[..i]));
            r.0 ==>
              var next := PutItems(m, r.1, parts[i]);
              && PutItems(m, st, Flatten(parts[..i + 1])) == next
              && (!next.0 ==> PutItems(m, st, Flatten(parts)) == next)
  {
    hide PutItems, ValidItems, Flatten;
    FlattenValid(parts);
    FlattenValid(parts[..i]);
    FlattenValid(parts[..i + 1]);
    FlattenValid(parts[i + 1..]);
    assert parts[..i + 1] == parts[..i] + [parts[i]];
    FlattenAppend(parts[..i], parts[i]);
    assert parts == parts[..i + 1] + parts[i + 1..];
    FlattenConcat(parts[..i + 1], parts[i + 1..]);
    PutItemsConcat(m, st, Flatten(parts[..i]), parts[i]);
    PutItemsConcat(m, st, Flatten(parts[..i + 1]), Flatten(parts[i + 1..]));
  }

  // ---------------------------------------------------------------- what was read, by its place

  ghost predicate ReadableTypes(ts: seq<Type>) { forall i :: 0 <= i < |ts| && ts[i].NumT? ==> Width(ts[i].width) }

  /** A number that was read first stands where reading began, and the rest was read behind it. */
  lemma GotNum(m: Mode, payload: seq<byte>, o: nat, ts: seq<Type>, items: seq<Item>, end: State)
    requires ValidMode(m) && ReadableTypes(ts) && ts != [] && ts[0].NumT? && o % ts[0].width == 0
    requires GetItems(m, State(payload, o), ts) == (Some(items), end)
    ensures var w := ts[0].width;
            && o + w <= |payload| && items != [] && items[0] == Num(w, DecodeInt(m.little, payload[o..o + w]))
            && (w == 1 ==> items[0].v == payload[o])
            && GetItems(m, State(payload, o + w), ts[1..]) == (Some(items[1..]), end)
  {
    hide Align, DecodeInt, GetVString, GetRaw;
    if ts[0].width == 1 {
      assert payload[o..o + 1] == [payload[o]];
      OneOctet(m.little, payload[o]);
    }
  }

  lemma OneOctet(little: bool, b: byte)
    ensures DecodeInt(little, [b]) == b
  {
    assert [b][1..] == [] && [b][..0] == [];
    assert FromLittle([]) == 0 && FromBig([]) == 0;
  }

  lemma GotBlob(m: Mode, payload: seq<byte>, o: nat, ts: seq<Type>, items: seq<Item>, end: State)
    requires ValidMode(m) && ReadableTypes(ts) && ts != [] && ts[0].BlobT? && o % 2 == 0
    requires GetItems(m, State(payload, o), ts) == (Some(items), end)
    ensures var n := ts[0].len;
            && o + n <= |payload| && items != [] && items[0] == Blob(payload[o..o + n])
            && GetItems(m, State(payload, o + n), ts[1..]) == (Some(items[1..]), end)
  {
    hide Align, DecodeInt, GetVString, GetInt;
  }

  lemma GotNothing(m: Mode, st: State, items: seq<Item>, end: State)
    requires ValidMode(m) && GetItems(m, st, []) == (Some(items), end)
    ensures items == [] && end == st
  {
  }
}
