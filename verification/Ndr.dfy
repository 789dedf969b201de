/**
  NDR marshalling into a payload of fixed size (sections 14.2.2, 14.2.5 and 14.3.4 of The Open
  Group C706): aligned integers in either byte order, raw bytes, non-encapsulated 32-bit unions
  and conformant varying strings.

  A marshalled item is a list of primitive writes.  The writers and readers are functions on a
  payload and an offset; NdrCodec proves the cursor object against them.  Offsets are unbounded
  here: OffsetStaysNear shows they never pass the payload by 16 octets, so the
  size_t arithmetic of the source cannot wrap.
 */
module Ndr {
  import opened Bytes

  /** Byte order, and the alignment a string leaves behind (1 when neither align flag is set). */
  datatype Mode = Mode(little: bool, align: nat)

  ghost predicate ValidMode(m: Mode) { m.align == 1 || m.align == 4 || m.align == 8 }

  datatype State = State(payload: seq<byte>, offset: nat)

  function Align(o: nat, a: nat): (r: nat)
    requires a == 1 || a == 2 || a == 4 || a == 8
    ensures o <= r < o + a && r % a == 0
    ensures o % a == 0 ==> r == o
  {
    RoundsUp(o, a);
    if o % a == 0 then o else (o + (a - 1)) / a * a
  }

  lemma RoundsUp(o: nat, a: nat)
    requires a > 0
    ensures var r := (o + (a - 1)) / a * a; o <= r < o + a && r % a == 0
  {
    var q, b := (o + (a - 1)) / a, (o + (a - 1)) % a;
    assert o + (a - 1) == q * a + b;
    DivModUnique(q * a, a, q, 0);
  }

  predicate Width(w: nat) { w == 1 || w == 2 || w == 4 || w == 8 }

  // ---------------------------------------------------------------- integers as bytes

  /** The k low-order octets of n, least significant first. */
  function LittleEndian(n: nat, k: nat): (s: seq<byte>)
    ensures |s| == k
  {
    if k == 0 then [] else [n % 0x100] + LittleEndian(n / 0x100, k - 1)
  }

  function FromLittle(s: seq<byte>): nat {
    if s == [] then 0 else s[0] + 0x100 * FromLittle(s[1..])
  }

  function FromBig(s: seq<byte>): nat {
    if s == [] then 0 else 0x100 * FromBig(s[..|s| - 1]) + s[|s| - 1]
  }

  function EncodeInt(little: bool, n: nat, k: nat): (s: seq<byte>)
    ensures |s| == k
  {
    if little then LittleEndian(n, k) else BigEndian(n, k)
  }

  function DecodeInt(little: bool, s: seq<byte>): nat { if little then FromLittle(s) else FromBig(s) }

  /** Octet i of the two orders: counted from the low end, or from the high end. */
  lemma {:induction false} OctetOrder(n: nat, k: nat, i: nat)
    requires i < k
    ensures EncodeInt(true, n, k)[i] == n / Pow256(i) % 0x100
    ensures EncodeInt(false, n, k)[k - 1 - i] == n / Pow256(i) % 0x100
    decreases k
  {
    if i > 0 {
      OctetOrder(n / 0x100, k - 1, i - 1);
      DivTwice(n, Pow256(i - 1));
    }
  }

  lemma DivTwice(n: nat, p: nat)
    requires p > 0
    ensures n / 0x100 / p == n / (0x100 * p)
  {
    var q, r := n / 0x100 / p, n / 0x100 % p;
    assert n == 0x100 * (p * q + r) + n % 0x100;
    DivModUnique(n, 0x100 * p, q, 0x100 * r + n % 0x100);
  }

  lemma {:induction false} LittleRoundTrip(n: nat, k: nat)
    requires n < Pow256(k)
    ensures FromLittle(LittleEndian(n, k)) == n
  {
    if k > 0 {
      LittleRoundTrip(n / 0x100, k - 1);
      assert LittleEndian(n, k)[1..] == LittleEndian(n / 0x100, k - 1);
    }
  }

  lemma {:induction false} BigRoundTrip(n: nat, k: nat)
    requires n < Pow256(k)
    ensures FromBig(BigEndian(n, k)) == n
  {
    if k > 0 {
      BigRoundTrip(n / 0x100, k - 1);
      assert BigEndian(n, k)[..k - 1] == BigEndian(n / 0x100, k - 1);
    }
  }

  lemma IntRoundTrip(little: bool, n: nat, k: nat)
    requires n < Pow256(k)
    ensures DecodeInt(little, EncodeInt(little, n, k)) == n
  {
    LittleRoundTrip(n, k);
    BigRoundTrip(n, k);
  }

  // ---------------------------------------------------------------- primitive writes

  datatype Prim = Int(width: nat, v: nat) | Raw(bytes: seq<byte>) | AutoAlign

  ghost predicate ValidPrim(p: Prim) { p.Int? ==> Width(p.width) && p.v < Pow256(p.width) }

  ghost predicate ValidPrims(ps: seq<Prim>) { forall i :: 0 <= i < |ps| ==> ValidPrim(ps[i]) }

  function Start(m: Mode, p: Prim, o: nat): (r: nat)
    requires m.align in {1, 4, 8} && (p.Int? ==> Width(p.width))
    ensures o <= r < o + 8
  {
    match p
    case Int(w, _) => Align(o, w)
    case Raw(_) => Align(o, 2)
    case AutoAlign => Align(o, m.align)
  }

  function Octets(m: Mode, p: Prim): seq<byte> {
    match p
    case Int(w, v) => EncodeInt(m.little, v, w)
    case Raw(s) => s
    case AutoAlign => []
  }

  /** Whether the fixed payload of size n has room; aligning alone is never refused. */
  predicate Fits(m: Mode, p: Prim, o: nat, n: nat)
    requires m.align in {1, 4, 8} && (p.Int? ==> Width(p.width))
  {
    p.AutoAlign? || Start(m, p, o) + |Octets(m, p)| <= n
  }

  /** A refused write has already aligned the offset and touches nothing else. */
  function PutPrim(m: Mode, st: State, p: Prim): (r: (bool, State))
    requires m.align in {1, 4, 8} && (p.Int? ==> Width(p.width))
    ensures |r.1.payload| == |st.payload| && st.offset <= r.1.offset
  {
    var at := Start(m, p, st.offset);
    if p.AutoAlign? then (true, State(st.payload, at))
    else if !Fits(m, p, st.offset, |st.payload|) then (false, State(st.payload, at))
    else (true, State(Splice(st.payload, at, Octets(m, p)), at + |Octets(m, p)|))
  }

  function PutPrims(m: Mode, st: State, ps: seq<Prim>): (r: (bool, State))
    requires ValidMode(m) && ValidPrims(ps)
    ensures |r.1.payload| == |st.payload| && st.offset <= r.1.offset
    decreases |ps|
  {
    if ps == [] then (true, st)
    else
      var r := PutPrim(m, st, ps[0]);
      if r.0 then PutPrims(m, r.1, ps[1..]) else r
  }

  function End(m: Mode, o: nat, ps: seq<Prim>): (e: nat)
    requires ValidMode(m) && ValidPrims(ps)
    ensures o <= e
    decreases |ps|
  {
    if ps == [] then o else End(m, Start(m, ps[0], o) + |Octets(m, ps[0])|, ps[1..])
  }

  /** The primitives stand in the payload one behind the other, each at its aligned place. */
  ghost predicate Laid(m: Mode, payload: seq<byte>, o: nat, ps: seq<Prim>)
    requires ValidMode(m) && ValidPrims(ps)
    decreases |ps|
  {
    ps == [] ||
    (var at := Start(m, ps[0], o);
     && (ps[0].AutoAlign? || At(payload, at, Octets(m, ps[0])))
     && Laid(m, payload, at + |Octets(m, ps[0])|, ps[1..]))
  }

  lemma PutPrimKeepsPrefix(m: Mode, st: State, p: Prim)
    requires ValidMode(m) && ValidPrim(p)
    ensures var r := PutPrim(m, st, p).1;
            forall i :: 0 <= i < |st.payload| && !(st.offset <= i < r.offset) ==> r.payload[i] == st.payload[i]
  {
  }

  /** No byte outside the written range changes, whether the write succeeds or not. */
  lemma {:induction false} PutPrimsFrame(m: Mode, st: State, ps: seq<Prim>)
    requires ValidMode(m) && ValidPrims(ps)
    ensures var r := PutPrims(m, st, ps).1;
            forall i :: 0 <= i < |st.payload| && !(st.offset <= i < r.offset) ==> r.payload[i] == st.payload[i]
    decreases |ps|
  {
    hide PutPrim;
    if ps != [] {
      PutPrimKeepsPrefix(m, st, ps[0]);
      var r := PutPrim(m, st, ps[0]);
      if r.0 {
        PutPrimsFrame(m, r.1, ps[1..]);
      }
    }
  }

  lemma AtKept(p: seq<byte>, q: seq<byte>, at: nat, s: seq<byte>)
    requires At(p, at, s) && |p| == |q| && forall i :: 0 <= i < at + |s| ==> p[i] == q[i]
    ensures At(q, at, s)
  {
    assert q[at..at + |s|] == p[at..at + |s|];
  }

  /** A successful write leaves the whole list laid out and the offset at its end. */
  lemma {:induction false} PutPrimsLays(m: Mode, st: State, ps: seq<Prim>)
    requires ValidMode(m) && ValidPrims(ps) && PutPrims(m, st, ps).0
    ensures var r := PutPrims(m, st, ps).1;
            r.offset == End(m, st.offset, ps) && Laid(m, r.payload, st.offset, ps)
    decreases |ps|
  {
    hide Splice, Octets, Start;
    if ps != [] {
      var mid := PutPrim(m, st, ps[0]).1;
      var r := PutPrims(m, mid, ps[1..]).1;
      PutPrimsLays(m, mid, ps[1..]);
      PutPrimsFrame(m, mid, ps[1..]);
      if !ps[0].AutoAlign? {
        AtKept(mid.payload, r.payload, Start(m, ps[0], st.offset), Octets(m, ps[0]));
      } else {
        AlignHasNoOctets(m);
      }
    }
  }

  lemma AlignHasNoOctets(m: Mode)
    ensures Octets(m, AutoAlign) == []
  {
  }

  /** The offset is inside the payload, or one string alignment past its end. */
  ghost predicate Near(m: Mode, st: State)
    requires ValidMode(m)
  {
    st.offset <= |st.payload| || (st.offset < |st.payload| + m.align && st.offset % m.align == 0)
  }

  /** Offsets never run away: a successful write keeps the offset near, a refused one adds one alignment step. */
  lemma {:induction false} OffsetStaysNear(m: Mode, st: State, ps: seq<Prim>)
    requires ValidMode(m) && ValidPrims(ps) && Near(m, st)
    ensures var (ok, r) := PutPrims(m, st, ps);
            r.offset < |st.payload| + 16 && (ok ==> Near(m, r))
    decreases |ps|
  {
    if ps != [] {
      var r := PutPrim(m, st, ps[0]);
      if r.0 {
        OffsetStaysNear(m, r.1, ps[1..]);
      }
    }
  }

  lemma {:induction false} LaidConcat(m: Mode, payload: seq<byte>, o: nat, ps: seq<Prim>, qs: seq<Prim>)
    requires ValidMode(m) && ValidPrims(ps) && ValidPrims(qs) && ValidPrims(ps + qs)
    ensures Laid(m, payload, o, ps + qs) <==> Laid(m, payload, o, ps) && Laid(m, payload, End(m, o, ps), qs)
    ensures End(m, o, ps + qs) == End(m, End(m, o, ps), qs)
    decreases |ps|
  {
    hide Octets, Start;
    if ps == [] {
      assert ps + qs == qs;
    } else {
      assert (ps + qs)[1..] == ps[1..] + qs && (ps + qs)[0] == ps[0];
      LaidConcat(m, payload, Start(m, ps[0], o) + |Octets(m, ps[0])|, ps[1..], qs);
    }
  }

  /** What is laid out stays so when only octets in front of it change. */
  lemma {:induction false} LaidKept(m: Mode, p: seq<byte>, q: seq<byte>, o: nat, ps: seq<Prim>)
    requires ValidMode(m) && ValidPrims(ps) && Laid(m, p, o, ps)
    requires |p| == |q| && forall i :: o <= i < |p| ==> p[i] == q[i]
    ensures Laid(m, q, o, ps)
    decreases |ps|
  {
    hide Octets, Start;
    if ps != [] {
      var at, s := Start(m, ps[0], o), Octets(m, ps[0]);
      if !ps[0].AutoAlign? {
        assert q[at..at + |s|] == p[at..at + |s|];
      }
      LaidKept(m, p, q, at + |s|, ps[1..]);
    }
  }

  // ---------------------------------------------------------------- reading

  function GetInt(m: Mode, st: State, w: nat): (r: (Option<nat>, State))
    requires Width(w)
    ensures r.1.payload == st.payload && st.offset <= r.1.offset
  {
    var at := Align(st.offset, w);
    if at + w > |st.payload| then (None, State(st.payload, at))
    else (Some(DecodeInt(m.little, st.payload[at..at + w])), State(st.payload, at + w))
  }

  function GetRaw(st: State, n: nat): (r: (Option<seq<byte>>, State))
    ensures r.1.payload == st.payload && st.offset <= r.1.offset
  {
    var at := Align(st.offset, 2);
    if at + n > |st.payload| then (None, State(st.payload, at))
    else (Some(st.payload[at..at + n]), State(st.payload, at + n))
  }

  lemma IntReads(m: Mode, payload: seq<byte>, o: nat, w: nat, v: nat)
    requires ValidMode(m) && Width(w) && v < Pow256(w) && At(payload, Align(o, w), EncodeInt(m.little, v, w))
    ensures GetInt(m, State(payload, o), w) == (Some(v), State(payload, Align(o, w) + w))
  {
    IntRoundTrip(m.little, v, w);
  }

  // ---------------------------------------------------------------- items

  /** A character of the basic multilingual plane other than NUL: one UTF-16 unit. */
  type bmp = c: nat | 0 < c < 0x1_0000 && !(0xD800 <= c < 0xE000) witness 0x41

  datatype Item = Num(width: nat, v: nat) | Union32(u: nat) | Blob(bytes: seq<byte>) | VString(text: seq<bmp>)

  datatype Type = NumT(width: nat) | Union32T | BlobT(len: nat) | VStringT

  function TypeOf(it: Item): Type {
    match it
    case Num(w, _) => NumT(w)
    case Union32(_) => Union32T
    case Blob(s) => BlobT(|s|)
    case VString(_) => VStringT
  }

  ghost predicate ValidItem(it: Item) {
    match it
    case Num(w, v) => Width(w) && v < Pow256(w)
    case Union32(v) => v < TWO_32
    case Blob(_) => true
    case VString(t) => |t| + 1 < TWO_32
  }

  ghost predicate ValidItems(items: seq<Item>) { forall i :: 0 <= i < |items| ==> ValidItem(items[i]) }

  function Utf16(little: bool, t: seq<bmp>): (s: seq<byte>)
    ensures |s| == 2 * |t|
  {
    if t == [] then [] else EncodeInt(little, t[0], 2) + Utf16(little, t[1..])
  }

  /** The text with its terminator. */
  function Terminated(little: bool, t: seq<bmp>): (s: seq<byte>)
    ensures |s| == 2 * |t| + 2
  {
    Utf16(little, t) + [0, 0]
  }

  function Prims(m: Mode, it: Item): (ps: seq<Prim>)
    requires ValidItem(it)
    ensures ValidPrims(ps)
  {
    Pow256Four();
    match it
    case Num(w, v) => [Int(w, v)]
    case Union32(v) => [Int(4, v), Int(4, v)]
    case Blob(s) => [Raw(s)]
    case VString(t) =>
      [Int(4, |t| + 1), Int(4, 0), Int(4, |t| + 1), Raw(Terminated(m.little, t)), AutoAlign]
  }

  lemma Pow256Four()
    ensures Pow256(1) == 0x100 && Pow256(2) == 0x1_0000 && Pow256(4) == TWO_32
  {
    assert Pow256(1) == 0x100 * Pow256(0);
    assert Pow256(3) == 0x100 * Pow256(2);
    assert Pow256(4) == 0x100 * Pow256(3);
  }

  function AllPrims(m: Mode, items: seq<Item>): (ps: seq<Prim>)
    requires ValidItems(items)
    ensures ValidPrims(ps)
  {
    if items == [] then [] else Prims(m, items[0]) + AllPrims(m, items[1..])
  }

  function PutItem(m: Mode, st: State, it: Item): (bool, State)
    requires ValidMode(m) && ValidItem(it)
  {
    PutPrims(m, st, Prims(m, it))
  }

  function PutItems(m: Mode, st: State, items: seq<Item>): (r: (bool, State))
    requires ValidMode(m) && ValidItems(items)
    ensures |r.1.payload| == |st.payload|
    decreases |items|
  {
    if items == [] then (true, st)
    else
      var r := PutItem(m, st, items[0]);
      if r.0 then PutItems(m, r.1, items[1..]) else r
  }

  /**
    UTF-16 to the character set of the daemon.  All units have to convert, which surrogates do not; the
    string that comes out ends at its first NUL.
   */
  function Convert(little: bool, s: seq<byte>): Option<seq<bmp>>
    decreases |s|
  {
    if |s| < 2 then Some([])
    else
      var c, rest := DecodeInt(little, s[..2]), Convert(little, s[2..]);
      if rest.None? || 0xD800 <= c < 0xE000 || c >= 0x1_0000 then None
      else if c == 0 then Some([])
      else Some([c] + rest.value)
  }

  /** The n units behind the counts; an empty string leaves the offset where it is. */
  function GetText(m: Mode, st: State, n: nat): (r: (Option<seq<bmp>>, State))
    requires ValidMode(m)
    ensures r.1.payload == st.payload
  {
    if n == 0 then (Some([]), st)
    else if st.offset > |st.payload| || n > (|st.payload| - st.offset) / 2 then (None, st)
    else
      var end := st.offset + 2 * n;
      var out := Convert(m.little, st.payload[st.offset..end]);
      if out.None? then (None, st) else (out, State(st.payload, Align(end, m.align)))
  }

  function GetVString(m: Mode, st: State): (r: (Option<seq<bmp>>, State))
    requires ValidMode(m)
    ensures r.1.payload == st.payload
  {
    var (rawLen, s1) := GetInt(m, st, 4);
    if rawLen.None? then (None, s1)
    else
      var (skipped, s2) := GetInt(m, s1, 4);
      if skipped.None? then (None, s2)
      else
        var (actual, s3) := GetInt(m, s2, 4);
        if actual.None? || actual.value > rawLen.value then (None, s3)
        else GetText(m, s3, actual.value)
  }

  function GetItem(m: Mode, st: State, t: Type): (r: (Option<Item>, State))
    requires ValidMode(m) && (t.NumT? ==> Width(t.width))
    ensures r.1.payload == st.payload
  {
    match t
    case NumT(w) =>
      var (v, s) := GetInt(m, st, w);
      (if v.Some? then Some(Num(w, v.value)) else None, s)
    case Union32T =>
      var (v1, s1) := GetInt(m, st, 4);
      if v1.None? then (None, s1)
      else
        var (v2, s2) := GetInt(m, s1, 4);
        if v2.None? || v1 != v2 then (None, s2) else (Some(Union32(v1.value)), s2)
    case BlobT(n) =>
      var (b, s) := GetRaw(st, n);
      (if b.Some? then Some(Blob(b.value)) else None, s)
    case VStringT =>
      var (t, s) := GetVString(m, st);
      (if t.Some? then Some(VString(t.value)) else None, s)
  }

  function GetItems(m: Mode, st: State, ts: seq<Type>): (r: (Option<seq<Item>>, State))
    requires ValidMode(m) && forall i :: 0 <= i < |ts| && ts[i].NumT? ==> Width(ts[i].width)
    ensures r.0.Some? ==> |r.0.value| == |ts|
    decreases |ts|
  {
    if ts == [] then (Some([]), st)
    else
      var (it, s) := GetItem(m, st, ts[0]);
      if it.None? then (None, s)
      else
        var (rest, e) := GetItems(m, s, ts[1..]);
        if rest.None? then (None, e) else (Some([it.value] + rest.value), e)
  }

  function TypesOf(items: seq<Item>): (ts: seq<Type>)
    ensures |ts| == |items| && forall i :: 0 <= i < |ts| ==> ts[i] == TypeOf(items[i])
  {
    seq(|items|, i requires 0 <= i < |items| => TypeOf(items[i]))
  }

  // ---------------------------------------------------------------- the round trip

  lemma {:induction false} ConvertReads(little: bool, t: seq<bmp>)
    ensures Convert(little, Terminated(little, t)) == Some(t)
  {
    hide EncodeInt, DecodeInt;
    var s := Terminated(little, t);
    Pow256Four();
    if t == [] {
      assert s[..2] == [0, 0] && s[2..] == [];
      ZeroUnit(little);
    } else {
      IntRoundTrip(little, t[0], 2);
      assert s[..2] == EncodeInt(little, t[0], 2);
      assert s[2..] == Terminated(little, t[1..]);
      ConvertReads(little, t[1..]);
      assert [t[0]] + t[1..] == t;
    }
  }

  lemma ZeroUnit(little: bool)
    ensures DecodeInt(little, [0, 0]) == 0
  {
    assert FromLittle([0]) == 0 + 0x100 * FromLittle([]);
    assert [0, 0][1..] == [0] && [0, 0][..1] == [0];
    assert FromBig([0]) == 0x100 * FromBig([]) + 0;
  }

  lemma LaidStep(m: Mode, payload: seq<byte>, o: nat, p: Prim, ps: seq<Prim>)
    requires ValidMode(m) && ValidPrims(ps) && ValidPrim(p) && Laid(m, payload, o, [p] + ps)
    ensures var at := Start(m, p, o);
            && (p.AutoAlign? || At(payload, at, Octets(m, p)))
            && Laid(m, payload, at + |Octets(m, p)|, ps)
            && End(m, o, [p] + ps) == End(m, at + |Octets(m, p)|, ps)
  {
    assert ([p] + ps)[1..] == ps;
  }

  lemma IntLaid(m: Mode, payload: seq<byte>, o: nat, w: nat, v: nat, ps: seq<Prim>)
    requires ValidMode(m) && Width(w) && v < Pow256(w) && ValidPrims(ps) && Laid(m, payload, o, [Int(w, v)] + ps)
    ensures var (r, s) := GetInt(m, State(payload, o), w);
            && r == Some(v) && Laid(m, payload, s.offset, ps)
            && End(m, o, [Int(w, v)] + ps) == End(m, s.offset, ps)
  {
    hide GetInt, EncodeInt, Align, Laid, End, Pow256, At;
    LaidStep(m, payload, o, Int(w, v), ps);
    IntReads(m, payload, o, w, v);
  }

  /** A string that was read from a 4-aligned offset: two counts around a zero, and then the units of the text. */
  lemma VStringPlaces(m: Mode, payload: seq<byte>, o: nat, t: seq<bmp>)
    requires ValidMode(m) && ValidItem(VString(t)) && o % 4 == 0 && Laid(m, payload, o, Prims(m, VString(t)))
    ensures At(payload, o, EncodeInt(m.little, |t| + 1, 4)) && At(payload, o + 4, EncodeInt(m.little, 0, 4))
    ensures At(payload, o + 8, EncodeInt(m.little, |t| + 1, 4))
    ensures |payload| >= o + 14 + 2 * |t| && payload[o + 12 + 2 * |t|] == 0 && payload[o + 13 + 2 * |t|] == 0
    ensures forall i :: 0 <= i < |t| ==> At(payload, o + 12 + 2 * i, EncodeInt(m.little, t[i], 2))
  {
    hide Laid, EncodeInt, ValidPrims, Utf16, Start, Octets, At;
    CountPlaces(m, payload, o, t);
    AtConcat(payload, o + 12, Utf16(m.little, t), [0, 0]);
    ZerosAt(payload, o + 12 + 2 * |t|);
    forall i | 0 <= i < |t|
      ensures At(payload, o + 12 + 2 * i, EncodeInt(m.little, t[i], 2))
    {
      UnitAt(m.little, payload, o + 12, t, i);
    }
  }

  lemma CountPlaces(m: Mode, payload: seq<byte>, o: nat, t: seq<bmp>)
    requires ValidMode(m) && ValidItem(VString(t)) && o % 4 == 0 && Laid(m, payload, o, Prims(m, VString(t)))
    ensures At(payload, o, EncodeInt(m.little, |t| + 1, 4)) && At(payload, o + 4, EncodeInt(m.little, 0, 4))
    ensures At(payload, o + 8, EncodeInt(m.little, |t| + 1, 4)) && At(payload, o + 12, Terminated(m.little, t))
  {
    hide Laid, End, EncodeInt, ValidPrims, Terminated, At;
    VStringPrims(m, t);
    Pow256Four();
    var n := |t| + 1;
    assert (o + 4) % 4 == 0 && (o + 8) % 4 == 0 && (o + 12) % 2 == 0;
    var p2 := [Int(4, n)] + TextPrims(m, t);
    assert Prims(m, VString(t)) == [Int(4, n)] + ([Int(4, 0)] + p2);
    LaidStep(m, payload, o, Int(4, n), [Int(4, 0)] + p2);
    LaidStep(m, payload, o + 4, Int(4, 0), p2);
    LaidStep(m, payload, o + 8, Int(4, n), TextPrims(m, t));
    LaidStep(m, payload, o + 12, Raw(Terminated(m.little, t)), [AutoAlign]);
  }

  lemma ZerosAt(payload: seq<byte>, z: nat)
    requires At(payload, z, [0, 0])
    ensures z + 2 <= |payload| && payload[z] == 0 && payload[z + 1] == 0
  {
    assert payload[z] == payload[z..z + 2][0] && payload[z + 1] == payload[z..z + 2][1];
  }

  lemma {:induction false} UnitAt(little: bool, payload: seq<byte>, o: nat, t: seq<bmp>, i: nat)
    requires i < |t| && At(payload, o, Utf16(little, t))
    ensures At(payload, o + 2 * i, EncodeInt(little, t[i], 2))
    decreases |t|
  {
    hide EncodeInt;
    AtConcat(payload, o, EncodeInt(little, t[0], 2), Utf16(little, t[1..]));
    if i > 0 {
      UnitAt(little, payload, o + 2, t[1..], i - 1);
    }
  }

  lemma VStringReads(m: Mode, payload: seq<byte>, o: nat, t: seq<bmp>)
    requires ValidMode(m) && ValidItem(VString(t)) && Laid(m, payload, o, Prims(m, VString(t)))
    ensures GetVString(m, State(payload, o)) == (Some(t), State(payload, End(m, o, Prims(m, VString(t)))))
  {
    hide Laid, End, GetInt, Terminated, ValidPrims, GetText;
    Pow256Four();
    VStringPrims(m, t);
    var n := |t| + 1;
    var p1 := [Int(4, 0)] + ([Int(4, n)] + TextPrims(m, t));
    assert Prims(m, VString(t)) == [Int(4, n)] + p1;
    IntLaid(m, payload, o, 4, n, p1);
    CountsRead(m, payload, GetInt(m, State(payload, o), 4).1.offset, t);
  }

  /** The text behind its counts, with the alignment it leaves. */
  function TextPrims(m: Mode, t: seq<bmp>): seq<Prim> { [Raw(Terminated(m.little, t))] + [AutoAlign] }

  lemma CountsRead(m: Mode, payload: seq<byte>, o: nat, t: seq<bmp>)
    requires ValidMode(m) && ValidItem(VString(t))
    requires var ps := [Int(4, 0)] + ([Int(4, |t| + 1)] + TextPrims(m, t)); ValidPrims(ps) && Laid(m, payload, o, ps)
    ensures var s2 := GetInt(m, State(payload, o), 4);
            var s3 := GetInt(m, s2.1, 4);
            && s2.0 == Some(0) && s3.0 == Some(|t| + 1)
            && GetText(m, s3.1, |t| + 1) ==
               (Some(t), State(payload, End(m, o, [Int(4, 0)] + ([Int(4, |t| + 1)] + TextPrims(m, t)))))
  {
    hide Laid, End, GetInt, Terminated, ValidPrims, GetText, TextPrims;
    Pow256Four();
    VStringPrims(m, t);
    IntLaid(m, payload, o, 4, 0, [Int(4, |t| + 1)] + TextPrims(m, t));
    var s2 := GetInt(m, State(payload, o), 4).1;
    IntLaid(m, payload, s2.offset, 4, |t| + 1, TextPrims(m, t));
    IntEndsAligned(m, s2);
    TextReads(m, payload, GetInt(m, s2, 4).1.offset, t);
  }

  lemma TextReads(m: Mode, payload: seq<byte>, o: nat, t: seq<bmp>)
    requires ValidMode(m) && ValidPrims(TextPrims(m, t)) && Laid(m, payload, o, TextPrims(m, t)) && Align(o, 2) == o
    ensures GetText(m, State(payload, o), |t| + 1) == (Some(t), State(payload, End(m, o, TextPrims(m, t))))
  {
    hide Laid, End, Convert, Terminated;
    var u := Terminated(m.little, t);
    LaidStep(m, payload, o, Raw(u), [AutoAlign]);
    AlignEnd(m, o + |u|);
    ConvertReads(m.little, t);
    assert payload[o..o + |u|] == u;
  }

  lemma VStringPrims(m: Mode, t: seq<bmp>)
    requires ValidItem(VString(t))
    ensures ValidPrims(TextPrims(m, t)) && ValidPrims([Int(4, |t| + 1)] + TextPrims(m, t))
    ensures ValidPrims([Int(4, 0)] + ([Int(4, |t| + 1)] + TextPrims(m, t)))
  {
    Pow256Four();
  }

  lemma IntEndsAligned(m: Mode, st: State)
    requires GetInt(m, st, 4).0.Some?
    ensures GetInt(m, st, 4).1.offset % 4 == 0 && Align(GetInt(m, st, 4).1.offset, 2) == GetInt(m, st, 4).1.offset
  {
  }

  lemma AlignEnd(m: Mode, o: nat)
    requires ValidMode(m)
    ensures End(m, o, [AutoAlign]) == Align(o, m.align)
  {
  }

  lemma ItemReads(m: Mode, payload: seq<byte>, o: nat, it: Item)
    requires ValidMode(m) && ValidItem(it) && Laid(m, payload, o, Prims(m, it))
    ensures GetItem(m, State(payload, o), TypeOf(it)) == (Some(it), State(payload, End(m, o, Prims(m, it))))
  {
    hide Laid, GetInt, GetVString;
    match it
    case Num(w, v) =>
      assert Prims(m, it) == [Int(w, v)] + [];
      IntLaid(m, payload, o, w, v, []);
    case Union32(v) =>
      Pow256Four();
      assert Prims(m, it) == [Int(4, v)] + ([Int(4, v)] + []);
      IntLaid(m, payload, o, 4, v, [Int(4, v)] + []);
      IntLaid(m, payload, GetInt(m, State(payload, o), 4).1.offset, 4, v, []);
    case Blob(b) =>
      assert Prims(m, it) == [Raw(b)] + [];
      LaidStep(m, payload, o, Raw(b), []);
    case VString(t) =>
      VStringReads(m, payload, o, t);
  }

  lemma {:induction false} PutPrimsConcat(m: Mode, st: State, ps: seq<Prim>, qs: seq<Prim>)
    requires ValidMode(m) && ValidPrims(ps) && ValidPrims(qs) && ValidPrims(ps + qs)
    ensures PutPrims(m, st, ps + qs) ==
            (if PutPrims(m, st, ps).0 then PutPrims(m, PutPrims(m, st, ps).1, qs) else PutPrims(m, st, ps))
    decreases |ps|
  {
    hide PutPrim;
    if ps == [] {
      assert ps + qs == qs;
    } else {
      assert (ps + qs)[1..] == ps[1..] + qs && (ps + qs)[0] == ps[0];
      var r := PutPrim(m, st, ps[0]);
      if r.0 {
        PutPrimsConcat(m, r.1, ps[1..], qs);
      }
    }
  }

  /** Writing a list of items is writing the primitives of all of them in order. */
  lemma {:induction false} PutItemsIsPutPrims(m: Mode, st: State, items: seq<Item>)
    requires ValidMode(m) && ValidItems(items)
    ensures PutItems(m, st, items) == PutPrims(m, st, AllPrims(m, items))
    decreases |items|
  {
    hide PutPrims, Prims;
    if items == [] {
      assert PutPrims(m, st, []) == (true, st) by { PutNothing(m, st); }
    } else {
      PutPrimsConcat(m, st, Prims(m, items[0]), AllPrims(m, items[1..]));
      var r := PutItem(m, st, items[0]);
      if r.0 {
        PutItemsIsPutPrims(m, r.1, items[1..]);
      }
    }
  }

  lemma PutNothing(m: Mode, st: State)
    requires ValidMode(m)
    ensures PutPrims(m, st, []) == (true, st)
  {
  }

  lemma {:induction false} ItemsRead(m: Mode, payload: seq<byte>, o: nat, items: seq<Item>)
    requires ValidMode(m) && ValidItems(items) && Laid(m, payload, o, AllPrims(m, items))
    ensures GetItems(m, State(payload, o), TypesOf(items)) ==
            (Some(items), State(payload, End(m, o, AllPrims(m, items))))
    decreases |items|
  {
    hide Laid, Prims, GetItem, End;
    if items == [] {
      EndNothing(m, o);
    } else {
      var ps := Prims(m, items[0]);
      LaidConcat(m, payload, o, ps, AllPrims(m, items[1..]));
      ItemReads(m, payload, o, items[0]);
      ItemsRead(m, payload, End(m, o, ps), items[1..]);
      assert TypesOf(items)[1..] == TypesOf(items[1..]);
      assert [items[0]] + items[1..] == items;
    }
  }

  lemma EndNothing(m: Mode, o: nat)
    requires ValidMode(m)
    ensures End(m, o, []) == o
  {
  }

  /** Reading back the types of a written list gives the same items and the same end offset. */
  lemma RoundTrip(m: Mode, st: State, items: seq<Item>)
    requires ValidMode(m) && ValidItems(items) && PutItems(m, st, items).0
    ensures var end := PutItems(m, st, items).1;
            && GetItems(m, State(end.payload, st.offset), TypesOf(items)) == (Some(items), end)
            && (forall i :: 0 <= i < |st.payload| && !(st.offset <= i < end.offset) ==>
                  end.payload[i] == st.payload[i])
  {
    hide PutItems, PutPrims, Laid, AllPrims, GetItems, End;
    PutItemsIsPutPrims(m, st, items);
    PutPrimsLays(m, st, AllPrims(m, items));
    PutPrimsFrame(m, st, AllPrims(m, items));
    ItemsRead(m, PutItems(m, st, items).1.payload, st.offset, items);
  }

  // ---------------------------------------------------------------- refused writes

  /** The first primitive of an item has room. */
  predicate FirstFits(m: Mode, it: Item, o: nat, n: nat)
    requires ValidMode(m) && ValidItem(it)
  {
    Fits(m, Prims(m, it)[0], o, n)
  }

  lemma PutItemFirst(m: Mode, st: State, it: Item)
    requires ValidMode(m) && ValidItem(it)
    ensures var ps := Prims(m, it);
            var r := PutPrim(m, st, ps[0]);
            PutItem(m, st, it) == if r.0 then PutPrims(m, r.1, ps[1..]) else r
  {
  }

  /** Whatever stands in the payload, a first primitive that fits is written and stays. */
  lemma FirstPrimitiveStays(m: Mode, st: State, it: Item)
    requires ValidMode(m) && ValidItem(it) && FirstFits(m, it, st.offset, |st.payload|)
    ensures var p := Prims(m, it)[0];
            At(PutItem(m, st, it).1.payload, Start(m, p, st.offset), Octets(m, p))
  {
    hide Prims, PutPrims, Octets;
    var ps := Prims(m, it);
    FirstIsData(m, it);
    PutItemFirst(m, st, it);
    var r := PutPrim(m, st, ps[0]).1;
    assert ValidPrims(ps[1..]);
    PutPrimsFrame(m, r, ps[1..]);
    AtKept(r.payload, PutItem(m, st, it).1.payload, Start(m, ps[0], st.offset), Octets(m, ps[0]));
  }

  lemma FirstIsData(m: Mode, it: Item)
    requires ValidItem(it)
    ensures var ps := Prims(m, it);
            |ps| > 0 && !ps[0].AutoAlign? && (|ps| > 1 ==> |Octets(m, ps[0])| == 4)
  {
  }

  ghost predicate KeepsEveryPayload(m: Mode, it: Item, o: nat, n: nat)
    requires ValidMode(m) && ValidItem(it)
  {
    forall p: seq<byte> :: |p| == n ==> PutItem(m, State(p, o), it).1.payload == p
  }

  /**
    A refused write changes no byte of any payload of its size exactly when it is refused at its
    first primitive; integers and blobs have only one.
   */
  lemma RefusedExactly(m: Mode, it: Item, o: nat, payload: seq<byte>)
    requires ValidMode(m) && ValidItem(it) && !PutItem(m, State(payload, o), it).0
    ensures KeepsEveryPayload(m, it, o, |payload|) <==> !FirstFits(m, it, o, |payload|)
    ensures it.Num? || it.Blob? ==> KeepsEveryPayload(m, it, o, |payload|)
  {
    hide PutPrims, PutItem, Octets, Start, Prims;
    FirstIsData(m, it);
    if FirstFits(m, it, o, |payload|) {
      var first := Prims(m, it)[0];
      PutItemFirst(m, State(payload, o), it);
      OnePrimSucceeds(m, State(payload, o), it);
      var b := Octets(m, first)[0];
      var c: byte := if b == 0 then 1 else 0;
      var p: seq<byte> := seq(|payload|, _ => c);
      FirstPrimitiveStays(m, State(p, o), it);
      var q := PutItem(m, State(p, o), it).1.payload;
      var at := Start(m, first, o);
      assert q[at] == q[at..at + |Octets(m, first)|][0] == b;
    } else {
      forall p: seq<byte> | |p| == |payload|
        ensures PutItem(m, State(p, o), it).1.payload == p
      {
        PutItemFirst(m, State(p, o), it);
      }
    }
  }

  lemma OnePrimSucceeds(m: Mode, st: State, it: Item)
    requires ValidMode(m) && ValidItem(it) && FirstFits(m, it, st.offset, |st.payload|)
    ensures |Prims(m, it)| == 1 ==> PutItem(m, st, it).0
    ensures |Prims(m, it)| > 1 <==> it.Union32? || it.VString?
  {
    PutItemFirst(m, st, it);
  }

  /** A refused union can leave its first half behind. */
  lemma RefusedUnionCounterexample()
    ensures var st := State([9, 9, 9, 9, 9, 9], 0);
            !PutItem(Mode(true, 4), st, Union32(1)).0 && PutItem(Mode(true, 4), st, Union32(1)).1.payload != st.payload
  {
    Pow256Four();
    var m, st := Mode(true, 4), State([9, 9, 9, 9, 9, 9], 0);
    assert Prims(m, Union32(1)) == [Int(4, 1), Int(4, 1)];
    var s1 := PutPrim(m, st, Int(4, 1)).1;
    assert PutPrims(m, st, [Int(4, 1), Int(4, 1)]) == PutPrims(m, s1, [Int(4, 1)]);
    assert s1.payload[0] == LittleEndian(1, 4)[0] == 1;
  }
}
