/** The cursor object of the RPC layer in its fixed-payload mode, proved against the functions of Ndr. */
module NdrCodec {
  import opened Bytes
  import opened Ndr

  class Dce {
    var payload: array<byte>
    var offset: nat
    var littleEndian: bool
    var align4: bool
    var align8: bool

    constructor (payload: array<byte>, littleEndian: bool, align4: bool, align8: bool)
      ensures this.payload == payload && offset == 0
      ensures this.littleEndian == littleEndian && this.align4 == align4 && this.align8 == align8
    {
      this.payload := payload;
      this.offset := 0;
      this.littleEndian := littleEndian;
      this.align4 := align4;
      this.align8 := align8;
    }

    ghost function ModeOf(): (m: Mode)
      reads this`littleEndian, this`align4, this`align8
      ensures ValidMode(m)
    {
      Mode(littleEndian, if align8 then 8 else if align4 then 4 else 1)
    }

    ghost function Now(): State
      reads this`payload, this`offset, payload
    {
      State(payload[..], offset)
    }

    method AlignOffset(n: nat)
      requires Width(n)
      modifies this`offset
      ensures offset == Align(old(offset), n)
    {
      if offset % n != 0 {
        offset := (offset + (n - 1)) / n * n;
      }
    }

    method AutoAlignOffset()
      modifies this`offset
      ensures Now() == PutPrim(ModeOf(), old(Now()), AutoAlign).1
    {
      if align8 {
        AlignOffset(8);
      } else if align4 {
        AlignOffset(4);
      }
    }

    /** The bounds check of the fixed-size mode: the payload never grows. */
    method TryPayload(n: nat) returns (ok: bool)
      ensures ok == (offset + n <= payload.Length)
    {
      ok := offset + n <= payload.Length;
    }

    method WriteInt(width: nat, v: nat) returns (ok: bool)
      requires Width(width) && v < Pow256(width)
      modifies this`offset, payload
      ensures (ok, Now()) == PutPrim(ModeOf(), old(Now()), Int(width, v))
      ensures (ok, Now()) == PutItem(ModeOf(), old(Now()), Num(width, v))
    {
      hide EncodeInt;
      OnePrim(ModeOf(), Now(), Int(width, v));
      AlignOffset(width);
      ok := TryPayload(width);
      if !ok {
        return;
      }
      Store(payload, offset, EncodeInt(littleEndian, v, width));
      offset := offset + width;
    }

    method ReadInt(width: nat) returns (v: Option<nat>)
      requires Width(width)
      modifies this`offset
      ensures (v, Now()) == GetInt(ModeOf(), old(Now()), width)
    {
      AlignOffset(width);
      if offset + width > payload.Length {
        return None;
      }
      v := Some(DecodeInt(littleEndian, payload[offset..offset + width]));
      assert payload[offset..offset + width] == payload[..][offset..offset + width];
      offset := offset + width;
    }

    method WriteUnionInt32(v: nat) returns (ok: bool)
      requires v < TWO_32
      modifies this`offset, payload
      ensures (ok, Now()) == PutItem(ModeOf(), old(Now()), Union32(v))
    {
      hide PutPrim;
      Pow256Four();
      UnionPrims(ModeOf(), Now(), v);
      ok := WriteInt(4, v);
      if !ok {
        return;
      }
      ok := WriteInt(4, v);
    }

    method ReadUnionInt32() returns (v: Option<nat>)
      modifies this`offset
      ensures var (it, st) := GetItem(ModeOf(), old(Now()), Union32T);
              Now() == st && it == if v.Some? then Some(Union32(v.value)) else None
    {
      hide GetInt;
      var val1 := ReadInt(4);
      if val1.None? {
        return None;
      }
      var val2 := ReadInt(4);
      if val2.None? {
        return None;
      }
      if val1 != val2 {
        return None;
      }
      v := val1;
    }

    method WriteBytes(s: seq<byte>) returns (ok: bool)
      modifies this`offset, payload
      ensures (ok, Now()) == PutPrim(ModeOf(), old(Now()), Raw(s))
      ensures (ok, Now()) == PutItem(ModeOf(), old(Now()), Blob(s))
    {
      OnePrim(ModeOf(), Now(), Raw(s));
      AlignOffset(2);
      ok := TryPayload(|s|);
      if !ok {
        return;
      }
      Store(payload, offset, s);
      offset := offset + |s|;
    }

    method ReadBytes(n: nat) returns (s: Option<seq<byte>>)
      modifies this`offset
      ensures (s, Now()) == GetRaw(old(Now()), n)
    {
      AlignOffset(2);
      if offset + n > payload.Length {
        return None;
      }
      s := Some(payload[offset..offset + n]);
      assert payload[offset..offset + n] == payload[..][offset..offset + n];
      offset := offset + n;
    }

    method WriteVString(text: seq<bmp>) returns (ok: bool)
      requires |text| + 1 < TWO_32
      modifies this`offset, payload
      ensures (ok, Now()) == PutItem(ModeOf(), old(Now()), VString(text))
    {
      hide PutPrim, PutItem, Terminated;
      Pow256Four();
      var out := Terminated(littleEndian, text);
      var strLen := |text| + 1;
      StringPrims(ModeOf(), Now(), text);
      ok := WriteInt(4, strLen);
      if !ok {
        return;
      }
      ok := WriteInt(4, 0);
      if !ok {
        return;
      }
      ok := WriteInt(4, strLen);
      if !ok {
        return;
      }
      ok := WriteBytes(out);
      if !ok {
        return;
      }
      AutoAlignOffset();
    }

    method ReadVString() returns (text: Option<seq<bmp>>)
      modifies this`offset
      ensures (text, Now()) == GetVString(ModeOf(), old(Now()))
    {
      hide GetInt, GetText;
      var rawLen := ReadInt(4);
      if rawLen.None? {
        return None;
      }
      var skipped := ReadInt(4);
      if skipped.None? {
        return None;
      }
      var actualLen := ReadInt(4);
      if actualLen.None? || actualLen.value > rawLen.value {
        return None;
      }
      text := ReadText(actualLen.value);
    }

    method ReadText(actualLen: nat) returns (text: Option<seq<bmp>>)
      modifies this`offset
      ensures (text, Now()) == GetText(ModeOf(), old(Now()), actualLen)
    {
      hide Convert;
      if actualLen == 0 {
        return Some([]);
      }
      if offset > payload.Length || actualLen > (payload.Length - offset) / 2 {
        return None;
      }
      var rawBytes := 2 * actualLen;
      text := Convert(littleEndian, payload[offset..offset + rawBytes]);
      assert payload[offset..offset + rawBytes] == payload[..][offset..offset + rawBytes];
      if text.None? {
        return;
      }
      offset := offset + rawBytes;
      AutoAlignOffset();
    }
  }

  lemma OnePrim(m: Mode, st: State, p: Prim)
    requires ValidMode(m) && ValidPrim(p)
    ensures PutPrims(m, st, [p]) == PutPrim(m, st, p)
  {
    hide PutPrim;
    var r := PutPrim(m, st, p);
    assert PutPrims(m, r.1, []) == (true, r.1);
  }

  lemma UnionPrims(m: Mode, st: State, v: nat)
    requires ValidMode(m) && v < TWO_32
    ensures ValidPrim(Int(4, v))
    ensures var r := PutPrim(m, st, Int(4, v));
            PutItem(m, st, Union32(v)) == if r.0 then PutPrim(m, r.1, Int(4, v)) else r
  {
    hide PutPrim;
    Pow256Four();
    var p := Int(4, v);
    assert [p, p][1..] == [p];
    OnePrim(m, PutPrim(m, st, p).1, p);
  }

  lemma StringPrims(m: Mode, st: State, t: seq<bmp>)
    requires ValidMode(m) && |t| + 1 < TWO_32
    ensures ValidPrim(Int(4, |t| + 1)) && ValidPrim(Int(4, 0))
    ensures var r1 := PutPrim(m, st, Int(4, |t| + 1));
            var r2 := PutPrim(m, r1.1, Int(4, 0));
            var r3 := PutPrim(m, r2.1, Int(4, |t| + 1));
            var r4 := PutPrim(m, r3.1, Raw(Terminated(m.little, t)));
            PutItem(m, st, VString(t)) ==
            if !r1.0 then r1 else if !r2.0 then r2 else if !r3.0 then r3 else if !r4.0 then r4
            else (true, PutPrim(m, r4.1, AutoAlign).1)
  {
    hide PutPrim, Terminated, PutPrims;
    Pow256Four();
    var n, z, u := Int(4, |t| + 1), Int(4, 0), Raw(Terminated(m.little, t));
    var s1 := PutPrim(m, st, n).1;
    var s2 := PutPrim(m, s1, z).1;
    var s3 := PutPrim(m, s2, n).1;
    var s4 := PutPrim(m, s3, u).1;
    PutStep(m, st, n, [z, n, u, AutoAlign]);
    PutStep(m, s1, z, [n, u, AutoAlign]);
    PutStep(m, s2, n, [u, AutoAlign]);
    PutStep(m, s3, u, [AutoAlign]);
    OnePrim(m, s4, AutoAlign);
    AlignSucceeds(m, s4);
    assert [n] + [z, n, u, AutoAlign] == [n, z, n, u, AutoAlign];
    assert [z] + [n, u, AutoAlign] == [z, n, u, AutoAlign];
    assert [n] + [u, AutoAlign] == [n, u, AutoAlign];
    assert [u] + [AutoAlign] == [u, AutoAlign];
  }

  lemma AlignSucceeds(m: Mode, st: State)
    requires ValidMode(m)
    ensures PutPrim(m, st, AutoAlign).0
  {
  }

  lemma PutStep(m: Mode, st: State, p: Prim, ps: seq<Prim>)
    requires ValidMode(m) && ValidPrim(p) && ValidPrims(ps)
    ensures ValidPrims([p] + ps)
    ensures var r := PutPrim(m, st, p);
            PutPrims(m, st, [p] + ps) == if r.0 then PutPrims(m, r.1, ps) else r
  {
    hide PutPrim;
    assert ([p] + ps)[1..] == ps;
  }
}
