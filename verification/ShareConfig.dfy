/** The configuration of a share as it is sent to the kernel: veto list, delimiter and path in one payload. */
module ShareConfig {
  import opened Bytes

  const INT_MAX := 0x7FFF_FFFF
  const MAX_SHARE_NAME := 64
  const SHARE_FLAG_INVALID := 0

  /** The fields that are copied as they are. */
  datatype Attributes = Attributes(createMask: nat, directoryMask: nat, forceCreateMode: nat, forceDirectoryMode: nat,
                                   forceUid: nat, forceGid: nat, timeMachineMaxSize: nat)

  /** The veto list is a run of strings, each with its NUL; no list is an empty one.  path may be missing. */
  datatype Share = Share(name: seq<byte>, flags: nat, isPipe: bool, attributes: Attributes,
                         veto: seq<byte>, path: Option<seq<byte>>)

  ghost predicate CString(s: seq<byte>) { 0 !in s }

  ghost predicate Valid(share: Share) { CString(share.name) && (share.path.Some? ==> CString(share.path.value)) }

  /** The directory in front of every path: empty when there is none. */
  function FullPath(root: seq<byte>, share: Share): seq<byte>
    requires share.path.Some?
  {
    root + share.path.value
  }

  function Prologue(veto: seq<byte>): seq<byte> { if veto == [] then [] else veto + [0] }

  /** What the payload has to hold. */
  function Payload(root: seq<byte>, share: Share): seq<byte>
    requires share.path.Some?
  {
    Prologue(share.veto) + FullPath(root, share) + [0]
  }

  datatype Size = Size(n: nat) | EInval | EOverflow

  function PayloadSize(root: seq<byte>, share: Option<Share>): Size {
    if share.None? || share.value.isPipe then Size(0)
    else if share.value.path.None? || share.value.path.value == [] then EInval
    else
      var pathSz := |share.value.path.value| + 1 + |root|;
      var vetoSz := if share.value.veto == [] then 0 else |share.value.veto| + 1;
      if vetoSz + pathSz > INT_MAX then EOverflow else Size(vetoSz + pathSz)
  }

  class Response {
    var flags: nat
    var attributes: Attributes
    var shareName: seq<byte>
    var vetoListSz: nat
    /** Of payload_sz octets. */
    const payload: array<byte>

    constructor (payloadSz: nat)
      ensures fresh(payload) && payload.Length == payloadSz
    {
      flags, attributes, shareName, vetoListSz := 0, Attributes(0, 0, 0, 0, 0, 0, 0), [], 0;
      payload := new byte[payloadSz];
    }

    /** Fills in the reply; false is -EINVAL. */
    method Handle(root: seq<byte>, share: Share) returns (ok: bool)
      requires Valid(share) && CString(root)
      modifies this, payload
      ensures ok <==> share.isPipe || (share.path.Some? && |Payload(root, share)| <= payload.Length)
      ensures attributes == share.attributes && vetoListSz == |share.veto|
      ensures shareName == if |share.name| < 64 then share.name else share.name[..63]
      ensures flags == if share.isPipe || share.path.Some? then share.flags else SHARE_FLAG_INVALID
      ensures ok && !share.isPipe ==>
                payload[..] == Payload(root, share) + old(payload[..])[|Payload(root, share)|..]
      ensures share.isPipe || share.path.None? ==> payload[..] == old(payload[..])
    {
      flags, attributes, vetoListSz := share.flags, share.attributes, |share.veto|;
      shareName := if |share.name| < MAX_SHARE_NAME then share.name else share.name[..MAX_SHARE_NAME - 1];
      if share.isPipe {
        return true;
      }
      if share.path.None? {
        flags := SHARE_FLAG_INVALID;
        return false;
      }
      if payload.Length == 0 {
        return false;
      }
      if vetoListSz > 0 && vetoListSz + 1 > payload.Length {
        return false;
      }
      var cursor := PrintVeto(share.veto);
      if cursor == payload.Length {
        return false;
      }
      ghost var n := |Payload(root, share)|;
      assert n <= payload.Length ==> payload[n..] == payload[cursor..][n - cursor..];
      ok := PrintPath(cursor, root, share);
    }

    /** The veto list and the delimiter behind it, when there is a list. */
    method PrintVeto(veto: seq<byte>) returns (cursor: nat)
      requires |Prologue(veto)| <= payload.Length
      modifies payload
      ensures cursor == |Prologue(veto)|
      ensures payload[..cursor] == Prologue(veto) && payload[cursor..] == old(payload[cursor..])
    {
      cursor := 0;
      if veto != [] {
        Store(payload, 0, veto);
        Store(payload, |veto|, [0]);
        cursor := |veto| + 1;
      }
    }

    /** g_snprintf: the whole text with its NUL, or as much of it as there is room for. */
    method PrintPath(cursor: nat, root: seq<byte>, share: Share) returns (ok: bool)
      requires share.path.Some? && cursor < payload.Length && payload[..cursor] == Prologue(share.veto)
      modifies payload
      ensures ok <==> |Payload(root, share)| <= payload.Length
      ensures ok ==> payload[..] == Payload(root, share) + old(payload[|Payload(root, share)|..])
    {
      var text, remaining := FullPath(root, share), payload.Length - cursor;
      ok := |text| < remaining;
      var written := (if ok then text else text[..remaining - 1]) + [0];
      Store(payload, cursor, written);
      if ok {
        assert cursor + |written| == |Payload(root, share)|;
        assert payload[..] == payload[..cursor + |written|] + payload[cursor + |written|..];
      }
    }
  }

  // ---------------------------------------------------------------- reading the payload

  /** The C string at this offset. */
  function StringAt(buf: seq<byte>, pos: nat): seq<byte>
    requires pos <= |buf|
    decreases |buf| - pos
  {
    if pos == |buf| || buf[pos] == 0 then [] else [buf[pos]] + StringAt(buf, pos + 1)
  }

  /** Where the reader looks for the path. */
  function PathOffset(vetoListSz: nat): nat { if vetoListSz == 0 then 0 else vetoListSz + 1 }

  lemma {:induction false} StringAtReads(buf: seq<byte>, pos: nat, s: seq<byte>)
    requires CString(s) && At(buf, pos, s + [0])
    ensures StringAt(buf, pos) == s
    decreases |s|
  {
    AtConcat(buf, pos, s, [0]);
    if s == [] {
      assert buf[pos] == buf[pos..pos + 1][0];
    } else {
      assert s + [0] == [s[0]] + (s[1..] + [0]);
      AtConcat(buf, pos, [s[0]], s[1..] + [0]);
      assert buf[pos] == buf[pos..pos + 1][0];
      StringAtReads(buf, pos + 1, s[1..]);
    }
  }

  /** The size that is asked for holds the payload with no octet to spare. */
  lemma SizeIsExact(root: seq<byte>, share: Share)
    requires !share.isPipe && share.path.Some? && share.path.value != []
    ensures PayloadSize(root, Some(share)) ==
            if |Payload(root, share)| > INT_MAX then EOverflow else Size(|Payload(root, share)|)
  {
  }

  /** The reader finds the veto list whole and the path behind it, whatever stands after the payload. */
  lemma PathIsRecovered(root: seq<byte>, share: Share, rest: seq<byte>)
    requires Valid(share) && CString(root) && share.path.Some?
    ensures var buf := Payload(root, share) + rest;
            && PathOffset(|share.veto|) <= |buf|
            && StringAt(buf, PathOffset(|share.veto|)) == root + share.path.value
            && buf[..|share.veto|] == share.veto
  {
    var buf, pos := Payload(root, share) + rest, PathOffset(|share.veto|);
    assert buf[pos..pos + |FullPath(root, share)| + 1] == FullPath(root, share) + [0];
    StringAtReads(buf, pos, FullPath(root, share));
  }

  /** A share with a path is answered in full: the reply has exactly the size that was asked for. */
  method Answer(root: seq<byte>, share: Share) returns (size: Size, resp: Response?)
    requires Valid(share) && CString(root)
    ensures size == PayloadSize(root, Some(share)) && (size.Size? <==> resp != null)
    ensures resp != null && !share.isPipe ==>
              && resp.payload[..] == Payload(root, share) && size.n == |Payload(root, share)|
              && resp.vetoListSz == |share.veto| && PathOffset(resp.vetoListSz) <= size.n
              && StringAt(resp.payload[..], PathOffset(resp.vetoListSz)) == root + share.path.value
              && resp.payload[..resp.vetoListSz] == share.veto
  {
    hide StringAt;
    size, resp := PayloadSize(root, Some(share)), null;
    if size.Size? {
      resp := new Response(size.n);
      var ok := resp.Handle(root, share);
      if !share.isPipe {
        PathIsRecovered(root, share, []);
        assert Payload(root, share) + [] == Payload(root, share);
      }
    }
  }
}
