/**
  The pipe protocol: when a request is taken, when its reply may be read, and that it is read once.

  Parsing a request and encoding a reply enter the runs as their outcomes: a status, the number of entries
  the pipe is left with, and whether the encoder has made the pipe ready again.  The daemon gets the outcome
  of an enumeration from Srvsvc and proves that the last of these never happens.  It also keeps the account of
  the references that the entries of a pipe hold on their shares, up to the close of the pipe.
 */
module Pipes {
  import opened Bytes
  import opened Srvsvc
  import Ndr
  import NdrCodec

  datatype Ret = Fine | BadData | BadFid | NotImplemented | NoMem | Exists | MoreData | Other

  /** ready: a reply waits to be read; consumed: the reply has gone out with the request itself. */
  datatype Slot = Slot(ready: bool, consumed: bool, entries: nat)

  type Table = map<nat, Slot>

  /** What the client can tell happened on a handle. */
  datatype Note = Opened(h: nat) | Accepted(h: nat) | Delivered(h: nat)

  datatype Answer = Answer(table: Table, ret: Ret, notes: seq<Note>)

  /** What encoding a reply comes to; rearm: the encoder has made the pipe ready for another read. */
  datatype Encoded = Encoded(ret: Ret, entries: nat, rearm: bool)

  // ---------------------------------------------------------------- the requests

  function AfterOpen(t: Table, h: nat): Answer {
    if h in t then Answer(t, Exists, []) else Answer(t[h := Slot(false, false, 0)], Fine, [Opened(h)])
  }

  function AfterClose(t: Table, h: nat): Answer {
    if h in t then Answer(t - {h}, Fine, []) else Answer(t, BadFid, [])
  }

  /** While a reply waits the request is passed over; otherwise it is taken, even if it then fails. */
  function AfterWrite(t: Table, h: nat, invoke: Ret, entries: nat): Answer {
    if h !in t then Answer(t, NoMem, [])
    else if t[h].ready then Answer(t, Fine, [])
    else Answer(t[h := Slot(true, false, entries)], invoke, [Accepted(h)])
  }

  /** A reply that waits is encoded, and waits no longer unless its encoder says so. */
  function AfterRead(t: Table, h: nat, e: Encoded): Answer {
    if h !in t then Answer(t, BadFid, [])
    else if t[h].consumed then Answer(t[h := t[h].(ready := false)], Fine, [])
    else if !t[h].ready then Answer(t, Fine, [])
    else Answer(t[h := Slot(e.rearm, false, e.entries)], e.ret, if e.ret == Fine then [Delivered(h)] else [])
  }

  function AfterIoctl(t: Table, h: nat, short: bool, invoke: Ret, taken: nat, e: Encoded): Answer {
    if short then Answer(t, BadData, [])
    else if h !in t then Answer(t, BadFid, [])
    else
      var w := AfterWrite(t, h, invoke, taken);
      if w.ret != Fine then w
      else
        var r := AfterRead(w.table, h, e);
        if r.ret != Fine then Answer(r.table, r.ret, w.notes + r.notes)
        else Answer(r.table[h := r.table[h].(consumed := true, ready := false)], Fine, w.notes + r.notes)
  }

  function AfterQuery(t: Table, h: nat, short: bool, encode: Ret): Answer {
    if short then Answer(t, MoreData, [])
    else if h !in t then Answer(t, BadFid, [])
    else Answer(t, if t[h].ready then encode else Fine, [])
  }

  datatype Request =
    | Open(h: nat)
    | Close(h: nat)
    | Write(h: nat, invoke: Ret, taken: nat)
    | Read(h: nat, e: Encoded)
    | Ioctl(h: nat, short: bool, invoke: Ret, taken: nat, e: Encoded)
    | Query(h: nat, short: bool, encode: Ret)

  function After(t: Table, req: Request): Answer {
    match req
    case Open(h) => AfterOpen(t, h)
    case Close(h) => AfterClose(t, h)
    case Write(h, invoke, taken) => AfterWrite(t, h, invoke, taken)
    case Read(h, e) => AfterRead(t, h, e)
    case Ioctl(h, short, invoke, taken, e) => AfterIoctl(t, h, short, invoke, taken, e)
    case Query(h, short, encode) => AfterQuery(t, h, short, encode)
  }

  /** The encoder does not make a reply that it delivers ready again. */
  predicate Settles(req: Request) {
    match req
    case Read(_, e) => e.ret == Fine ==> !e.rearm
    case Ioctl(_, _, _, _, e) => e.ret == Fine ==> !e.rearm
    case _ => true
  }

  // ---------------------------------------------------------------- what every run keeps

  ghost predicate Inv(t: Table) { forall h :: h in t && t[h].consumed ==> !t[h].ready }

  /** The last request taken on this handle has had no reply yet. */
  ghost predicate Owes(log: seq<Note>, h: nat) {
    exists j :: 0 <= j < |log| && log[j] == Accepted(h) && Unanswered(log, h, j)
  }

  ghost predicate Unanswered(log: seq<Note>, h: nat, j: int) {
    forall k :: j < k < |log| && 0 <= k ==> log[k] != Delivered(h) && log[k] != Opened(h)
  }

  /** Every reply in the log answers a request that had none before. */
  ghost predicate AnswersOnce(log: seq<Note>) {
    forall i :: 0 <= i < |log| && log[i].Delivered? ==> Owes(log[..i], log[i].h)
  }

  ghost predicate ReadyOwes(t: Table, log: seq<Note>) { forall h :: h in t && t[h].ready ==> Owes(log, h) }

  ghost predicate Keeps(t: Table, log: seq<Note>) { Inv(t) && ReadyOwes(t, log) && AnswersOnce(log) }

  lemma OwesAfter(log: seq<Note>, n: Note, h: nat)
    ensures n == Accepted(h) ==> Owes(log + [n], h)
    ensures Owes(log, h) && n != Delivered(h) && n != Opened(h) ==> Owes(log + [n], h)
  {
    if n == Accepted(h) {
      assert (log + [n])[|log|] == n && Unanswered(log + [n], h, |log|);
    }
    if Owes(log, h) && n != Delivered(h) && n != Opened(h) {
      var j :| 0 <= j < |log| && log[j] == Accepted(h) && Unanswered(log, h, j);
      assert (log + [n])[j] == Accepted(h) && Unanswered(log + [n], h, j);
    }
  }

  lemma AnswersOnceAfter(log: seq<Note>, n: Note)
    requires AnswersOnce(log) && (n.Delivered? ==> Owes(log, n.h))
    ensures AnswersOnce(log + [n])
  {
    hide Owes;
    forall i | 0 <= i < |log + [n]| && (log + [n])[i].Delivered?
      ensures Owes((log + [n])[..i], (log + [n])[i].h)
    {
      if i < |log| {
        assert (log + [n])[..i] == log[..i];
      } else {
        assert (log + [n])[..i] == log;
      }
    }
  }

  /** One note about h, while the other handles stay as they are. */
  lemma NoteKeeps(t: Table, log: seq<Note>, h: nat, p: Slot, n: Note)
    requires Keeps(t, log) && n.h == h && (p.consumed ==> !p.ready)
    requires n.Delivered? ==> Owes(log, h)
    requires p.ready ==> n == Accepted(h)
    ensures Keeps(t[h := p], log + [n])
  {
    hide Owes;
    AnswersOnceAfter(log, n);
    forall k | k in t[h := p] && t[h := p][k].ready
      ensures Owes(log + [n], k)
    {
      OwesAfter(log, n, k);
    }
  }

  /** A change of h without a note. */
  lemma QuietKeeps(t: Table, log: seq<Note>, h: nat, p: Slot)
    requires Keeps(t, log) && (p.consumed ==> !p.ready) && (p.ready ==> h in t && t[h].ready)
    ensures Keeps(t[h := p], log)
  {
    hide Owes, AnswersOnce;
  }

  lemma CloseKeeps(t: Table, log: seq<Note>, h: nat)
    requires Keeps(t, log)
    ensures Keeps(t - {h}, log)
  {
    hide Owes, AnswersOnce;
  }

  lemma WriteKeeps(t: Table, log: seq<Note>, h: nat, invoke: Ret, entries: nat)
    requires Keeps(t, log)
    ensures var a := AfterWrite(t, h, invoke, entries); Keeps(a.table, log + a.notes)
  {
    hide Keeps;
    assert log + [] == log;
    if h in t && !t[h].ready {
      NoteKeeps(t, log, h, Slot(true, false, entries), Accepted(h));
    }
  }

  lemma ReadKeeps(t: Table, log: seq<Note>, h: nat, e: Encoded)
    requires Keeps(t, log) && (e.ret == Fine ==> !e.rearm)
    ensures var a := AfterRead(t, h, e); Keeps(a.table, log + a.notes)
  {
    hide Owes, AnswersOnce;
    assert log + [] == log;
    if h in t {
      if t[h].consumed {
        QuietKeeps(t, log, h, t[h].(ready := false));
      } else if t[h].ready {
        if e.ret == Fine {
          NoteKeeps(t, log, h, Slot(false, false, e.entries), Delivered(h));
        } else {
          QuietKeeps(t, log, h, Slot(e.rearm, false, e.entries));
        }
      }
    }
  }

  lemma IoctlKeeps(t: Table, log: seq<Note>, h: nat, short: bool, invoke: Ret, taken: nat, e: Encoded)
    requires Keeps(t, log) && (e.ret == Fine ==> !e.rearm)
    ensures var a := AfterIoctl(t, h, short, invoke, taken, e); Keeps(a.table, log + a.notes)
  {
    hide Keeps, AfterWrite, AfterRead;
    assert log + [] == log;
    if !short && h in t {
      var w := AfterWrite(t, h, invoke, taken);
      WriteKeeps(t, log, h, invoke, taken);
      HandleStays(t, h, invoke, taken, e);
      if w.ret == Fine {
        var r := AfterRead(w.table, h, e);
        ReadKeeps(w.table, log + w.notes, h, e);
        assert log + w.notes + r.notes == log + (w.notes + r.notes);
        if r.ret == Fine {
          QuietKeeps(r.table, log + (w.notes + r.notes), h, r.table[h].(consumed := true, ready := false));
        }
      }
    }
  }

  lemma HandleStays(t: Table, h: nat, invoke: Ret, taken: nat, e: Encoded)
    requires h in t
    ensures var w := AfterWrite(t, h, invoke, taken); h in w.table && h in AfterRead(w.table, h, e).table
  {
  }

  /** Every request keeps the invariant of the pipes, as long as no encoder re-arms what it delivers. */
  lemma AfterKeeps(t: Table, log: seq<Note>, req: Request)
    requires Keeps(t, log) && Settles(req)
    ensures Keeps(After(t, req).table, log + After(t, req).notes)
  {
    hide Keeps;
    assert log + [] == log;
    match req
    case Open(h) =>
      if h !in t {
        NoteKeeps(t, log, h, Slot(false, false, 0), Opened(h));
      }
    case Close(h) => CloseKeeps(t, log, h);
    case Write(h, invoke, taken) => WriteKeeps(t, log, h, invoke, taken);
    case Read(h, e) => ReadKeeps(t, log, h, e);
    case Ioctl(h, short, invoke, taken, e) => IoctlKeeps(t, log, h, short, invoke, taken, e);
    case Query(h, short, encode) =>
  }

  /** The table and the log after a run from the start of the daemon. */
  function Run(reqs: seq<Request>): (Table, seq<Note>) {
    if reqs == [] then (map[], [])
    else
      var (t, log) := Run(reqs[..|reqs| - 1]);
      var a := After(t, reqs[|reqs| - 1]);
      (a.table, log + a.notes)
  }

  /** In every run, a consumed reply is never ready, and each reply answers a request that had none before. */
  lemma {:induction false} RunKeeps(reqs: seq<Request>)
    requires forall i :: 0 <= i < |reqs| ==> Settles(reqs[i])
    ensures Inv(Run(reqs).0) && AnswersOnce(Run(reqs).1) && Keeps(Run(reqs).0, Run(reqs).1)
    decreases |reqs|
  {
    hide After, Owes, Settles;
    if reqs != [] {
      RunKeeps(reqs[..|reqs| - 1]);
      var (t, log) := Run(reqs[..|reqs| - 1]);
      AfterKeeps(t, log, reqs[|reqs| - 1]);
    }
  }

  /** Between two replies on a handle there is always a request that was taken. */
  lemma OneReplyPerRequest(reqs: seq<Request>, h: nat, i: nat, j: nat)
    requires forall k :: 0 <= k < |reqs| ==> Settles(reqs[k])
    requires i < j < |Run(reqs).1| && Run(reqs).1[i] == Run(reqs).1[j] == Delivered(h)
    ensures exists k :: i < k < j && Run(reqs).1[k] == Accepted(h)
  {
    hide Run, Settles, AnswersOnce, Keeps;
    RunKeeps(reqs);
    RequestBetween(Run(reqs).1, h, i, j);
  }

  lemma RequestBetween(log: seq<Note>, h: nat, i: nat, j: nat)
    requires AnswersOnce(log) && i < j < |log| && log[i] == log[j] == Delivered(h)
    ensures exists k :: i < k < j && log[k] == Accepted(h)
  {
    assert Owes(log[..j], h);
    var k :| 0 <= k < j && log[..j][k] == Accepted(h) && Unanswered(log[..j], h, k);
    assert log[..j][i] == Delivered(h);
  }

  /**
    One read settles exactly if the next one delivers nothing: a reply that is delivered and made ready
    again goes out a second time.
   */
  lemma RearmDeliversTwice(t: Table, h: nat, e: Encoded, e2: Encoded)
    requires h in t && t[h].ready && !t[h].consumed && e.ret == e2.ret == Fine
    ensures AfterRead(t, h, e).notes == [Delivered(h)]
    ensures AfterRead(AfterRead(t, h, e).table, h, e2).notes == [] <==> Settles(Read(h, e))
  {
  }

  /** After an ioctl that was answered, reads deliver nothing until a new request is taken. */
  lemma ConsumedIsSilent(t: Table, h: nat, short: bool, invoke: Ret, taken: nat, e: Encoded, e2: Encoded)
    requires Inv(t) && h in t && AfterIoctl(t, h, short, invoke, taken, e).ret == Fine
    ensures var a := AfterIoctl(t, h, short, invoke, taken, e);
            && a.notes != [] && a.notes[|a.notes| - 1] == Delivered(h)
            && AfterRead(a.table, h, e2) == Answer(a.table, Fine, [])
  {
    var w := AfterWrite(t, h, invoke, taken);
    assert w.table[h].ready && !w.table[h].consumed;
    var r := AfterRead(w.table, h, e);
    assert (w.notes + r.notes)[|w.notes|] == Delivered(h);
  }

  // ---------------------------------------------------------------- the life of a handle

  function HandleOf(req: Request): nat { req.h }

  /** A request leaves every other handle alone. */
  lemma OthersUntouched(t: Table, req: Request, h: nat)
    requires h != HandleOf(req)
    ensures h in After(t, req).table <==> h in t
    ensures h in t ==> After(t, req).table[h] == t[h]
  {
  }

  /** A handle is open from its opening to its closing; in between a second opening fails. */
  lemma HandleLives(t: Table, req: Request)
    ensures var a := After(t, req);
            var h := HandleOf(req);
            && (req.Open? ==> h in a.table && (a.ret == Fine <==> h !in t))
            && (req.Close? ==> h !in a.table && (a.ret == Fine <==> h in t))
            && (req.Open? && a.ret != Fine ==> a == Answer(t, Exists, []))
            && (req.Close? && a.ret != Fine ==> a == Answer(t, BadFid, []))
            && (!req.Open? && !req.Close? ==> (h in a.table <==> h in t))
  {
  }

  /** A closed handle can be opened again, and nothing of the old one is left. */
  lemma ReopenedIsFresh(t: Table, h: nat)
    requires h in t
    ensures AfterOpen(AfterClose(t, h).table, h) == Answer(t[h := Slot(false, false, 0)], Fine, [Opened(h)])
  {
    assert (t - {h})[h := Slot(false, false, 0)] == t[h := Slot(false, false, 0)];
  }

  /** Without an open handle nothing is taken and nothing delivered, and only an opening changes the table. */
  lemma UnknownHandle(t: Table, req: Request)
    requires HandleOf(req) !in t && !req.Open?
    ensures After(t, req).table == t && After(t, req).notes == [] && After(t, req).ret != Fine
  {
  }

  /**
    A conversation: a request on an idle handle is taken, a second one before the reply is passed over, the reply
    is delivered once, a further read brings nothing, and then the next request is taken.
   */
  lemma Conversation(t: Table, h: nat, taken: nat, other: Ret, taken2: nat, e: Encoded, e2: Encoded)
    requires h in t && !t[h].ready && e.ret == Fine && !e.rearm
    ensures var w := After(t, Write(h, Fine, taken));
            var again := After(w.table, Write(h, other, taken2));
            var r := After(w.table, Read(h, e));
            && w.ret == Fine && w.notes == [Accepted(h)]
            && again == Answer(w.table, Fine, [])
            && r.ret == Fine && r.notes == [Delivered(h)]
            && After(r.table, Read(h, e2)) == Answer(r.table, Fine, [])
            && After(r.table, Write(h, other, taken2)).notes == [Accepted(h)]
  {
  }

  /** An ioctl on an idle handle is a write and a read; asking for the length in between changes nothing. */
  lemma IoctlConverses(t: Table, h: nat, taken: nat, e: Encoded)
    requires h in t && !t[h].ready && e.ret == Fine
    ensures After(t, Ioctl(h, false, Fine, taken, e)).ret == Fine
    ensures After(t, Ioctl(h, false, Fine, taken, e)).notes == [Accepted(h), Delivered(h)]
    ensures var w := After(t, Write(h, Fine, taken));
            After(w.table, Query(h, false, Fine)) == Answer(w.table, Fine, [])
  {
    assert [Accepted(h)] + [Delivered(h)] == [Accepted(h), Delivered(h)];
  }

  // ---------------------------------------------------------------- the daemon

  /** What a request asks for: the list of all shares, a bind that parses or not, or else with its outcome. */
  datatype Call = Enumerate(table: seq<nat>) | Bind(parses: bool) | OtherCall(ret: Ret, entries: nat)

  /** What a reply is: the list of shares at a level, or one whose encoder does not know of the flag. */
  datatype Reply = Enumeration(hdr: Header, level: nat) | OtherReply(ret: Ret, entries: nat)

  ghost predicate ValidCall(p: Srvsvc.Pipe, call: Call) {
    call.Enumerate? ==>
      Distinct(call.table) && forall i :: 0 <= i < |call.table| ==> call.table[i] in p.shares
  }

  ghost predicate ValidReply(reply: Reply) { reply.Enumeration? ==> ValidHeader(reply.hdr) }

  /** Encoding the reply lets the entries go. */
  ghost predicate Lets(p: Srvsvc.Pipe, reply: Reply, callback: bool, payload: seq<byte>, ss: seq<Share>)
    reads p.dce
  {
    reply.Enumeration? && callback && Drains(p.dce.ModeOf(), Ndr.State(payload, HEADERS), reply.level, ss)
  }

  /** Encodes the reply with the flag cleared, and tells whether it is set again. */
  method Encode(p: Srvsvc.Pipe, reply: Reply) returns (e: Encoded)
    requires p.Valid() && ValidReply(reply)
    modifies p, p.dce`offset, p.dce.payload
    ensures p.Valid() && !e.rearm && !p.returnReady && p.entryProcessed == old(p.entryProcessed)
    ensures Others(p.refs, p.entries) == old(Others(p.refs, p.entries))
    ensures p.entries == if Lets(p, reply, old(p.entryProcessed), old(p.dce.payload[..]), old(p.Pending()))
                         then old(p.entries[p.numEntries..]) else old(p.entries)
    ensures p.entryProcessed ==> |p.entries| - p.numEntries == old(|p.entries| - p.numEntries)
  {
    hide HasRoom, Message, Others, Holds, ValidShares, InfoItems;
    p.returnReady := false;
    match reply
    case Enumeration(hdr, level) =>
      p.numPointers := 1;
      var ok, status := p.ShareInfoReturn(hdr, level);
      e := Encoded(if ok then Fine else BadData, p.numEntries, p.returnReady);
    case OtherReply(ret, entries) =>
      e := Encoded(ret, entries, p.returnReady);
  }

  /** The handles, and the pipe behind the handle of a request; both hold the flag. */
  class Daemon {
    var pipes: Table

    constructor ()
      ensures pipes == map[]
    {
      pipes := map[];
    }

    ghost predicate Behind(h: nat, p: Srvsvc.Pipe)
      reads this, p
    {
      p.Valid() && (h in pipes ==> pipes[h].ready == p.returnReady)
    }

    method OpenRequest(h: nat) returns (ret: Ret, notes: seq<Note>)
      modifies this
      ensures Answer(pipes, ret, notes) == AfterOpen(old(pipes), h)
    {
      if h in pipes {
        return Exists, [];
      }
      pipes := pipes[h := Slot(false, false, 0)];
      return Fine, [Opened(h)];
    }

    /** The references of the entries that wait go back if and only if the callback reaches all of them. */
    method CloseRequest(h: nat, p: Srvsvc.Pipe) returns (ret: Ret, notes: seq<Note>)
      requires Behind(h, p)
      modifies this, p
      ensures Answer(pipes, ret, notes) == AfterClose(old(pipes), h)
      ensures p.Valid() && Others(p.refs, p.entries) == old(Others(p.refs, p.entries))
      ensures h !in old(pipes) ==> p.refs == old(p.refs)
      ensures p.entries == if h in old(pipes) && old(p.entryProcessed) then old(p.entries[p.numEntries..])
                           else old(p.entries)
      ensures h in old(pipes) ==>
                (p.refs == old(Others(p.refs, p.entries)) <==>
                 old(if p.entryProcessed then p.numEntries == |p.entries| else p.entries == []))
    {
      hide Others, Holds, ValidShares;
      if h !in pipes {
        return BadFid, [];
      }
      pipes := pipes - {h};
      p.Reset();
      return Fine, [];
    }

    /** The reply is marked ready before the request is even parsed. */
    method WriteRequest(h: nat, p: Srvsvc.Pipe, call: Call)
      returns (ret: Ret, notes: seq<Note>, invoke: Ret, taken: nat)
      requires Behind(h, p) && ValidCall(p, call)
      modifies this, p
      ensures Behind(h, p) && Others(p.refs, p.entries) == old(Others(p.refs, p.entries))
      ensures Answer(pipes, ret, notes) == AfterWrite(old(pipes), h, invoke, taken)
      ensures call.Enumerate? ==> invoke == Fine && taken == p.numEntries
      ensures var taking := h in old(pipes) && !old(pipes)[h].ready;
              && p.entries == old(p.entries) +
                   (if taking && call.Enumerate? then Listed(p.shares, old(p.refs), call.table) else [])
              && p.numEntries - old(p.numEntries) == |p.entries| - |old(p.entries)|
              && p.entryProcessed == if taking && call.Enumerate? then true
                                     else old(p.entryProcessed) && !(taking && call == Bind(true))
    {
      hide Others, Holds, ValidShares, Listed;
      invoke, taken := Fine, p.numEntries;
      if call.OtherCall? {
        invoke, taken := call.ret, call.entries;
      } else if call == Bind(false) {
        invoke := BadData;
      }
      if h !in pipes {
        return NoMem, [], invoke, taken;
      }
      if pipes[h].ready {
        return Fine, [], invoke, taken;
      }
      pipes := pipes[h := pipes[h].(consumed := false)];
      pipes := pipes[h := pipes[h].(ready := true)];
      p.returnReady := true;
      if call.Enumerate? {
        p.EnumAllInvoke(call.table);
        taken := p.numEntries;
      } else if call == Bind(true) {
        p.entryProcessed := false;
      }
      pipes := pipes[h := pipes[h].(entries := taken)];
      return invoke, [Accepted(h)], invoke, taken;
    }

    /** A reply is read at most once: the encoder never makes it ready again. */
    method ReadRequest(h: nat, p: Srvsvc.Pipe, reply: Reply) returns (ret: Ret, notes: seq<Note>, e: Encoded)
      requires Behind(h, p) && ValidReply(reply)
      modifies this, p, p.dce`offset, p.dce.payload
      ensures Behind(h, p) && p.entryProcessed == old(p.entryProcessed)
      ensures Answer(pipes, ret, notes) == AfterRead(old(pipes), h, e) && Settles(Read(h, e)) && !e.rearm
      ensures Others(p.refs, p.entries) == old(Others(p.refs, p.entries))
      ensures p.entries == if h in old(pipes) && old(pipes)[h].ready && !old(pipes)[h].consumed &&
                              Lets(p, reply, old(p.entryProcessed), old(p.dce.payload[..]), old(p.Pending()))
                           then old(p.entries[p.numEntries..]) else old(p.entries)
      ensures p.entryProcessed ==> |p.entries| - p.numEntries == old(|p.entries| - p.numEntries)
    {
      hide Others, Holds, ValidShares;
      e := Encoded(Fine, 0, false);
      if h !in pipes {
        return BadFid, [], e;
      }
      if pipes[h].consumed {
        pipes := pipes[h := pipes[h].(ready := false)];
        p.returnReady := false;
        return Fine, [], e;
      }
      if !pipes[h].ready {
        return Fine, [], e;
      }
      pipes := pipes[h := pipes[h].(ready := false)];
      e := Encode(p, reply);
      pipes := pipes[h := Slot(e.rearm, false, e.entries)];
      return e.ret, if e.ret == Fine then [Delivered(h)] else [], e;
    }

    method IoctlRequest(h: nat, short: bool, p: Srvsvc.Pipe, call: Call, reply: Reply)
      returns (ret: Ret, notes: seq<Note>, invoke: Ret, taken: nat, e: Encoded)
      requires Behind(h, p) && ValidCall(p, call) && ValidReply(reply)
      modifies this, p, p.dce`offset, p.dce.payload
      ensures Behind(h, p) && Others(p.refs, p.entries) == old(Others(p.refs, p.entries))
      ensures Answer(pipes, ret, notes) == AfterIoctl(old(pipes), h, short, invoke, taken, e)
      ensures Settles(Ioctl(h, short, invoke, taken, e))
    {
      hide AfterWrite, AfterRead, Others, Listed, Lets, Holds, ValidShares, ValidCall;
      invoke, taken, e := Fine, 0, Encoded(Fine, 0, false);
      if short {
        return BadData, [], invoke, taken, e;
      }
      if h !in pipes {
        return BadFid, [], invoke, taken, e;
      }
      ghost var t := pipes;
      ret, notes, invoke, taken := WriteRequest(h, p, call);
      if ret == Fine {
        var more;
        HandleStays(t, h, invoke, taken, e);
        ret, more, e := ReadRequest(h, p, reply);
        HandleStays(t, h, invoke, taken, e);
        notes := notes + more;
        if ret == Fine {
          pipes := pipes[h := pipes[h].(consumed := true, ready := false)];
          p.returnReady := false;
        }
      }
    }

    /** The reply of an enumeration is encoded on trial; handle and pipe are left as they were. */
    method StateRequest(h: nat, short: bool, p: Srvsvc.Pipe, reply: Reply, scratch: array<byte>)
      returns (ret: Ret, notes: seq<Note>, encode: Ret, length: nat)
      requires Behind(h, p) && ValidReply(reply) && scratch != p.dce.payload
      modifies p, p.dce, scratch
      ensures Behind(h, p) && p.entries == old(p.entries) && p.refs == old(p.refs) && p.numEntries == old(p.numEntries)
      ensures p.dce.Now() == old(p.dce.Now())
      ensures Answer(pipes, ret, notes) == AfterQuery(old(pipes), h, short, encode)
    {
      hide Others, Holds, ValidShares;
      encode, length := Fine, 0;
      if short {
        return MoreData, [], encode, length;
      }
      if h !in pipes {
        return BadFid, [], encode, length;
      }
      if !pipes[h].ready {
        return Fine, [], encode, length;
      }
      if reply.Enumeration? {
        var ok;
        ok, length := p.PendingResponseLen(reply.hdr, reply.level, scratch);
        encode := if ok then Fine else BadData;
      } else {
        encode := reply.ret;
      }
      return encode, [], encode, length;
    }
  }

  /** A payload that ends where the headers do has no room for a reply. */
  lemma NoRoomBehindHeaders(m: Ndr.Mode, payload: seq<byte>, ss: seq<Share>)
    requires |payload| <= HEADERS
    ensures !Drains(m, Ndr.State(payload, HEADERS), 1, ss)
  {
  }

  /** An enumeration of one share whose reply has no room: the entry and its reference wait on the pipe. */
  method EnumerateWithoutRoom(d: Daemon, h: nat, p: Srvsvc.Pipe, id: nat, hdr: Header)
    requires d.Behind(h, p) && h in d.pipes && !d.pipes[h].ready && p.entries == [] && ValidHeader(hdr)
    requires id in p.shares && IsListed(p.shares, p.refs, id) && p.dce.payload.Length <= HEADERS
    modifies d, p, p.dce`offset, p.dce.payload
    ensures d.Behind(h, p) && h in d.pipes && !d.pipes[h].ready
    ensures p.entries == [id] && p.numEntries == 1 && p.entryProcessed && Others(p.refs, p.entries) == old(p.refs)
  {
    hide Drains, Others, Holds, ValidShares;
    HoldsNothing(p.refs);
    ListedOne(p.shares, p.refs, id);
    var ret, notes, invoke, taken := d.WriteRequest(h, p, Enumerate([id]));
    NoRoomBehindHeaders(p.dce.ModeOf(), p.dce.payload[..], p.Pending());
    var e;
    ret, notes, e := d.ReadRequest(h, p, Enumeration(hdr, 1));
  }

  lemma ListedOne(shares: map<nat, Share>, refs: map<nat, nat>, id: nat)
    requires shares.Keys == refs.Keys && id in shares && IsListed(shares, refs, id)
    ensures Listed(shares, refs, [id]) == [id]
  {
    assert [id][..0] == [];
  }

  lemma OneReference(refs: map<nat, nat>, id: nat, others: map<nat, nat>)
    requires Holds(refs, [id]) && Others(refs, [id]) == others && id in refs
    ensures refs == others[id := others[id] + 1]
  {
    assert refs.Keys == others.Keys;
    assert forall k :: k in refs ==> others[k] == refs[k] - multiset([id])[k];
  }

  /** A close gives the reference of a waiting entry back, unless a bind has unset the callback. */
  method BindAndClose(d: Daemon, h: nat, p: Srvsvc.Pipe, id: nat, bind: bool)
    requires d.Behind(h, p) && h in d.pipes && !d.pipes[h].ready
    requires p.entries == [id] && p.numEntries == 1 && p.entryProcessed
    modifies d, p
    ensures p.Valid() && Others(p.refs, p.entries) == old(Others(p.refs, p.entries))
    ensures if bind then p.entries == [id] else p.refs == old(Others(p.refs, p.entries))
  {
    hide Others, Holds, ValidShares, Listed;
    var ret, notes;
    if bind {
      var invoke, taken;
      ret, notes, invoke, taken := d.WriteRequest(h, p, Bind(true));
      assert p.entries == [id];
    }
    ret, notes := d.CloseRequest(h, p);
  }

  /**
    An enumeration whose reply has no room, and then a close: the reference on the share goes back.  With a bind
    in between, which unsets the callback, it stays for good.
   */
  method CloseAfterFailedRead(share: Share, n: nat, hdr: Header, bind: bool) returns (refs: map<nat, nat>)
    requires ValidShare(share) && share.browseable && share.available && n > 0 && ValidHeader(hdr)
    ensures refs == map[0 := if bind then n + 1 else n]
  {
    hide Others, Holds;
    var payload := new byte[HEADERS];
    var dce := new NdrCodec.Dce(payload, true, true, false);
    var p := new Srvsvc.Pipe(map[0 := share], map[0 := n], dce);
    var d := new Daemon();
    var ret, notes := d.OpenRequest(1);
    EnumerateWithoutRoom(d, 1, p, 0, hdr);
    BindAndClose(d, 1, p, 0, bind);
    if bind {
      OneReference(p.refs, 0, map[0 := n]);
    }
    return p.refs;
  }
}
