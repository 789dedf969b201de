/**
  Bind negotiation (sections 12.6.4.3 to 12.6.4.5 of The Open Group C706): reading the contexts a
  client proposes, judging their transfer syntaxes, and the list of results.
 */
module Bind {
  import opened Bytes
  import opened Ndr
  import opened NdrCodec
  import opened NdrLists

  datatype Syntax = Syntax(timeLow: nat, timeMid: nat, timeHi: nat, clockSeq: seq<byte>, node: seq<byte>,
                           verMajor: nat, verMinor: nat)

  datatype Context = Context(id: nat, abstractSyntax: Syntax, transfer: seq<Syntax>)

  datatype BindRequest = BindRequest(maxXmit: nat, maxRecv: nat, assocGroup: nat, contexts: seq<Context>)

  const NDR := Syntax(0x8a885d04, 0x1ceb, 0x11c9, [0x9f, 0xe8], [0x08, 0x00, 0x2b, 0x10, 0x48, 0x60], 2, 0)
  const NEGOTIATION := Syntax(0x6CB71C2C, 0x9812, 0x4540, [0, 0], [0, 0, 0, 0, 0, 0], 1, 0)
  const PNIO := Syntax(0, 0, 0, [0, 0], [0, 0, 0, 0, 0, 0], 0, 0)

  const ACCEPT := 0
  const PROVIDER_REJECT := 2
  const NEGOTIATE_ACK := 3

  const KNOWN: seq<(Syntax, int)> := [(NDR, ACCEPT), (NEGOTIATION, NEGOTIATE_ACK)]

  // ---------------------------------------------------------------- judging the contexts

  /** The result of the first row for this syntax. */
  function RowResult(table: seq<(Syntax, int)>, s: Syntax): Option<int> {
    if table == [] then None else if table[0].0 == s then Some(table[0].1) else RowResult(table[1..], s)
  }

  function TableResult(s: Syntax): Option<int> { RowResult(KNOWN, s) }

  /** NDR version 2 is accepted, bind-time feature negotiation is acknowledged, and nothing else is known. */
  lemma KnownResults(s: Syntax)
    ensures TableResult(s) ==
            if s == Syntax(0x8a885d04, 0x1ceb, 0x11c9, [0x9f, 0xe8], [0x08, 0x00, 0x2b, 0x10, 0x48, 0x60], 2, 0)
            then Some(0)
            else if s == Syntax(0x6CB71C2C, 0x9812, 0x4540, [0, 0], [0, 0, 0, 0, 0, 0], 1, 0) then Some(3)
            else None
  {
    assert KNOWN[1..] == [KNOWN[1]] && [KNOWN[1]][1..] == [];
    assert RowResult([], s) == None;
    assert RowResult(KNOWN[1..], s) == if KNOWN[1].0 == s then Some(KNOWN[1].1) else None;
  }

  ghost predicate FirstKnown(ctx: Context, j: nat) {
    && j < |ctx.transfer| && TableResult(ctx.transfer[j]).Some?
    && forall k :: 0 <= k < j ==> TableResult(ctx.transfer[k]).None?
  }

  ghost predicate NoneKnown(ctx: Context) {
    forall k :: 0 <= k < |ctx.transfer| ==> TableResult(ctx.transfer[k]).None?
  }

  /** One result of the reply. */
  datatype Verdict = Verdict(result: nat, reason: nat, syntax: Syntax)

  /** The table result of the first known syntax the client listed, or a rejection if it listed none. */
  ghost predicate Judged(ctx: Context, v: Verdict) {
    && (forall j: nat :: FirstKnown(ctx, j) ==>
          && TableResult(ctx.transfer[j]) == Some(v.result)
          && v.syntax == (if v.result == NEGOTIATE_ACK then PNIO else ctx.transfer[j])
          && v.reason == (if v.result == NEGOTIATE_ACK then 0 else v.result))
    && (NoneKnown(ctx) ==>
          v.result == v.reason == PROVIDER_REJECT && ctx.transfer != [] && v.syntax == ctx.transfer[0])
  }

  method SyntaxCmp(a: Syntax, b: Syntax) returns (r: int)
    ensures r == 0 <==> a == b
  {
    if a.timeLow != b.timeLow {
      return -1;
    }
    if a.timeMid != b.timeMid {
      return -1;
    }
    if a.timeHi != b.timeHi {
      return -1;
    }
    if a.clockSeq != b.clockSeq {
      return -1;
    }
    if a.node != b.node {
      return -1;
    }
    if a.verMajor != b.verMajor {
      return -1;
    }
    if a.verMinor != b.verMinor {
      return -1;
    }
    return 0;
  }

  method SyntaxSupported(s: Syntax) returns (r: int)
    ensures TableResult(s) == if r == -1 then None else Some(r)
    ensures r >= -1
  {
    for k := 0 to |KNOWN|
      invariant RowResult(KNOWN[k..], s) == TableResult(s)
    {
      var c := SyntaxCmp(s, KNOWN[k].0);
      assert KNOWN[k..][0] == KNOWN[k] && KNOWN[k..][1..] == KNOWN[k + 1..];
      if c == 0 {
        return KNOWN[k].1;
      }
    }
    return -1;
  }

  /** Whether some transfer syntax of the context is known. */
  method AnySupported(ctx: Context) returns (any: bool)
    ensures any == !NoneKnown(ctx)
  {
    hide TableResult;
    for j := 0 to |ctx.transfer|
      invariant forall k :: 0 <= k < j ==> TableResult(ctx.transfer[k]).None?
    {
      var r := SyntaxSupported(ctx.transfer[j]);
      if r != -1 {
        return true;
      }
    }
    return false;
  }

  method Judge(ctx: Context) returns (v: Verdict)
    requires ctx.transfer != []
    ensures Judged(ctx, v)
  {
    hide TableResult;
    for j := 0 to |ctx.transfer|
      invariant forall k :: 0 <= k < j ==> TableResult(ctx.transfer[k]).None?
    {
      var result := SyntaxSupported(ctx.transfer[j]);
      if result >= 0 {
        return if result == NEGOTIATE_ACK then Verdict(result, 0, PNIO) else Verdict(result, result, ctx.transfer[j]);
      }
    }
    return Verdict(PROVIDER_REJECT, PROVIDER_REJECT, ctx.transfer[0]);
  }

  /** A refusal exactly when every context would be rejected; otherwise one result per context, in order. */
  method BindReturn(contexts: seq<Context>) returns (nak: bool, verdicts: seq<Verdict>)
    requires forall i :: 0 <= i < |contexts| ==> contexts[i].transfer != []
    ensures nak <==> forall i :: 0 <= i < |contexts| ==> NoneKnown(contexts[i])
    ensures !nak ==> |verdicts| == |contexts| && forall i :: 0 <= i < |contexts| ==> Judged(contexts[i], verdicts[i])
    ensures !nak ==> exists i :: 0 <= i < |contexts| && verdicts[i].result != PROVIDER_REJECT
  {
    hide NoneKnown, Judged;
    var ack := false;
    verdicts := [];
    ghost var w := 0;
    for i := 0 to |contexts|
      invariant !ack ==> forall k :: 0 <= k < i ==> NoneKnown(contexts[k])
      invariant ack ==> w < |contexts| && !NoneKnown(contexts[w])
    {
      var any := AnySupported(contexts[i]);
      if any {
        ack := true;
        w := i;
      }
    }
    if !ack {
      return true, [];
    }
    for i := 0 to |contexts|
      invariant |verdicts| == i
      invariant forall k :: 0 <= k < i ==> Judged(contexts[k], verdicts[k])
    {
      var v := Judge(contexts[i]);
      verdicts := verdicts + [v];
    }
    KnownIsNotRejected(contexts[w], verdicts[w]);
    return false, verdicts;
  }

  /** A context with a known syntax is never rejected, and one without always is. */
  lemma KnownIsNotRejected(ctx: Context, v: Verdict)
    requires Judged(ctx, v)
    ensures v.result == PROVIDER_REJECT <==> NoneKnown(ctx)
  {
    hide TableResult;
    if !NoneKnown(ctx) {
      var k :| 0 <= k < |ctx.transfer| && TableResult(ctx.transfer[k]).Some?;
      var j := SomeFirstKnown(ctx, k);
      KnownResults(ctx.transfer[j]);
    }
  }

  /** What a client that lists NDR, the negotiation or neither of them first is told. */
  lemma JudgedSays(ctx: Context, v: Verdict)
    requires ctx.transfer != [] && Judged(ctx, v)
    ensures ctx.transfer[0] == NDR ==> v == Verdict(0, 0, NDR)
    ensures ctx.transfer[0] == NEGOTIATION ==> v == Verdict(3, 0, Syntax(0, 0, 0, [0, 0], [0, 0, 0, 0, 0, 0], 0, 0))
    ensures NoneKnown(ctx) ==> v == Verdict(2, 2, ctx.transfer[0])
  {
    KnownResults(NDR);
    KnownResults(NEGOTIATION);
    hide TableResult;
    if ctx.transfer[0] == NDR || ctx.transfer[0] == NEGOTIATION {
      assert FirstKnown(ctx, 0);
    }
  }

  lemma {:induction false} SomeFirstKnown(ctx: Context, k: nat) returns (j: nat)
    requires k < |ctx.transfer| && TableResult(ctx.transfer[k]).Some?
    ensures FirstKnown(ctx, j)
    decreases k
  {
    hide TableResult;
    if i :| 0 <= i < k && TableResult(ctx.transfer[i]).Some? {
      j := SomeFirstKnown(ctx, i);
    } else {
      j := k;
    }
  }

  // ---------------------------------------------------------------- a context as bytes

  ghost predicate ValidSyntax(s: Syntax) {
    && s.timeLow < TWO_32 && s.timeMid < 0x1_0000 && s.timeHi < 0x1_0000
    && |s.clockSeq| == 2 && |s.node| == 6
    && s.verMajor < 0x1_0000 && s.verMinor < 0x1_0000
  }

  function SyntaxItems(s: Syntax): seq<Item> {
    [Num(4, s.timeLow), Num(2, s.timeMid), Num(2, s.timeHi), Blob(s.clockSeq), Blob(s.node),
     Num(2, s.verMajor), Num(2, s.verMinor)]
  }

  function SyntaxTypes(): seq<Type> { [NumT(4), NumT(2), NumT(2), BlobT(2), BlobT(6), NumT(2), NumT(2)] }

  lemma SyntaxItemsValid(s: Syntax)
    requires ValidSyntax(s)
    ensures ValidItems(SyntaxItems(s)) && TypesOf(SyntaxItems(s)) == SyntaxTypes()
  {
    Pow256Four();
  }

  function NumOf(it: Item): nat { if it.Num? then it.v else 0 }

  function BlobOf(it: Item): seq<byte> { if it.Blob? then it.bytes else [] }

  function ToSyntax(its: seq<Item>): Syntax
    requires |its| == 7
  {
    Syntax(NumOf(its[0]), NumOf(its[1]), NumOf(its[2]), BlobOf(its[3]), BlobOf(its[4]), NumOf(its[5]), NumOf(its[6]))
  }

  function GetSyntax(m: Mode, st: State): (Option<Syntax>, State)
    requires ValidMode(m)
  {
    var (its, s) := GetItems(m, st, SyntaxTypes());
    (if its.None? then None else Some(ToSyntax(its.value)), s)
  }

  ghost function SyntaxReader(m: Mode): State -> (Option<Syntax>, State) {
    (st: State) => if ValidMode(m) then GetSyntax(m, st) else (None, st)
  }

  method ReadSyntax(dce: Dce) returns (s: Option<Syntax>)
    modifies dce`offset
    ensures (s, dce.Now()) == GetSyntax(dce.ModeOf(), old(dce.Now()))
  {
    hide GetItems;
    var its := ReadItems(dce, SyntaxTypes());
    s := if its.None? then None else Some(ToSyntax(its.value));
  }

  lemma SyntaxReads(m: Mode, payload: seq<byte>, s: Syntax)
    requires ValidMode(m) && ValidSyntax(s) && ValidItems(SyntaxItems(s))
    ensures Reads(m, payload, SyntaxReader(m), SyntaxItems(s), s)
  {
    hide Laid, GetItems, AllPrims, End, ValidItems, SyntaxTypes;
    forall o: nat | Laid(m, payload, o, AllPrims(m, SyntaxItems(s)))
      ensures SyntaxReader(m)(State(payload, o)) == (Some(s), State(payload, End(m, o, AllPrims(m, SyntaxItems(s)))))
    {
      SyntaxItemsValid(s);
      ItemsRead(m, payload, o, SyntaxItems(s));
    }
  }

  ghost predicate ValidContext(ctx: Context) {
    && ctx.id < 0x1_0000 && ValidSyntax(ctx.abstractSyntax) && |ctx.transfer| < 0x100
    && forall i :: 0 <= i < |ctx.transfer| ==> ValidSyntax(ctx.transfer[i])
  }

  function SyntaxParts(ss: seq<Syntax>): (parts: seq<seq<Item>>)
    ensures |parts| == |ss|
  {
    seq(|ss|, i requires 0 <= i < |ss| => SyntaxItems(ss[i]))
  }

  function ContextHead(ctx: Context): seq<Item> { [Num(2, ctx.id), Num(1, |ctx.transfer|)] }

  function ContextItems(ctx: Context): seq<Item> {
    ContextHead(ctx) + (SyntaxItems(ctx.abstractSyntax) + Flatten(SyntaxParts(ctx.transfer)))
  }

  function ContextTypes(): seq<Type> { [NumT(2), NumT(1)] }

  lemma ContextItemsValid(ctx: Context)
    requires ValidContext(ctx)
    ensures ValidItems(ContextHead(ctx)) && TypesOf(ContextHead(ctx)) == ContextTypes()
    ensures ValidItems(SyntaxItems(ctx.abstractSyntax))
    ensures AllValid(SyntaxParts(ctx.transfer)) && ValidItems(Flatten(SyntaxParts(ctx.transfer)))
    ensures ValidItems(SyntaxItems(ctx.abstractSyntax) + Flatten(SyntaxParts(ctx.transfer)))
    ensures ValidItems(ContextItems(ctx))
  {
    Pow256Four();
    SyntaxItemsValid(ctx.abstractSyntax);
    forall i | 0 <= i < |ctx.transfer|
      ensures ValidItems(SyntaxParts(ctx.transfer)[i])
    {
      SyntaxItemsValid(ctx.transfer[i]);
    }
    FlattenValid(SyntaxParts(ctx.transfer));
  }

  /** A context without transfer syntaxes is an error. */
  ghost function GetContext(m: Mode, st: State): (Option<Context>, State)
    requires ValidMode(m)
  {
    var (head, s1) := GetItems(m, st, ContextTypes());
    if head.None? || NumOf(head.value[1]) == 0 then (None, s1)
    else
      var (a, s2) := GetSyntax(m, s1);
      if a.None? then (None, s2)
      else
        var (ts, s3) := GetMany(SyntaxReader(m), s2, NumOf(head.value[1]));
        (if ts.None? then None else Some(Context(NumOf(head.value[0]), a.value, ts.value)), s3)
  }

  ghost function ContextReader(m: Mode): State -> (Option<Context>, State) {
    (st: State) => if ValidMode(m) then GetContext(m, st) else (None, st)
  }

  method ReadSyntaxes(dce: Dce, n: nat) returns (ss: Option<seq<Syntax>>)
    modifies dce`offset
    ensures (ss, dce.Now()) == GetMany(SyntaxReader(dce.ModeOf()), old(dce.Now()), n)
  {
    hide GetSyntax, GetMany, After;
    ghost var m, st := dce.ModeOf(), dce.Now();
    ghost var get := SyntaxReader(m);
    var acc := [];
    AfterNothing(get, st, n, []);
    for i := 0 to n
      invariant m == dce.ModeOf() && After(acc, GetMany(get, dce.Now(), n - i)) == GetMany(get, st, n)
    {
      AfterOne(acc, get, dce.Now(), n - i);
      var s := ReadSyntax(dce);
      if s.None? {
        return None;
      }
      acc := acc + [s.value];
    }
    AfterNothing(get, dce.Now(), 0, acc);
    ss := Some(acc);
  }

  method ReadContext(dce: Dce) returns (ctx: Option<Context>)
    modifies dce`offset
    ensures (ctx, dce.Now()) == GetContext(dce.ModeOf(), old(dce.Now()))
  {
    hide GetItems, GetSyntax, GetMany, SyntaxReader;
    var head := ReadItems(dce, ContextTypes());
    if head.None? || NumOf(head.value[1]) == 0 {
      return None;
    }
    var a := ReadSyntax(dce);
    if a.None? {
      return None;
    }
    var ts := ReadSyntaxes(dce, NumOf(head.value[1]));
    ctx := if ts.None? then None else Some(Context(NumOf(head.value[0]), a.value, ts.value));
  }

  method ReadContexts(dce: Dce, n: nat) returns (cs: Option<seq<Context>>)
    modifies dce`offset
    ensures (cs, dce.Now()) == GetMany(ContextReader(dce.ModeOf()), old(dce.Now()), n)
  {
    hide GetContext, GetMany, After;
    ghost var m, st := dce.ModeOf(), dce.Now();
    ghost var get := ContextReader(m);
    var acc := [];
    AfterNothing(get, st, n, []);
    for i := 0 to n
      invariant m == dce.ModeOf() && After(acc, GetMany(get, dce.Now(), n - i)) == GetMany(get, st, n)
    {
      AfterOne(acc, get, dce.Now(), n - i);
      var c := ReadContext(dce);
      if c.None? {
        return None;
      }
      acc := acc + [c.value];
    }
    AfterNothing(get, dce.Now(), 0, acc);
    cs := Some(acc);
  }

  lemma ContextReads(m: Mode, payload: seq<byte>, ctx: Context)
    requires ValidMode(m) && ValidContext(ctx) && ValidItems(ContextItems(ctx))
    ensures ctx.transfer != [] ==> Reads(m, payload, ContextReader(m), ContextItems(ctx), ctx)
    ensures ctx.transfer == [] ==> Refuses(m, payload, ContextReader(m), ContextItems(ctx))
  {
    hide GetContext, Laid, AllPrims, End, ContextItems, ValidContext;
    forall o: nat | Laid(m, payload, o, AllPrims(m, ContextItems(ctx)))
      ensures ctx.transfer != [] ==>
                ContextReader(m)(State(payload, o)) ==
                (Some(ctx), State(payload, End(m, o, AllPrims(m, ContextItems(ctx)))))
      ensures ctx.transfer == [] ==> ContextReader(m)(State(payload, o)).0.None?
    {
      ContextReadsAt(m, payload, o, ctx);
    }
  }

  lemma ContextReadsAt(m: Mode, payload: seq<byte>, o: nat, ctx: Context)
    requires ValidMode(m) && ValidContext(ctx) && ValidItems(ContextItems(ctx))
    requires Laid(m, payload, o, AllPrims(m, ContextItems(ctx)))
    ensures var (r, s) := GetContext(m, State(payload, o));
            if ctx.transfer == [] then r.None?
            else r == Some(ctx) && s == State(payload, End(m, o, AllPrims(m, ContextItems(ctx))))
  {
    hide GetItems, Laid, AllPrims, End, ValidItems, SyntaxItems, Flatten, SyntaxParts, ContextTypes, GetMany, GetSyntax;
    ContextItemsValid(ctx);
    var h, a, parts := ContextHead(ctx), SyntaxItems(ctx.abstractSyntax), SyntaxParts(ctx.transfer);
    var t := Flatten(parts);
    AllPrimsConcat(m, h, a + t);
    AllPrimsConcat(m, a, t);
    LaidConcat(m, payload, o, AllPrims(m, h), AllPrims(m, a + t));
    var o1 := End(m, o, AllPrims(m, h));
    LaidConcat(m, payload, o1, AllPrims(m, a), AllPrims(m, t));
    ItemsRead(m, payload, o, h);
    if ctx.transfer != [] {
      SyntaxReads(m, payload, ctx.abstractSyntax);
      SyntaxesRead(m, payload, End(m, o1, AllPrims(m, a)), ctx);
      assert SyntaxReader(m)(State(payload, o1)) ==
             (Some(ctx.abstractSyntax), State(payload, End(m, o1, AllPrims(m, a))));
    }
  }

  lemma SyntaxesRead(m: Mode, payload: seq<byte>, o: nat, ctx: Context)
    requires ValidMode(m) && ValidContext(ctx) && ValidItems(Flatten(SyntaxParts(ctx.transfer)))
    requires Laid(m, payload, o, AllPrims(m, Flatten(SyntaxParts(ctx.transfer))))
    ensures GetMany(SyntaxReader(m), State(payload, o), |ctx.transfer|) ==
            (Some(ctx.transfer), State(payload, End(m, o, AllPrims(m, Flatten(SyntaxParts(ctx.transfer))))))
  {
    hide Laid, AllPrims, End, ValidItems, SyntaxItems, Flatten, GetMany, SyntaxReader, Reads;
    ContextItemsValid(ctx);
    var parts := SyntaxParts(ctx.transfer);
    forall i | 0 <= i < |ctx.transfer|
      ensures Reads(m, payload, SyntaxReader(m), parts[i], ctx.transfer[i])
    {
      SyntaxReads(m, payload, ctx.transfer[i]);
    }
    ManyRead(m, payload, o, SyntaxReader(m), parts, ctx.transfer);
  }

  // ---------------------------------------------------------------- the request as bytes

  ghost predicate ValidRequest(req: BindRequest) {
    && req.maxXmit < 0x1_0000 && req.maxRecv < 0x1_0000 && req.assocGroup < TWO_32 && |req.contexts| < 0x100
    && forall i :: 0 <= i < |req.contexts| ==> ValidContext(req.contexts[i])
  }

  function BindHead(req: BindRequest): seq<Item> {
    [Num(2, req.maxXmit), Num(2, req.maxRecv), Num(4, req.assocGroup), Num(1, |req.contexts|)]
  }

  function BindTypes(): seq<Type> { [NumT(2), NumT(2), NumT(4), NumT(1)] }

  function ContextParts(cs: seq<Context>): (parts: seq<seq<Item>>)
    ensures |parts| == |cs|
  {
    seq(|cs|, i requires 0 <= i < |cs| => ContextItems(cs[i]))
  }

  lemma BindItemsValid(req: BindRequest)
    requires ValidRequest(req)
    ensures ValidItems(BindHead(req)) && TypesOf(BindHead(req)) == BindTypes()
    ensures AllValid(ContextParts(req.contexts)) && ValidItems(Flatten(ContextParts(req.contexts)))
  {
    hide ContextItems, Flatten;
    Pow256Four();
    forall i | 0 <= i < |req.contexts|
      ensures ValidItems(ContextParts(req.contexts)[i])
    {
      ContextItemsValid(req.contexts[i]);
    }
    FlattenValid(ContextParts(req.contexts));
  }

  /** The head of the request, and the contexts behind an alignment. */
  ghost function BindPrims(m: Mode, req: BindRequest): (ps: seq<Prim>)
    requires ValidMode(m) && ValidRequest(req)
    ensures ValidPrims(ps)
  {
    BindItemsValid(req);
    AllPrims(m, BindHead(req)) + ([AutoAlign] + AllPrims(m, Flatten(ContextParts(req.contexts))))
  }

  ghost function GetBind(m: Mode, st: State): (Option<BindRequest>, State)
    requires ValidMode(m)
  {
    var (head, s1) := GetItems(m, st, BindTypes());
    if head.None? then (None, s1)
    else
      var s2 := PutPrim(m, s1, AutoAlign).1;
      var (cs, s3) := GetMany(ContextReader(m), s2, NumOf(head.value[3]));
      if cs.None? then (None, s3)
      else (Some(BindRequest(NumOf(head.value[0]), NumOf(head.value[1]), NumOf(head.value[2]), cs.value)), s3)
  }

  method ParseBindReq(dce: Dce) returns (req: Option<BindRequest>)
    modifies dce`offset
    ensures (req, dce.Now()) == GetBind(dce.ModeOf(), old(dce.Now()))
    ensures req.Some? ==> forall i :: 0 <= i < |req.value.contexts| ==> req.value.contexts[i].transfer != []
  {
    hide GetItems, GetMany, ContextReader, PutPrim;
    var head := ReadItems(dce, BindTypes());
    if head.None? {
      return None;
    }
    dce.AutoAlignOffset();
    ghost var m, st := dce.ModeOf(), dce.Now();
    var cs := ReadContexts(dce, NumOf(head.value[3]));
    if cs.None? {
      return None;
    }
    ReadHaveTransfer(m, st, NumOf(head.value[3]));
    req := Some(BindRequest(NumOf(head.value[0]), NumOf(head.value[1]), NumOf(head.value[2]), cs.value));
  }

  /** No context without transfer syntaxes gets through the parser. */
  lemma {:induction false} ReadHaveTransfer(m: Mode, st: State, n: nat)
    requires ValidMode(m)
    ensures var cs := GetMany(ContextReader(m), st, n).0;
            cs.Some? ==> forall i :: 0 <= i < |cs.value| ==> cs.value[i].transfer != []
    decreases n
  {
    hide GetItems, GetSyntax;
    if n > 0 {
      ReadHaveTransfer(m, GetContext(m, st).1, n - 1);
    }
  }

  /**
    A request that stands in the payload is parsed back as it was meant, exactly when every context has
    a transfer syntax; otherwise it is refused.
   */
  lemma BindReadsExactly(m: Mode, payload: seq<byte>, o: nat, req: BindRequest)
    requires ValidMode(m) && ValidRequest(req) && Laid(m, payload, o, BindPrims(m, req))
    ensures GetBind(m, State(payload, o)).0 ==
            if exists i :: 0 <= i < |req.contexts| && req.contexts[i].transfer == [] then None else Some(req)
  {
    hide GetItems, Laid, AllPrims, End, ValidItems, ContextItems, Flatten, BindTypes, GetMany, ContextReader;
    BindItemsValid(req);
    var h, t := BindHead(req), AllPrims(m, Flatten(ContextParts(req.contexts)));
    LaidConcat(m, payload, o, AllPrims(m, h), [AutoAlign] + t);
    ItemsRead(m, payload, o, h);
    var o1 := End(m, o, AllPrims(m, h));
    LaidStep(m, payload, o1, AutoAlign, t);
    AlignHasNoOctets(m);
    ContextsReadExactly(m, payload, Start(m, AutoAlign, o1), req);
  }

  lemma ContextsReadExactly(m: Mode, payload: seq<byte>, o: nat, req: BindRequest)
    requires ValidMode(m) && ValidRequest(req) && ValidItems(Flatten(ContextParts(req.contexts)))
    requires Laid(m, payload, o, AllPrims(m, Flatten(ContextParts(req.contexts))))
    ensures GetMany(ContextReader(m), State(payload, o), |req.contexts|).0 ==
            if exists i :: 0 <= i < |req.contexts| && req.contexts[i].transfer == [] then None else Some(req.contexts)
  {
    hide Laid, AllPrims, End, ValidItems, ContextItems, Flatten, GetMany, ContextReader, Reads, Refuses, ValidContext;
    BindItemsValid(req);
    var cs, parts := req.contexts, ContextParts(req.contexts);
    forall i | 0 <= i < |cs|
      ensures cs[i].transfer != [] ==> Reads(m, payload, ContextReader(m), parts[i], cs[i])
      ensures cs[i].transfer == [] ==> Refuses(m, payload, ContextReader(m), parts[i])
    {
      assert ValidItems(parts[i]) && parts[i] == ContextItems(cs[i]);
      ContextReads(m, payload, cs[i]);
    }
    if i :| 0 <= i < |cs| && cs[i].transfer == [] {
      var j := FirstEmpty(cs, i);
      ManyRefuse(m, payload, o, ContextReader(m), parts, cs, j);
    } else {
      ManyRead(m, payload, o, ContextReader(m), parts, cs);
    }
  }

  lemma {:induction false} FirstEmpty(cs: seq<Context>, i: nat) returns (j: nat)
    requires i < |cs| && cs[i].transfer == []
    ensures j < |cs| && cs[j].transfer == [] && forall k :: 0 <= k < j ==> cs[k].transfer != []
    decreases i
  {
    if k :| 0 <= k < i && cs[k].transfer == [] {
      j := FirstEmpty(cs, k);
    } else {
      j := i;
    }
  }

  // ---------------------------------------------------------------- the results as bytes

  function VerdictItems(v: Verdict): seq<Item> { [Num(2, v.result), Num(2, v.reason)] + SyntaxItems(v.syntax) }

  function VerdictParts(vs: seq<Verdict>): (parts: seq<seq<Item>>)
    ensures |parts| == |vs|
  {
    seq(|vs|, i requires 0 <= i < |vs| => VerdictItems(vs[i]))
  }

  ghost predicate ValidVerdict(v: Verdict) { v.result < 0x1_0000 && v.reason < 0x1_0000 && ValidSyntax(v.syntax) }

  lemma VerdictValid(v: Verdict)
    requires ValidVerdict(v)
    ensures ValidItems(VerdictItems(v))
  {
    Pow256Four();
    SyntaxItemsValid(v.syntax);
  }

  /** The loop of the acknowledgement: each context is judged and its result written. */
  method WriteResults(dce: Dce, contexts: seq<Context>) returns (ok: bool, verdicts: seq<Verdict>)
    requires forall i :: 0 <= i < |contexts| ==> contexts[i].transfer != [] && ValidContext(contexts[i])
    modifies dce`offset, dce.payload
    ensures |verdicts| <= |contexts|
    ensures forall i :: 0 <= i < |verdicts| ==> Judged(contexts[i], verdicts[i]) && ValidVerdict(verdicts[i])
    ensures ok ==> |verdicts| == |contexts|
    ensures AllValid(VerdictParts(verdicts)) && ValidItems(Flatten(VerdictParts(verdicts)))
    ensures (ok, dce.Now()) == PutItems(dce.ModeOf(), old(dce.Now()), Flatten(VerdictParts(verdicts)))
  {
    hide Judged, ValidContext, ValidVerdict, VerdictItems, PutItems, ValidItems, Flatten, VerdictParts;
    ghost var m, st := dce.ModeOf(), dce.Now();
    verdicts, ok := [], true;
    NoVerdicts(m, st);
    for i := 0 to |contexts|
      invariant ok && m == dce.ModeOf() && |verdicts| == i
      invariant forall k :: 0 <= k < i ==> Judged(contexts[k], verdicts[k]) && ValidVerdict(verdicts[k])
      invariant AllValid(VerdictParts(verdicts)) && ValidItems(Flatten(VerdictParts(verdicts)))
      invariant (true, dce.Now()) == PutItems(m, st, Flatten(VerdictParts(verdicts)))
    {
      var v := Judge(contexts[i]);
      JudgedValid(contexts[i], v);
      VerdictValid(v);
      OneMoreVerdict(m, st, verdicts, v);
      verdicts := verdicts + [v];
      ok := WriteItems(dce, VerdictItems(v));
      if !ok {
        return;
      }
    }
  }

  lemma NoVerdicts(m: Mode, st: State)
    requires ValidMode(m)
    ensures AllValid(VerdictParts([])) && ValidItems(Flatten(VerdictParts([])))
    ensures PutItems(m, st, Flatten(VerdictParts([]))) == (true, st)
  {
  }

  lemma JudgedValid(ctx: Context, v: Verdict)
    requires Judged(ctx, v) && ValidContext(ctx)
    ensures ValidVerdict(v)
  {
    hide TableResult;
    if !NoneKnown(ctx) {
      var k :| 0 <= k < |ctx.transfer| && TableResult(ctx.transfer[k]).Some?;
      var j := SomeFirstKnown(ctx, k);
      KnownResults(ctx.transfer[j]);
    }
  }

  lemma OneMoreVerdict(m: Mode, st: State, vs: seq<Verdict>, v: Verdict)
    requires ValidMode(m) && AllValid(VerdictParts(vs))
    requires ValidItems(Flatten(VerdictParts(vs))) && ValidItems(VerdictItems(v))
    requires PutItems(m, st, Flatten(VerdictParts(vs))).0
    ensures AllValid(VerdictParts(vs + [v])) && ValidItems(Flatten(VerdictParts(vs + [v])))
    ensures PutItems(m, st, Flatten(VerdictParts(vs + [v]))) ==
            PutItems(m, PutItems(m, st, Flatten(VerdictParts(vs))).1, VerdictItems(v))
  {
    hide PutItems, VerdictItems, Flatten;
    assert VerdictParts(vs + [v]) == VerdictParts(vs) + [VerdictItems(v)];
    FlattenAppend(VerdictParts(vs), VerdictItems(v));
    PutItemsConcat(m, st, Flatten(VerdictParts(vs)), VerdictItems(v));
  }

  // ---------------------------------------------------------------- fields by their places

  /** A syntax in its twenty octets: the identifier of appendix A of The Open Group C706, and two versions. */
  ghost predicate SyntaxAt(little: bool, payload: seq<byte>, o: nat, s: Syntax) {
    && o + 20 <= |payload|
    && DecodeInt(little, payload[o..o + 4]) == s.timeLow
    && DecodeInt(little, payload[o + 4..o + 6]) == s.timeMid && DecodeInt(little, payload[o + 6..o + 8]) == s.timeHi
    && payload[o + 8..o + 10] == s.clockSeq && payload[o + 10..o + 16] == s.node
    && DecodeInt(little, payload[o + 16..o + 18]) == s.verMajor
    && DecodeInt(little, payload[o + 18..o + 20]) == s.verMinor
  }

  lemma EvenPlaces(o: nat, k: nat)
    requires o % 4 == 0 && k % 2 == 0
    ensures (o + k) % 2 == 0
  {
    DivModUnique(o + k, 2, 2 * (o / 4) + k / 2, 0);
  }

  lemma SyntaxPlaces(m: Mode, payload: seq<byte>, o: nat)
    requires ValidMode(m) && o % 4 == 0 && GetSyntax(m, State(payload, o)).0.Some?
    ensures SyntaxAt(m.little, payload, o, GetSyntax(m, State(payload, o)).0.value) && o + 20 <= |payload|
    ensures GetSyntax(m, State(payload, o)).1 == State(payload, o + 20)
  {
    hide GetItems, DecodeInt;
    var ts := SyntaxTypes();
    var (r, end) := GetItems(m, State(payload, o), ts);
    var its := r.value;
    EvenPlaces(o, 4);
    EvenPlaces(o, 6);
    EvenPlaces(o, 8);
    EvenPlaces(o, 10);
    EvenPlaces(o, 16);
    EvenPlaces(o, 18);
    GotNum(m, payload, o, ts, its, end);
    GotNum(m, payload, o + 4, ts[1..], its[1..], end);
    GotNum(m, payload, o + 6, ts[2..], its[2..], end);
    GotBlob(m, payload, o + 8, ts[3..], its[3..], end);
    GotBlob(m, payload, o + 10, ts[4..], its[4..], end);
    GotNum(m, payload, o + 16, ts[5..], its[5..], end);
    GotNum(m, payload, o + 18, ts[6..], its[6..], end);
    assert ts[7..] == [];
    GotNothing(m, State(payload, o + 20), its[7..], end);
  }

  /** Syntaxes stand one behind the other. */
  lemma {:induction false} SyntaxesPlaces(m: Mode, payload: seq<byte>, o: nat, n: nat, ss: seq<Syntax>, end: State)
    requires ValidMode(m) && o % 4 == 0 && GetMany(SyntaxReader(m), State(payload, o), n) == (Some(ss), end)
    ensures |ss| == n && forall j :: 0 <= j < n ==> SyntaxAt(m.little, payload, o + 20 * j, ss[j])
    decreases n
  {
    hide GetSyntax, SyntaxAt;
    if n > 0 {
      SyntaxPlaces(m, payload, o);
      FourMore(o, 20);
      SyntaxesPlaces(m, payload, o + 20, n - 1, ss[1..], end);
      forall j | 0 <= j < n
        ensures SyntaxAt(m.little, payload, o + 20 * j, ss[j])
      {
        if j > 0 {
          assert o + 20 * j == o + 20 + 20 * (j - 1) && ss[j] == ss[1..][j - 1];
        }
      }
    }
  }

  lemma FourMore(o: nat, k: nat)
    requires o % 4 == 0 && k % 4 == 0
    ensures (o + k) % 4 == 0
  {
    DivModUnique(o + k, 4, o / 4 + k / 4, 0);
  }

  /** A context: its number, the count of its transfer syntaxes, the abstract syntax and the transfer syntaxes. */
  ghost predicate ContextAt(little: bool, payload: seq<byte>, o: nat, ctx: Context) {
    && o + 24 <= |payload|
    && DecodeInt(little, payload[o..o + 2]) == ctx.id && payload[o + 2] == |ctx.transfer|
    && SyntaxAt(little, payload, o + 4, ctx.abstractSyntax)
    && forall j :: 0 <= j < |ctx.transfer| ==> SyntaxAt(little, payload, o + 24 + 20 * j, ctx.transfer[j])
  }

  lemma ContextPlaces(m: Mode, payload: seq<byte>, o: nat)
    requires ValidMode(m) && o % 4 == 0 && GetContext(m, State(payload, o)).0.Some?
    ensures ContextAt(m.little, payload, o, GetContext(m, State(payload, o)).0.value)
  {
    hide GetItems, DecodeInt, GetSyntax, SyntaxAt, GetMany;
    var ts := ContextTypes();
    var (r, s1) := GetItems(m, State(payload, o), ts);
    EvenPlaces(o, 0);
    FourMore(o, 4);
    FourMore(o, 24);
    GotNum(m, payload, o, ts, r.value, s1);
    GotNum(m, payload, o + 2, ts[1..], r.value[1..], s1);
    assert ts[2..] == [];
    GotNothing(m, State(payload, o + 3), r.value[2..], s1);
    SyntaxAfterHead(m, payload, o);
    var (a, s2) := GetSyntax(m, s1);
    SyntaxPlaces(m, payload, o + 4);
    var (us, s3) := GetMany(SyntaxReader(m), s2, NumOf(r.value[1]));
    SyntaxesPlaces(m, payload, o + 24, NumOf(r.value[1]), us.value, s3);
  }

  /** The syntax behind the three octets of the head starts at the next multiple of four. */
  lemma SyntaxAfterHead(m: Mode, payload: seq<byte>, o: nat)
    requires ValidMode(m) && o % 4 == 0
    ensures GetSyntax(m, State(payload, o + 3)) == GetSyntax(m, State(payload, o + 4))
  {
    FourMore(o, 4);
    assert Align(o + 3, 4) == o + 4 by {
      NextFour(o);
    }
    assert SyntaxTypes()[0] == NumT(4);
  }

  lemma NextFour(o: nat)
    requires o % 4 == 0
    ensures Align(o + 3, 4) == o + 4
  {
    var r := Align(o + 3, 4);
    FourMore(o, 4);
    assert o + 3 <= r < o + 7 && r % 4 == 0;
    DivModUnique(r - o, 4, (r - o) / 4, (r - o) % 4);
    DivModUnique(r, 4, o / 4 + (r - o) / 4, (r - o) % 4);
  }

  /** The head of a request that was parsed. */
  lemma BindPlaces(m: Mode, payload: seq<byte>, o: nat)
    requires ValidMode(m) && o % 4 == 0 && GetBind(m, State(payload, o)).0.Some?
    ensures var req := GetBind(m, State(payload, o)).0.value;
            && o + 9 <= |payload|
            && DecodeInt(m.little, payload[o..o + 2]) == req.maxXmit
            && DecodeInt(m.little, payload[o + 2..o + 4]) == req.maxRecv
            && DecodeInt(m.little, payload[o + 4..o + 8]) == req.assocGroup && payload[o + 8] == |req.contexts|
  {
    hide GetItems, DecodeInt, GetMany, ContextReader, PutPrim;
    var ts := BindTypes();
    var (r, s1) := GetItems(m, State(payload, o), ts);
    EvenPlaces(o, 0);
    EvenPlaces(o, 2);
    FourMore(o, 4);
    GotNum(m, payload, o, ts, r.value, s1);
    GotNum(m, payload, o + 2, ts[1..], r.value[1..], s1);
    GotNum(m, payload, o + 4, ts[2..], r.value[2..], s1);
    GotNum(m, payload, o + 8, ts[3..], r.value[3..], s1);
  }

  // ---------------------------------------------------------------- the results read back

  function VerdictTypes(): seq<Type> { [NumT(2), NumT(2)] + SyntaxTypes() }

  /** The client's reader of a result: result, reason, transfer syntax. */
  function GetVerdict(m: Mode, st: State): (Option<Verdict>, State)
    requires ValidMode(m)
  {
    var (its, s) := GetItems(m, st, VerdictTypes());
    (if its.None? then None
     else Some(Verdict(NumOf(its.value[0]), NumOf(its.value[1]), ToSyntax(its.value[2..]))), s)
  }

  ghost function VerdictReader(m: Mode): State -> (Option<Verdict>, State) {
    (st: State) => if ValidMode(m) then GetVerdict(m, st) else (None, st)
  }

  lemma VerdictReads(m: Mode, payload: seq<byte>, v: Verdict)
    requires ValidMode(m) && ValidVerdict(v) && ValidItems(VerdictItems(v))
    ensures Reads(m, payload, VerdictReader(m), VerdictItems(v), v)
  {
    hide Laid, GetItems, AllPrims, End, ValidItems, SyntaxTypes, SyntaxItems;
    forall o: nat | Laid(m, payload, o, AllPrims(m, VerdictItems(v)))
      ensures VerdictReader(m)(State(payload, o)) == (Some(v), State(payload, End(m, o, AllPrims(m, VerdictItems(v)))))
    {
      VerdictFields(v);
      ItemsRead(m, payload, o, VerdictItems(v));
    }
  }

  lemma VerdictFields(v: Verdict)
    requires ValidVerdict(v)
    ensures var its := VerdictItems(v);
            && |its| == 9 && TypesOf(its) == VerdictTypes()
            && NumOf(its[0]) == v.result && NumOf(its[1]) == v.reason && ToSyntax(its[2..]) == v.syntax
  {
  }

  /** The client reads one result for each context, as it was judged. */
  lemma ResultsRead(m: Mode, st: State, vs: seq<Verdict>)
    requires ValidMode(m) && (forall i :: 0 <= i < |vs| ==> ValidVerdict(vs[i])) && AllValid(VerdictParts(vs))
    requires ValidItems(Flatten(VerdictParts(vs))) && PutItems(m, st, Flatten(VerdictParts(vs))).0
    ensures var end := PutItems(m, st, Flatten(VerdictParts(vs))).1;
            GetMany(VerdictReader(m), State(end.payload, st.offset), |vs|).0 == Some(vs)
  {
    hide PutItems, PutPrims, Laid, AllPrims, End, Flatten, GetMany, VerdictReader, VerdictItems, ValidVerdict, Reads;
    var items, parts := Flatten(VerdictParts(vs)), VerdictParts(vs);
    PutItemsIsPutPrims(m, st, items);
    PutPrimsLays(m, st, AllPrims(m, items));
    var payload := PutItems(m, st, items).1.payload;
    forall i | 0 <= i < |vs|
      ensures Reads(m, payload, VerdictReader(m), parts[i], vs[i])
    {
      VerdictValid(vs[i]);
      VerdictReads(m, payload, vs[i]);
    }
    ManyRead(m, payload, st.offset, VerdictReader(m), parts, vs);
  }

  /** A result that is read from a 4-aligned offset stands there octet by octet. */
  lemma VerdictPlaces(m: Mode, payload: seq<byte>, o: nat)
    requires ValidMode(m) && o % 4 == 0 && GetVerdict(m, State(payload, o)).0.Some?
    ensures var v := GetVerdict(m, State(payload, o)).0.value;
            && o + 24 <= |payload|
            && DecodeInt(m.little, payload[o..o + 2]) == v.result
            && DecodeInt(m.little, payload[o + 2..o + 4]) == v.reason && SyntaxAt(m.little, payload, o + 4, v.syntax)
    ensures GetVerdict(m, State(payload, o)).1 == State(payload, o + 24)
  {
    hide GetItems, DecodeInt, SyntaxAt;
    var ts := VerdictTypes();
    var (r, end) := GetItems(m, State(payload, o), ts);
    EvenPlaces(o, 0);
    EvenPlaces(o, 2);
    FourMore(o, 4);
    GotNum(m, payload, o, ts, r.value, end);
    GotNum(m, payload, o + 2, ts[1..], r.value[1..], end);
    assert ts[2..] == SyntaxTypes();
    SyntaxPlaces(m, payload, o + 4);
  }
}
