/**
  Tree connections, sessions and the two limits around them, one request at a time: the connection
  limit of a share and the capacity for sessions.

  Memory is explicit: shares and tree connections are named by addresses, a session lists the
  addresses of its connections.  What the user database and the access lists answer for a request
  is a parameter of the request.
 */
module TreeConn {
  import opened Bytes

  type Addr = nat
  type Name = string  // after case folding

  datatype Status = Ok | Error | NoShare | NoUser | InvalidUser | HostDenied | TooManyConns | TooManySessions

  datatype ShareFlags = ShareFlags(writeable: bool, readOnly: bool, update: bool, guestOk: bool, pipe: bool)

  datatype Share = Share(maxConnections: nat, numConnections: nat, flags: ShareFlags)

  datatype ConnFlags = ConnFlags(writable: bool, readOnly: bool, update: bool, guest: bool, admin: bool)

  const NO_FLAGS := ConnFlags(false, false, false, false, false)

  datatype Conn = Conn(id: nat, share: Addr, flags: ConnFlags, session: nat)

  datatype Session = Session(refCounter: int, conns: seq<Addr>)

  /** What a list of the share says about the peer or the account. */
  datatype Listing = NoList | Member | NotMember

  datatype User = NoSuchUser | AUser(isGuest: bool)

  datatype Request = Request(
    session: nat, connection: nat, share: Name,
    unterminated: bool, badPassword: bool, guest: bool,
    hostsAllow: Listing, hostsDeny: Listing,
    admins: Listing, invalid: Listing, readList: Listing, writeList: Listing, valid: Listing,
    shareGuest: bool, globalGuest: bool, user: User)

  datatype Config = Config(neverMapToGuest: bool, restrictAnonymous: bool)

  // ---------------------------------------------------------------- the global section of the file

  const MAX_ACTIVE_SESSIONS := 65536

  /** What the file says: two numbers, narrowed to int, and whether guests are mapped for a bad user. */
  datatype GlobalLines = GlobalLines(
    maxActiveSessions: Option<int>, restrictAnonymous: Option<int>, mapBadUser: Option<bool>)

  datatype Settings = Settings(config: Config, sessionsCap: int)

  const UNSET := Settings(Config(true, false), 0)

  /** While a reload is asked for, an entry of the global section is taken out of the file but does not count. */
  function Stolen<T>(reload: bool, entry: Option<T>): Option<T> { if reload then None else entry }

  /** A default stands in for the entry at the start, not at a reload. */
  function SessionsEntry(reload: bool, entry: Option<int>): Option<int> {
    if entry.None? && !reload then Some(1024) else entry
  }

  /** A capacity out of range becomes the largest one. */
  function CapacityOf(v: int): (cap: int)
    ensures 1 <= cap <= MAX_ACTIVE_SESSIONS && (cap == v <==> 1 <= v <= MAX_ACTIVE_SESSIONS)
  {
    if v <= 0 || v > MAX_ACTIVE_SESSIONS then MAX_ACTIVE_SESSIONS else v
  }

  function Loaded(st: Settings, reload: bool, lines: GlobalLines): Settings {
    var cap := Stolen(reload, SessionsEntry(reload, lines.maxActiveSessions));
    var anon := Stolen(reload, lines.restrictAnonymous);
    var guest := Stolen(reload, lines.mapBadUser);
    Settings(
      Config(if guest.Some? then !guest.value else st.config.neverMapToGuest,
             if anon.Some? then anon.value == 1 || anon.value == 2 else st.config.restrictAnonymous),
      if cap.Some? then CapacityOf(cap.value) else st.sessionsCap)
  }

  /** The first load gives a capacity in range; a reload leaves every setting alone, whatever the file says. */
  lemma ReloadKeepsSettings(st: Settings, lines: GlobalLines)
    ensures Loaded(st, true, lines) == st
    ensures 1 <= Loaded(st, false, lines).sessionsCap <= MAX_ACTIVE_SESSIONS
  {
  }

  /** What the first load makes of the file. */
  lemma FirstLoad(st: Settings, lines: GlobalLines)
    ensures var r := Loaded(st, false, lines);
            && (lines.maxActiveSessions.None? ==> r.sessionsCap == 1024)
            && (forall v :: lines.maxActiveSessions == Some(v) ==>
                  r.sessionsCap == if 1 <= v <= 65536 then v else 65536)
            && (forall v :: lines.restrictAnonymous == Some(v) ==> (r.config.restrictAnonymous <==> v == 1 || v == 2))
            && (forall b :: lines.mapBadUser == Some(b) ==> r.config.neverMapToGuest == !b)
            && (lines.restrictAnonymous.None? ==> r.config.restrictAnonymous == st.config.restrictAnonymous)
            && (lines.mapBadUser.None? ==> r.config.neverMapToGuest == st.config.neverMapToGuest)
  {
  }

  // ---------------------------------------------------------------- who is admitted

  predicate HostAdmitted(req: Request) {
    req.hostsAllow == Member || (req.hostsAllow == NoList && req.hostsDeny != Member)
  }

  /** A guest needs a share open to guests; a restricted server also keeps guests off pipes. */
  predicate GuestAdmitted(cfg: Config, sh: ShareFlags, req: Request) {
    req.guest ==> sh.guestOk && !(cfg.restrictAnonymous && sh.pipe)
  }

  /** The guest paths, which leave the account's own lists unread. */
  predicate AsGuest(sh: ShareFlags, req: Request) {
    req.guest && sh.guestOk && (req.shareGuest || req.globalGuest)
  }

  /** Connections that are bound without asking for a session slot. */
  predicate Unchecked(sh: ShareFlags, req: Request) {
    || AsGuest(sh, req)
    || (req.user.AUser? && req.admins == Member)
    || (req.user.AUser? && req.invalid != Member &&
        (req.readList == Member || req.writeList == Member || req.valid == Member))
  }

  /** Connections that are bound once the session has a slot. */
  predicate Checked(sh: ShareFlags, req: Request) {
    && !Unchecked(sh, req)
    && req.user.AUser? && req.invalid != Member && req.valid == NoList
  }

  predicate Admitted(cfg: Config, sh: ShareFlags, req: Request) {
    && HostAdmitted(req) && GuestAdmitted(cfg, sh, req)
    && (Unchecked(sh, req) || Checked(sh, req))
  }

  predicate WellFormed(cfg: Config, req: Request) {
    !req.unterminated && !(cfg.neverMapToGuest && req.badPassword)
  }

  predicate ByReadList(req: Request) {
    req.admins != Member && req.invalid != Member && req.readList == Member
  }

  predicate ByWriteList(req: Request) {
    req.admins != Member && req.invalid != Member && req.readList != Member && req.writeList == Member
  }

  /** What an admitted connection may do. */
  function FlagsOf(sh: ShareFlags, req: Request): ConnFlags {
    if AsGuest(sh, req) then ConnFlags(sh.writeable, sh.readOnly, sh.update, true, false)
    else
      ConnFlags(
        (sh.writeable && !ByReadList(req)) || ByWriteList(req),
        sh.readOnly || ByReadList(req),
        sh.update,
        req.user.AUser? && req.user.isGuest,
        req.admins == Member)
  }

  /** What an account may do on a share, from the lists it is on. */
  ghost predicate Rights(sh: ShareFlags, req: Request, flags: ConnFlags) {
    var asGuest := req.guest && sh.guestOk && (req.shareGuest || req.globalGuest);
    var admin := !asGuest && req.admins == Member;
    && (flags.admin <==> admin)
    && (flags.guest <==> asGuest || (req.user.AUser? && req.user.isGuest))
    && flags.update == sh.update
    && (asGuest || admin || (req.readList != Member && req.writeList != Member) ==>
          flags.writable == sh.writeable && flags.readOnly == sh.readOnly)
    && (!asGuest && !admin && req.readList == Member ==> flags.readOnly && !flags.writable)
    && (!asGuest && !admin && req.readList != Member && req.writeList == Member ==>
          flags.writable && flags.readOnly == sh.readOnly)
  }

  lemma FlagsAreRights(cfg: Config, sh: ShareFlags, req: Request)
    requires Admitted(cfg, sh, req)
    ensures Rights(sh, req, FlagsOf(sh, req))
  {
  }

  /** Who is kept out: each line names one reason that is enough. */
  lemma KeptOut(cfg: Config, sh: ShareFlags, req: Request)
    ensures req.hostsAllow == NotMember ==> !Admitted(cfg, sh, req)
    ensures req.hostsAllow == NoList && req.hostsDeny == Member ==> !Admitted(cfg, sh, req)
    ensures req.guest && !sh.guestOk ==> !Admitted(cfg, sh, req)
    ensures req.guest && cfg.restrictAnonymous && sh.pipe ==> !Admitted(cfg, sh, req)
    ensures !req.guest && req.user.NoSuchUser? ==> !Admitted(cfg, sh, req)
    ensures !req.guest && req.admins != Member && req.invalid == Member ==> !Admitted(cfg, sh, req)
    ensures !req.guest && req.admins != Member && req.readList != Member && req.writeList != Member &&
            req.valid == NotMember ==>
              !Admitted(cfg, sh, req)
  {
  }

  /** Who is let in, once the host is. */
  lemma LetIn(cfg: Config, sh: ShareFlags, req: Request)
    requires req.hostsAllow == Member || (req.hostsAllow == NoList && req.hostsDeny != Member)
    ensures !req.guest && req.user.AUser? && req.admins == Member ==> Admitted(cfg, sh, req) && Unchecked(sh, req)
    ensures !req.guest && req.user.AUser? && req.invalid != Member &&
            (req.readList == Member || req.writeList == Member || req.valid == Member) ==>
              Admitted(cfg, sh, req) && Unchecked(sh, req)
    ensures !req.guest && req.user.AUser? && req.admins != Member && req.invalid != Member &&
            req.readList != Member && req.writeList != Member && req.valid == NoList ==>
              Admitted(cfg, sh, req) && !Unchecked(sh, req)
    ensures req.guest && sh.guestOk && !(cfg.restrictAnonymous && sh.pipe) && (req.shareGuest || req.globalGuest) ==>
              Admitted(cfg, sh, req) && Unchecked(sh, req)
  {
  }

  // ---------------------------------------------------------------- the tables and what a request does to them

  datatype Tables = Tables(
    shares: map<Addr, Share>,
    table: map<Name, Addr>,
    conns: map<Addr, Conn>,
    sessions: map<nat, Session>,
    sessionsCap: int,
    next: Addr)  // every address in use is below

  predicate AtLimit(sh: Share) { sh.maxConnections > 0 && sh.numConnections >= sh.maxConnections }

  function Opened(sh: Share): Share { sh.(numConnections := sh.numConnections + 1) }

  function Closed(sh: Share): Share {
    if sh.numConnections == 0 then sh else sh.(numConnections := sh.numConnections - 1)
  }

  function Ref(s: Session, n: int): Session { s.(refCounter := s.refCounter + n) }

  function Joined(sessions: map<nat, Session>, k: nat, p: Addr): map<nat, Session> {
    sessions[k := if k in sessions then Session(sessions[k].refCounter + 1, sessions[k].conns + [p])
                  else Session(1, [p])]
  }

  /** A connection is granted to an admitted request that needs no slot, has its session, or finds a slot. */
  predicate Granted(cfg: Config, sh: ShareFlags, req: Request, known: bool, cap: int) {
    Admitted(cfg, sh, req) && (Unchecked(sh, req) || known || cap >= 1)
  }

  lemma GrantedRights(cfg: Config, sh: ShareFlags, req: Request, known: bool, cap: int)
    requires Granted(cfg, sh, req, known, cap)
    ensures Rights(sh, req, FlagsOf(sh, req))
  {
    FlagsAreRights(cfg, sh, req);
  }

  /** A new session that has to ask takes a slot. */
  predicate TakesSlot(t: Tables, sh: ShareFlags, req: Request) { Checked(sh, req) && req.session !in t.sessions }

  function Bound(t: Tables, s: Addr, req: Request): Tables
    requires s in t.shares
  {
    var sh := t.shares[s];
    t.(shares := t.shares[s := Opened(sh).(flags := sh.flags.(update := false))],
       conns := t.conns[t.next := Conn(req.connection, s, FlagsOf(sh.flags, req), req.session)],
       sessions := Joined(t.sessions, req.session, t.next),
       sessionsCap := t.sessionsCap - (if TakesSlot(t, sh.flags, req) then 1 else 0),
       next := t.next + 1)
  }

  datatype Outcome = NoEffect | RefusedAtLimit(s: Addr) | Granting(s: Addr)

  function OutcomeOf(cfg: Config, t: Tables, req: Request): Outcome {
    if !WellFormed(cfg, req) || req.share !in t.table || t.table[req.share] !in t.shares then NoEffect
    else
      var s := t.table[req.share];
      if AtLimit(t.shares[s]) then RefusedAtLimit(s)
      else if Granted(cfg, t.shares[s].flags, req, req.session in t.sessions, t.sessionsCap) then Granting(s)
      else NoEffect
  }

  /** The tables after a connect request; a refusal at the limit still closes a connection it never opened. */
  function Connected(cfg: Config, t: Tables, req: Request): Tables {
    match OutcomeOf(cfg, t, req)
    case NoEffect => t
    case RefusedAtLimit(s) => t.(shares := t.shares[s := Closed(t.shares[s])])
    case Granting(s) => Bound(t, s, req)
  }

  /** The place of the first connection with an identifier in a session's list. */
  function Find(conns: map<Addr, Conn>, l: seq<Addr>, id: nat): (i: nat)
    requires forall p :: p in l ==> p in conns
    ensures i <= |l| && (i < |l| ==> conns[l[i]].id == id)
    ensures forall j :: 0 <= j < i ==> conns[l[j]].id != id
  {
    if l == [] then 0
    else if conns[l[0]].id == id then 0
    else
      var i := Find(conns, l[1..], id);
      1 + i
  }

  predicate ListSound(t: Tables, k: nat)
    requires k in t.sessions
  {
    forall p :: p in t.sessions[k].conns ==> p in t.conns && t.conns[p].share in t.shares
  }

  function Without(l: seq<Addr>, i: nat): seq<Addr>
    requires i < |l|
  {
    l[..i] + l[i + 1..]
  }

  /** The tables after a disconnect request: the last connection takes the session with it and frees its slot. */
  function Disconnected(t: Tables, k: nat, id: nat): Tables {
    if k !in t.sessions || !ListSound(t, k) then t
    else
      var se := t.sessions[k];
      var i := Find(t.conns, se.conns, id);
      if i == |se.conns| then t
      else
        var p := se.conns[i];
        var s := t.conns[p].share;
        var rest := Without(se.conns, i);
        t.(shares := t.shares[s := Closed(t.shares[s])],
           conns := t.conns - {p},
           sessions := if rest == [] then t.sessions - {k} else t.sessions[k := Session(se.refCounter - 1, rest)],
           sessionsCap := t.sessionsCap + if rest == [] then 1 else 0)
  }

  function Added(t: Tables, name: Name, max: nat, flags: ShareFlags): Tables {
    if name in t.table then t
    else t.(shares := t.shares[t.next := Share(max, 0, flags)], table := t.table[name := t.next], next := t.next + 1)
  }

  // ---------------------------------------------------------------- what every request keeps

  /** The connections a share has. */
  ghost function LiveOn(conns: map<Addr, Conn>, s: Addr): set<Addr> {
    set p | p in conns && conns[p].share == s
  }

  ghost predicate SessionOk(k: nat, se: Session, conns: map<Addr, Conn>) {
    && |se.conns| >= 1 && se.refCounter == |se.conns| && Distinct(se.conns)
    && forall p :: p in se.conns ==> p in conns && conns[p].session == k
  }

  ghost predicate ConnOk(p: Addr, c: Conn, t: Tables) {
    p < t.next && c.share in t.shares && c.session in t.sessions && p in t.sessions[c.session].conns
  }

  /** The reference count of a session is the number of its connections, and never zero. */
  ghost predicate SessionsOk(t: Tables) {
    && (forall k :: k in t.sessions ==> SessionOk(k, t.sessions[k], t.conns))
    && (forall p :: p in t.conns ==> ConnOk(p, t.conns[p], t))
  }

  /** What a run has seen, for the accounts below. */
  datatype Log = Log(
    passed: nat,                // sessions whose first connection asked for a slot
    skipped: nat,               // sessions whose first connection did not
    ended: nat,                 // sessions that are gone
    refusals: map<Addr, nat>,   // connections a share has refused at its limit
    drift: map<Addr, int>)      // how far its counter has fallen behind

  function Refusals(log: Log, s: Addr): nat { if s in log.refusals then log.refusals[s] else 0 }

  /** One more at each refusal at the limit, one less at each disconnect that finds the counter at zero. */
  function Drift(log: Log, s: Addr): int { if s in log.drift then log.drift[s] else 0 }

  function Refused(log: Log, s: Addr): Log {
    log.(refusals := log.refusals[s := Refusals(log, s) + 1], drift := log.drift[s := Drift(log, s) + 1])
  }

  ghost predicate CapacityOk(t: Tables, log: Log, initial: int) {
    && t.sessionsCap == initial - log.passed + log.ended
    && |t.sessions| == log.passed + log.skipped - log.ended
    && (t.sessionsCap >= 0 || t.sessionsCap >= initial)
  }

  /** A share counts no more than its limit, and its connections are what it counts and its drift. */
  ghost predicate ShareOk(sh: Share, live: nat, drift: int, refused: nat) {
    && (sh.maxConnections > 0 ==> sh.numConnections <= sh.maxConnections)
    && live == sh.numConnections + drift && 0 <= drift <= refused
  }

  ghost predicate SharesOk(t: Tables, log: Log) {
    && (forall s :: s in t.shares ==>
          s < t.next && ShareOk(t.shares[s], |LiveOn(t.conns, s)|, Drift(log, s), Refusals(log, s)))
    && (forall n :: n in t.table ==> t.table[n] in t.shares)
    && log.refusals.Keys <= t.shares.Keys && log.drift.Keys <= t.shares.Keys
  }

  ghost predicate Inv(t: Tables, log: Log, initial: int) {
    SessionsOk(t) && SharesOk(t, log) && CapacityOk(t, log, initial)
  }

  function ConnectLog(cfg: Config, t: Tables, log: Log, req: Request): Log {
    match OutcomeOf(cfg, t, req)
    case NoEffect => log
    case RefusedAtLimit(s) => Refused(log, s)
    case Granting(s) =>
      if req.session in t.sessions then log
      else if Checked(t.shares[s].flags, req) then log.(passed := log.passed + 1)
      else log.(skipped := log.skipped + 1)
  }

  /** The session has a connection with this identifier. */
  predicate Finds(t: Tables, k: nat, id: nat) {
    k in t.sessions && ListSound(t, k) && Find(t.conns, t.sessions[k].conns, id) < |t.sessions[k].conns|
  }

  function FoundShare(t: Tables, k: nat, id: nat): Addr
    requires Finds(t, k, id)
  {
    t.conns[t.sessions[k].conns[Find(t.conns, t.sessions[k].conns, id)]].share
  }

  function DisconnectLog(t: Tables, log: Log, k: nat, id: nat): Log {
    var ended := if k in t.sessions && k !in Disconnected(t, k, id).sessions then log.ended + 1 else log.ended;
    var drift :=
      if Finds(t, k, id) && t.shares[FoundShare(t, k, id)].numConnections == 0
      then log.drift[FoundShare(t, k, id) := Drift(log, FoundShare(t, k, id)) - 1]
      else log.drift;
    log.(ended := ended, drift := drift)
  }

  lemma LiveGrows(conns: map<Addr, Conn>, p: Addr, c: Conn, s: Addr)
    requires p !in conns
    ensures |LiveOn(conns[p := c], s)| == |LiveOn(conns, s)| + if s == c.share then 1 else 0
  {
    assert LiveOn(conns[p := c], s) == LiveOn(conns, s) + if s == c.share then {p} else {};
  }

  lemma LiveShrinks(conns: map<Addr, Conn>, p: Addr, s: Addr)
    requires p in conns
    ensures |LiveOn(conns - {p}, s)| == |LiveOn(conns, s)| - if s == conns[p].share then 1 else 0
  {
    if s == conns[p].share {
      assert LiveOn(conns, s) == LiveOn(conns - {p}, s) + {p};
    } else {
      assert LiveOn(conns, s) == LiveOn(conns - {p}, s);
    }
  }

  lemma JoinKeepsSessions(t: Tables, s: Addr, req: Request)
    requires SessionsOk(t) && s in t.shares
    ensures SessionsOk(Bound(t, s, req))
  {
    var t' := Bound(t, s, req);
    forall k | k in t'.sessions
      ensures SessionOk(k, t'.sessions[k], t'.conns)
    {
      if k in t.sessions {
        assert SessionOk(k, t.sessions[k], t.conns);
        assert t.next !in t.sessions[k].conns;
      }
    }
    forall p | p in t'.conns
      ensures ConnOk(p, t'.conns[p], t')
    {
      if p != t.next {
        assert ConnOk(p, t.conns[p], t);
      }
    }
  }

  lemma JoinKeepsShares(t: Tables, log: Log, s: Addr, req: Request)
    requires SharesOk(t, log) && SessionsOk(t) && s in t.shares && !AtLimit(t.shares[s])
    ensures SharesOk(Bound(t, s, req), log)
  {
    hide LiveOn, FlagsOf, Joined, TakesSlot;
    var t' := Bound(t, s, req);
    assert t.next !in t.conns;
    forall x | x in t'.shares
      ensures x < t'.next && ShareOk(t'.shares[x], |LiveOn(t'.conns, x)|, Drift(log, x), Refusals(log, x))
    {
      LiveGrows(t.conns, t.next, t'.conns[t.next], x);
    }
  }

  lemma JoinCounts(sessions: map<nat, Session>, k: nat, p: Addr)
    ensures |Joined(sessions, k, p)| == |sessions| + if k in sessions then 0 else 1
  {
    assert Joined(sessions, k, p).Keys == sessions.Keys + {k};
  }

  lemma GrantKeepsCapacity(cfg: Config, t: Tables, log: Log, initial: int, req: Request, s: Addr)
    requires CapacityOk(t, log, initial) && OutcomeOf(cfg, t, req) == Granting(s)
    ensures CapacityOk(Connected(cfg, t, req), ConnectLog(cfg, t, log, req), initial)
  {
    hide Joined, Admitted, Checked, Unchecked;
    JoinCounts(t.sessions, req.session, t.next);
    GrantNeedsSlot(cfg, t.shares[s].flags, req);
  }

  /** A connect request keeps the accounts, whatever it asks for. */
  lemma ConnectKeeps(cfg: Config, t: Tables, log: Log, initial: int, req: Request)
    requires Inv(t, log, initial)
    ensures Inv(Connected(cfg, t, req), ConnectLog(cfg, t, log, req), initial)
  {
    hide SessionsOk, SharesOk, Granted, Bound, Closed;
    match OutcomeOf(cfg, t, req)
    case NoEffect =>
    case RefusedAtLimit(s) =>
      RefusalKeeps(t, log, s);
    case Granting(s) =>
      JoinKeepsSessions(t, s, req);
      JoinKeepsShares(t, log, s, req);
      GrantKeepsCapacity(cfg, t, log, initial, req, s);
      SharesOkIgnoresSessions(Bound(t, s, req), log, ConnectLog(cfg, t, log, req));
  }

  lemma GrantNeedsSlot(cfg: Config, sh: ShareFlags, req: Request)
    requires Admitted(cfg, sh, req)
    ensures Checked(sh, req) <==> !Unchecked(sh, req)
  {
  }

  lemma SharesOkIgnoresSessions(t: Tables, log: Log, log': Log)
    requires SharesOk(t, log) && log'.refusals == log.refusals && log'.drift == log.drift
    ensures SharesOk(t, log')
  {
  }

  lemma RefusalKeeps(t: Tables, log: Log, s: Addr)
    requires SharesOk(t, log) && SessionsOk(t) && s in t.shares && AtLimit(t.shares[s])
    ensures SharesOk(t.(shares := t.shares[s := Closed(t.shares[s])]), Refused(log, s))
    ensures SessionsOk(t.(shares := t.shares[s := Closed(t.shares[s])]))
  {
    hide LiveOn;
    SessionsOkIgnoreCounts(t, s, Closed(t.shares[s]));
    hide SessionsOk;
    var t', log' := t.(shares := t.shares[s := Closed(t.shares[s])]), Refused(log, s);
    forall x | x in t'.shares
      ensures x < t'.next && ShareOk(t'.shares[x], |LiveOn(t'.conns, x)|, Drift(log', x), Refusals(log', x))
    {
    }
  }

  lemma SessionsOkIgnoreCounts(t: Tables, s: Addr, sh: Share)
    requires SessionsOk(t) && s in t.shares
    ensures SessionsOk(t.(shares := t.shares[s := sh]))
  {
    hide SessionOk;
    var t' := t.(shares := t.shares[s := sh]);
    forall p | p in t'.conns
      ensures ConnOk(p, t'.conns[p], t')
    {
      assert ConnOk(p, t.conns[p], t);
    }
  }

  // ---------------------------------------------------------------- disconnecting

  lemma SoundList(t: Tables, k: nat)
    requires SessionsOk(t) && k in t.sessions
    ensures ListSound(t, k)
  {
    assert SessionOk(k, t.sessions[k], t.conns);
    assert forall p :: p in t.sessions[k].conns ==> ConnOk(p, t.conns[p], t);
  }

  lemma WithoutLeaves(l: seq<Addr>, i: nat)
    requires i < |l| && Distinct(l)
    ensures Distinct(Without(l, i)) && |Without(l, i)| == |l| - 1
    ensures forall p :: p in Without(l, i) <==> p in l && p != l[i]
  {
    var r := Without(l, i);
    assert forall j :: 0 <= j < |r| ==> r[j] == if j < i then l[j] else l[j + 1];
    forall p | p in l && p != l[i]
      ensures p in r
    {
      var j :| 0 <= j < |l| && l[j] == p;
      assert p == r[if j < i then j else j - 1];
    }
  }

  lemma LeaveKeepsSessions(t: Tables, k: nat, id: nat)
    requires SessionsOk(t)
    ensures SessionsOk(Disconnected(t, k, id))
  {
    hide Find, Closed, Without, SessionsOk, Disconnected;
    if Finds(t, k, id) {
      var i := Find(t.conns, t.sessions[k].conns, id);
      SessionIsSound(t, k);
      LeftSessionsOk(t, k, i);
      LeftConnsOk(t, k, i);
      DisconnectIsLeft(t, k, id);
      SessionsOkIgnoreRest(Left(t, k, i), Disconnected(t, k, id));
    } else {
      DisconnectIsLeft(t, k, id);
    }
  }

  /** The sessions and connections without the i-th connection of a session. */
  ghost function Left(t: Tables, k: nat, i: nat): Tables
    requires k in t.sessions && i < |t.sessions[k].conns|
  {
    var se := t.sessions[k];
    var rest := Without(se.conns, i);
    t.(conns := t.conns - {se.conns[i]},
       sessions := if rest == [] then t.sessions - {k} else t.sessions[k := Session(se.refCounter - 1, rest)])
  }

  lemma DisconnectIsLeft(t: Tables, k: nat, id: nat)
    ensures var t' := Disconnected(t, k, id);
            if Finds(t, k, id) then
              var left := Left(t, k, Find(t.conns, t.sessions[k].conns, id));
              && t'.conns == left.conns && t'.sessions == left.sessions
              && t'.shares.Keys == t.shares.Keys && t'.next == t.next
            else t' == t
  {
    hide Find, Closed, Without;
  }

  lemma SessionsOkIgnoreRest(t: Tables, t': Tables)
    requires SessionsOk(t)
    requires t'.conns == t.conns && t'.sessions == t.sessions && t'.shares.Keys == t.shares.Keys && t'.next == t.next
    ensures SessionsOk(t')
  {
    hide SessionOk;
    forall p | p in t'.conns
      ensures ConnOk(p, t'.conns[p], t')
    {
      assert ConnOk(p, t.conns[p], t);
    }
  }

  lemma LeftSessionsOk(t: Tables, k: nat, i: nat)
    requires SessionsOk(t) && k in t.sessions && i < |t.sessions[k].conns|
    ensures forall x :: x in Left(t, k, i).sessions ==> SessionOk(x, Left(t, k, i).sessions[x], Left(t, k, i).conns)
  {
    hide Without;
    var t', p := Left(t, k, i), t.sessions[k].conns[i];
    assert SessionOk(k, t.sessions[k], t.conns);
    WithoutLeaves(t.sessions[k].conns, i);
    forall x | x in t'.sessions
      ensures SessionOk(x, t'.sessions[x], t'.conns)
    {
      assert SessionOk(x, t.sessions[x], t.conns);
      assert x != k ==> p !in t.sessions[x].conns;
    }
  }

  lemma LeftConnsOk(t: Tables, k: nat, i: nat)
    requires SessionsOk(t) && k in t.sessions && i < |t.sessions[k].conns|
    requires forall x :: x in Left(t, k, i).sessions ==> SessionOk(x, Left(t, k, i).sessions[x], Left(t, k, i).conns)
    ensures SessionsOk(Left(t, k, i))
  {
    hide Without;
    var t' := Left(t, k, i);
    assert SessionOk(k, t.sessions[k], t.conns);
    WithoutLeaves(t.sessions[k].conns, i);
    hide SessionOk;
    forall q | q in t'.conns
      ensures ConnOk(q, t'.conns[q], t')
    {
      assert ConnOk(q, t.conns[q], t);
    }
  }

  lemma LeaveKeepsShares(t: Tables, log: Log, k: nat, id: nat)
    requires SharesOk(t, log)
    ensures SharesOk(Disconnected(t, k, id), DisconnectLog(t, log, k, id))
  {
    hide Find, LiveOn, Without;
    var t', log' := Disconnected(t, k, id), DisconnectLog(t, log, k, id);
    if Finds(t, k, id) {
      var p := t.sessions[k].conns[Find(t.conns, t.sessions[k].conns, id)];
      LiveShrinks(t.conns, p, FoundShare(t, k, id));
      forall x | x in t'.shares
        ensures x < t'.next && ShareOk(t'.shares[x], |LiveOn(t'.conns, x)|, Drift(log', x), Refusals(log', x))
      {
        LiveShrinks(t.conns, p, x);
      }
    }
  }

  lemma LeaveKeepsCapacity(t: Tables, log: Log, initial: int, k: nat, id: nat)
    requires CapacityOk(t, log, initial)
    ensures CapacityOk(Disconnected(t, k, id), DisconnectLog(t, log, k, id), initial)
  {
    hide Disconnected, Finds;
    LeaveFreesSlot(t, k, id);
  }

  /** A slot becomes free exactly when a session leaves. */
  lemma LeaveFreesSlot(t: Tables, k: nat, id: nat)
    ensures var t' := Disconnected(t, k, id);
            var gone := if k in t.sessions && k !in t'.sessions then 1 else 0;
            |t'.sessions| == |t.sessions| - gone && t'.sessionsCap == t.sessionsCap + gone
  {
    hide Find, Without, ListSound, Closed;
    var t' := Disconnected(t, k, id);
    if k in t.sessions {
      assert (t.sessions - {k}).Keys == t.sessions.Keys - {k};
      assert k in t'.sessions ==> t'.sessions.Keys == t.sessions.Keys;
    }
  }

  /** A disconnect request keeps the accounts, whatever it names. */
  lemma DisconnectKeeps(t: Tables, log: Log, initial: int, k: nat, id: nat)
    requires Inv(t, log, initial)
    ensures Inv(Disconnected(t, k, id), DisconnectLog(t, log, k, id), initial)
  {
    hide SessionsOk, SharesOk, CapacityOk, Disconnected;
    LeaveKeepsSessions(t, k, id);
    LeaveKeepsShares(t, log, k, id);
    LeaveKeepsCapacity(t, log, initial, k, id);
  }

  /** An unknown session or connection changes nothing; a session leaves the table exactly at its last disconnect. */
  lemma DisconnectExactly(t: Tables, k: nat, id: nat)
    requires SessionsOk(t)
    ensures (forall p :: p in t.conns && t.conns[p].session == k ==> t.conns[p].id != id) <==>
            Disconnected(t, k, id) == t
    ensures k in t.sessions && Disconnected(t, k, id) != t ==>
              (k !in Disconnected(t, k, id).sessions <==> |t.sessions[k].conns| == 1)
    ensures forall x :: x in t.sessions && x != k ==>
              x in Disconnected(t, k, id).sessions && Disconnected(t, k, id).sessions[x] == t.sessions[x]
  {
    if k in t.sessions {
      SoundList(t, k);
      var se := t.sessions[k];
      assert SessionOk(k, se, t.conns);
      var i := Find(t.conns, se.conns, id);
      if i < |se.conns| {
        assert se.conns[i] in t.conns && se.conns[i] !in Disconnected(t, k, id).conns;
      } else {
        forall p | p in t.conns && t.conns[p].session == k
          ensures t.conns[p].id != id
        {
          assert ConnOk(p, t.conns[p], t);
        }
      }
    } else {
      assert forall p :: p in t.conns ==> ConnOk(p, t.conns[p], t);
    }
  }

  // ---------------------------------------------------------------- runs

  datatype Event =
    | Connect(req: Request)
    | Disconnect(session: nat, connection: nat)
    | AddShare(name: Name, max: nat, flags: ShareFlags)
    | Reload(lines: GlobalLines)  // unlists every share; their objects stay while connections use them

  /** The file is read again; its global section is processed with the reload asked for. */
  function Reloaded(cfg: Config, t: Tables, lines: GlobalLines): Tables {
    t.(table := map[], sessionsCap := Loaded(Settings(cfg, t.sessionsCap), true, lines).sessionsCap)
  }

  /** The configuration is one for the whole run: only a reload could change it, and ReloadKeepsSettings says no. */
  function Next(cfg: Config, t: Tables, e: Event): Tables {
    match e
    case Connect(req) => Connected(cfg, t, req)
    case Disconnect(k, id) => Disconnected(t, k, id)
    case AddShare(name, max, flags) => Added(t, name, max, flags)
    case Reload(lines) => Reloaded(cfg, t, lines)
  }

  function NextLog(cfg: Config, t: Tables, log: Log, e: Event): Log {
    match e
    case Connect(req) => ConnectLog(cfg, t, log, req)
    case Disconnect(k, id) => DisconnectLog(t, log, k, id)
    case AddShare(_, _, _) => log
    case Reload(_) => log
  }

  const EMPTY := Tables(map[], map[], map[], map[], 0, 0)
  const NO_LOG := Log(0, 0, 0, map[], map[])

  function Run(cfg: Config, initial: int, es: seq<Event>): (Tables, Log) {
    if es == [] then (EMPTY.(sessionsCap := initial), NO_LOG)
    else
      var (t, log) := Run(cfg, initial, es[..|es| - 1]);
      (Next(cfg, t, es[|es| - 1]), NextLog(cfg, t, log, es[|es| - 1]))
  }

  lemma AddKeeps(t: Tables, log: Log, initial: int, name: Name, max: nat, flags: ShareFlags)
    requires Inv(t, log, initial)
    ensures Inv(Added(t, name, max, flags), log, initial)
  {
    hide SessionsOk, SharesOk;
    if name !in t.table {
      AddKeepsSessions(t, name, max, flags);
      AddKeepsShares(t, log, name, max, flags);
    }
  }

  lemma AddKeepsSessions(t: Tables, name: Name, max: nat, flags: ShareFlags)
    requires SessionsOk(t) && name !in t.table
    ensures SessionsOk(Added(t, name, max, flags))
  {
    hide SessionOk;
    var t' := Added(t, name, max, flags);
    forall p | p in t'.conns
      ensures ConnOk(p, t'.conns[p], t')
    {
      assert ConnOk(p, t.conns[p], t);
    }
  }

  lemma AddKeepsShares(t: Tables, log: Log, name: Name, max: nat, flags: ShareFlags)
    requires SessionsOk(t) && SharesOk(t, log) && name !in t.table
    ensures SharesOk(Added(t, name, max, flags), log)
  {
    hide SessionOk;
    assert forall p :: p in t.conns ==> ConnOk(p, t.conns[p], t);
    assert LiveOn(t.conns, t.next) == {};
  }

  lemma ReloadKeeps(cfg: Config, t: Tables, log: Log, initial: int, lines: GlobalLines)
    requires Inv(t, log, initial)
    ensures Inv(Reloaded(cfg, t, lines), log, initial)
  {
    ReloadKeepsSettings(Settings(cfg, t.sessionsCap), lines);
    hide Loaded;
    var t' := Reloaded(cfg, t, lines);
    forall p | p in t'.conns
      ensures ConnOk(p, t'.conns[p], t')
    {
      assert ConnOk(p, t.conns[p], t);
    }
  }

  lemma {:induction false} RunKeeps(cfg: Config, initial: int, es: seq<Event>)
    ensures var (t, log) := Run(cfg, initial, es);
            Inv(t, log, initial)
  {
    if es == [] {
      assert |EMPTY.sessions| == 0;
    } else {
      RunKeeps(cfg, initial, es[..|es| - 1]);
      hide Inv, Connected, ConnectLog, Disconnected, DisconnectLog, Added, Reloaded;
      var (t, log) := Run(cfg, initial, es[..|es| - 1]);
      match es[|es| - 1]
      case Connect(req) => ConnectKeeps(cfg, t, log, initial, req);
      case Disconnect(k, id) => DisconnectKeeps(t, log, initial, k, id);
      case AddShare(name, max, flags) => AddKeeps(t, log, initial, name, max, flags);
      case Reload(lines) => ReloadKeeps(cfg, t, log, initial, lines);
    }
  }

  /**
    In every run: a session counts its connections and has one; the capacity is what it was, less the
    sessions that asked, plus the sessions that ended; live sessions stay within the capacity if and only if
    those that never asked still fit into the free slots.
   */
  lemma SessionsInEveryRun(cfg: Config, initial: int, es: seq<Event>, k: nat)
    ensures var (t, log) := Run(cfg, initial, es);
            && (k in t.sessions ==>
                  t.sessions[k].refCounter == |t.sessions[k].conns| >= 1 &&
                  forall p :: p in t.sessions[k].conns <==> p in t.conns && t.conns[p].session == k)
            && t.sessionsCap == initial - log.passed + log.ended
            && |t.sessions| == initial - t.sessionsCap + log.skipped
            && (initial >= 0 ==> t.sessionsCap >= 0 && |t.sessions| <= initial + log.skipped)
            && (|t.sessions| <= initial <==> log.skipped <= t.sessionsCap)
  {
    hide Run;
    RunKeeps(cfg, initial, es);
    var (t, log) := Run(cfg, initial, es);
    if k in t.sessions {
      assert SessionOk(k, t.sessions[k], t.conns);
      assert forall p :: p in t.conns ==> ConnOk(p, t.conns[p], t);
    }
  }

  /**
    In every run the live connections of a share are what it counts and its drift.  So it counts exactly what
    it has if and only if there is no drift, and keeps its limit if and only if both together do.
   */
  lemma ConnectionsInEveryRun(cfg: Config, initial: int, es: seq<Event>, s: Addr)
    requires s in Run(cfg, initial, es).0.shares
    ensures var (t, log) := Run(cfg, initial, es);
            var sh, live := t.shares[s], |LiveOn(t.conns, s)|;
            && live == sh.numConnections + Drift(log, s) && 0 <= Drift(log, s) <= Refusals(log, s)
            && (sh.maxConnections > 0 ==> sh.numConnections <= sh.maxConnections)
            && (sh.numConnections == live <==> Drift(log, s) == 0)
            && (live <= sh.maxConnections <==> sh.numConnections + Drift(log, s) <= sh.maxConnections)
            && (Refusals(log, s) == 0 && sh.maxConnections > 0 ==> live <= sh.maxConnections)
  {
    hide Run;
    RunKeeps(cfg, initial, es);
  }

  /** A connection that is granted passes the limit if and only if counter and drift had reached it before. */
  lemma GrantPassesLimitExactly(cfg: Config, initial: int, es: seq<Event>, req: Request, s: Addr)
    requires OutcomeOf(cfg, Run(cfg, initial, es).0, req) == Granting(s)
    ensures var (t, log) := Run(cfg, initial, es);
            var sh := t.shares[s];
            |LiveOn(Connected(cfg, t, req).conns, s)| > sh.maxConnections <==>
            sh.numConnections + Drift(log, s) >= sh.maxConnections
  {
    hide Run, LiveOn, Granted, FlagsOf, Joined, TakesSlot;
    RunKeeps(cfg, initial, es);
    var t := Run(cfg, initial, es).0;
    assert t.next !in t.conns;
    LiveGrows(t.conns, t.next, Connected(cfg, t, req).conns[t.next], s);
  }

  /**
    A connection that is granted leaves more sessions than the capacity if and only if those that never asked
    for a slot had used up the free slots before; one slot less is enough when the session is in the table.
   */
  lemma GrantPassesCapacityExactly(cfg: Config, initial: int, es: seq<Event>, req: Request, s: Addr)
    requires OutcomeOf(cfg, Run(cfg, initial, es).0, req) == Granting(s)
    ensures var (t, log) := Run(cfg, initial, es);
            |Connected(cfg, t, req).sessions| > initial <==>
            if req.session in t.sessions then t.sessionsCap < log.skipped else t.sessionsCap <= log.skipped
  {
    hide Run, Joined, TakesSlot, FlagsOf;
    RunKeeps(cfg, initial, es);
    var t := Run(cfg, initial, es).0;
    JoinCounts(t.sessions, req.session, t.next);
  }

  /**
    A disconnect takes back what a connect brought: connections, sessions and the share's counter are as before,
    and so is the capacity, but for a new session that never asked for the slot it gives back.
   */
  lemma DisconnectUndoesConnect(cfg: Config, t: Tables, log: Log, initial: int, req: Request, s: Addr)
    requires Inv(t, log, initial) && OutcomeOf(cfg, t, req) == Granting(s)
    requires req.session in t.sessions ==>
               forall p :: p in t.sessions[req.session].conns && p in t.conns ==> t.conns[p].id != req.connection
    ensures var after := Disconnected(Connected(cfg, t, req), req.session, req.connection);
            && after.conns == t.conns && after.sessions == t.sessions && after.table == t.table
            && after.shares == t.shares[s := t.shares[s].(flags := t.shares[s].flags.(update := false))]
            && after.sessionsCap == t.sessionsCap +
                 if req.session in t.sessions || Checked(t.shares[s].flags, req) then 0 else 1
  {
    hide FlagsOf, Granted, Checked, SharesOk, CapacityOk, SessionsOk, Disconnected, Joined, ListSound, Find;
    var t', k := Connected(cfg, t, req), req.session;
    var l := if k in t.sessions then t.sessions[k].conns else [];
    ConnectedIsSound(cfg, t, log, initial, req, s);
    JoinUndone(t.sessions, k, t.next);
    FindsLast(t'.conns, l, t.next, req.connection);
    LeaveAt(t', k, req.connection, |l|);
    assert Without(l + [t.next], |l|) == l;
    assert t'.conns - {t.next} == t.conns;
  }

  /** Leaving the last place of a session takes back what joining it brought. */
  lemma JoinUndone(sessions: map<nat, Session>, k: nat, p: Addr)
    requires k in sessions ==> sessions[k].conns != []
    ensures var l := if k in sessions then sessions[k].conns else [];
            var joined := Joined(sessions, k, p);
            && k in joined && joined[k].conns == l + [p]
            && sessions == if l == [] then joined - {k} else joined[k := Session(joined[k].refCounter - 1, l)]
  {
  }

  lemma LeaveAt(t: Tables, k: nat, id: nat, i: nat)
    requires k in t.sessions && ListSound(t, k)
    requires i < |t.sessions[k].conns| && Find(t.conns, t.sessions[k].conns, id) == i
    ensures var se := t.sessions[k];
            var rest, p := Without(se.conns, i), se.conns[i];
            var s := t.conns[p].share;
            Disconnected(t, k, id) ==
            t.(shares := t.shares[s := Closed(t.shares[s])],
               conns := t.conns - {p},
               sessions := if rest == [] then t.sessions - {k} else t.sessions[k := Session(se.refCounter - 1, rest)],
               sessionsCap := t.sessionsCap + if rest == [] then 1 else 0)
  {
    hide Find, Closed, Without;
  }

  lemma ConnectedIsSound(cfg: Config, t: Tables, log: Log, initial: int, req: Request, s: Addr)
    requires Inv(t, log, initial) && OutcomeOf(cfg, t, req) == Granting(s)
    ensures req.session in Connected(cfg, t, req).sessions && ListSound(Connected(cfg, t, req), req.session)
    ensures t.next !in t.conns && (req.session in t.sessions ==> t.sessions[req.session].conns != [])
    ensures req.session in t.sessions ==> forall p :: p in t.sessions[req.session].conns ==> p in t.conns && p != t.next
  {
    assert req.session in t.sessions ==> SessionOk(req.session, t.sessions[req.session], t.conns);
    hide FlagsOf, Granted, SharesOk, CapacityOk, Connected;
    ConnectKeeps(cfg, t, log, initial, req);
    var t' := Connected(cfg, t, req);
    JoinsSession(cfg, t, req, s);
    SoundList(t', req.session);
    assert t.next in t.conns ==> ConnOk(t.next, t.conns[t.next], t);
  }

  lemma JoinsSession(cfg: Config, t: Tables, req: Request, s: Addr)
    requires OutcomeOf(cfg, t, req) == Granting(s)
    ensures req.session in Connected(cfg, t, req).sessions
  {
    hide FlagsOf, Granted;
  }

  lemma {:induction false} FindsLast(conns: map<Addr, Conn>, l: seq<Addr>, p: Addr, id: nat)
    requires (forall x :: x in l + [p] ==> x in conns) && conns[p].id == id
    requires forall x :: x in l ==> conns[x].id != id
    ensures Find(conns, l + [p], id) == |l|
    decreases |l|
  {
    if l != [] {
      assert (l + [p])[1..] == l[1..] + [p];
      assert l[0] in l;
      FindsLast(conns, l[1..], p, id);
    }
  }

  /** What a connection was granted stays with it for as long as it lives. */
  lemma ConnectionStays(cfg: Config, initial: int, es: seq<Event>, e: Event, p: Addr)
    requires p in Run(cfg, initial, es).0.conns && p in Run(cfg, initial, es + [e]).0.conns
    ensures Run(cfg, initial, es + [e]).0.conns[p] == Run(cfg, initial, es).0.conns[p]
  {
    hide Run, FlagsOf, Joined, Granted, TakesSlot, Loaded, Find;
    RunStep(cfg, initial, es, e);
    RunKeeps(cfg, initial, es);
    var t := Run(cfg, initial, es).0;
    assert ConnOk(p, t.conns[p], t);
  }

  /** Two runs that differ at most in what the reloaded files say. */
  ghost predicate SameButLines(es: seq<Event>, es': seq<Event>) {
    |es| == |es'| && forall i :: 0 <= i < |es| ==> es[i] == es'[i] || (es[i].Reload? && es'[i].Reload?)
  }

  /** In no run does it matter what a reloaded file says in its global section: no slot comes back with it. */
  lemma {:induction false} ReloadedLinesIgnored(cfg: Config, initial: int, es: seq<Event>, es': seq<Event>)
    requires SameButLines(es, es')
    ensures Run(cfg, initial, es) == Run(cfg, initial, es')
    decreases |es|
  {
    if es != [] {
      var n := |es| - 1;
      ReloadedLinesIgnored(cfg, initial, es[..n], es'[..n]);
      hide Connected, ConnectLog, Disconnected, DisconnectLog, Added, Loaded;
      var t := Run(cfg, initial, es[..n]).0;
      if es[n].Reload? {
        ReloadKeepsSettings(Settings(cfg, t.sessionsCap), es[n].lines);
        ReloadKeepsSettings(Settings(cfg, t.sessionsCap), es'[n].lines);
      }
    }
  }

  // ---------------------------------------------------------------- where the limits give way

  const PLAIN := ShareFlags(true, false, false, false, false)

  /** A request every list leaves alone. */
  function PlainRequest(session: nat, connection: nat, share: Name): Request {
    Request(session, connection, share, false, false, false,
            NoList, NoList, NoList, NoList, NoList, NoList, NoList, false, false, AUser(false))
  }

  lemma RunStep(cfg: Config, initial: int, es: seq<Event>, e: Event)
    ensures var (t, log) := Run(cfg, initial, es);
            Run(cfg, initial, es + [e]) == (Next(cfg, t, e), NextLog(cfg, t, log, e))
  {
    assert (es + [e])[..|es|] == es;
  }

  const CONN := ConnFlags(true, false, false, false, false)

  /** The tables of the example: share a at address 0, limited to one. */
  function Example(num: nat, conns: map<Addr, Conn>, sessions: map<nat, Session>, cap: int, next: Addr): Tables {
    Tables(map[0 := Share(1, num, PLAIN)], map["a" := 0], conns, sessions, cap, next)
  }

  lemma ExampleGrants(cfg: Config, conns: map<Addr, Conn>, sessions: map<nat, Session>, cap: int, next: Addr, k: nat)
    requires cfg == Config(false, false) && k !in sessions && cap >= 1
    ensures Next(cfg, Example(0, conns, sessions, cap, next), Connect(PlainRequest(k, k, "a"))) ==
            Example(1, conns[next := Conn(k, 0, CONN, k)], sessions[k := Session(1, [next])], cap - 1, next + 1)
  {
    var t, req := Example(0, conns, sessions, cap, next), PlainRequest(k, k, "a");
    assert Checked(PLAIN, req) && Admitted(cfg, PLAIN, req);
    assert OutcomeOf(cfg, t, req) == Granting(0);
    assert map[0 := Share(1, 0, PLAIN)][0 := Share(1, 1, PLAIN)] == map[0 := Share(1, 1, PLAIN)];
  }

  lemma ExampleRefuses(cfg: Config, conns: map<Addr, Conn>, sessions: map<nat, Session>, cap: int, next: Addr, k: nat)
    requires cfg == Config(false, false)
    ensures Next(cfg, Example(1, conns, sessions, cap, next), Connect(PlainRequest(k, k, "a"))) ==
            Example(0, conns, sessions, cap, next)
  {
    assert OutcomeOf(cfg, Example(1, conns, sessions, cap, next), PlainRequest(k, k, "a")) == RefusedAtLimit(0);
    assert map[0 := Share(1, 1, PLAIN)][0 := Share(1, 0, PLAIN)] == map[0 := Share(1, 0, PLAIN)];
  }

  /** One refusal at the limit lets a later connection through: two live connections on a share limited to one. */
  lemma LimitExceeded(cfg: Config)
    requires cfg == Config(false, false)
    ensures exists es, s ::
              var t := Run(cfg, 10, es).0;
              s in t.shares && t.shares[s].maxConnections == 1 && |LiveOn(t.conns, s)| == 2
  {
    hide Next, NextLog, Run;
    var e0, e1, e2, e3 := AddShare("a", 1, PLAIN), Connect(PlainRequest(1, 1, "a")), Connect(PlainRequest(2, 2, "a")),
                          Connect(PlainRequest(3, 3, "a"));
    ExampleStarts(cfg, e0);
    RunStep(cfg, 10, [e0], e1);
    RunStep(cfg, 10, [e0] + [e1], e2);
    RunStep(cfg, 10, [e0] + [e1] + [e2], e3);
    ExampleGrants(cfg, map[], map[], 10, 1, 1);
    var cs, ss := map[1 := Conn(1, 0, CONN, 1)], map[1 := Session(1, [1])];
    assert map[][1 := Conn(1, 0, CONN, 1)] == cs && map[][1 := Session(1, [1])] == ss;
    ExampleRefuses(cfg, cs, ss, 9, 2, 2);
    ExampleGrants(cfg, cs, ss, 9, 2, 3);
    var t := Run(cfg, 10, [e0] + [e1] + [e2] + [e3]).0;
    assert LiveOn(t.conns, 0) == {1, 2};
  }

  lemma ExampleStarts(cfg: Config, e: Event)
    requires e == AddShare("a", 1, PLAIN)
    ensures Run(cfg, 10, [e]).0 == Example(0, map[], map[], 10, 1)
  {
    RunStep(cfg, 10, [], e);
    assert [] + [e] == [e];
    assert Run(cfg, 10, []).0 == EMPTY.(sessionsCap := 10);
    assert map[][0 := Share(1, 0, PLAIN)] == map[0 := Share(1, 0, PLAIN)] && map[]["a" := 0] == map["a" := 0];
  }

  /** A session admitted by a list of the share takes no slot: two live sessions with a capacity of one. */
  lemma CapacityExceeded(cfg: Config)
    requires cfg == Config(false, false)
    ensures exists es :: |Run(cfg, 1, es).0.sessions| == 2
  {
    hide Next, NextLog, Run;
    var add, plain, member := AddShare("a", 0, PLAIN), Connect(PlainRequest(1, 1, "a").(readList := NotMember)),
                              Connect(PlainRequest(2, 2, "a").(readList := Member));
    RunStep(cfg, 1, [], add);
    RunStep(cfg, 1, [] + [add], plain);
    RunStep(cfg, 1, [] + [add] + [plain], member);
    RunNothing(cfg, 1);
    OpenShareGrants(cfg, plain.req, member.req);
    assert |Run(cfg, 1, [] + [add] + [plain] + [member]).0.sessions| == 2;
  }

  lemma RunNothing(cfg: Config, initial: int)
    ensures Run(cfg, initial, []) == (EMPTY.(sessionsCap := initial), NO_LOG)
  {
  }

  /** On a share with a read list, the session off the list takes the last slot and the one on it needs none. */
  lemma OpenShareGrants(cfg: Config, plain: Request, member: Request)
    requires cfg == Config(false, false)
    requires plain == PlainRequest(1, 1, "a").(readList := NotMember)
    requires member == PlainRequest(2, 2, "a").(readList := Member)
    ensures var t0 := Next(cfg, EMPTY.(sessionsCap := 1), AddShare("a", 0, PLAIN));
            |Next(cfg, Next(cfg, t0, Connect(plain)), Connect(member)).sessions| == 2
  {
    var t0 := Added(EMPTY.(sessionsCap := 1), "a", 0, PLAIN);
    assert t0.table == map["a" := 0] && t0.shares[0] == Share(0, 0, PLAIN);
    assert OutcomeOf(cfg, t0, plain) == Granting(0);
    var t1 := Connected(cfg, t0, plain);
    assert t1.shares[0] == Share(0, 1, PLAIN) && t1.sessions.Keys == {1};
    assert OutcomeOf(cfg, t1, member) == Granting(0);
    assert Connected(cfg, t1, member).sessions.Keys == {1, 2};
  }

  /** A reload of a file that sets the capacity frees no slot: at a capacity of one, a second session is refused. */
  lemma ReloadFreesNoSlot(cfg: Config)
    requires cfg == Config(false, false)
    ensures var file := GlobalLines(Some(1), None, None);
            var (t, log) := Run(cfg, 1, [AddShare("a", 0, PLAIN), Connect(PlainRequest(1, 1, "a")), Reload(file),
                                         AddShare("a", 0, PLAIN), Connect(PlainRequest(2, 2, "a"))]);
            t.sessions.Keys == {1} && t.sessionsCap == 0 && log.skipped == 0
  {
    hide Next, NextLog, Run;
    var add := AddShare("a", 0, PLAIN);
    var first, second := Connect(PlainRequest(1, 1, "a")), Connect(PlainRequest(2, 2, "a"));
    var reload := Reload(GlobalLines(Some(1), None, None));
    RunNothing(cfg, 1);
    RunStep(cfg, 1, [], add);
    RunStep(cfg, 1, [] + [add], first);
    RunStep(cfg, 1, [] + [add] + [first], reload);
    RunStep(cfg, 1, [] + [add] + [first] + [reload], add);
    RunStep(cfg, 1, [] + [add] + [first] + [reload] + [add], second);
    assert [] + [add] + [first] + [reload] + [add] + [second] == [add, first, reload, add, second];
    FirstTakesSlot(cfg);
    var t := Next(cfg, Next(cfg, EMPTY.(sessionsCap := 1), add), first);
    SecondFindsNone(cfg, t, NextLog(cfg, Next(cfg, EMPTY.(sessionsCap := 1), add), NO_LOG, first));
  }

  lemma FirstTakesSlot(cfg: Config)
    requires cfg == Config(false, false)
    ensures var add, first := AddShare("a", 0, PLAIN), Connect(PlainRequest(1, 1, "a"));
            var t0 := Next(cfg, EMPTY.(sessionsCap := 1), add);
            var t := Next(cfg, t0, first);
            && NextLog(cfg, EMPTY.(sessionsCap := 1), NO_LOG, add) == NO_LOG
            && t.sessions.Keys == {1} && t.sessionsCap == 0 && NextLog(cfg, t0, NO_LOG, first).skipped == 0
  {
    var t0, first := Added(EMPTY.(sessionsCap := 1), "a", 0, PLAIN), PlainRequest(1, 1, "a");
    assert t0.table == map["a" := 0] && t0.shares[0] == Share(0, 0, PLAIN);
    assert Checked(PLAIN, first);
    assert OutcomeOf(cfg, t0, first) == Granting(0);
  }

  lemma SecondFindsNone(cfg: Config, t: Tables, log: Log)
    requires cfg == Config(false, false) && t.sessions.Keys == {1} && t.sessionsCap == 0 && log.skipped == 0
    ensures var reload, add, second := Reload(GlobalLines(Some(1), None, None)), AddShare("a", 0, PLAIN),
                                       Connect(PlainRequest(2, 2, "a"));
            var t1 := Next(cfg, t, reload);
            var t2 := Next(cfg, t1, add);
            var log1 := NextLog(cfg, t, log, reload);
            var log2 := NextLog(cfg, t1, log1, add);
            && Next(cfg, t2, second).sessions.Keys == {1} && Next(cfg, t2, second).sessionsCap == 0
            && NextLog(cfg, t2, log2, second).skipped == 0
  {
    var t2, second := Added(Reloaded(cfg, t, GlobalLines(Some(1), None, None)), "a", 0, PLAIN), PlainRequest(2, 2, "a");
    assert t2.table["a"] == t.next && t2.shares[t.next] == Share(0, 0, PLAIN) && t2.sessionsCap == 0;
    assert Checked(PLAIN, second);
    assert OutcomeOf(cfg, t2, second) == NoEffect;
  }

  // ---------------------------------------------------------------- the server

  /** How far the daemon gets when it reads its files; a file can also be bad for what it describes. */
  datatype Load = BadUsers | BadFile | Complete

  class Server {
    var config: Config
    var reload: bool  // the health bit that asks for a reload
    var shares: map<Addr, Share>
    var table: map<Name, Addr>
    var conns: map<Addr, Conn>
    var sessions: map<nat, Session>
    var sessionsCap: int
    var next: Addr

    function Now(): Tables
      reads this
    {
      Tables(shares, table, conns, sessions, sessionsCap, next)
    }

    /** The start of the daemon, with no reload asked for. */
    constructor (lines: GlobalLines)
      ensures !reload && Settings(config, sessionsCap) == Loaded(UNSET, false, lines)
      ensures 1 <= sessionsCap <= MAX_ACTIVE_SESSIONS && Now() == EMPTY.(sessionsCap := sessionsCap)
    {
      config, sessionsCap, reload := UNSET.config, UNSET.sessionsCap, false;
      shares, table, conns, sessions, next := map[], map[], map[], map[], 0;
      new;
      ReloadKeepsSettings(UNSET, lines);
      ProcessGlobal(lines);
    }

    /** Takes an entry out of the global section; during a reload it is dropped. */
    method Steal<T>(entry: Option<T>) returns (v: Option<T>)
      ensures v == Stolen(reload, entry)
    {
      var found := entry.Some? && !reload;
      v := if found then entry else None;
    }

    method ProcessGlobal(lines: GlobalLines)
      modifies this`config, this`sessionsCap
      ensures Settings(config, sessionsCap) == Loaded(old(Settings(config, sessionsCap)), reload, lines)
    {
      var sessionsEntry := lines.maxActiveSessions;
      if !reload && sessionsEntry.None? {
        sessionsEntry := Some(1024);
      }
      var v := Steal(sessionsEntry);
      if v.Some? {
        sessionsCap := v.value;
        if sessionsCap <= 0 || sessionsCap > MAX_ACTIVE_SESSIONS {
          sessionsCap := MAX_ACTIVE_SESSIONS;
        }
      }
      v := Steal(lines.restrictAnonymous);
      if v.Some? {
        config := config.(restrictAnonymous := v.value == 1 || v.value == 2);
      }
      var guest := Steal(lines.mapBadUser);
      if guest.Some? {
        config := config.(neverMapToGuest := !guest.value);
      }
    }

    /** The signal that asks for a reload. */
    method Hangup()
      modifies this`reload
      ensures reload
    {
      reload := true;
    }

    /** One turn of the main loop: the files are read only while a reload is asked for, and until they are right. */
    method Turn(lines: GlobalLines, load: Load)
      modifies this`reload, this`table, this`config, this`sessionsCap
      ensures Now() == if old(reload) && load != BadUsers then Next(config, old(Now()), Reload(lines)) else old(Now())
      ensures config == old(config) && sessionsCap == old(sessionsCap)
      ensures reload == (old(reload) && load != Complete)
    {
      if reload {
        if load != BadUsers {
          table := map[];
        }
        if load == Complete {
          ReloadKeepsSettings(Settings(config, sessionsCap), lines);
          ProcessGlobal(lines);
          reload := false;
        }
      }
    }

    method OpenConnection(s: Addr) returns (ok: bool)
      requires s in shares
      modifies this`shares
      ensures ok == !AtLimit(old(shares)[s])
      ensures shares == if ok then old(shares)[s := Opened(old(shares)[s])] else old(shares)
    {
      var sh := shares[s];
      if sh.maxConnections != 0 && sh.numConnections >= sh.maxConnections {
        return false;
      }
      shares := shares[s := sh.(numConnections := sh.numConnections + 1)];
      ok := true;
    }

    method CloseConnection(s: Addr)
      requires s in shares
      modifies this`shares
      ensures shares == old(shares)[s := Closed(old(shares)[s])]
    {
      var sh := shares[s];
      if sh.numConnections > 0 {
        shares := shares[s := sh.(numConnections := sh.numConnections - 1)];
      } else {
        assert shares == shares[s := sh];
      }
    }

    /** Finds a session and takes a reference to it. */
    method LookupSession(k: nat) returns (found: bool)
      modifies this`sessions
      ensures found == (k in old(sessions) && old(sessions)[k].refCounter != 0)
      ensures sessions == if found then old(sessions)[k := Ref(old(sessions)[k], 1)] else old(sessions)
    {
      if k !in sessions || sessions[k].refCounter == 0 {
        return false;
      }
      sessions := sessions[k := Ref(sessions[k], 1)];
      found := true;
    }

    /** Drops a reference; a session without references leaves the table. */
    method PutSession(k: nat)
      requires k in sessions
      modifies this`sessions
      ensures sessions == if old(sessions)[k].refCounter == 1 then old(sessions) - {k}
                          else old(sessions)[k := Ref(old(sessions)[k], -1)]
    {
      sessions := sessions[k := Ref(sessions[k], -1)];
      if sessions[k].refCounter == 0 {
        sessions := sessions - {k};
      }
    }

    /** A known session needs no slot; a new one takes one if there is one. */
    method CheckSessionsCapacity(k: nat) returns (ok: bool)
      requires k in sessions ==> sessions[k].refCounter >= 1
      modifies this`sessions, this`sessionsCap
      ensures sessions == old(sessions)
      ensures ok == (k in sessions || old(sessionsCap) >= 1)
      ensures sessionsCap == if ok && k !in sessions then old(sessionsCap) - 1 else old(sessionsCap)
    {
      var found := LookupSession(k);
      if found {
        PutSession(k);
        assert Ref(Ref(old(sessions)[k], 1), -1) == old(sessions)[k];
        assert sessions == old(sessions);
        return true;
      }
      if sessionsCap < 1 {
        return false;
      }
      sessionsCap := sessionsCap - 1;
      ok := true;
    }

    /** Adds a connection at the end of its session's list, making the session if need be. */
    method HandleTreeConnect(k: nat, p: Addr)
      requires k in sessions ==> sessions[k].refCounter >= 1
      modifies this`sessions
      ensures sessions == Joined(old(sessions), k, p)
    {
      var found := LookupSession(k);
      if !found {
        sessions := sessions[k := Session(1, [])];
        assert [] + [p] == [p];
      }
      sessions := sessions[k := sessions[k].(conns := sessions[k].conns + [p])];
    }

    /** Goes through the lists in order and says how the connection is to be bound, if it is. */
    method Judge(sh: ShareFlags, req: Request) returns (status: Status, flags: ConnFlags, ask: bool)
      ensures status == Ok <==> Admitted(config, sh, req)
      ensures status == Ok ==> flags == FlagsOf(sh, req) && ask == Checked(sh, req) && Rights(sh, req, flags)
      ensures status == HostDenied <==> !HostAdmitted(req)
      ensures status == Error <==> HostAdmitted(req) && !GuestAdmitted(config, sh, req)
      ensures status == NoUser <==>
              HostAdmitted(req) && GuestAdmitted(config, sh, req) && !AsGuest(sh, req) && req.user.NoSuchUser?
      ensures status in {Ok, HostDenied, Error, NoUser, InvalidUser}
    {
      flags, ask := NO_FLAGS, false;
      if sh.writeable { flags := flags.(writable := true); }
      if sh.readOnly { flags := flags.(readOnly := true); }
      if sh.update { flags := flags.(update := true); }

      if req.hostsAllow == NotMember {
        return HostDenied, flags, ask;
      }
      if req.hostsAllow != Member {
        if req.hostsDeny == Member {
          return HostDenied, flags, ask;
        }
      }
      if config.restrictAnonymous {
        var deny := !sh.guestOk || sh.pipe;
        if req.guest && deny {
          return Error, flags, ask;
        }
      }
      if req.guest && !sh.guestOk {
        return Error, flags, ask;
      }
      if req.guest && sh.guestOk {
        if req.shareGuest {
          return Ok, flags.(guest := true), ask;
        }
        if req.globalGuest {
          return Ok, flags.(guest := true), ask;
        }
      }
      if req.user.NoSuchUser? {
        return NoUser, flags, ask;
      }
      if req.user.isGuest { flags := flags.(guest := true); }
      if req.admins == Member {
        return Ok, flags.(admin := true), ask;
      }
      if req.invalid == Member {
        return InvalidUser, flags, ask;
      }
      if req.readList == Member {
        return Ok, flags.(readOnly := true, writable := false), ask;
      }
      if req.writeList == Member {
        return Ok, flags.(writable := true), ask;
      }
      if req.valid == Member {
        return Ok, flags, ask;
      }
      if req.valid == NotMember {
        return InvalidUser, flags, ask;
      }
      return Ok, flags, true;
    }

    method TreeConnect(req: Request) returns (status: Status, flags: ConnFlags)
      requires SessionsOk(Now()) && forall n :: n in table ==> table[n] in shares
      modifies this`shares, this`conns, this`sessions, this`sessionsCap, this`next
      ensures Now() == Connected(config, old(Now()), req)
      ensures status == Ok <==> OutcomeOf(config, old(Now()), req).Granting?
      ensures status == TooManyConns <==> OutcomeOf(config, old(Now()), req).RefusedAtLimit?
      ensures status == Ok ==>
                && flags == conns[old(next)].flags && req.share in old(table)
                && Rights(old(shares)[old(table)[req.share]].flags, req, flags)
    {
      assert req.session in sessions ==> SessionOk(req.session, sessions[req.session], conns);
      hide SessionsOk, Granted, FlagsOf, Joined, Rights;
      flags := NO_FLAGS;
      if req.unterminated {
        return Error, flags;
      }
      if config.neverMapToGuest {
        if req.badPassword {
          return InvalidUser, flags;
        }
      }
      if req.share !in table {
        return NoShare, flags;
      }
      ghost var sh, known, cap := shares[table[req.share]].flags, req.session in sessions, sessionsCap;
      status, flags := ConnectShare(req, table[req.share]);
      if status == Ok {
        GrantedRights(config, sh, req, known, cap);
      }
    }

    /** A well-formed request for a listed share. */
    method ConnectShare(req: Request, s: Addr) returns (status: Status, flags: ConnFlags)
      requires s in shares && (req.session in sessions ==> sessions[req.session].refCounter >= 1)
      modifies this`shares, this`conns, this`sessions, this`sessionsCap, this`next
      ensures var t := old(Now());
              var sh := t.shares[s];
              if AtLimit(sh) then
                status == TooManyConns && Now() == t.(shares := t.shares[s := Closed(sh)])
              else if Granted(config, sh.flags, req, req.session in t.sessions, t.sessionsCap) then
                status == Ok && Now() == Bound(t, s, req) && flags == FlagsOf(sh.flags, req)
              else status !in {Ok, TooManyConns} && Now() == t
    {
      hide Admitted, Checked, Unchecked, FlagsOf, Joined, Rights;
      flags := NO_FLAGS;
      ghost var sh := shares[s];
      var ok := OpenConnection(s);
      if !ok {
        CloseConnection(s);
        return TooManyConns, flags;
      }
      assert shares[s := Closed(shares[s])] == old(shares);
      var ask;
      status, flags, ask := Judge(shares[s].flags, req);
      if status != Ok {
        CloseConnection(s);
        return;
      }
      GrantNeedsSlot(config, sh.flags, req);
      ok := BindConnection(req, s, flags, ask);
      if !ok {
        CloseConnection(s);
        return TooManySessions, flags;
      }
      ghost var bound := Opened(sh).(flags := sh.flags.(update := false));
      assert old(shares)[s := Opened(sh)][s := bound] == old(shares)[s := bound];
    }

    /** Asks for a slot if need be, and puts the connection into its session. */
    method BindConnection(req: Request, s: Addr, flags: ConnFlags, ask: bool) returns (ok: bool)
      requires s in shares && (req.session in sessions ==> sessions[req.session].refCounter >= 1)
      modifies this`shares, this`conns, this`sessions, this`sessionsCap, this`next
      ensures var t := old(Now());
              var sh := t.shares[s];
              var known := req.session in t.sessions;
              && ok == (!ask || known || t.sessionsCap >= 1)
              && Now() == if !ok then t else
                   t.(shares := t.shares[s := sh.(flags := sh.flags.(update := false))],
                      conns := t.conns[t.next := Conn(req.connection, s, flags, req.session)],
                      sessions := Joined(t.sessions, req.session, t.next),
                      sessionsCap := t.sessionsCap - (if ask && !known then 1 else 0),
                      next := t.next + 1)
    {
      hide Joined;
      if ask {
        ok := CheckSessionsCapacity(req.session);
        if !ok {
          return;
        }
      }
      HandleTreeConnect(req.session, next);
      var sh := shares[s];
      shares := shares[s := sh.(flags := sh.flags.(update := false))];
      conns, next := conns[next := Conn(req.connection, s, flags, req.session)], next + 1;
      ok := true;
    }

    /** Removes the first connection with the identifier; the session goes when none is left. */
    method TreeDisconnect(k: nat, id: nat)
      requires SessionsOk(Now())
      modifies this`shares, this`conns, this`sessions, this`sessionsCap, this`next
      ensures Now() == Disconnected(old(Now()), k, id)
    {
      hide Find, Disconnected;
      ghost var t := Now();
      SessionIsSound(t, k);
      hide SessionsOk;
      var found := LookupSession(k);
      if !found {
        UnknownSession(t, k, id);
        return;
      }
      hide SessionOk, Closed, Without;
      var l := sessions[k].conns;
      var i := FindConn(l, id);
      if i < |l| {
        Leave(k, i);
      }
      ghost var held := Now();
      PutSession(k);
      DisconnectCases(t, k, id, held);
    }

    /** The place of the first connection with the identifier, or the length of the list. */
    method FindConn(l: seq<Addr>, id: nat) returns (i: nat)
      requires forall p :: p in l ==> p in conns
      ensures i == Find(conns, l, id)
    {
      i := 0;
      while i < |l| && conns[l[i]].id != id
        invariant i <= |l|
        invariant forall j :: 0 <= j < i ==> conns[l[j]].id != id
      {
        i := i + 1;
      }
      FindIs(conns, l, id, i);
    }

    /** Takes the connection out of its session and gives back what it held; one reference is still ours. */
    method Leave(k: nat, i: nat)
      requires k in sessions && i < |sessions[k].conns| && ListSound(Now(), k)
      modifies this`shares, this`conns, this`sessions, this`sessionsCap, this`next
      ensures var p := old(sessions)[k].conns[i];
              var rest := Without(old(sessions)[k].conns, i);
              && sessions == old(sessions)[k := Session(old(sessions)[k].refCounter - 1, rest)]
              && sessionsCap == old(sessionsCap) + (if rest == [] then 1 else 0)
              && shares == old(shares)[old(conns)[p].share := Closed(old(shares)[old(conns)[p].share])]
              && conns == old(conns) - {p}
              && table == old(table) && next == old(next)
    {
      var l := sessions[k].conns;
      var p := l[i];
      var s := conns[p].share;
      var rest := l[..i] + l[i + 1..];
      sessions := sessions[k := Session(sessions[k].refCounter - 1, rest)];
      if rest == [] {
        sessionsCap := sessionsCap + 1;
      }
      CloseConnection(s);
      conns := conns - {p};
    }
  }

  lemma SessionIsSound(t: Tables, k: nat)
    requires SessionsOk(t)
    ensures k in t.sessions ==> ListSound(t, k) && SessionOk(k, t.sessions[k], t.conns)
  {
    if k in t.sessions {
      SoundList(t, k);
    }
  }

  lemma UnknownSession(t: Tables, k: nat, id: nat)
    requires k !in t.sessions
    ensures Disconnected(t, k, id) == t
  {
  }

  /** The tables while a disconnect still holds its own reference on the session. */
  ghost function Holding(t: Tables, k: nat, i: nat): Tables
    requires k in t.sessions && i <= |t.sessions[k].conns| && ListSound(t, k)
  {
    var se := t.sessions[k];
    if i == |se.conns| then t.(sessions := t.sessions[k := Ref(se, 1)])
    else
      var s := t.conns[se.conns[i]].share;
      var rest := Without(se.conns, i);
      t.(shares := t.shares[s := Closed(t.shares[s])],
         conns := t.conns - {se.conns[i]},
         sessions := t.sessions[k := Session(se.refCounter, rest)],
         sessionsCap := t.sessionsCap + if rest == [] then 1 else 0)
  }

  lemma DisconnectCases(t: Tables, k: nat, id: nat, held: Tables)
    requires k in t.sessions && ListSound(t, k) && SessionOk(k, t.sessions[k], t.conns)
    requires held == Holding(t, k, Find(t.conns, t.sessions[k].conns, id))
    ensures k in held.sessions
    ensures Disconnected(t, k, id) == held.(
              sessions := if held.sessions[k].refCounter == 1 then held.sessions - {k}
                          else held.sessions[k := Ref(held.sessions[k], -1)])
  {
    hide Find, Closed;
    var se := t.sessions[k];
    var i := Find(t.conns, se.conns, id);
    if i < |se.conns| {
      assert held.sessions - {k} == t.sessions - {k};
    } else {
      assert t.sessions[k := Ref(se, 1)][k := se] == t.sessions;
    }
  }

  lemma FindIs(conns: map<Addr, Conn>, l: seq<Addr>, id: nat, i: nat)
    requires (forall p :: p in l ==> p in conns) && i <= |l|
    requires (i < |l| ==> conns[l[i]].id == id) && forall j :: 0 <= j < i ==> conns[l[j]].id != id
    ensures Find(conns, l, id) == i
  {
  }
}
