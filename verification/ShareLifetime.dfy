/**
  The life of a share object under every interleaving of lookups, puts, additions and reloads.

  One step is one region under a lock: the table's read-write lock or a share's update lock.  A
  reload marks each listed share as being freed, puts the table's reference and unlinks it, all
  under the write lock, while other threads may still hold references to the old objects.
 */
module ShareLifetime {

  type Tid = nat
  type Id = nat
  type Name = string  // after case folding

  /** A share object.  killed means its memory is gone: no step may read or write it any more. */
  datatype Share = Share(name: Name, refCount: int, freeing: bool, killed: bool)

  /** How far the thread that holds the table's write lock has come with the listed shares. */
  datatype Reload =
    | NoReload
    | Scan(t: Tid, left: set<Id>)
    | Marked(t: Tid, s: Id, left: set<Id>)   // the mark of s is set
    | LastPut(t: Tid, s: Id, left: set<Id>)  // the table's reference is put, and it was the last one
    | Unlink(t: Tid, s: Id, left: set<Id>)   // s is about to be removed from the table

  datatype World = World(
    shares: map<Id, Share>,
    table: map<Name, Id>,
    held: map<Id, nat>,      // references outside the table: requests, tree connections, pipe entries
    readers: map<Tid, Id>,   // threads under the read lock, with the share they found
    droppers: map<Tid, Id>,  // threads that have put the last reference of a share
    reload: Reload)

  function Held(w: World, s: Id): nat { if s in w.held then w.held[s] else 0 }

  ghost predicate Idle(w: World, t: Tid) {
    t !in w.readers && t !in w.droppers && (w.reload.NoReload? || w.reload.t != t)
  }

  ghost predicate Locked(w: World) { w.reload != NoReload || w.readers != map[] }

  // ---------------------------------------------------------------- steps

  datatype Step =
    | LookupRead(t: Tid, name: Name)
    | LookupGet(t: Tid)
    | IterMove(t: Tid, name: Name)  // an iteration over the table goes on to another share
    | IterGet(t: Tid)
    | IterPut(t: Tid)
    | IterLeave(t: Tid)
    | Put(t: Tid, s: Id)
    | DropFinish(t: Tid)
    | Add(t: Tid, name: Name, id: Id)
    | ReloadEnter(t: Tid)
    | ReloadMark(s: Id)
    | ReloadPut
    | ReloadKill
    | ReloadUnlink
    | ReloadExit

  ghost predicate Enabled(w: World, a: Step) {
    match a
    case LookupRead(t, _) => Idle(w, t) && w.reload.NoReload?
    case LookupGet(t) => t in w.readers
    case IterMove(t, name) => t in w.readers && name in w.table
    case IterGet(t) => t in w.readers
    case IterPut(t) => t in w.readers && Held(w, w.readers[t]) > 0
    case IterLeave(t) => t in w.readers
    case Put(t, s) => Idle(w, t) && Held(w, s) > 0
    case DropFinish(t) =>
      t in w.droppers && (w.droppers[t] in w.shares && !w.shares[w.droppers[t]].freeing ==> !Locked(w))
    case Add(t, _, id) => Idle(w, t) && !Locked(w) && id !in w.shares && id !in w.held
    case ReloadEnter(t) => Idle(w, t) && !Locked(w)
    case ReloadMark(s) => w.reload.Scan? && s in w.reload.left
    case ReloadPut => w.reload.Marked?
    case ReloadKill => w.reload.LastPut?
    case ReloadUnlink => w.reload.Unlink?
    case ReloadExit => w.reload.Scan? && w.reload.left == {}
  }

  /** The share object whose memory a step reads or writes. */
  ghost function Touched(w: World, a: Step): set<Id>
    requires Enabled(w, a)
  {
    match a
    case LookupGet(t) => {w.readers[t]}
    case IterGet(t) => {w.readers[t]}
    case IterPut(t) => {w.readers[t]}
    case IterMove(_, _) => {}
    case IterLeave(_) => {}
    case Put(_, s) => {s}
    case DropFinish(t) => {w.droppers[t]}
    case ReloadMark(s) => {s}
    case ReloadPut => {w.reload.s}
    case ReloadKill => {w.reload.s}
    case LookupRead(_, _) => {}
    case Add(_, _, _) => {}
    case ReloadEnter(_) => {}
    case ReloadUnlink => {}
    case ReloadExit => {}
  }

  function SetRefs(w: World, s: Id, refCount: int, held: nat): World
    requires s in w.shares
  {
    w.(shares := w.shares[s := w.shares[s].(refCount := refCount)], held := w.held[s := held])
  }

  function DoLookupRead(w: World, t: Tid, name: Name): World {
    if name in w.table then w.(readers := w.readers[t := w.table[name]]) else w
  }

  function DoLookupGet(w: World, t: Tid): World
    requires t in w.readers && w.readers[t] in w.shares
  {
    var s := w.readers[t];
    var done := w.(readers := w.readers - {t});
    if w.shares[s].refCount != 0 then SetRefs(done, s, w.shares[s].refCount + 1, Held(w, s) + 1) else done
  }

  /** A get while the read lock is kept. */
  function DoIterGet(w: World, t: Tid): World
    requires t in w.readers && w.readers[t] in w.shares
  {
    var s := w.readers[t];
    if w.shares[s].refCount != 0 then SetRefs(w, s, w.shares[s].refCount + 1, Held(w, s) + 1) else w
  }

  function DoPut(w: World, t: Tid, s: Id): World
    requires s in w.shares && Held(w, s) > 0
  {
    var n := w.shares[s].refCount - 1;
    SetRefs(w.(droppers := if n == 0 then w.droppers[t := s] else w.droppers), s, n, Held(w, s) - 1)
  }

  function Kill(w: World, s: Id): World
    requires s in w.shares
  {
    w.(shares := w.shares[s := w.shares[s].(killed := true)])
  }

  /** The end of a put: an unmarked share is first removed from the table by its name. */
  function DoDropFinish(w: World, t: Tid): World
    requires t in w.droppers && w.droppers[t] in w.shares
  {
    var s := w.droppers[t];
    var done := w.(droppers := w.droppers - {t});
    if w.shares[s].freeing then Kill(done, s)
    else if w.shares[s].name in w.table then Kill(done, s).(table := w.table - {w.shares[s].name})
    else done
  }

  /** A clash with a listed name frees the new share again, which no other thread has seen. */
  function DoAdd(w: World, name: Name, id: Id): World {
    if name in w.table then w
    else w.(shares := w.shares[id := Share(name, 1, false, false)], table := w.table[name := id])
  }

  function DoReloadMark(w: World, s: Id): World
    requires s in w.shares && w.reload.Scan?
  {
    w.(shares := w.shares[s := w.shares[s].(freeing := true)],
       reload := Marked(w.reload.t, s, w.reload.left - {s}))
  }

  function DoReloadPut(w: World): World
    requires w.reload.Marked? && w.reload.s in w.shares
  {
    var Marked(t, s, left) := w.reload;
    var n := w.shares[s].refCount - 1;
    w.(shares := w.shares[s := w.shares[s].(refCount := n)],
       reload := if n == 0 then LastPut(t, s, left) else Unlink(t, s, left))
  }

  function DoReloadKill(w: World): World
    requires w.reload.LastPut? && w.reload.s in w.shares
  {
    Kill(w, w.reload.s).(reload := Unlink(w.reload.t, w.reload.s, w.reload.left))
  }

  function DoReloadUnlink(w: World): World
    requires w.reload.Unlink?
  {
    w.(table := map n | n in w.table && w.table[n] != w.reload.s :: w.table[n],
       reload := Scan(w.reload.t, w.reload.left))
  }

  ghost function Do(w: World, a: Step): World
    requires Enabled(w, a) && Touched(w, a) <= w.shares.Keys
  {
    match a
    case LookupRead(t, name) => DoLookupRead(w, t, name)
    case LookupGet(t) => DoLookupGet(w, t)
    case IterMove(t, name) => w.(readers := w.readers[t := w.table[name]])
    case IterGet(t) => DoIterGet(w, t)
    case IterPut(t) => DoPut(w, t, w.readers[t])
    case IterLeave(t) => w.(readers := w.readers - {t})
    case Put(t, s) => DoPut(w, t, s)
    case DropFinish(t) => DoDropFinish(w, t)
    case Add(_, name, id) => DoAdd(w, name, id)
    case ReloadEnter(t) => w.(reload := Scan(t, w.table.Values))
    case ReloadMark(s) => DoReloadMark(w, s)
    case ReloadPut => DoReloadPut(w)
    case ReloadKill => DoReloadKill(w)
    case ReloadUnlink => DoReloadUnlink(w)
    case ReloadExit => w.(reload := NoReload)
  }

  // ---------------------------------------------------------------- what every run keeps

  ghost predicate Listed(w: World, s: Id) {
    s in w.shares && w.shares[s].name in w.table && w.table[w.shares[s].name] == s
  }

  /** The table still owns a reference: it does from the insertion until the reload puts it. */
  ghost predicate TableRef(w: World, s: Id) {
    Listed(w, s) && !((w.reload.LastPut? || w.reload.Unlink?) && w.reload.s == s)
  }

  /** The share the reload is working on. */
  ghost predicate Current(w: World, s: Id) {
    (w.reload.Marked? || w.reload.LastPut? || w.reload.Unlink?) && w.reload.s == s
  }

  ghost predicate Counted(w: World, s: Id)
    requires s in w.shares
  {
    var sh := w.shares[s];
    && sh.refCount == (if TableRef(w, s) then 1 else 0) + Held(w, s)
    && (sh.killed ==> sh.refCount == 0)
    && (sh.refCount == 0 ==> sh.freeing)
    && (sh.freeing ==> !Listed(w, s) || Current(w, s))
    && (!sh.freeing ==> Listed(w, s))
  }

  ghost predicate Dying(w: World, s: Id) {
    (exists t :: t in w.droppers && w.droppers[t] == s) || (w.reload.LastPut? && w.reload.s == s)
  }

  ghost predicate TableSound(w: World) {
    forall n :: n in w.table ==> w.table[n] in w.shares && w.shares[w.table[n]].name == n
  }

  ghost predicate HeldSound(w: World) { forall s :: Held(w, s) > 0 ==> s in w.shares }

  ghost predicate ReadersSound(w: World) {
    && (w.reload != NoReload ==> w.readers == map[])
    && forall t :: t in w.readers ==> Listed(w, w.readers[t]) && !w.shares[w.readers[t]].freeing
  }

  ghost predicate DroppersSound(w: World) {
    && (forall t :: t in w.droppers ==>
          var s := w.droppers[t];
          s in w.shares && !w.shares[s].killed && w.shares[s].refCount == 0 && !(w.reload.LastPut? && w.reload.s == s))
    && (forall t, u :: t in w.droppers && u in w.droppers && w.droppers[t] == w.droppers[u] ==> t == u)
  }

  ghost predicate ReloadSound(w: World) {
    match w.reload
    case NoReload => true
    case Scan(_, left) => left == w.table.Values
    case Marked(_, s, left) =>
      Listed(w, s) && s !in left && left + {s} == w.table.Values && !w.shares[s].killed && w.shares[s].freeing
    case LastPut(_, s, left) =>
      Listed(w, s) && s !in left && left + {s} == w.table.Values && !w.shares[s].killed &&
      w.shares[s].freeing && w.shares[s].refCount == 0
    case Unlink(_, s, left) =>
      Listed(w, s) && s !in left && left + {s} == w.table.Values && w.shares[s].freeing
  }

  /** A share at zero is either gone or about to be freed by exactly one thread. */
  ghost predicate ZeroSound(w: World) {
    forall s :: s in w.shares && w.shares[s].refCount == 0 && !w.shares[s].killed ==> Dying(w, s)
  }

  ghost predicate AllCounted(w: World) { forall s :: s in w.shares ==> Counted(w, s) }

  ghost predicate Inv(w: World) {
    && TableSound(w) && HeldSound(w) && ReadersSound(w) && DroppersSound(w) && ReloadSound(w) && ZeroSound(w)
    && AllCounted(w)
  }

  ghost predicate Init(w: World) {
    w == World(map[], map[], map[], map[], map[], NoReload)
  }

  lemma InitKeeps(w: World)
    requires Init(w)
    ensures Inv(w)
  {
  }

  /** No step reads or writes a freed share. */
  lemma TouchesOnlyLive(w: World, a: Step)
    requires Inv(w) && Enabled(w, a)
    ensures forall s :: s in Touched(w, a) ==> s in w.shares && !w.shares[s].killed
  {
    forall s | s in Touched(w, a)
      ensures s in w.shares && !w.shares[s].killed
    {
      match a
      case LookupGet(t) => assert Counted(w, s);
      case IterGet(t) => assert Counted(w, s);
      case IterPut(t) => assert Counted(w, s);
      case Put(_, _) => assert Counted(w, s);
      case DropFinish(t) =>
      case ReloadMark(_) =>
        var n :| n in w.table && w.table[n] == s;
        assert Counted(w, s);
      case ReloadPut =>
      case ReloadKill =>
    }
  }

  lemma DyingKept(w: World, w': World)
    requires w'.reload.LastPut? == w.reload.LastPut? && (w.reload.LastPut? ==> w'.reload.s == w.reload.s)
    requires forall t :: t in w.droppers ==> t in w'.droppers && w'.droppers[t] == w.droppers[t]
    ensures forall s :: Dying(w, s) ==> Dying(w', s)
  {
  }

  lemma LookupReadCounts(w: World, t: Tid, name: Name)
    requires Inv(w) && Idle(w, t) && w.reload.NoReload?
    ensures AllCounted(DoLookupRead(w, t, name))
  {
    var w' := DoLookupRead(w, t, name);
    forall s | s in w'.shares
      ensures Counted(w', s)
    {
      assert Counted(w, s);
    }
  }

  lemma LookupReadZero(w: World, t: Tid, name: Name)
    requires Inv(w) && Idle(w, t) && w.reload.NoReload?
    ensures ZeroSound(DoLookupRead(w, t, name))
  {
    var w' := DoLookupRead(w, t, name);
    if name in w.table {
      assert Counted(w, w.table[name]);
    }
    hide Counted;
    DyingKept(w, w');
  }

  lemma LookupReadKeeps(w: World, t: Tid, name: Name)
    requires Inv(w) && Idle(w, t) && w.reload.NoReload?
    ensures Inv(DoLookupRead(w, t, name))
  {
    var w' := DoLookupRead(w, t, name);
    if name in w.table {
      assert Counted(w, w.table[name]);
    }
    hide Counted, AllCounted, Dying, ZeroSound;
    LookupReadZero(w, t, name);
    LookupReadCounts(w, t, name);
  }

  lemma LookupGetCounts(w: World, t: Tid)
    requires Inv(w) && t in w.readers && w.readers[t] in w.shares
    ensures AllCounted(DoLookupGet(w, t))
  {
    var w' := DoLookupGet(w, t);
    forall s | s in w'.shares
      ensures Counted(w', s)
    {
      assert Counted(w, s);
    }
  }

  lemma LookupGetZero(w: World, t: Tid)
    requires Inv(w) && t in w.readers && w.readers[t] in w.shares
    ensures ZeroSound(DoLookupGet(w, t))
  {
    var w' := DoLookupGet(w, t);
    assert Counted(w, w.readers[t]);
    hide Counted;
    DyingKept(w, w');
  }

  lemma LookupGetDroppers(w: World, t: Tid)
    requires Inv(w) && t in w.readers && w.readers[t] in w.shares
    ensures DroppersSound(DoLookupGet(w, t))
  {
    assert Counted(w, w.readers[t]);
    hide Counted, AllCounted, Dying, ZeroSound;
  }

  lemma LookupGetKeeps(w: World, t: Tid)
    requires Inv(w) && t in w.readers && w.readers[t] in w.shares
    ensures Inv(DoLookupGet(w, t))
  {
    assert Counted(w, w.readers[t]);
    hide Counted, AllCounted, Dying, ZeroSound, DroppersSound;
    LookupGetDroppers(w, t);
    LookupGetZero(w, t);
    LookupGetCounts(w, t);
  }

  /** While a reader has found a share, references to it come and go above that of the table. */
  lemma RefsMoveKeeps(w: World, t: Tid, held: nat)
    requires Inv(w) && t in w.readers
    ensures w.readers[t] in w.shares && Inv(SetRefs(w, w.readers[t], held + 1, held))
  {
    var s0 := w.readers[t];
    var w' := SetRefs(w, s0, held + 1, held);
    RefsMoveCounts(w, t, held);
    RefsMoveDroppers(w, t, held);
    hide Counted, AllCounted, DroppersSound;
    DyingKept(w, w');
    hide Dying;
  }

  lemma RefsMoveCounts(w: World, t: Tid, held: nat)
    requires Inv(w) && t in w.readers
    ensures AllCounted(SetRefs(w, w.readers[t], held + 1, held))
  {
    var s0 := w.readers[t];
    var w' := SetRefs(w, s0, held + 1, held);
    forall s | s in w'.shares
      ensures Counted(w', s)
    {
      assert Counted(w, s);
    }
  }

  lemma RefsMoveDroppers(w: World, t: Tid, held: nat)
    requires Inv(w) && t in w.readers
    ensures DroppersSound(SetRefs(w, w.readers[t], held + 1, held))
  {
    assert Counted(w, w.readers[t]);
    hide Counted, AllCounted, ZeroSound, TableSound, HeldSound;
  }

  lemma ReadersMoveKeeps(w: World, readers: map<Tid, Id>)
    requires Inv(w) && w.reload.NoReload?
    requires forall t :: t in readers ==> Listed(w, readers[t]) && !w.shares[readers[t]].freeing
    ensures Inv(w.(readers := readers))
  {
    var w' := w.(readers := readers);
    forall s | s in w'.shares
      ensures Counted(w', s)
    {
      assert Counted(w, s);
    }
    hide Counted;
    DyingKept(w, w');
    hide Dying, AllCounted;
  }

  lemma IterMoveKeeps(w: World, t: Tid, name: Name)
    requires Inv(w) && t in w.readers && name in w.table
    ensures Inv(w.(readers := w.readers[t := w.table[name]]))
  {
    assert Counted(w, w.table[name]);
    hide Counted, AllCounted, Dying, ZeroSound, DroppersSound;
    ReadersMoveKeeps(w, w.readers[t := w.table[name]]);
  }

  lemma IterLeaveKeeps(w: World, t: Tid)
    requires Inv(w) && t in w.readers
    ensures Inv(w.(readers := w.readers - {t}))
  {
    hide Counted, AllCounted, Dying, ZeroSound, DroppersSound;
    ReadersMoveKeeps(w, w.readers - {t});
  }

  lemma IterGetKeeps(w: World, t: Tid)
    requires Inv(w) && t in w.readers && w.readers[t] in w.shares
    ensures Inv(DoIterGet(w, t))
  {
    hide Inv, SetRefs;
    ReaderFinds(w, t);
    RefsMoveKeeps(w, t, Held(w, w.readers[t]) + 1);
  }

  /** A put under the read lock never drops the last reference: the table still has its own. */
  lemma IterPutKeeps(w: World, t: Tid)
    requires Inv(w) && t in w.readers && w.readers[t] in w.shares && Held(w, w.readers[t]) > 0
    ensures w.shares[w.readers[t]].refCount > 1 && Inv(DoPut(w, t, w.readers[t]))
  {
    hide Inv, SetRefs;
    ReaderFinds(w, t);
    RefsMoveKeeps(w, t, Held(w, w.readers[t]) - 1);
  }

  lemma ReaderFinds(w: World, t: Tid)
    requires Inv(w) && t in w.readers && w.readers[t] in w.shares
    ensures w.shares[w.readers[t]].refCount == 1 + Held(w, w.readers[t])
  {
    assert Counted(w, w.readers[t]);
  }

  lemma PutCounts(w: World, t: Tid, s0: Id)
    requires Inv(w) && Idle(w, t) && s0 in w.shares && Held(w, s0) > 0
    ensures AllCounted(DoPut(w, t, s0))
  {
    var w' := DoPut(w, t, s0);
    forall s | s in w'.shares
      ensures Counted(w', s)
    {
      assert Counted(w, s);
    }
  }

  lemma PutDroppers(w: World, t: Tid, s0: Id)
    requires Inv(w) && Idle(w, t) && s0 in w.shares && Held(w, s0) > 0
    ensures DroppersSound(DoPut(w, t, s0))
  {
    assert Counted(w, s0);
    hide Counted, AllCounted, Dying, ZeroSound, TableSound, HeldSound, ReadersSound;
  }

  lemma PutZero(w: World, t: Tid, s0: Id)
    requires Inv(w) && Idle(w, t) && s0 in w.shares && Held(w, s0) > 0
    ensures ZeroSound(DoPut(w, t, s0))
  {
    var w' := DoPut(w, t, s0);
    assert Counted(w, s0);
    hide Counted;
    DyingKept(w, w');
    assert w'.shares[s0].refCount == 0 ==> w'.droppers[t] == s0;
  }

  lemma PutKeeps(w: World, t: Tid, s0: Id)
    requires Inv(w) && Idle(w, t) && s0 in w.shares && Held(w, s0) > 0
    ensures Inv(DoPut(w, t, s0))
  {
    var w' := DoPut(w, t, s0);
    assert Counted(w, s0);
    hide Counted, AllCounted, Dying, ZeroSound, DroppersSound;
    PutDroppers(w, t, s0);
    PutZero(w, t, s0);
    PutCounts(w, t, s0);
  }

  lemma DropCounts(w: World, t: Tid)
    requires Inv(w) && t in w.droppers && w.droppers[t] in w.shares
    ensures AllCounted(DoDropFinish(w, t))
  {
    var w' := DoDropFinish(w, t);
    assert Counted(w, w.droppers[t]);
    forall s | s in w'.shares
      ensures Counted(w', s)
    {
      assert Counted(w, s);
    }
  }

  lemma DropZero(w: World, t: Tid)
    requires Inv(w) && t in w.droppers && w.droppers[t] in w.shares
    ensures ZeroSound(DoDropFinish(w, t))
  {
    var w' := DoDropFinish(w, t);
    assert Counted(w, w.droppers[t]);
    hide Counted;
    forall s | s in w'.shares && w'.shares[s].refCount == 0 && !w'.shares[s].killed
      ensures Dying(w', s)
    {
      assert Dying(w, s);
      if u :| u in w.droppers && w.droppers[u] == s {
        assert u in w'.droppers;
      }
    }
  }

  lemma DropDroppers(w: World, t: Tid)
    requires Inv(w) && t in w.droppers && w.droppers[t] in w.shares
    ensures DroppersSound(DoDropFinish(w, t)) && ReadersSound(DoDropFinish(w, t))
  {
    assert Counted(w, w.droppers[t]);
    hide Counted, AllCounted, Dying, ZeroSound;
  }

  lemma DropKeeps(w: World, t: Tid)
    requires Inv(w) && t in w.droppers && w.droppers[t] in w.shares
    ensures Inv(DoDropFinish(w, t))
  {
    assert Counted(w, w.droppers[t]);
    hide Counted, AllCounted, Dying, ZeroSound;
    DropDroppers(w, t);
    hide ReadersSound;
    DropZero(w, t);
    DropCounts(w, t);
  }

  lemma AddCounts(w: World, name: Name, id: Id)
    requires Inv(w) && !Locked(w) && id !in w.shares && id !in w.held
    ensures AllCounted(DoAdd(w, name, id))
  {
    var w' := DoAdd(w, name, id);
    forall s | s in w'.shares
      ensures Counted(w', s)
    {
      assert s in w.shares ==> Counted(w, s);
    }
  }

  lemma AddZero(w: World, name: Name, id: Id)
    requires Inv(w) && !Locked(w) && id !in w.shares && id !in w.held
    ensures ZeroSound(DoAdd(w, name, id))
  {
    var w' := DoAdd(w, name, id);
    hide Counted;
    DyingKept(w, w');
  }

  lemma AddKeeps(w: World, name: Name, id: Id)
    requires Inv(w) && !Locked(w) && id !in w.shares && id !in w.held
    ensures Inv(DoAdd(w, name, id))
  {
    var w' := DoAdd(w, name, id);
    hide Counted, AllCounted, Dying, ZeroSound;
    AddZero(w, name, id);
    AddCounts(w, name, id);
  }

  lemma ReloadEnterCounts(w: World, t: Tid)
    requires Inv(w) && !Locked(w)
    ensures AllCounted(w.(reload := Scan(t, w.table.Values)))
  {
    var w' := w.(reload := Scan(t, w.table.Values));
    forall s | s in w'.shares
      ensures Counted(w', s)
    {
      assert Counted(w, s);
    }
  }

  lemma ReloadEnterZero(w: World, t: Tid)
    requires Inv(w) && !Locked(w)
    ensures ZeroSound(w.(reload := Scan(t, w.table.Values)))
  {
    var w' := w.(reload := Scan(t, w.table.Values));
    hide Counted;
    DyingKept(w, w');
  }

  lemma ReloadEnterKeeps(w: World, t: Tid)
    requires Inv(w) && !Locked(w)
    ensures Inv(w.(reload := Scan(t, w.table.Values)))
  {
    var w' := w.(reload := Scan(t, w.table.Values));
    hide Counted, AllCounted, Dying, ZeroSound;
    ReloadEnterZero(w, t);
    ReloadEnterCounts(w, t);
  }

  lemma ReloadExitCounts(w: World)
    requires Inv(w) && w.reload.Scan?
    ensures AllCounted(w.(reload := NoReload))
  {
    var w' := w.(reload := NoReload);
    forall s | s in w'.shares
      ensures Counted(w', s)
    {
      assert Counted(w, s);
    }
  }

  lemma ReloadExitZero(w: World)
    requires Inv(w) && w.reload.Scan?
    ensures ZeroSound(w.(reload := NoReload))
  {
    var w' := w.(reload := NoReload);
    hide Counted;
    DyingKept(w, w');
  }

  lemma ReloadExitKeeps(w: World)
    requires Inv(w) && w.reload.Scan?
    ensures Inv(w.(reload := NoReload))
  {
    var w' := w.(reload := NoReload);
    hide Counted, AllCounted, Dying, ZeroSound;
    ReloadExitZero(w);
    ReloadExitCounts(w);
  }

  lemma ReloadMarkCounts(w: World, s0: Id)
    requires Inv(w) && w.reload.Scan? && s0 in w.reload.left && s0 in w.shares
    ensures AllCounted(DoReloadMark(w, s0))
  {
    var w' := DoReloadMark(w, s0);
    var n :| n in w.table && w.table[n] == s0;
    forall s | s in w'.shares
      ensures Counted(w', s)
    {
      assert Counted(w, s);
    }
  }

  lemma ReloadMarkZero(w: World, s0: Id)
    requires Inv(w) && w.reload.Scan? && s0 in w.reload.left && s0 in w.shares
    ensures ZeroSound(DoReloadMark(w, s0))
  {
    var w' := DoReloadMark(w, s0);
    var n :| n in w.table && w.table[n] == s0;
    assert Counted(w, s0);
    hide Counted;
    DyingKept(w, w');
  }

  lemma ReloadMarkDroppers(w: World, s0: Id)
    requires Inv(w) && w.reload.Scan? && s0 in w.reload.left && s0 in w.shares
    ensures DroppersSound(DoReloadMark(w, s0))
  {
    assert Counted(w, s0);
    hide Counted, AllCounted, Dying, ZeroSound;
  }

  lemma ReloadMarkKeeps(w: World, s0: Id)
    requires Inv(w) && w.reload.Scan? && s0 in w.reload.left && s0 in w.shares
    ensures Inv(DoReloadMark(w, s0))
  {
    var w' := DoReloadMark(w, s0);
    var n :| n in w.table && w.table[n] == s0;
    assert Counted(w, s0);
    hide Counted, AllCounted, Dying, ZeroSound, DroppersSound;
    ReloadMarkDroppers(w, s0);
    assert w'.readers == map[];
    ReloadMarkZero(w, s0);
    ReloadMarkCounts(w, s0);
  }

  lemma ReloadPutCounts(w: World)
    requires Inv(w) && w.reload.Marked? && w.reload.s in w.shares
    ensures AllCounted(DoReloadPut(w))
  {
    var w' := DoReloadPut(w);
    forall s | s in w'.shares
      ensures Counted(w', s)
    {
      assert Counted(w, s);
    }
  }

  lemma ReloadPutZero(w: World)
    requires Inv(w) && w.reload.Marked? && w.reload.s in w.shares
    ensures ZeroSound(DoReloadPut(w))
  {
    var w' := DoReloadPut(w);
    assert Counted(w, w.reload.s);
    hide Counted;
    assert forall s :: Dying(w, s) ==> Dying(w', s);
  }

  lemma ReloadPutKeeps(w: World)
    requires Inv(w) && w.reload.Marked? && w.reload.s in w.shares
    ensures Inv(DoReloadPut(w))
  {
    var w' := DoReloadPut(w);
    assert Counted(w, w.reload.s);
    hide Counted, AllCounted, Dying, ZeroSound;
    ReloadPutZero(w);
    ReloadPutCounts(w);
  }

  lemma ReloadKillCounts(w: World)
    requires Inv(w) && w.reload.LastPut? && w.reload.s in w.shares
    ensures AllCounted(DoReloadKill(w))
  {
    var w' := DoReloadKill(w);
    forall s | s in w'.shares
      ensures Counted(w', s)
    {
      assert Counted(w, s);
    }
  }

  lemma ReloadKillZero(w: World)
    requires Inv(w) && w.reload.LastPut? && w.reload.s in w.shares
    ensures ZeroSound(DoReloadKill(w))
  {
    var w' := DoReloadKill(w);
    hide Counted;
    assert forall s :: Dying(w, s) && s != w.reload.s ==> Dying(w', s);
  }

  lemma ReloadKillKeeps(w: World)
    requires Inv(w) && w.reload.LastPut? && w.reload.s in w.shares
    ensures Inv(DoReloadKill(w))
  {
    var w' := DoReloadKill(w);
    hide Counted, AllCounted, Dying, ZeroSound;
    ReloadKillZero(w);
    ReloadKillCounts(w);
  }

  lemma ReloadUnlinkCounts(w: World)
    requires Inv(w) && w.reload.Unlink?
    ensures AllCounted(DoReloadUnlink(w))
  {
    var w' := DoReloadUnlink(w);
    forall s | s in w'.shares
      ensures Counted(w', s)
    {
      assert Counted(w, s);
    }
  }

  lemma ReloadUnlinkZero(w: World)
    requires Inv(w) && w.reload.Unlink?
    ensures ZeroSound(DoReloadUnlink(w))
  {
    var w' := DoReloadUnlink(w);
    hide Counted;
    DyingKept(w, w');
  }

  lemma ReloadUnlinkKeeps(w: World)
    requires Inv(w) && w.reload.Unlink?
    ensures Inv(DoReloadUnlink(w))
  {
    var w' := DoReloadUnlink(w);
    hide Counted, AllCounted, Dying, ZeroSound;
    assert w'.table.Values == w.reload.left by {
      forall s | s in w.reload.left
        ensures s in w'.table.Values
      {
        assert s in w.table.Values;
        var n :| n in w.table && w.table[n] == s;
        assert n in w'.table && w'.table[n] == s;
      }
    }
    ReloadUnlinkZero(w);
    ReloadUnlinkCounts(w);
  }

  /** Every step of every thread keeps the invariant. */
  lemma StepKeeps(w: World, a: Step)
    requires Inv(w) && Enabled(w, a)
    ensures Touched(w, a) <= w.shares.Keys && Inv(Do(w, a))
  {
    hide Inv, DoLookupRead, DoLookupGet, DoIterGet, DoPut, DoDropFinish, DoAdd;
    hide DoReloadMark, DoReloadPut, DoReloadKill, DoReloadUnlink;
    TouchesOnlyLive(w, a);
    match a
    case LookupRead(t, name) => LookupReadKeeps(w, t, name);
    case LookupGet(t) => LookupGetKeeps(w, t);
    case IterMove(t, name) => IterMoveKeeps(w, t, name);
    case IterGet(t) => IterGetKeeps(w, t);
    case IterPut(t) => IterPutKeeps(w, t);
    case IterLeave(t) => IterLeaveKeeps(w, t);
    case Put(t, s) => PutKeeps(w, t, s);
    case DropFinish(t) => DropKeeps(w, t);
    case Add(_, name, id) => AddKeeps(w, name, id);
    case ReloadEnter(t) => ReloadEnterKeeps(w, t);
    case ReloadMark(s) => ReloadMarkKeeps(w, s);
    case ReloadExit => ReloadExitKeeps(w);
    case ReloadPut => ReloadPutKeeps(w);
    case ReloadKill => ReloadKillKeeps(w);
    case ReloadUnlink => ReloadUnlinkKeeps(w);
  }

  // ---------------------------------------------------------------- runs

  /** A run: each world follows from the one before by one enabled step on live memory. */
  ghost predicate Run(ws: seq<World>, steps: seq<Step>) {
    && |ws| == |steps| + 1
    && Init(ws[0])
    && forall i :: 0 <= i < |steps| ==>
         Enabled(ws[i], steps[i]) && Touched(ws[i], steps[i]) <= ws[i].shares.Keys && ws[i + 1] == Do(ws[i], steps[i])
  }

  lemma {:induction false} RunKeeps(ws: seq<World>, steps: seq<Step>, i: nat)
    requires Run(ws, steps) && i < |ws|
    ensures Inv(ws[i])
  {
    hide Inv, Do, Enabled, Touched;
    if i == 0 {
      InitKeeps(ws[0]);
    } else {
      RunKeeps(ws, steps, i - 1);
      StepKeeps(ws[i - 1], steps[i - 1]);
    }
  }

  /**
    In every world of every run a share counts its table membership and its outstanding references;
    it is freed only at zero and never while listed or held, and zero comes only after the mark.
   */
  lemma CountsInEveryRun(ws: seq<World>, steps: seq<Step>, i: nat, s: Id)
    requires Run(ws, steps) && i < |ws| && s in ws[i].shares
    ensures var sh := ws[i].shares[s];
            && sh.refCount == (if TableRef(ws[i], s) then 1 else 0) + Held(ws[i], s)
            && (sh.killed ==> sh.refCount == 0 && !TableRef(ws[i], s) && Held(ws[i], s) == 0)
            && (sh.refCount == 0 ==> sh.freeing)
            && (sh.refCount == 0 && !sh.killed ==> Dying(ws[i], s))
  {
    RunKeeps(ws, steps, i);
    assert Counted(ws[i], s);
  }

  ghost predicate Quiet(w: World) { w.readers == map[] && w.droppers == map[] && w.reload.NoReload? }

  /** Between requests nothing leaks: a share is freed exactly when it is neither listed nor held. */
  lemma FreedExactlyWhenUnused(ws: seq<World>, steps: seq<Step>, i: nat, s: Id)
    requires Run(ws, steps) && i < |ws| && s in ws[i].shares && Quiet(ws[i])
    ensures ws[i].shares[s].killed <==> !Listed(ws[i], s) && Held(ws[i], s) == 0
  {
    RunKeeps(ws, steps, i);
    assert Counted(ws[i], s);
  }

  /** The table is changed by additions and by the reload alone: freeing an old share never unlinks a new one. */
  lemma FreeingKeepsTable(ws: seq<World>, steps: seq<Step>, i: nat)
    requires Run(ws, steps) && i < |steps|
    requires steps[i].DropFinish? || steps[i].ReloadKill? || steps[i].Put? || steps[i].IterPut?
    ensures ws[i + 1].table == ws[i].table
  {
    RunKeeps(ws, steps, i);
    if steps[i].DropFinish? {
      assert Counted(ws[i], ws[i].droppers[steps[i].t]);
    }
  }

  /** While no reload runs, looking up a listed name always yields a reference. */
  lemma LookupSucceeds(ws: seq<World>, steps: seq<Step>, i: nat)
    requires Run(ws, steps) && i < |steps| && steps[i].LookupGet?
    ensures var s := ws[i].readers[steps[i].t];
            s in ws[i].shares && Held(ws[i + 1], s) == Held(ws[i], s) + 1 && Listed(ws[i + 1], s)
  {
    RunKeeps(ws, steps, i);
    assert Counted(ws[i], ws[i].readers[steps[i].t]);
  }

  /** A reload that has run to its end has emptied the table, and what it marked stays allocated while held. */
  lemma ReloadEmptiesTable(ws: seq<World>, steps: seq<Step>, i: nat, s: Id)
    requires Run(ws, steps) && i < |steps| && steps[i].ReloadExit?
    ensures ws[i + 1].table == map[]
    ensures s in ws[i].shares && Held(ws[i], s) > 0 ==> !ws[i + 1].shares[s].killed
  {
    RunKeeps(ws, steps, i);
    if s in ws[i].shares {
      assert Counted(ws[i], s);
    }
    assert ws[i].table.Values == {};
  }

  /** A lookup finds the share that is listed under the name, if there is one. */
  lemma LookupFinds(ws: seq<World>, steps: seq<Step>, i: nat)
    requires Run(ws, steps) && i < |steps| && steps[i].LookupRead?
    ensures var LookupRead(t, name) := steps[i];
            && (t in ws[i + 1].readers <==> name in ws[i].table)
            && (name in ws[i].table ==> ws[i + 1].readers[t] == ws[i].table[name])
            && ws[i + 1].shares == ws[i].shares && ws[i + 1].table == ws[i].table && ws[i + 1].held == ws[i].held
  {
  }

  /** A new share is listed under a free name with the table's reference alone; a name that is taken stays. */
  lemma AddLists(ws: seq<World>, steps: seq<Step>, i: nat)
    requires Run(ws, steps) && i < |steps| && steps[i].Add?
    ensures var Add(_, name, id) := steps[i];
            if name in ws[i].table then ws[i + 1] == ws[i]
            else
              && Listed(ws[i + 1], id) && ws[i + 1].table == ws[i].table[name := id]
              && ws[i + 1].shares[id].refCount == 1 && !ws[i + 1].shares[id].killed
              && forall s :: s in ws[i].shares ==> s in ws[i + 1].shares && ws[i + 1].shares[s] == ws[i].shares[s]
  {
  }

  /** A put gives one reference back, and nothing else changes hands. */
  lemma PutReturns(ws: seq<World>, steps: seq<Step>, i: nat, s: Id)
    requires Run(ws, steps) && i < |steps| && (steps[i].Put? || steps[i].IterPut?)
    ensures var p := if steps[i].Put? then steps[i].s else ws[i].readers[steps[i].t];
            Held(ws[i + 1], s) == Held(ws[i], s) - if s == p then 1 else 0
  {
  }
}
