/**
  The process layer: each process keeps every table handle it holds in a table of its own, its process root.
  Processes come, crash between operations, and are cleaned up; collector slices happen at any time.
 */
module Capi {
  import opened Queues
  import opened Tables
  import opened GcModel
  import opened GcReach
  import opened GcInvariant
  import opened GcSteps
  import opened GcSlice
  import opened GcMutators
  import opened GcRuns
  import opened GcEffects

  type Pid = nat

  /** `handles` maps the address of each copied-out table value to the table it names. */
  datatype Process = Process(proot: TableId, alive: bool, handles: map<int, TableId>)

  datatype World = World(gc: State, groot: TableId, procs: map<Pid, Process>)

  /** The entries that a process root holds for these handles. */
  function Entries(handles: map<int, TableId>): map<int, Value> {
    map a | a in handles :: Ref(handles[a])
  }

  function ProotOf(w: World, pid: Pid): TableId
    requires pid in w.procs
  {
    w.procs[pid].proot
  }

  // ----- operations -----

  function WithHandle(w: World, pid: Pid, addr: int, t: TableId): World
    requires pid in w.procs
  {
    w.(procs := w.procs[pid := w.procs[pid].(handles := w.procs[pid].handles[addr := t])])
  }

  /** Hands t to a process as a value stored at addr: first an entry in its process root, then the handle. */
  function CopyOut(w: World, pid: Pid, addr: int, t: TableId): (World, Ret)
    requires pid in w.procs
  {
    var (gc, r) := AddKeyValue(w.gc, ProotOf(w, pid), addr, Ref(t));
    if r == Ok then (WithHandle(w.(gc := gc), pid, addr, t), Ok) else (w.(gc := gc), r)
  }

  /** Library start: the global root. */
  function Boot(t: TableId): World {
    World(AddRoot(NewTable(Initial, t), t).0, t, map[])
  }

  /** A new process with root table t; the roots array may be full. */
  function StartProcess(w: World, pid: Pid, t: TableId): (World, Ret) {
    var (gc, r) := AddRoot(NewTable(w.gc, t), t);
    if r == Ok then (World(gc, w.groot, w.procs[pid := Process(t, true, map[])]), Ok) else (w.(gc := gc), r)
  }

  function Crash(w: World, pid: Pid): World
    requires pid in w.procs
  {
    w.(procs := w.procs[pid := w.procs[pid].(alive := false)])
  }

  function GetGroot(w: World, pid: Pid, addr: int): (World, Ret)
    requires pid in w.procs
  {
    CopyOut(w, pid, addr, w.groot)
  }

  function NewByProcess(w: World, pid: Pid, addr: int, t: TableId): (World, Ret)
    requires pid in w.procs
  {
    CopyOut(w.(gc := NewTable(w.gc, t)), pid, addr, t)
  }

  /** Copies out the value of element i of the table behind handle h; a scalar needs no handle. */
  function Fetch(w: World, pid: Pid, h: int, i: nat, addr: int): (World, Ret)
    requires pid in w.procs && h in w.procs[pid].handles
  {
    var es := ElemsOf(w.gc, w.procs[pid].handles[h]);
    if i >= |es| then (w, NotFound)
    else if es[i].value.Ref? then CopyOut(w, pid, addr, es[i].value.id)
    else (w, Ok)
  }

  /** st_capi_get: the element is found by key. */
  function Get(w: World, pid: Pid, h: int, k: int, addr: int): (World, Ret)
    requires pid in w.procs && h in w.procs[pid].handles
  {
    var es := ElemsOf(w.gc, w.procs[pid].handles[h]);
    var i := Rank(es, k);
    if i < |es| && es[i].key == k then Fetch(w, pid, h, i, addr) else (w, NotFound)
  }

  function Free(w: World, pid: Pid, addr: int): (World, Ret)
    requires pid in w.procs
  {
    var (gc, r) := RemoveKey(w.gc, ProotOf(w, pid), addr);
    if r == Ok then
      (World(gc, w.groot, w.procs[pid := w.procs[pid].(handles := w.procs[pid].handles - {addr})]), Ok)
    else (w.(gc := gc), r)
  }

  /** What a process may store: a scalar, or a table it has a handle for. */
  datatype Arg = Plain(n: int) | Handle(h: int)

  function ArgValue(w: World, pid: Pid, v: Arg): Value
    requires pid in w.procs && (v.Handle? ==> v.h in w.procs[pid].handles)
  {
    match v
    case Plain(n) => Scalar(n)
    case Handle(h) => Ref(w.procs[pid].handles[h])
  }

  function Store(w: World, pid: Pid, h: int, k: int, v: Arg, force: bool): (World, Ret)
    requires pid in w.procs && h in w.procs[pid].handles && (v.Handle? ==> v.h in w.procs[pid].handles)
  {
    var t, x := w.procs[pid].handles[h], ArgValue(w, pid, v);
    var (gc, r) := if force then SetKeyValue(w.gc, t, k, x) else AddKeyValue(w.gc, t, k, x);
    (w.(gc := gc), r)
  }

  function Drop(w: World, pid: Pid, h: int, k: int): (World, Ret)
    requires pid in w.procs && h in w.procs[pid].handles
  {
    var (gc, r) := RemoveKey(w.gc, w.procs[pid].handles[h], k);
    (w.(gc := gc), r)
  }

  /** Takes a process's root out of the collector's roots, emptied; `order` is the order of the tree walk. */
  function Clean(w: World, pid: Pid, order: seq<TableId>): World
    requires pid in w.procs
  {
    var p := ProotOf(w, pid);
    World(RemoveRoot(RemoveAll(w.gc, p, order), p, true).0, w.groot, w.procs - {pid})
  }

  // ----- what every step keeps -----

  /** No table that the roots reach refers to t. */
  ghost predicate Private(gc: State, t: TableId) {
    forall a :: FromRoots(gc, a) ==> !Edge(gc.tables, a, t)
  }

  ghost predicate ProcessOk(gc: State, p: Process) {
    && p.proot in gc.roots && Private(gc, p.proot)
    && (p.alive ==> Contents(ElemsOf(gc, p.proot)) == Entries(p.handles))
  }

  ghost predicate WorldInv(w: World) {
    && Inv(w.gc)
    && w.groot in w.gc.roots
    && (forall pid :: pid in w.procs ==> ProcessOk(w.gc, w.procs[pid]) && w.procs[pid].proot != w.groot)
    && (forall a, b :: a in w.procs && b in w.procs && a != b ==> w.procs[a].proot != w.procs[b].proot)
  }

  lemma RootReached(gc: State, t: TableId)
    requires t in gc.roots
    ensures FromRoots(gc, t)
  {
    ReachSource(gc.tables, Members(gc.roots), t);
  }

  /** A handle of a live process names a table that the collector must keep, and never a process root. */
  lemma HandleReached(w: World, pid: Pid, h: int)
    requires WorldInv(w) && pid in w.procs && w.procs[pid].alive && h in w.procs[pid].handles
    ensures var t := w.procs[pid].handles[h];
      t in w.gc.tables && FromRoots(w.gc, t) && forall q :: q in w.procs ==> w.procs[q].proot != t
  {
    hide Inv, Contents, Kids, Reach;
    var p, t := w.procs[pid].proot, w.procs[pid].handles[h];
    RootReached(w.gc, p);
    LinkableLive(w.gc, p);
    assert Entries(w.procs[pid].handles)[h] == Ref(t);
    ContentsKids(ElemsOf(w.gc, p), h, t);
    assert Edge(w.gc.tables, p, t);
    ReachStep(w.gc.tables, Members(w.gc.roots), p, t);
    LinkableLive(w.gc, t);
    assert forall q :: q in w.procs ==> ProcessOk(w.gc, w.procs[q]);
  }

  lemma PrivateStays(gc: State, gc': State, p: TableId, added: set<TableId>, x: TableId)
    requires Inv(gc) && FromRoots(gc, p) && Changed(gc, gc', p, added) && Private(gc, x)
    requires x !in added && forall k :: k in added ==> CanLink(gc, k)
    ensures Private(gc', x)
  {
    hide Reach, SortedKeys, NoDup, Ascending, Kids, TriColour, Colours, Shape, NoDangling, Unlinked;
    NurseryNotReached(gc, p);
    var inside := (a: TableId) => FromRoots(gc, a) || a in gc.nursery;
    forall a, b | inside(a) && Edge(gc'.tables, a, b)
      ensures inside(b) && b != x
    {
      if a != p { assert Edge(gc.tables, a, b) by { assert ElemsOf(gc', a) == ElemsOf(gc, a); } }
      if Edge(gc.tables, a, b) && FromRoots(gc, a) { ReachStep(gc.tables, Members(gc.roots), a, b); }
      assert a in gc.nursery ==> KidsOf(gc, a) == [];
      if a == p { assert b in KidsOf(gc', p); }
    }
    forall r | r in Members(gc'.roots) ensures inside(r) { RootReached(gc, r); }
    forall a | FromRoots(gc', a)
      ensures !Edge(gc'.tables, a, x)
    {
      ReachInClosed(gc'.tables, Members(gc'.roots), inside, a);
    }
  }

  /** A change to a table that is no process root leaves every process in order. */
  lemma UserTableKeeps(w: World, w': World, p: TableId, added: set<TableId>)
    requires WorldInv(w) && w' == w.(gc := w'.gc) && Inv(w'.gc)
    requires FromRoots(w.gc, p) && Changed(w.gc, w'.gc, p, added)
    requires forall q :: q in w.procs ==> w.procs[q].proot != p && w.procs[q].proot !in added
    requires forall k :: k in added ==> CanLink(w.gc, k)
    ensures WorldInv(w')
  {
    hide Inv, Contents, FromRoots, Private;
    forall pid | pid in w.procs
      ensures ProcessOk(w'.gc, w.procs[pid])
    {
      assert ProcessOk(w.gc, w.procs[pid]);
      PrivateStays(w.gc, w'.gc, p, added, w.procs[pid].proot);
    }
  }

  /** A change to the root of pid that follows its handles leaves every process in order. */
  lemma ProotKeeps(w: World, w': World, pid: Pid, added: set<TableId>)
    requires WorldInv(w) && pid in w.procs && pid in w'.procs && Inv(w'.gc)
    requires w' == World(w'.gc, w.groot, w.procs[pid := w.procs[pid].(handles := w'.procs[pid].handles)])
    requires Changed(w.gc, w'.gc, ProotOf(w, pid), added)
    requires w.procs[pid].alive ==> Contents(ElemsOf(w'.gc, ProotOf(w, pid))) == Entries(w'.procs[pid].handles)
    requires forall q :: q in w.procs ==> w.procs[q].proot !in added
    requires forall k :: k in added ==> CanLink(w.gc, k)
    ensures WorldInv(w')
  {
    hide Inv, Contents, FromRoots, Private, Entries;
    RootReached(w.gc, ProotOf(w, pid));
    forall q | q in w.procs
      ensures ProcessOk(w'.gc, w'.procs[q])
    {
      assert ProcessOk(w.gc, w.procs[q]);
      PrivateStays(w.gc, w'.gc, ProotOf(w, pid), added, w.procs[q].proot);
    }
  }

  /** Every table but p keeps its elements, and the roots stay. */
  ghost predicate OnlyTable(gc: State, gc': State, p: TableId) {
    gc'.roots == gc.roots && forall x :: x != p ==> ElemsOf(gc', x) == ElemsOf(gc, x)
  }

  /** Only the handles of pid changed, and of the tables only p. */
  ghost predicate OnlyHandles(w: World, w': World, pid: Pid, handles: map<int, TableId>, p: TableId) {
    && pid in w.procs && w' == World(w'.gc, w.groot, w.procs[pid := w.procs[pid].(handles := handles)])
    && OnlyTable(w.gc, w'.gc, p)
  }

  /** A refused change changes nothing. */
  lemma NotAdded(gc: State, p: TableId, k: int, v: Value)
    ensures AddKeyValue(gc, p, k, v).1 != Ok ==> AddKeyValue(gc, p, k, v).0 == gc
  {
    hide Rank, MarkValue, WithElems;
  }

  lemma NotRemoved(gc: State, p: TableId, k: int)
    ensures RemoveKey(gc, p, k).1 != Ok ==> RemoveKey(gc, p, k).0 == gc
  {
    hide Rank, SweepValue, WithElems;
  }

  // ----- copying tables out to a process and giving them back -----

  /** With a new address, copying out a table always succeeds. */
  lemma CopyOutKeeps(w: World, pid: Pid, addr: int, t: TableId)
    requires WorldInv(w) && pid in w.procs && w.procs[pid].alive && addr !in w.procs[pid].handles
    requires CanLink(w.gc, t) && forall q :: q in w.procs ==> w.procs[q].proot != t
    ensures var (w', r) := CopyOut(w, pid, addr, t);
      WorldInv(w') && r == Ok && OnlyHandles(w, w', pid, w.procs[pid].handles[addr := t], ProotOf(w, pid))
  {
    hide Inv, Contents, FromRoots, AddKeyValue, Private;
    var p := ProotOf(w, pid);
    assert ProcessOk(w.gc, w.procs[pid]);
    RootReached(w.gc, p);
    LinkableLive(w.gc, p);
    AddChanges(w.gc, p, addr, Ref(t));
    AddKeeps(w.gc, p, addr, Ref(t));
    assert Entries(w.procs[pid].handles[addr := t]) == Entries(w.procs[pid].handles)[addr := Ref(t)];
    ProotKeeps(w, CopyOut(w, pid, addr, t).0, pid, {t});
  }

  lemma FreeKeeps(w: World, pid: Pid, addr: int)
    requires WorldInv(w) && pid in w.procs && w.procs[pid].alive
    ensures var (w', r) := Free(w, pid, addr);
      && WorldInv(w') && r == (if addr in w.procs[pid].handles then Ok else NotFound)
      && OnlyHandles(w, w', pid, w.procs[pid].handles - {addr}, ProotOf(w, pid))
      && (r != Ok ==> w' == w)
  {
    hide Inv, Contents, FromRoots, RemoveKey, Private;
    var p := ProotOf(w, pid);
    assert ProcessOk(w.gc, w.procs[pid]);
    RootReached(w.gc, p);
    LinkableLive(w.gc, p);
    RemoveChanges(w.gc, p, addr);
    NotRemoved(w.gc, p, addr);
    RemoveKeeps(w.gc, p, addr);
    assert Entries(w.procs[pid].handles - {addr}) == Entries(w.procs[pid].handles) - {addr};
    if RemoveKey(w.gc, p, addr).1 != Ok { assert w.procs[pid].handles - {addr} == w.procs[pid].handles; }
    ProotKeeps(w, Free(w, pid, addr).0, pid, {});
  }

  // ----- steps that make no references -----

  /** Without new references, and with new roots only where nothing hangs off them, private tables stay private. */
  lemma PrivateFewer(gc: State, gc': State, x: TableId)
    requires NoNewEdges(gc, gc') && Private(gc, x)
    requires forall r :: r in gc'.roots ==> r in gc.roots || KidsOf(gc', r) == []
    ensures Private(gc', x)
  {
    hide Reach, Kids;
    var inside := (a: TableId) => FromRoots(gc, a) || KidsOf(gc', a) == [];
    forall a, b | inside(a) && Edge(gc'.tables, a, b)
      ensures inside(b)
    {
      assert b in KidsOf(gc', a);
      ReachStep(gc.tables, Members(gc.roots), a, b);
    }
    forall r | r in Members(gc'.roots) ensures inside(r) { if r in gc.roots { RootReached(gc, r); } }
    forall a | FromRoots(gc', a)
      ensures !Edge(gc'.tables, a, x)
    {
      ReachInClosed(gc'.tables, Members(gc'.roots), inside, a);
      assert Edge(gc'.tables, a, x) ==> x in KidsOf(gc', a);
    }
  }

  lemma NewTableEdges(gc: State, t: TableId)
    requires t !in gc.tables
    ensures NoNewEdges(gc, NewTable(gc, t)) && KidsOf(NewTable(gc, t), t) == []
  {
  }

  /** A new table leaves the processes as they are. */
  lemma NewTableWorld(w: World, t: TableId)
    requires WorldInv(w) && t !in w.gc.tables
    ensures WorldInv(w.(gc := NewTable(w.gc, t))) && t in NewTable(w.gc, t).nursery
    ensures forall pid :: pid in w.procs ==> w.procs[pid].proot != t
  {
    hide Inv, Contents, FromRoots, Private, KidsOf;
    NewTableKeeps(w.gc, t);
    NewTableEdges(w.gc, t);
    forall pid | pid in w.procs
      ensures ProcessOk(NewTable(w.gc, t), w.procs[pid]) && w.procs[pid].proot != t
    {
      assert ProcessOk(w.gc, w.procs[pid]);
      PrivateFewer(w.gc, NewTable(w.gc, t), w.procs[pid].proot);
      RootReached(w.gc, w.procs[pid].proot);
      LinkableLive(w.gc, w.procs[pid].proot);
    }
  }

  lemma NewByProcessKeeps(w: World, pid: Pid, addr: int, t: TableId)
    requires WorldInv(w) && pid in w.procs && w.procs[pid].alive && addr !in w.procs[pid].handles && t !in w.gc.tables
    ensures var (w', r) := NewByProcess(w, pid, addr, t);
      && WorldInv(w') && r == Ok && t in w'.gc.tables && ElemsOf(w'.gc, t) == []
      && OnlyHandles(w, w', pid, w.procs[pid].handles[addr := t], ProotOf(w, pid))
  {
    hide WorldInv, CopyOut;
    var w1 := w.(gc := NewTable(w.gc, t));
    NewTableWorld(w, t);
    NewEffect(w.gc, t);
    CopyOutKeeps(w1, pid, addr, t);
    var w' := CopyOut(w1, pid, addr, t).0;
    assert ElemsOf(w'.gc, t) == ElemsOf(w1.gc, t);
    HandleReached(w', pid, addr);
  }

  /** A table fresh from the allocator is private. */
  lemma FreshPrivate(gc: State, t: TableId)
    requires Inv(gc) && t in gc.nursery
    ensures Private(gc, t) && KidsOf(gc, t) == [] && t !in gc.roots
  {
    hide Reach, SortedKeys, NoDup, Ascending, Kids, TriColour, Colours, Shape, NoDangling;
    assert Unlinked(gc, t);
    forall a | FromRoots(gc, a)
      ensures !Edge(gc.tables, a, t)
    {
      RootsKept(gc, a);
    }
  }

  lemma StartKeeps(w: World, pid: Pid, t: TableId)
    requires WorldInv(w) && pid !in w.procs && t !in w.gc.tables
    ensures WorldInv(StartProcess(w, pid, t).0)
    ensures var (w', r) := StartProcess(w, pid, t);
      && r == (if |w.gc.roots| < MAX_ROOTS then Ok else OutOfMemory)
      && (forall x :: x in w'.gc.roots <==> x in w.gc.roots || (r == Ok && x == t))
      && w'.procs == (if r == Ok then w.procs[pid := Process(t, true, map[])] else w.procs) && w'.groot == w.groot
      && t in w'.gc.tables && forall x :: ElemsOf(w'.gc, x) == ElemsOf(w.gc, x)
  {
    hide Inv, Contents, FromRoots, Private, Kids, AddRoot, NewTable, WorldInv;
    NewTableWorld(w, t);
    WorldParts(w.(gc := NewTable(w.gc, t)));
    NewEffect(w.gc, t);
    AddRootEffect(NewTable(w.gc, t), t);
    FreshPrivate(NewTable(w.gc, t), t);
    StartInv(w, pid, t);
  }

  lemma StartInv(w: World, pid: Pid, t: TableId)
    requires WorldInv(w) && pid !in w.procs && t !in w.gc.tables
    ensures WorldInv(StartProcess(w, pid, t).0)
  {
    hide Inv, Contents, FromRoots, Private, Kids, AddRoot, NewTable;
    var w1 := w.(gc := NewTable(w.gc, t));
    NewTableWorld(w, t);
    NewEffect(w.gc, t);
    FreshPrivate(w1.gc, t);
    AddRootKeeps(w1.gc, t);
    AddRootEffect(w1.gc, t);
    var (gc', r) := AddRoot(w1.gc, t);
    if r == Ok {
      PrivateFewer(w1.gc, gc', t);
      forall q | q in w.procs
        ensures ProcessOk(gc', w.procs[q])
      {
        assert ProcessOk(w1.gc, w.procs[q]);
        PrivateFewer(w1.gc, gc', w.procs[q].proot);
      }
      assert Contents(ElemsOf(gc', t)) == Entries(map[]) by { EmptyContents(); }
    }
  }

  lemma EmptyContents()
    ensures Contents([]) == map[]
  {
  }

  lemma SliceKeeps(w: World, visit: nat, free: nat)
    requires WorldInv(w)
    ensures WorldInv(w.(gc := RunSlice(w.gc, visit, free).0))
  {
    hide Inv, Contents, FromRoots, Private, RunSlice, Kids;
    var gc' := RunSlice(w.gc, visit, free).0;
    RunSliceKeeps(w.gc, visit, free);
    forall pid | pid in w.procs
      ensures ProcessOk(gc', w.procs[pid])
    {
      assert ProcessOk(w.gc, w.procs[pid]);
      PrivateFewer(w.gc, gc', w.procs[pid].proot);
      RootReached(w.gc, w.procs[pid].proot);
      SlicePreserves(w.gc, visit, free, w.procs[pid].proot);
    }
  }

  /** The root of a cleaned process is emptied and given up; no other process notices. */
  lemma CleanKeeps(w: World, pid: Pid, order: seq<TableId>)
    requires WorldInv(w) && pid in w.procs && multiset(order) == multiset(KidsOf(w.gc, ProotOf(w, pid)))
    ensures WorldInv(Clean(w, pid, order))
    ensures var w' := Clean(w, pid, order); var p := ProotOf(w, pid);
      && w' == World(w'.gc, w.groot, w.procs - {pid})
      && (forall x :: x in w'.gc.roots <==> x in w.gc.roots && x != p)
      && ElemsOf(w'.gc, p) == [] && p in w'.gc.sweepQ
      && (forall x :: x != p ==> ElemsOf(w'.gc, x) == ElemsOf(w.gc, x))
      && (forall x :: x in w.gc.sweepQ || x in KidsOf(w.gc, p) ==> x in w'.gc.sweepQ)
      && w'.gc.begin == w.gc.begin && w'.gc.markQ == w.gc.markQ && w'.gc.tables.Keys == w.gc.tables.Keys
      && !FromRoots(w'.gc, p)
  {
    hide Inv, Contents, FromRoots, Private, Kids, RemoveAll, RemoveRoot, Rewritten;
    var p := ProotOf(w, pid);
    assert ProcessOk(w.gc, w.procs[pid]);
    RootReached(w.gc, p);
    ClearEffect(w.gc, p, order);
    forall t | t in order ensures t in KidsOf(w.gc, p) { assert t in multiset(order); }
    RemoveAllKeeps(w.gc, p, order);
    var gc1 := RemoveAll(w.gc, p, order);
    RemoveRootEffect(gc1, p, true);
    RemoveRootKeeps(gc1, p, true);
    CleanEffect(w.gc, p, order);
    var gc' := Clean(w, pid, order).gc;
    ClearedKeys(w.gc, gc1, p);
    PrivateUnrooted(w.gc, gc', p);
    forall q | q in w.procs && q != pid
      ensures ProcessOk(gc', w.procs[q])
    {
      assert ProcessOk(w.gc, w.procs[q]);
      PrivateFewer(w.gc, gc', w.procs[q].proot);
    }
  }

  lemma ClearedKeys(gc: State, gc': State, p: TableId)
    requires Rewritten(gc, gc', p, map[], |ElemsOf(gc, p)|)
    ensures gc'.tables.Keys == gc.tables.Keys
  {
    hide Contents, SortedKeys;
  }

  /** A table that nothing reachable refers to is out of the roots' reach once it is no root. */
  lemma PrivateUnrooted(gc: State, gc': State, p: TableId)
    requires Private(gc, p) && NoNewEdges(gc, gc')
    requires forall x :: x in gc'.roots ==> x in gc.roots && x != p
    ensures !FromRoots(gc', p)
  {
    hide Reach, Kids, Edge;
    var inside := (a: TableId) => FromRoots(gc, a) && a != p;
    forall a, b | inside(a) && Edge(gc'.tables, a, b) ensures inside(b) {
      ReachStep(gc.tables, Members(gc.roots), a, b);
    }
    forall r | r in Members(gc'.roots) ensures inside(r) { RootReached(gc, r); }
    if FromRoots(gc', p) { ReachInClosed(gc'.tables, Members(gc'.roots), inside, p); }
  }

  lemma CleanEffect(gc: State, p: TableId, order: seq<TableId>)
    ensures var gc' := RemoveRoot(RemoveAll(gc, p, order), p, true).0;
      && NoNewEdges(gc, gc')
      && (forall r :: r in gc'.roots <==> r in gc.roots && r != p)
      && (forall q :: q != p ==> ElemsOf(gc', q) == ElemsOf(gc, q))
  {
    hide SweepAll, Without;
    SweepAllTables(gc, order);
    SweepAllRoots(gc, order);
    WithoutMembers(gc.roots, p);
    EmptyKids();
  }

  lemma {:induction false} SweepAllRoots(s: State, ts: seq<TableId>)
    ensures SweepAll(s, ts).roots == s.roots
    decreases ts
  {
    if ts != [] { SweepAllRoots(PushToSweep(s, ts[0]), ts[1..]); }
  }

  // ----- operations on tables behind handles -----

  lemma FetchKeeps(w: World, pid: Pid, h: int, i: nat, addr: int)
    requires WorldInv(w) && pid in w.procs && w.procs[pid].alive && h in w.procs[pid].handles
      && addr !in w.procs[pid].handles
    ensures WorldInv(Fetch(w, pid, h, i, addr).0)
    ensures var (w', r) := Fetch(w, pid, h, i, addr); var es := ElemsOf(w.gc, w.procs[pid].handles[h]);
      && r == (if i < |es| then Ok else NotFound)
      && (if i < |es| && es[i].value.Ref?
          then OnlyHandles(w, w', pid, w.procs[pid].handles[addr := es[i].value.id], ProotOf(w, pid)) else w' == w)
  {
    hide Inv, Contents, FromRoots, CopyOut, Private, Kids;
    var t := w.procs[pid].handles[h];
    var es := ElemsOf(w.gc, t);
    HandleReached(w, pid, h);
    if i < |es| && es[i].value.Ref? {
      var k := es[i].value.id;
      KidsMembers(es, k);
      assert Edge(w.gc.tables, t, k);
      ReachStep(w.gc.tables, Members(w.gc.roots), t, k) by { FromRootsIs(w.gc, t); }
      FromRootsIs(w.gc, k);
      PrivateMeans(w, t, k);
      CopyOutKeeps(w, pid, addr, k);
    }
  }

  /** The handle at addr names the table that the key is bound to; a scalar, or no binding, changes nothing. */
  lemma GetKeeps(w: World, pid: Pid, h: int, k: int, addr: int)
    requires WorldInv(w) && pid in w.procs && w.procs[pid].alive && h in w.procs[pid].handles
      && addr !in w.procs[pid].handles
    ensures WorldInv(Get(w, pid, h, k, addr).0)
    ensures var (w', r) := Get(w, pid, h, k, addr); var c := Contents(ElemsOf(w.gc, w.procs[pid].handles[h]));
      && r == (if k in c then Ok else NotFound)
      && (if k in c && c[k].Ref?
          then OnlyHandles(w, w', pid, w.procs[pid].handles[addr := c[k].id], ProotOf(w, pid)) else w' == w)
  {
    hide Inv, Contents, Fetch, Rank, SortedKeys, ProcessOk;
    HandleReached(w, pid, h);
    TableFacts(w.gc, w.procs[pid].handles[h]);
    var es := ElemsOf(w.gc, w.procs[pid].handles[h]);
    BoundAt(es, k);
    FetchKeeps(w, pid, h, Rank(es, k), addr);
  }

  lemma FromRootsIs(gc: State, t: TableId)
    ensures FromRoots(gc, t) <==> Reach(gc.tables, Members(gc.roots), t)
  {
  }

  lemma PrivateMeans(w: World, t: TableId, k: TableId)
    requires WorldInv(w) && FromRoots(w.gc, t) && Edge(w.gc.tables, t, k)
    ensures forall q :: q in w.procs ==> w.procs[q].proot != k
  {
    hide Inv, Contents, FromRoots;
    assert forall q :: q in w.procs ==> ProcessOk(w.gc, w.procs[q]);
  }

  lemma StoreKeeps(w: World, pid: Pid, h: int, k: int, v: Arg, force: bool)
    requires WorldInv(w) && pid in w.procs && w.procs[pid].alive && h in w.procs[pid].handles
      && (v.Handle? ==> v.h in w.procs[pid].handles)
    ensures WorldInv(Store(w, pid, h, k, v, force).0)
    ensures var (w', r) := Store(w, pid, h, k, v, force); var t := w.procs[pid].handles[h];
      var c := Contents(ElemsOf(w.gc, t));
      && w' == w.(gc := w'.gc) && OnlyTable(w.gc, w'.gc, t) && r == (if !force && k in c then Existed else Ok)
      && Contents(ElemsOf(w'.gc, t)) == (if r == Ok then c[k := ArgValue(w, pid, v)] else c)
      && (r != Ok ==> w' == w)
  {
    hide Inv, Contents, FromRoots, Private, AddKeyValue, SetKeyValue, WorldInv, Rewritten, Queued, MovedToSweep;
    var t, x := w.procs[pid].handles[h], ArgValue(w, pid, v);
    WorldParts(w);
    HandleReached(w, pid, h);
    if v.Handle? { HandleReached(w, pid, v.h); }
    AddChanges(w.gc, t, k, x);
    SetChanges(w.gc, t, k, x);
    AddKeeps(w.gc, t, k, x);
    SetKeeps(w.gc, t, k, x);
    SetEffect(w.gc, t, k, x);
    NotAdded(w.gc, t, k, x);
    UserTableKeeps(w, Store(w, pid, h, k, v, force).0, t, Stored(x));
  }

  lemma WorldParts(w: World)
    requires WorldInv(w)
    ensures Inv(w.gc)
  {
  }

  lemma DropKeeps(w: World, pid: Pid, h: int, k: int)
    requires WorldInv(w) && pid in w.procs && w.procs[pid].alive && h in w.procs[pid].handles
    ensures WorldInv(Drop(w, pid, h, k).0)
    ensures var (w', r) := Drop(w, pid, h, k); var t := w.procs[pid].handles[h]; var c := Contents(ElemsOf(w.gc, t));
      && w' == w.(gc := w'.gc) && OnlyTable(w.gc, w'.gc, t) && r == (if k in c then Ok else NotFound)
      && Contents(ElemsOf(w'.gc, t)) == c - {k} && (r != Ok ==> w' == w)
  {
    hide Inv, Contents, FromRoots, Private, RemoveKey, WorldInv;
    var t := w.procs[pid].handles[h];
    WorldParts(w);
    HandleReached(w, pid, h);
    RemoveChanges(w.gc, t, k);
    NotRemoved(w.gc, t, k);
    RemoveKeeps(w.gc, t, k);
    UserTableKeeps(w, Drop(w, pid, h, k).0, t, {});
  }

  // ----- whole runs -----

  datatype Call =
    | Start(pid: Pid, t: TableId)
    | Crashes(pid: Pid)
    | Groot(pid: Pid, addr: int)
    | Make(pid: Pid, addr: int, t: TableId)
    | FetchCall(pid: Pid, h: int, i: nat, addr: int)
    | GetCall(pid: Pid, h: int, k: int, addr: int)
    | FreeCall(pid: Pid, addr: int)
    | StoreCall(pid: Pid, h: int, k: int, v: Arg, force: bool)
    | DropCall(pid: Pid, h: int, k: int)
    | CleanCall(pid: Pid, order: seq<TableId>)
    | SliceCall(visit: nat, free: nat)

  predicate Alive(w: World, pid: Pid) { pid in w.procs && w.procs[pid].alive }

  /** The address that malloc returns is not one the process still uses, and handles are the process's own. */
  predicate CanCall(w: World, c: Call) {
    match c
    case Start(pid, t) => pid !in w.procs && t !in w.gc.tables
    case Crashes(pid) => Alive(w, pid)
    case Groot(pid, addr) => Alive(w, pid) && addr !in w.procs[pid].handles
    case Make(pid, addr, t) => Alive(w, pid) && addr !in w.procs[pid].handles && t !in w.gc.tables
    case FetchCall(pid, h, i, addr) => Alive(w, pid) && h in w.procs[pid].handles && addr !in w.procs[pid].handles
    case GetCall(pid, h, k, addr) => Alive(w, pid) && h in w.procs[pid].handles && addr !in w.procs[pid].handles
    case FreeCall(pid, addr) => Alive(w, pid)
    case StoreCall(pid, h, k, v, force) => Alive(w, pid) && h in w.procs[pid].handles
      && (v.Handle? ==> v.h in w.procs[pid].handles)
    case DropCall(pid, h, k) => Alive(w, pid) && h in w.procs[pid].handles
    case CleanCall(pid, order) => pid in w.procs && multiset(order) == multiset(KidsOf(w.gc, ProotOf(w, pid)))
    case SliceCall(_, _) => true
  }

  function DoCall(w: World, c: Call): World
    requires CanCall(w, c)
  {
    match c
    case Start(pid, t) => StartProcess(w, pid, t).0
    case Crashes(pid) => Crash(w, pid)
    case Groot(pid, addr) => GetGroot(w, pid, addr).0
    case Make(pid, addr, t) => NewByProcess(w, pid, addr, t).0
    case FetchCall(pid, h, i, addr) => Fetch(w, pid, h, i, addr).0
    case GetCall(pid, h, k, addr) => Get(w, pid, h, k, addr).0
    case FreeCall(pid, addr) => Free(w, pid, addr).0
    case StoreCall(pid, h, k, v, force) => Store(w, pid, h, k, v, force).0
    case DropCall(pid, h, k) => Drop(w, pid, h, k).0
    case CleanCall(pid, order) => Clean(w, pid, order)
    case SliceCall(visit, free) => w.(gc := RunSlice(w.gc, visit, free).0)
  }

  predicate Calls(w: World, cs: seq<Call>)
    decreases cs
  {
    cs == [] || (CanCall(w, cs[0]) && Calls(DoCall(w, cs[0]), cs[1..]))
  }

  function AfterCalls(w: World, cs: seq<Call>): World
    requires Calls(w, cs)
    decreases cs
  {
    if cs == [] then w else AfterCalls(DoCall(w, cs[0]), cs[1..])
  }

  lemma CrashKeeps(w: World, pid: Pid)
    requires WorldInv(w) && pid in w.procs
    ensures WorldInv(Crash(w, pid))
    ensures var p := w.procs[pid];
      Crash(w, pid) == World(w.gc, w.groot, w.procs[pid := Process(p.proot, false, p.handles)])
  {
    hide Inv, Contents, Private;
    assert forall q :: q in w.procs ==> ProcessOk(w.gc, w.procs[q]);
  }

  lemma GrootKeeps(w: World, pid: Pid, addr: int)
    requires WorldInv(w) && Alive(w, pid) && addr !in w.procs[pid].handles
    ensures var (w', r) := GetGroot(w, pid, addr);
      && WorldInv(w') && r == Ok
      && OnlyHandles(w, w', pid, w.procs[pid].handles[addr := w.groot], ProotOf(w, pid))
  {
    hide Inv, Contents, Private, CopyOut;
    RootReached(w.gc, w.groot);
    CopyOutKeeps(w, pid, addr, w.groot);
  }

  /** Every call of every process, every crash, clean-up and slice keeps the world in order. */
  lemma CallKeeps(w: World, c: Call)
    requires WorldInv(w) && CanCall(w, c)
    ensures WorldInv(DoCall(w, c))
  {
    hide WorldInv, Fetch, Get, StartProcess, Crash, GetGroot, NewByProcess, Free, Store, Drop, Clean, RunSlice, KidsOf,
      Rank;
    match c
    case Start(pid, t) => StartKeeps(w, pid, t);
    case Crashes(pid) => CrashKeeps(w, pid);
    case Groot(pid, addr) => GrootKeeps(w, pid, addr);
    case Make(pid, addr, t) => NewByProcessKeeps(w, pid, addr, t);
    case FetchCall(pid, h, i, addr) => FetchKeeps(w, pid, h, i, addr);
    case GetCall(pid, h, k, addr) => GetKeeps(w, pid, h, k, addr);
    case FreeCall(pid, addr) => FreeKeeps(w, pid, addr);
    case StoreCall(pid, h, k, v, force) => StoreKeeps(w, pid, h, k, v, force);
    case DropCall(pid, h, k) => DropKeeps(w, pid, h, k);
    case CleanCall(pid, order) => CleanKeeps(w, pid, order);
    case SliceCall(visit, free) => SliceKeeps(w, visit, free);
  }

  lemma {:induction false} CallsKeep(w: World, cs: seq<Call>)
    requires WorldInv(w) && Calls(w, cs)
    ensures WorldInv(AfterCalls(w, cs))
    decreases cs
  {
    hide WorldInv, DoCall, CanCall;
    if cs != [] {
      CallKeeps(w, cs[0]);
      CallsKeep(DoCall(w, cs[0]), cs[1..]);
    }
  }

  lemma BootInv(t: TableId)
    ensures WorldInv(Boot(t))
    ensures var w := Boot(t); w.groot == t && w.procs == map[] && w.gc.roots == [t] && w.gc.tables.Keys == {t}
  {
    hide Inv, Private, Contents;
    InitialInv();
    NewTableKeeps(Initial, t);
    AddRootKeeps(NewTable(Initial, t), t);
    assert t in AddRoot(NewTable(Initial, t), t).0.roots;
  }

  /**
    Handle safety, end to end: after any calls, crashes, clean-ups and slices, each handle of a live process has its own
    entry in that process's root, the root is a collector root, and the table it names has not been freed.
   */
  lemma HandlesSafe(groot: TableId, cs: seq<Call>, pid: Pid, addr: int)
    requires Calls(Boot(groot), cs)
    requires Alive(AfterCalls(Boot(groot), cs), pid) && addr in AfterCalls(Boot(groot), cs).procs[pid].handles
    ensures var w := AfterCalls(Boot(groot), cs); var p := w.procs[pid];
      && p.proot in w.gc.roots && p.proot in w.gc.tables && p.handles[addr] in w.gc.tables
      && addr in Contents(w.gc.tables[p.proot].elems)
      && Contents(w.gc.tables[p.proot].elems)[addr] == Ref(p.handles[addr])
  {
    hide Inv, Private, Contents, Boot, Calls, AfterCalls;
    BootInv(groot);
    CallsKeep(Boot(groot), cs);
    var w := AfterCalls(Boot(groot), cs);
    HandleReached(w, pid, addr);
    assert ProcessOk(w.gc, w.procs[pid]);
    RootReached(w.gc, w.procs[pid].proot);
    LinkableLive(w.gc, w.procs[pid].proot);
  }

  // ----- cleaning up after dead processes -----

  /**
    The processes in `gone` have been cleaned: their root tables are empty, no roots any more and wait to be swept.  The
    world is in order, and the other processes and their root tables are as they were.
   */
  ghost predicate Cleaned(w: World, w': World, gone: set<Pid>) {
    && WorldInv(w') && w'.procs == w.procs - gone && w'.groot == w.groot
    && (forall pid :: pid in w'.procs ==> ElemsOf(w'.gc, ProotOf(w, pid)) == ElemsOf(w.gc, ProotOf(w, pid)))
    && (forall pid :: pid in w.procs && pid in gone ==> GivenUp(w'.gc, ProotOf(w, pid)))
  }

  ghost predicate GivenUp(gc: State, p: TableId) {
    p !in gc.roots && ElemsOf(gc, p) == [] && p in gc.sweepQ
  }

  lemma CleanStep(w: World, w': World, gone: set<Pid>, pid: Pid, order: seq<TableId>)
    requires WorldInv(w) && Cleaned(w, w', gone) && pid in w.procs && pid !in gone
    requires multiset(order) == multiset(KidsOf(w.gc, ProotOf(w, pid)))
    ensures pid in w'.procs && Cleaned(w, Clean(w', pid, order), gone + {pid})
  {
    hide Inv, ProcessOk, Clean, Kids, FromRoots;
    var p := ProotOf(w, pid);
    RootAllocated(w, pid);
    RootAllocated(w', pid);
    SameKids(w.gc, w'.gc, p);
    CleanKeeps(w', pid, order);
    assert w.procs - gone - {pid} == w.procs - (gone + {pid});
    forall q | q in w.procs && q != pid ensures ProotOf(w, q) != p { }
  }

  lemma RootAllocated(w: World, pid: Pid)
    requires WorldInv(w) && pid in w.procs
    ensures ProotOf(w, pid) in w.gc.tables
  {
    hide Inv, Contents, Private;
    assert ProcessOk(w.gc, w.procs[pid]);
    RootReached(w.gc, ProotOf(w, pid));
    LinkableLive(w.gc, ProotOf(w, pid));
  }

  lemma SameKids(gc: State, gc': State, t: TableId)
    requires t in gc.tables && t in gc'.tables && ElemsOf(gc', t) == ElemsOf(gc, t)
    ensures KidsOf(gc', t) == KidsOf(gc, t)
  {
  }

  /** The processes that may go: dead ones, and the caller itself if asked. */
  function Candidates(w: World, self: Pid, cleanSelf: bool): set<Pid> {
    set q | q in w.procs && (if q == self then cleanSelf else !w.procs[q].alive)
  }

  lemma CandidatesAre(w: World, self: Pid, cleanSelf: bool)
    ensures forall q :: q in Candidates(w, self, cleanSelf) <==>
      q in w.procs && ((q == self && cleanSelf) || (q != self && !w.procs[q].alive))
  {
  }

  /**
    Walks the process list and cleans dead processes, and the caller itself if asked, up to maxNum of them (0 means
    all): exactly the first ones in list order go, and the world stays in order.
   */
  method CleanDeadProots(w: World, list: seq<Pid>, self: Pid, cleanSelf: bool, maxNum: nat,
                         orders: map<Pid, seq<TableId>>)
    returns (w': World, cleaned: nat)
    requires WorldInv(w) && NoDup(list) && forall pid :: pid in list <==> pid in w.procs
    requires forall pid :: pid in w.procs ==>
      pid in orders && multiset(orders[pid]) == multiset(KidsOf(w.gc, ProotOf(w, pid)))
    ensures WorldInv(w') && w'.groot == w.groot
    ensures forall q :: q in w'.procs ==>
      && q in w.procs && w'.procs[q] == w.procs[q]
      && ElemsOf(w'.gc, w.procs[q].proot) == ElemsOf(w.gc, w.procs[q].proot)
    ensures forall q :: q in w.procs && w.procs[q].alive && q != self ==> q in w'.procs
    ensures self in w.procs && !cleanSelf ==> self in w'.procs
    ensures maxNum == 0 ==> forall q :: q in w.procs && !w.procs[q].alive && q != self ==> q !in w'.procs
    ensures maxNum == 0 && cleanSelf ==> self !in w'.procs
    ensures forall q :: q in w.procs && q !in w'.procs ==> GivenUp(w'.gc, w.procs[q].proot)
    ensures var n := |Candidates(w, self, cleanSelf)|; cleaned == if maxNum == 0 || n < maxNum then n else maxNum
    ensures cleaned == |w.procs.Keys - w'.procs.Keys|
    ensures forall i, j :: 0 <= i < j < |list| && list[i] in Candidates(w, self, cleanSelf) && list[j] !in w'.procs ==>
      list[i] !in w'.procs
  {
    hide WorldInv, Cleaned, Clean, KidsOf, NoDup, Ascending, Among, GivenUp, ElemsOf, Candidates;
    CandidatesAre(w, self, cleanSelf);
    w', cleaned := w, 0;
    ghost var all := Candidates(w, self, cleanSelf);
    NoneCleaned(w);
    NoneAmong(list, all);
    var i := 0;
    while i < |list|
      invariant 0 <= i <= |list| && cleaned == |Among(list, i, all)| && (maxNum == 0 || cleaned < maxNum)
      invariant Cleaned(w, w', Among(list, i, all))
    {
      var pid := list[i];
      VisitOne(w, w', list, i, all, orders);
      var dead := if pid == self then cleanSelf else !w.procs[pid].alive;
      i := i + 1;
      if dead {
        w' := Clean(w', pid, orders[pid]);
        cleaned := cleaned + 1;
        if maxNum != 0 && cleaned == maxNum {
          break;
        }
      }
    }
    FirstGone(w, w', list, i, all);
  }

  /** One turn of the loop: a process of `all` may be cleaned and counts once. */
  lemma VisitOne(w: World, w': World, list: seq<Pid>, i: nat, all: set<Pid>, orders: map<Pid, seq<TableId>>)
    requires NoDup(list) && i < |list| && list[i] in w.procs && list[i] in orders
    requires WorldInv(w) && multiset(orders[list[i]]) == multiset(KidsOf(w.gc, ProotOf(w, list[i])))
    requires Cleaned(w, w', Among(list, i, all))
    ensures var n := |Among(list, i, all)|; |Among(list, i + 1, all)| == if list[i] in all then n + 1 else n
    ensures if list[i] in all then
      && list[i] in w'.procs && Cleaned(w, Clean(w', list[i], orders[list[i]]), Among(list, i + 1, all))
      else Cleaned(w, w', Among(list, i + 1, all))
  {
    hide WorldInv, Cleaned, Clean, KidsOf, NoDup, Among, GivenUp, ElemsOf;
    NextAmong(list, i, all);
    if list[i] in all {
      CleanStep(w, w', Among(list, i, all), list[i], orders[list[i]]);
    }
  }

  /** Which of the first i processes of the list are in a set. */
  ghost function Among(list: seq<Pid>, i: nat, all: set<Pid>): set<Pid>
    requires i <= |list|
  {
    set j | 0 <= j < i && list[j] in all :: list[j]
  }

  lemma NoneAmong(list: seq<Pid>, all: set<Pid>)
    ensures Among(list, 0, all) == {}
  {
  }

  lemma NextAmong(list: seq<Pid>, i: nat, all: set<Pid>)
    requires NoDup(list) && i < |list|
    ensures list[i] !in Among(list, i, all)
    ensures Among(list, i + 1, all) == Among(list, i, all) + if list[i] in all then {list[i]} else {}
  {
    hide NoDup;
    ListedOnce(list, i);
    assert forall j :: 0 <= j < i ==> list[j] in list[..i];
  }

  lemma AmongMeans(list: seq<Pid>, i: nat, all: set<Pid>)
    requires i <= |list| && NoDup(list) && forall x :: x in all ==> x in list
    ensures Among(list, i, all) <= all && (i == |list| ==> Among(list, i, all) == all)
    ensures forall a, b :: 0 <= a < b < |list| && list[a] in all && list[b] in Among(list, i, all) ==>
      list[a] in Among(list, i, all)
  {
    hide NoDup;
    var m := Among(list, i, all);
    forall a, b | 0 <= a < b < |list| && list[a] in all && list[b] in m ensures list[a] in m {
      var j :| 0 <= j < i && list[j] in all && list[j] == list[b];
      SamePlace(list, j, b);
    }
    if i == |list| {
      forall x | x in all ensures x in m { var j :| 0 <= j < |list| && list[j] == x; }
    }
  }

  lemma SamePlace(list: seq<Pid>, a: nat, b: nat)
    requires NoDup(list) && a < |list| && b < |list| && list[a] == list[b]
    ensures a == b
  {
    hide NoDup;
    assert a < b ==> list[..b][a] == list[b];
    assert b < a ==> list[..a][b] == list[a];
    ListedOnce(list, a);
    ListedOnce(list, b);
  }

  /** Those gone are the first ones of `all` in list order. */
  lemma FirstGone(w: World, w': World, list: seq<Pid>, i: nat, all: set<Pid>)
    requires i <= |list| && NoDup(list) && all <= w.procs.Keys && forall x :: x in list <==> x in w.procs
    requires Cleaned(w, w', Among(list, i, all))
    ensures WorldInv(w') && w'.groot == w.groot && w.procs.Keys - w'.procs.Keys == Among(list, i, all)
    ensures forall q :: q in w'.procs ==>
      && q in w.procs && w'.procs[q] == w.procs[q]
      && ElemsOf(w'.gc, w.procs[q].proot) == ElemsOf(w.gc, w.procs[q].proot)
    ensures forall q :: q in w.procs && q !in w'.procs ==> q in all && GivenUp(w'.gc, w.procs[q].proot)
    ensures forall a, b :: 0 <= a < b < |list| && list[a] in all && list[b] !in w'.procs ==> list[a] !in w'.procs
    ensures |Among(list, i, all)| <= |all| && (i == |list| ==> Among(list, i, all) == all)
    ensures i == |list| ==> forall q :: q in all ==> q !in w'.procs
  {
    hide WorldInv, NoDup, Among, GivenUp, ElemsOf, Cleaned;
    var gone := Among(list, i, all);
    AmongMeans(list, i, all);
    CleanedMeans(w, w', gone);
    SubsetSize(gone, all);
    Taken(w.procs, w'.procs, gone);
    TakenInOrder(w.procs, w'.procs, list, gone, all);
  }

  lemma Taken(procs: map<Pid, Process>, procs': map<Pid, Process>, gone: set<Pid>)
    requires procs' == procs - gone && gone <= procs.Keys
    ensures procs.Keys - procs'.Keys == gone
    ensures forall q :: q in procs' ==> q in procs && procs'[q] == procs[q]
  {
  }

  lemma TakenInOrder(procs: map<Pid, Process>, procs': map<Pid, Process>, list: seq<Pid>, gone: set<Pid>, all: set<Pid>)
    requires procs' == procs - gone && forall x :: x in list ==> x in procs
    requires forall a, b :: 0 <= a < b < |list| && list[a] in all && list[b] in gone ==> list[a] in gone
    ensures forall a, b :: 0 <= a < b < |list| && list[a] in all && list[b] !in procs' ==> list[a] !in procs'
  {
    forall a, b | 0 <= a < b < |list| && list[a] in all && list[b] !in procs' ensures list[a] !in procs' {
      assert list[b] in gone;
    }
  }

  lemma NoneCleaned(w: World)
    requires WorldInv(w)
    ensures Cleaned(w, w, {})
  {
    hide WorldInv;
    assert w.procs - {} == w.procs;
  }

  lemma CleanedMeans(w: World, w': World, gone: set<Pid>)
    requires Cleaned(w, w', gone)
    ensures WorldInv(w') && w'.procs == w.procs - gone && w'.groot == w.groot
    ensures forall q :: q in w'.procs ==> ElemsOf(w'.gc, w.procs[q].proot) == ElemsOf(w.gc, w.procs[q].proot)
    ensures forall q :: q in w.procs && q in gone ==> GivenUp(w'.gc, w.procs[q].proot)
  {
    hide WorldInv;
  }

  lemma SubsetSize(a: set<Pid>, b: set<Pid>)
    requires a <= b
    ensures |a| <= |b|
  {
    assert b == a + (b - a);
  }

  lemma ListedOnce(list: seq<Pid>, i: nat)
    requires NoDup(list) && i < |list|
    ensures list[i] !in list[..i]
  {
    assert list == list[..i] + list[i..];
    NoDupConcat(list[..i], list[i..]);
    assert list[i] == list[i..][0];
  }
}
