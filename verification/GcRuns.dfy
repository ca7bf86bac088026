/** Whole runs: every interleaving of collector slices and mutator steps, with any budgets. */
module GcRuns {
  import opened Queues
  import opened Tables
  import opened GcModel
  import opened GcReach
  import opened GcInvariant
  import opened GcSlice
  import opened GcMutators

  datatype Action =
    | Slice(visit: nat, frees: nat)
    | New(t: TableId)
    | Add(p: TableId, k: int, v: Value)
    | Set(p: TableId, k: int, v: Value)
    | Remove(p: TableId, k: int)
    | Clear(p: TableId, order: seq<TableId>)
    | AddR(t: TableId)
    | RemoveR(t: TableId, free: bool)

  /** What a caller must know of the tables it names; a slice and a root removal need nothing. */
  ghost predicate Allowed(s: State, a: Action) {
    match a
    case Slice(_, _) => true
    case New(t) => t !in s.tables
    case Add(p, _, v) => FromRoots(s, p) && CanStore(s, v)
    case Set(p, _, v) => FromRoots(s, p) && CanStore(s, v)
    case Remove(p, _) => FromRoots(s, p)
    case Clear(p, order) => FromRoots(s, p) && multiset(order) == multiset(KidsOf(s, p))
    case AddR(t) => CanRoot(s, t)
    case RemoveR(_, _) => true
  }

  function Do(s: State, a: Action): State {
    match a
    case Slice(visit, free) => RunSlice(s, visit, free).0
    case New(t) => NewTable(s, t)
    case Add(p, k, v) => AddKeyValue(s, p, k, v).0
    case Set(p, k, v) => SetKeyValue(s, p, k, v).0
    case Remove(p, k) => RemoveKey(s, p, k).0
    case Clear(p, order) => RemoveAll(s, p, order)
    case AddR(t) => AddRoot(s, t).0
    case RemoveR(t, free) => RemoveRoot(s, t, free).0
  }

  ghost predicate Runs(s: State, acts: seq<Action>)
    decreases acts
  {
    acts == [] || (Allowed(s, acts[0]) && Runs(Do(s, acts[0]), acts[1..]))
  }

  function After(s: State, acts: seq<Action>): State
    decreases acts
  {
    if acts == [] then s else After(Do(s, acts[0]), acts[1..])
  }

  lemma InitialInv()
    ensures Inv(Initial)
  {
    forall t | Kept(Initial, t)
      ensures false
    {
      ReachInClosed(Initial.tables, Sources(Initial), (x: TableId) => false, t);
    }
  }

  /** Every allowed step, of the collector or of a mutator, keeps the invariant. */
  lemma StepKeeps(s: State, a: Action)
    requires Inv(s) && Allowed(s, a)
    ensures Inv(Do(s, a))
  {
    hide Inv, FromRoots, CanStore, CanRoot, RunSlice, NewTable, AddKeyValue, SetKeyValue, RemoveKey, RemoveAll,
      AddRoot, RemoveRoot, KidsOf;
    match a
    case Slice(visit, free) => RunSliceKeeps(s, visit, free);
    case New(t) => NewTableKeeps(s, t);
    case Add(p, k, v) => AddKeeps(s, p, k, v);
    case Set(p, k, v) => SetKeeps(s, p, k, v);
    case Remove(p, k) => RemoveKeeps(s, p, k);
    case Clear(p, order) =>
      forall t | t in order ensures t in KidsOf(s, p) { assert t in multiset(order); }
      RemoveAllKeeps(s, p, order);
    case AddR(t) => AddRootKeeps(s, t);
    case RemoveR(t, free) => RemoveRootKeeps(s, t, free);
  }

  lemma {:induction false} RunKeeps(s: State, acts: seq<Action>)
    requires Inv(s) && Runs(s, acts)
    ensures Inv(After(s, acts))
    decreases acts
  {
    hide Inv, Allowed, Do;
    if acts != [] {
      StepKeeps(s, acts[0]);
      RunKeeps(Do(s, acts[0]), acts[1..]);
    }
  }

  /**
    Collector safety over whole runs: in every run, whatever the roots reach is allocated, and so is every fresh table.
   */
  lemma RunSafe(acts: seq<Action>, t: TableId)
    requires Runs(Initial, acts) && CanLink(After(Initial, acts), t)
    ensures t in After(Initial, acts).tables
  {
    hide Inv, After, Runs, CanLink;
    InitialInv();
    RunKeeps(Initial, acts);
    LinkableLive(After(Initial, acts), t);
  }

  /** No step of any run frees a table that the roots reach, and no slice changes one. */
  lemma NothingReachableFreed(acts: seq<Action>, a: Action, t: TableId)
    requires Runs(Initial, acts) && Allowed(After(Initial, acts), a) && CanLink(After(Initial, acts), t)
    ensures var s := After(Initial, acts); var s' := Do(s, a);
      && t in s.tables && t in s'.tables
      && (a.Slice? ==> s'.tables[t].elems == s.tables[t].elems && (FromRoots(s, t) ==> FromRoots(s', t)))
  {
    hide After, Runs, Inv, FromRoots;
    InitialInv();
    RunKeeps(Initial, acts);
    var s := After(Initial, acts);
    LinkableLive(s, t);
    if a.Slice? {
      SlicePreserves(s, a.visit, a.frees, t);
    } else {
      MutatorFreesNothing(s, a, t);
    }
  }

  lemma SlicePreserves(s: State, visit: nat, free: nat, t: TableId)
    requires Inv(s) && CanLink(s, t)
    ensures var s' := RunSlice(s, visit, free).0;
      t in s.tables && t in s'.tables && s'.tables[t].elems == s.tables[t].elems
        && (FromRoots(s, t) ==> FromRoots(s', t))
  {
    hide RunSlice, FromRoots, Kept, SortedKeys, NoDup, Ascending, TriColour, NurseryFresh, Colours, SweepDisjoint;
    var s' := RunSlice(s, visit, free).0;
    RunSliceKeeps(s, visit, free);
    if FromRoots(s, t) { SliceSafe(s, s', t); }
  }

  lemma MutatorFreesNothing(s: State, a: Action, t: TableId)
    requires !a.Slice? && t in s.tables
    ensures t in Do(s, a).tables
  {
    hide Rank, Without;
    if a.Clear? { SweepAllTables(s, a.order); }
  }

  lemma {:induction false} SweepAllTables(s: State, ts: seq<TableId>)
    ensures SweepAll(s, ts).tables == s.tables
    decreases ts
  {
    if ts != [] { SweepAllTables(PushToSweep(s, ts[0]), ts[1..]); }
  }

  /** While garbage is known in a run, everything the roots reach is marked, queued for marking, or a root. */
  lemma RunTriColour(acts: seq<Action>, t: TableId)
    requires Runs(Initial, acts) && After(Initial, acts).garbageQ != [] && FromRoots(After(Initial, acts), t)
    ensures var s := After(Initial, acts);
      && (Safe(s, t) || (t in s.roots && Unlinked(s, t)))
      && (forall k :: k in KidsOf(s, t) ==> Safe(s, k))
  {
    hide After, Runs, FromRoots, Reach, SortedKeys, NoDup, Ascending, Kids;
    InitialInv();
    RunKeeps(Initial, acts);
    var s := After(Initial, acts);
    assert Garbage(s, s.garbageQ[0]);
    RootsReachSafe(s, t);
  }

  /** No slice of any run takes the ST_STATE_INVALID branch. */
  lemma RunNeverInvalid(acts: seq<Action>, visit: nat, free: nat)
    requires Runs(Initial, acts)
    ensures RunSlice(After(Initial, acts), visit, free).1 in {Ok, NoGcData}
  {
    hide After, Runs, Inv, RunSlice;
    InitialInv();
    RunKeeps(Initial, acts);
    RunSliceKeeps(After(Initial, acts), visit, free);
  }

  /**
    No dangling traversal: what can be met from the roots or from the mark, prev-sweep, sweep or remained queues is
    allocated; queued tables are allocated, and a sweep node is in at most one queue.
   */
  lemma RunNoDangling(acts: seq<Action>, t: TableId)
    requires Runs(Initial, acts)
    ensures var s := After(Initial, acts);
      && (Kept(s, t) ==> t in s.tables)
      && (t in s.markQ || InSweep(s, t) ==> t in s.tables)
      && NoDup(s.markQ) && SweepDisjoint(s)
  {
    hide After, Runs;
    InitialInv();
    RunKeeps(Initial, acts);
  }

  // ----- when a table may become a root -----

  /**
    Making a root-reachable table a root keeps the collector's invariant exactly when no round is open or the open
    round has marked or queued the table.
   */
  lemma AddRootExact(s: State, t: TableId)
    requires Inv(s) && FromRoots(s, t) && t !in s.roots && |s.roots| < MAX_ROOTS
    ensures Inv(AddRoot(s, t).0) <==> (s.begin ==> Safe(s, t))
  {
    hide Inv, FromRoots, Safe;
    if s.begin ==> Safe(s, t) {
      AddRootKeeps(s, t);
    } else {
      LateRootBreaks(s, t);
    }
  }

  lemma LateRootBreaks(s: State, t: TableId)
    requires Inv(s) && FromRoots(s, t) && t !in s.roots && |s.roots| < MAX_ROOTS && s.begin && !Safe(s, t)
    ensures !Inv(AddRoot(s, t).0)
  {
    hide Inv, Reach, Kids, Kept, Unlinked, Safe;
    var s' := AddRoot(s, t).0;
    LateRootIn(s, t);
    LateRootLinked(s, s', t);
    if Inv(s') { UnsafeRoot(s', t); }
  }

  lemma LateRootIn(s: State, t: TableId)
    requires Inv(s) && FromRoots(s, t) && t !in s.roots && |s.roots| < MAX_ROOTS
    ensures var s' := AddRoot(s, t).0;
      && s' == s.(roots := s'.roots, nursery := s'.nursery) && forall x :: x in s'.roots <==> x in s.roots || x == t
    ensures !Safe(s, t) ==> !Safe(AddRoot(s, t).0, t)
  {
    hide Reach, SortedKeys, NoDup, Ascending, Kids, NurseryFresh, Colours, SweepDisjoint, TriColour, NoDangling;
    RootInserted(s.roots, t);
  }

  /** The last table on the way to t still refers to it. */
  lemma LateRootLinked(s: State, s': State, t: TableId)
    requires FromRoots(s, t) && t !in s.roots && s'.tables == s.tables && forall x :: x in s.roots ==> x in s'.roots
    ensures !Unlinked(s', t)
  {
    hide Kids, InSweep;
    var p :| Path(s.tables, p) && p[0] in Members(s.roots) && p[|p| - 1] == t;
    var a, q := p[|p| - 2], p[..|p| - 1];
    assert Path(s'.tables, q) && q[|q| - 1] == a && q[0] in Members(s'.roots);
    assert FromRoots(s', a);
    RootsKept(s', a);
    assert Edge(s'.tables, a, t);
  }

  lemma UnsafeRoot(s: State, t: TableId)
    requires Inv(s) && s.begin && t in s.roots && !Safe(s, t)
    ensures Unlinked(s, t)
  {
    hide Reach, SortedKeys, NoDup, Ascending, Kids, NurseryFresh, Colours, SweepDisjoint, NoDangling, Shape;
  }
}
