/**
  The versioned table iterator: it remembers the table's version and the element it will yield next, and
  refuses to go on once the version has moved.
 */
module TableIter {
  import opened Queues
  import opened Tables
  import opened GcModel
  import opened GcInvariant
  import opened GcSlice
  import opened GcRuns

  datatype Side = LeftOf | LeftOrEqual | Equal | RightOrEqual | RightOf

  /** Where to start: at the first element, or beside a key. */
  datatype Start = Leftmost | Beside(key: int, side: Side)

  /** pos is the index of the element to yield next; the number of elements stands for no element. */
  datatype Iter = Iter(pos: nat, version: nat)

  /** The nearest element on the asked side of k, or an equal one where that is allowed; |es| if there is none. */
  function Nearest(es: seq<Element>, k: int, side: Side): (i: nat)
    ensures i <= |es|
  {
    var r := Rank(es, k);
    var hit := r < |es| && es[r].key == k;
    match side
    case Equal => if hit then r else |es|
    case RightOrEqual => r
    case RightOf => if hit then r + 1 else r
    case LeftOrEqual => if hit then r else if r > 0 then r - 1 else |es|
    case LeftOf => if r > 0 then r - 1 else |es|
  }

  /** k' lies on the asked side of k. */
  predicate OnSide(k': int, k: int, side: Side) {
    match side
    case Equal => k' == k
    case RightOrEqual => k' >= k
    case RightOf => k' > k
    case LeftOrEqual => k' <= k
    case LeftOf => k' < k
  }

  /** Nearest finds an element on the asked side if there is one, and none on that side is closer. */
  lemma NearestIsNearest(es: seq<Element>, k: int, side: Side)
    requires SortedKeys(es)
    ensures var i := Nearest(es, k, side);
      if i == |es| then forall j :: 0 <= j < |es| ==> !OnSide(es[j].key, k, side)
      else
        && OnSide(es[i].key, k, side)
        && forall j :: 0 <= j < |es| && OnSide(es[j].key, k, side) ==>
             if side in {LeftOf, LeftOrEqual} then es[j].key <= es[i].key else es[i].key <= es[j].key
  {
    RankSplits(es, k);
    hide Rank, HasKey;
  }

  function Init(t: Table, start: Start): Iter {
    match start
    case Leftmost => Iter(0, t.version)
    case Beside(k, side) => Iter(Nearest(t.elems, k, side), t.version)
  }

  datatype Yield = Yield(ret: Ret, elems: seq<Element>)

  /** One step: at most one element, and the moved iterator. */
  function Next(t: Table, it: Iter): (Iter, Yield) {
    if it.version != t.version then (it, Yield(TableModified, []))
    else if it.pos >= |t.elems| then (it, Yield(IterFinish, []))
    else (it.(pos := it.pos + 1), Yield(Ok, [t.elems[it.pos]]))
  }

  // ----- versions over runs -----

  /** t moved from old to now by steps that count: its version never falls, and stays only if the elements stay. */
  predicate Counted(old_: Table, now: Table) {
    now.version >= old_.version && (now.version == old_.version ==> now.elems == old_.elems)
  }

  lemma WithElemsCounts(s: State, p: TableId, es: seq<Element>, bump: nat, s': State, t: TableId)
    requires s'.tables == WithElems(s, p, es, bump).tables && t in s.tables && (bump == 0 ==> es == ElemsOf(s, p))
    ensures t in s'.tables && Counted(s.tables[t], s'.tables[t])
  {
  }

  lemma AddCounts(s: State, p: TableId, k: int, v: Value, t: TableId)
    requires t in s.tables
    ensures var s' := AddKeyValue(s, p, k, v).0; t in s'.tables && Counted(s.tables[t], s'.tables[t])
  {
    hide Rank;
    var es := ElemsOf(s, p);
    var i := Rank(es, k);
    if !(i < |es| && es[i].key == k) {
      WithElemsCounts(s, p, es[..i] + [Element(k, v)] + es[i..], 1, AddKeyValue(s, p, k, v).0, t);
    }
  }

  lemma SetCounts(s: State, p: TableId, k: int, v: Value, t: TableId)
    requires t in s.tables
    ensures var s' := SetKeyValue(s, p, k, v).0; t in s'.tables && Counted(s.tables[t], s'.tables[t])
  {
    hide Rank, Without;
    var es := ElemsOf(s, p);
    var i := Rank(es, k);
    if i < |es| && es[i].key == k {
      WithElemsCounts(s, p, es[i := Element(k, v)], 1, SetKeyValue(s, p, k, v).0, t);
    } else {
      WithElemsCounts(s, p, es[..i] + [Element(k, v)] + es[i..], 1, SetKeyValue(s, p, k, v).0, t);
    }
  }

  lemma RemoveCounts(s: State, p: TableId, k: int, t: TableId)
    requires t in s.tables
    ensures var s' := RemoveKey(s, p, k).0; t in s'.tables && Counted(s.tables[t], s'.tables[t])
  {
    hide Rank, Without;
    var es := ElemsOf(s, p);
    var i := Rank(es, k);
    if i < |es| && es[i].key == k {
      WithElemsCounts(s, p, es[..i] + es[i + 1..], 1, RemoveKey(s, p, k).0, t);
    }
  }

  /** Every step counts its changes to every table that survives it. */
  lemma StepCounts(s: State, a: Action, t: TableId)
    requires Inv(s) && Allowed(s, a) && t in s.tables && t in Do(s, a).tables
    ensures Counted(s.tables[t], Do(s, a).tables[t])
  {
    hide Inv, FromRoots, RunSlice, AddKeyValue, SetKeyValue, RemoveKey, Without, Counted, KidsOf;
    match a
    case Slice(visit, free) => SliceCounts(s, visit, free, t);
    case New(_) => SameCounts(s.tables[t]);
    case Add(p, k, v) => AddCounts(s, p, k, v, t);
    case Set(p, k, v) => SetCounts(s, p, k, v, t);
    case Remove(p, k) => RemoveCounts(s, p, k, t);
    case Clear(p, order) =>
      SweepAllTables(s, order);
      WithElemsCounts(s, p, [], |ElemsOf(s, p)|, RemoveAll(s, p, order), t);
    case AddR(_) => SameCounts(s.tables[t]);
    case RemoveR(_, _) => SameCounts(s.tables[t]);
  }

  lemma SameCounts(t: Table)
    ensures Counted(t, t)
  {
  }

  lemma SliceCounts(s: State, visit: nat, free: nat, t: TableId)
    requires Inv(s) && t in RunSlice(s, visit, free).0.tables
    ensures t in s.tables && Counted(s.tables[t], RunSlice(s, visit, free).0.tables[t])
  {
    hide Inv, RunSlice;
    RunSliceKeeps(s, visit, free);
  }

  /** t is allocated in s and after each step of acts. */
  ghost predicate Survives(s: State, acts: seq<Action>, t: TableId)
    decreases acts
  {
    t in s.tables && (acts == [] || Survives(Do(s, acts[0]), acts[1..], t))
  }

  /** Over any run that t survives, its version tells whether its elements changed. */
  lemma {:induction false} RunCounts(s: State, acts: seq<Action>, t: TableId)
    requires Inv(s) && Runs(s, acts) && Survives(s, acts, t)
    ensures t in After(s, acts).tables && Counted(s.tables[t], After(s, acts).tables[t])
    decreases acts
  {
    hide Inv, Allowed, Do;
    if acts != [] {
      StepKeeps(s, acts[0]);
      StepCounts(s, acts[0], t);
      RunCounts(Do(s, acts[0]), acts[1..], t);
    }
  }

  /**
    An iterator made before a run: afterwards it either reports ST_TABLE_MODIFIED, or the elements are those it was
    made on and it yields exactly the one it had reached; any change of the elements makes it report.
   */
  lemma StaleIterator(s: State, acts: seq<Action>, t: TableId, it: Iter)
    requires Inv(s) && Runs(s, acts) && Survives(s, acts, t) && it.version == s.tables[t].version
    ensures t in After(s, acts).tables
    ensures var t0, t1 := s.tables[t], After(s, acts).tables[t];
      && (t1.elems != t0.elems ==> Next(t1, it).1.ret == TableModified)
      && (Next(t1, it).1.ret != TableModified ==> t1.elems == t0.elems && Next(t1, it) == Next(t0, it))
  {
    hide Inv, Runs, After, Survives;
    RunCounts(s, acts, t);
  }
}
