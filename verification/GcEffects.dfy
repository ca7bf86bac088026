/**
  What each mutator step does to the whole state, said of the table as a map and of the queues as sets: which binding
  changes, what is queued for marking and for sweeping, and that nothing else moves.
 */
module GcEffects {
  import opened Queues
  import opened Tables
  import opened GcModel
  import opened GcInvariant
  import opened GcMutators
  import opened GcRuns

  /** Only p changed: it now holds the bindings c, and its version grew by `bumps`. */
  ghost predicate Rewritten(s: State, s': State, p: TableId, c: map<int, Value>, bumps: nat) {
    && p in s.tables && p in s'.tables && s'.tables == s.tables[p := s'.tables[p]]
    && Contents(s'.tables[p].elems) == c && SortedKeys(s'.tables[p].elems)
    && s'.tables[p].mark == s.tables[p].mark && s'.tables[p].version == s.tables[p].version + bumps
  }

  /** The stored table, if it was neither marked nor queued, waits to be marked; it is no longer fresh. */
  ghost predicate Queued(s: State, s': State, v: Value) {
    && s'.markQ == (if v.Ref? && !Safe(s, v.id) then s.markQ + [v.id] else s.markQ)
    && s'.nursery == s.nursery - Stored(v)
  }

  /** Exactly the tables ks moved to the sweep queue. */
  ghost predicate MovedToSweep(s: State, s': State, ks: set<TableId>) {
    && s'.garbageQ == s.garbageQ && SweepDisjoint(s')
    && (forall x :: x in s'.prevQ <==> x in s.prevQ && x !in ks)
    && (forall x :: x in s'.remainedQ <==> x in s.remainedQ && x !in ks)
    && (forall x :: x in s'.sweepQ <==> x in s.sweepQ || x in ks)
  }

  /** The table that a binding refers to. */
  function RefAt(c: map<int, Value>, k: int): set<TableId> {
    if k in c then Stored(c[k]) else {}
  }

  // ----- tables as maps -----

  /** The tables referred to are those that some key is bound to. */
  lemma KidsAreBound(es: seq<Element>, t: TableId)
    requires SortedKeys(es)
    ensures t in Kids(es) <==> exists k :: k in Contents(es) && Contents(es)[k] == Ref(t)
  {
    hide Contents, Kids, SortedKeys;
    KidsMembers(es, t);
    if t in Kids(es) {
      var i :| 0 <= i < |es| && es[i].value == Ref(t);
      DeleteContents(es, i);
    }
    if k :| k in Contents(es) && Contents(es)[k] == Ref(t) { ContentsKids(es, k, t); }
  }

  /** The look-up by rank finds exactly the bindings. */
  lemma BoundAt(es: seq<Element>, k: int)
    requires SortedKeys(es)
    ensures var i := Rank(es, k);
      && (k in Contents(es) <==> i < |es| && es[i].key == k)
      && (k in Contents(es) ==> Contents(es)[k] == es[i].value)
  {
    hide Contents, SortedKeys, HasKey, Rank;
    var i := Rank(es, k);
    RankSplits(es, k);
    ContentsKeys(es);
    if i < |es| && es[i].key == k { DeleteContents(es, i); }
  }

  lemma TableFacts(s: State, p: TableId)
    requires Inv(s) && p in s.tables
    ensures SortedKeys(s.tables[p].elems) && SweepDisjoint(s)
  {
  }

  // ----- adding, setting and removing a key -----

  /** Changing the elements of p, then the queues. */
  lemma Rewrites(s: State, p: TableId, es: seq<Element>, bump: nat, c: map<int, Value>)
    requires p in s.tables && SortedKeys(es) && Contents(es) == c
    ensures var s1 := WithElems(s, p, es, bump);
      && Rewritten(s, s1, p, c, bump) && s1 == s.(tables := s1.tables) && forall x :: Safe(s1, x) <==> Safe(s, x)
  {
    hide Contents, SortedKeys;
  }

  lemma Marks(s: State, v: Value)
    ensures var s' := MarkValue(s, v); Queued(s, s', v) && s' == s.(markQ := s'.markQ, nursery := s'.nursery)
  {
    if !v.Ref? { assert s.nursery - Stored(v) == s.nursery; }
  }

  lemma Sweeps(s: State, v: Value)
    requires SweepDisjoint(s) && (v.Ref? ==> v.id !in s.garbageQ)
    ensures var s' := SweepValue(s, v);
      && MovedToSweep(s, s', Stored(v)) && s' == s.(prevQ := s'.prevQ, sweepQ := s'.sweepQ, remainedQ := s'.remainedQ)
  {
    hide SweepValue, SweepDisjoint;
    SweepOneValue(s, v);
  }

  /** A key that is bound stays so; otherwise it is bound to v, and v is queued for marking. */
  lemma AddEffect(s: State, p: TableId, k: int, v: Value)
    requires Inv(s) && FromRoots(s, p) && CanStore(s, v)
    ensures var (s', r) := AddKeyValue(s, p, k, v); var c := Contents(ElemsOf(s, p));
      if k in c then r == Existed && s' == s
      else
        && r == Ok && Rewritten(s, s', p, c[k := v], 1) && Queued(s, s', v)
        && s' == s.(tables := s'.tables, markQ := s'.markQ, nursery := s'.nursery)
  {
    hide Inv, FromRoots, Contents, SortedKeys, Rank, WithElems, MarkValue, SweepDisjoint, Rewritten, Queued;
    LinkableLive(s, p);
    TableFacts(s, p);
    var es := ElemsOf(s, p);
    BoundAt(es, k);
    if k !in Contents(es) {
      var i := Rank(es, k);
      var es' := es[..i] + [Element(k, v)] + es[i..];
      InsertSorted(es, k, v);
      InsertContents(es, k, v);
      Rewrites(s, p, es', 1, Contents(es)[k := v]);
      Marks(WithElems(s, p, es', 1), v);
      SameMarking(s, WithElems(s, p, es', 1), MarkValue(WithElems(s, p, es', 1), v), p, Contents(es)[k := v], 1, v);
    }
  }

  lemma SameMarking(s: State, s1: State, s': State, p: TableId, c: map<int, Value>, bumps: nat, v: Value)
    requires Rewritten(s, s1, p, c, bumps) && s1.markQ == s.markQ && s1.nursery == s.nursery && s'.tables == s1.tables
    requires (forall x :: Safe(s1, x) <==> Safe(s, x)) && Queued(s1, s', v)
    ensures Rewritten(s, s', p, c, bumps) && Queued(s, s', v)
  {
    hide Contents, SortedKeys, Safe;
  }

  /** The replaced value's table does not count as garbage, whatever the new value. */
  lemma OldValue(s: State, p: TableId, k: int)
    requires Inv(s) && FromRoots(s, p) && p in s.tables && k in Contents(s.tables[p].elems)
    ensures var v := Contents(s.tables[p].elems)[k]; v.Ref? ==> v.id !in s.garbageQ
  {
    hide Inv, FromRoots, Contents, Kids, Unlinked, Kept;
    ReachedKids(s, p);
    var v := Contents(s.tables[p].elems)[k];
    if v.Ref? { ContentsKids(s.tables[p].elems, k, v.id); }
  }

  /** Three changes one after the other: elements, sweep queues, mark queue. */
  lemma Composed(s: State, s1: State, s2: State, s': State, p: TableId, c: map<int, Value>, ks: set<TableId>, v: Value)
    requires Rewritten(s, s1, p, c, 1) && s1 == s.(tables := s1.tables) && (forall x :: Safe(s1, x) <==> Safe(s, x))
    requires MovedToSweep(s1, s2, ks) && s2 == s1.(prevQ := s2.prevQ, sweepQ := s2.sweepQ, remainedQ := s2.remainedQ)
    requires Queued(s2, s', v) && s' == s2.(markQ := s'.markQ, nursery := s'.nursery)
    ensures Rewritten(s, s', p, c, 1) && MovedToSweep(s, s', ks) && Queued(s, s', v)
    ensures s' == s.(tables := s'.tables, markQ := s'.markQ, nursery := s'.nursery, prevQ := s'.prevQ,
      sweepQ := s'.sweepQ,
      remainedQ := s'.remainedQ)
  {
    hide Contents, SortedKeys, NoDup;
    assert forall x :: Safe(s2, x) <==> Safe(s1, x);
  }

  /** The key is bound to v, v is queued for marking, and the table it was bound to before for sweeping. */
  lemma SetEffect(s: State, p: TableId, k: int, v: Value)
    requires Inv(s) && FromRoots(s, p) && CanStore(s, v)
    ensures var (s', r) := SetKeyValue(s, p, k, v); var c := Contents(ElemsOf(s, p));
      && r == Ok && Rewritten(s, s', p, c[k := v], 1) && Queued(s, s', v) && MovedToSweep(s, s', RefAt(c, k))
      && s' == s.(tables := s'.tables, markQ := s'.markQ, nursery := s'.nursery, prevQ := s'.prevQ,
                  sweepQ := s'.sweepQ, remainedQ := s'.remainedQ)
  {
    hide Inv, FromRoots, Contents, SortedKeys, Rank, WithElems, MarkValue, SweepValue, SweepDisjoint, Rewritten,
      Queued, MovedToSweep;
    LinkableLive(s, p);
    TableFacts(s, p);
    var es := ElemsOf(s, p);
    var i, c := Rank(es, k), Contents(es);
    BoundAt(es, k);
    if k in c {
      OldValue(s, p, k);
      ReplaceElement(es, i, v);
      ReplaceContents(es, i, v);
      var s1 := WithElems(s, p, es[i := Element(k, v)], 1);
      Rewrites(s, p, es[i := Element(k, v)], 1, c[k := v]);
      SameSweeps(s, s1);
      Sweeps(s1, es[i].value);
      var s2 := SweepValue(s1, es[i].value);
      Marks(s2, v);
      Composed(s, s1, s2, MarkValue(s2, v), p, c[k := v], RefAt(c, k), v);
    } else {
      AddEffect(s, p, k, v);
      NothingMoves(s, SetKeyValue(s, p, k, v).0);
    }
  }

  lemma SameSweeps(s: State, s1: State)
    requires SweepDisjoint(s) && s1 == s.(tables := s1.tables)
    ensures SweepDisjoint(s1)
  {
    hide NoDup;
  }

  lemma NothingMoves(s: State, s': State)
    requires SweepDisjoint(s) && s'.prevQ == s.prevQ && s'.sweepQ == s.sweepQ && s'.garbageQ == s.garbageQ
      && s'.remainedQ == s.remainedQ
    ensures MovedToSweep(s, s', {})
  {
    hide NoDup;
  }

  /** The binding goes, and the table it named is queued for sweeping. */
  lemma RemoveEffect(s: State, p: TableId, k: int)
    requires Inv(s) && FromRoots(s, p)
    ensures var (s', r) := RemoveKey(s, p, k); var c := Contents(ElemsOf(s, p));
      if k !in c then r == NotFound && s' == s
      else
        && r == Ok && Rewritten(s, s', p, c - {k}, 1) && MovedToSweep(s, s', RefAt(c, k))
        && s' == s.(tables := s'.tables, prevQ := s'.prevQ, sweepQ := s'.sweepQ, remainedQ := s'.remainedQ)
  {
    hide Inv, FromRoots, Contents, SortedKeys, Rank, WithElems, SweepValue, SweepDisjoint, Rewritten, MovedToSweep;
    LinkableLive(s, p);
    TableFacts(s, p);
    var es := ElemsOf(s, p);
    var i, c := Rank(es, k), Contents(es);
    BoundAt(es, k);
    if k in c {
      OldValue(s, p, k);
      DeleteElement(es, i);
      DeleteContents(es, i);
      var s1 := WithElems(s, p, es[..i] + es[i + 1..], 1);
      Rewrites(s, p, es[..i] + es[i + 1..], 1, c - {k});
      SameSweeps(s, s1);
      Sweeps(s1, es[i].value);
      SweepsAfter(s, s1, SweepValue(s1, es[i].value), p, c - {k}, 1, RefAt(c, k));
    }
  }

  lemma SweepsAfter(s: State, s1: State, s': State, p: TableId, c: map<int, Value>, bumps: nat, ks: set<TableId>)
    requires Rewritten(s, s1, p, c, bumps) && s1 == s.(tables := s1.tables) && MovedToSweep(s1, s', ks)
      && s'.tables == s1.tables
    ensures Rewritten(s, s', p, c, bumps) && MovedToSweep(s, s', ks)
  {
    hide Contents, SortedKeys, NoDup;
  }

  /** Every binding goes, and every table that p referred to is queued for sweeping. */
  lemma ClearEffect(s: State, p: TableId, order: seq<TableId>)
    requires Inv(s) && FromRoots(s, p) && multiset(order) == multiset(KidsOf(s, p))
    ensures var s' := RemoveAll(s, p, order);
      && Rewritten(s, s', p, map[], |ElemsOf(s, p)|) && ElemsOf(s', p) == []
        && MovedToSweep(s, s', Members(KidsOf(s, p)))
      && s' == s.(tables := s'.tables, prevQ := s'.prevQ, sweepQ := s'.sweepQ, remainedQ := s'.remainedQ)
  {
    hide Inv, FromRoots, Kids, SortedKeys, NoDup, SweepAll, Unlinked, Kept;
    LinkableLive(s, p);
    TableFacts(s, p);
    ReachedKids(s, p);
    forall t ensures t in order <==> t in KidsOf(s, p) { assert t in order <==> t in multiset(order); }
    assert Members(order) == Members(KidsOf(s, p));
    SweepAllEffect(s, order);
    EmptySorted();
  }

  /** A new table is empty, unknown to the round, and fresh. */
  lemma NewEffect(s: State, t: TableId)
    requires t !in s.tables
    ensures var s' := NewTable(s, t);
      && t in s'.tables && s'.tables == s.tables[t := s'.tables[t]] && s'.tables[t].elems == []
      && s'.tables[t].version == 0 && White(s', t)
      && s' == s.(tables := s'.tables, nursery := s.nursery + {t})
  {
  }

  /** The root array gains t in its place, unless it holds t or is full. */
  lemma AddRootEffect(s: State, t: TableId)
    requires Inv(s)
    ensures var (s', r) := AddRoot(s, t);
      && r == (if t in s.roots then Existed else if |s.roots| >= MAX_ROOTS then OutOfMemory else Ok)
      && (r != Ok ==> s' == s)
      && (r == Ok ==>
            && s' == s.(roots := s'.roots, nursery := s.nursery - {t}) && Ascending(s'.roots)
            && forall x :: x in s'.roots <==> x in s.roots || x == t)
  {
    hide Kept, Kids, SortedKeys, NoDup, Ascending, TriColour, NurseryFresh, NoDangling, Colours, SweepDisjoint;
    if t !in s.roots { RootInserted(s.roots, t); }
  }

  /** The root goes, and if asked for is queued for sweeping. */
  lemma RemoveRootEffect(s: State, t: TableId, free: bool)
    requires Inv(s)
    ensures var (s', r) := RemoveRoot(s, t, free);
      if t !in s.roots then r == NotFound && s' == s
      else
        && r == Ok && (forall x :: x in s'.roots <==> x in s.roots && x != t) && Ascending(s'.roots)
        && MovedToSweep(s, s', if free then {t} else {})
        && s' == s.(roots := s'.roots, prevQ := s'.prevQ, sweepQ := s'.sweepQ, remainedQ := s'.remainedQ)
  {
    hide Inv, Ascending, Without, NoDup, PushToSweep;
    if t in s.roots {
      RootNotGarbage(s, t);
      WithoutMembers(s.roots, t);
      RootsSorted(s);
      RootTaken(s.roots, t);
      var s1 := s.(roots := Without(s.roots, t));
      if free { PushToSweepEffect(s1, t); }
    }
  }

  lemma RootsSorted(s: State)
    requires Inv(s)
    ensures Ascending(s.roots) && SweepDisjoint(s)
  {
  }

  // ----- what is dropped is swept -----

  /** The table whose elements a step changes. */
  predicate Drops(a: Action) {
    a.Set? || a.Remove? || a.Clear?
  }

  /** Whatever a table referred to and no longer refers to after a step is queued for sweeping. */
  lemma DroppedSwept(s: State, a: Action, x: TableId)
    requires Inv(s) && Allowed(s, a) && Drops(a) && x in KidsOf(s, a.p) && x !in KidsOf(Do(s, a), a.p)
    ensures x in Do(s, a).sweepQ
  {
    hide Inv, FromRoots, Contents, Kids, SortedKeys, Rewritten, Queued, SweepDisjoint, Do, CanStore;
    var s' := Do(s, a);
    DroppedFacts(s, a);
    DroppedBound(s, s', a.p, x);
  }

  /** The bindings before and after, and what the step queued for sweeping. */
  lemma DroppedFacts(s: State, a: Action)
    requires Inv(s) && Allowed(s, a) && Drops(a)
    ensures var s' := Do(s, a);
      && a.p in s.tables && a.p in s'.tables && SortedKeys(s.tables[a.p].elems) && SortedKeys(s'.tables[a.p].elems)
      && var c, c' := Contents(s.tables[a.p].elems), Contents(s'.tables[a.p].elems);
         forall k :: k in c && (k !in c' || c'[k] != c[k]) && c[k].Ref? ==> c[k].id in s'.sweepQ
  {
    hide Inv, FromRoots, Contents, Kids, SortedKeys, Queued, SweepDisjoint, SetKeyValue, RemoveKey, RemoveAll;
    LinkableLive(s, a.p);
    TableFacts(s, a.p);
    match a
    case Set(p, k, v) => SetEffect(s, p, k, v);
    case Remove(p, k) => RemoveEffect(s, p, k);
    case Clear(p, order) =>
      ClearEffect(s, p, order);
      var es := s.tables[p].elems;
      forall k | k in Contents(es) && Contents(es)[k].Ref? ensures Contents(es)[k].id in Kids(es) {
        ContentsKids(es, k, Contents(es)[k].id);
      }
  }

  lemma DroppedBound(s: State, s': State, p: TableId, x: TableId)
    requires p in s.tables && p in s'.tables && SortedKeys(s.tables[p].elems) && SortedKeys(s'.tables[p].elems)
    requires var c, c' := Contents(s.tables[p].elems), Contents(s'.tables[p].elems);
      forall k :: k in c && (k !in c' || c'[k] != c[k]) && c[k].Ref? ==> c[k].id in s'.sweepQ
    requires x in KidsOf(s, p) && x !in KidsOf(s', p)
    ensures x in s'.sweepQ
  {
    hide Contents, Kids, SortedKeys;
    var c, c' := Contents(s.tables[p].elems), Contents(s'.tables[p].elems);
    KidsAreBound(s.tables[p].elems, x);
    var k :| k in c && c[k] == Ref(x);
    if k in c' && c'[k] == Ref(x) { ContentsKids(s'.tables[p].elems, k, x); }
  }
}
