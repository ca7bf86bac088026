/** Every mutator step keeps the invariant, provided it acts on tables the caller can really reach. */
module GcMutators {
  import opened Queues
  import opened Tables
  import opened GcModel
  import opened GcReach
  import opened GcInvariant
  import opened GcSteps
  import opened GcSlice

  /** A caller may put t into a table: it got t by following references from a root, or has just allocated it. */
  ghost predicate CanLink(s: State, t: TableId) {
    FromRoots(s, t) || t in s.nursery
  }

  ghost predicate CanStore(s: State, v: Value) {
    v.Ref? ==> CanLink(s, v.id)
  }

  /**
    A caller may make t a root: it has just allocated it; or it reaches t from a root and either no round is
    open or this round has already marked or queued t.
   */
  ghost predicate CanRoot(s: State, t: TableId) {
    t in s.nursery || (FromRoots(s, t) && (s.begin ==> Safe(s, t)))
  }

  // ----- what a root-reachable table looks like -----

  /** A fresh table is reached from no root. */
  lemma NurseryNotReached(s: State, t: TableId)
    requires Inv(s) && FromRoots(s, t)
    ensures t !in s.nursery
  {
    hide Kids, SortedKeys, NoDup, Ascending;
    var p :| Path(s.tables, p) && p[0] in Members(s.roots) && p[|p| - 1] == t;
    if |p| > 1 {
      var a, q := p[|p| - 2], p[..|p| - 1];
      assert Path(s.tables, q) && q[|q| - 1] == a;
      assert FromRoots(s, a);
      RootsKept(s, a);
      assert Edge(s.tables, a, t);
      assert !Unlinked(s, t);
    }
  }

  lemma LinkableKept(s: State, t: TableId)
    requires CanLink(s, t)
    ensures Kept(s, t)
  {
    if FromRoots(s, t) { RootsKept(s, t); } else { SourcesKept(s); }
  }

  /** Nothing that hangs off a root-reachable table is garbage. */
  lemma ReachedKids(s: State, p: TableId)
    requires Inv(s) && FromRoots(s, p)
    ensures p in s.tables
    ensures forall k :: k in KidsOf(s, p) ==> k in s.tables && k !in s.garbageQ && !Unlinked(s, k) && Kept(s, k)
  {
    hide Reach, Kids, SortedKeys, NoDup, Ascending;
    RootsKept(s, p);
    KidsKept(s, p);
    if s.garbageQ != [] {
      assert Garbage(s, s.garbageQ[0]) && s.begin;
      RootsReachSafe(s, p);
    }
    forall k | k in KidsOf(s, p)
      ensures !Unlinked(s, k)
    {
      assert Edge(s.tables, p, k);
    }
  }

  /** Once garbage has been found, what a caller can link has no unknown, unqueued kids. */
  lemma LinkableKidsSafe(s: State, t: TableId)
    requires Inv(s) && s.garbageQ != [] && CanLink(s, t)
    ensures KidsSafe(s, t)
  {
    hide Reach, Kids, SortedKeys, NoDup, Ascending;
    assert Garbage(s, s.garbageQ[0]) && s.begin;
    if FromRoots(s, t) { RootsReachSafe(s, t); }
  }

  // ----- pushing to the sweep queue -----

  /** The tables in ks moved to the sweep queue; every other table kept its place. */
  ghost predicate SweepPushed(s: State, s': State, ks: set<TableId>) {
    && s' == s.(prevQ := s'.prevQ, sweepQ := s'.sweepQ, remainedQ := s'.remainedQ)
    && SweepDisjoint(s')
    && (forall x :: x in s'.prevQ <==> x in s.prevQ && x !in ks)
    && (forall x :: x in s'.remainedQ <==> x in s.remainedQ && x !in ks)
    && (forall x :: x in s'.sweepQ <==> x in s.sweepQ || x in ks)
  }

  lemma PushToSweepEffect(s: State, t: TableId)
    requires SweepDisjoint(s) && t !in s.garbageQ
    ensures SweepPushed(s, PushToSweep(s, t), {t})
  {
    hide NoDup, Ascending, Without;
    WithoutMembers(s.prevQ, t);
    WithoutMembers(s.sweepQ, t);
    WithoutMembers(s.remainedQ, t);
    WithoutAbsent(s.garbageQ, t);
    WithoutNoDup(s.prevQ, t);
    WithoutNoDup(s.sweepQ, t);
    WithoutNoDup(s.remainedQ, t);
    NoDupSingle(t);
    NoDupConcat(Without(s.sweepQ, t), [t]);
  }

  lemma {:induction false} SweepAllEffect(s: State, ts: seq<TableId>)
    requires SweepDisjoint(s) && forall t :: t in ts ==> t !in s.garbageQ
    ensures SweepPushed(s, SweepAll(s, ts), Members(ts))
    decreases ts
  {
    hide NoDup, Ascending, PushToSweep;
    if ts != [] {
      var s1 := PushToSweep(s, ts[0]);
      PushToSweepEffect(s, ts[0]);
      SweepAllEffect(s1, ts[1..]);
      assert Members(ts) == {ts[0]} + Members(ts[1..]);
    }
  }

  // ----- the common shape of the table operations -----

  /**
    p's elements changed so that it refers to no table beyond its old ones and `added`; what it
    dropped may have moved to the sweep queue, and each added table is marked or queued for marking.
   */
  ghost predicate Mutation(s: State, s': State, p: TableId, added: set<TableId>) {
    && s' == s.(tables := s'.tables, markQ := s'.markQ, prevQ := s'.prevQ, sweepQ := s'.sweepQ,
                remainedQ := s'.remainedQ, nursery := s'.nursery)
    && p in s.tables && p in s'.tables
    && s'.tables == s.tables[p := s'.tables[p]] && s'.tables[p].mark == s.tables[p].mark
    && SortedKeys(s'.tables[p].elems)
    && (forall k :: k in KidsOf(s', p) ==> k in KidsOf(s, p) || k in added)
    && s'.nursery == s.nursery - added
    && NoDup(s'.markQ)
    && (forall x :: x in s'.markQ ==> x in s.markQ || (x in added && White(s, x)))
    && (forall x :: x in s.markQ ==> x in s'.markQ)
    && (forall x :: x in added ==> Safe(s', x))
    && SweepDisjoint(s')
    && (forall x :: x in s'.prevQ ==> x in s.prevQ)
    && (forall x :: x in s'.remainedQ ==> x in s.remainedQ)
    && (forall x :: x in s'.sweepQ ==> x in s.sweepQ || x in KidsOf(s, p))
  }

  lemma MutationKept(s: State, s': State, p: TableId, added: set<TableId>)
    requires Inv(s) && FromRoots(s, p) && Mutation(s, s', p, added) && forall t :: t in added ==> CanLink(s, t)
    ensures forall x :: Kept(s', x) ==> Kept(s, x)
  {
    hide Reach, Kids, SortedKeys, NoDup, Ascending, Unlinked, TriColour, NurseryFresh, Colours, SweepDisjoint;
    ReachedKids(s, p);
    SourcesKept(s);
    forall t | t in added ensures Kept(s, t) { LinkableKept(s, t); }
    forall x | Kept(s', x)
      ensures Kept(s, x)
    {
      forall a, b | Kept(s, a) && Edge(s'.tables, a, b)
        ensures Kept(s, b)
      {
        if a == p { assert b in KidsOf(s', p); } else { ReachStep(s.tables, Sources(s), a, b); }
      }
      ReachShrinks(s.tables, Sources(s), s'.tables, Sources(s'), x);
    }
  }

  lemma MutationUnlinked(s: State, s': State, p: TableId, added: set<TableId>)
    requires Inv(s) && FromRoots(s, p) && Mutation(s, s', p, added) && forall t :: t in added ==> CanLink(s, t)
    ensures forall x :: Unlinked(s, x) && x !in added ==> Unlinked(s', x) && x !in KidsOf(s, p)
  {
    hide Reach, Kids, SortedKeys, NoDup, Ascending, TriColour, NurseryFresh, Colours, SweepDisjoint;
    MutationKept(s, s', p, added);
    ReachedKids(s, p);
    forall x | Unlinked(s, x) && x !in added
      ensures Unlinked(s', x) && x !in KidsOf(s, p)
    {
      forall a | Kept(s', a)
        ensures !Edge(s'.tables, a, x)
      {
        assert !Edge(s.tables, a, x);
        if a == p { assert x !in KidsOf(s', p); }
      }
    }
  }

  lemma MutationShape(s: State, s': State, p: TableId, added: set<TableId>)
    requires Inv(s) && FromRoots(s, p) && Mutation(s, s', p, added) && forall t :: t in added ==> CanLink(s, t)
    ensures Shape(s') && Colours(s')
  {
    hide Reach, Kids, SortedKeys, NoDup, Ascending, TriColour, NurseryFresh, Unlinked;
    ReachedKids(s, p);
    assert s'.remainedQ != [] ==> s'.remainedQ[0] in s.remainedQ;
    assert forall x :: Garbage(s', x) <==> Garbage(s, x);
    assert forall x :: Black(s', x) <==> Black(s, x);
  }

  lemma MutationTriColour(s: State, s': State, p: TableId, added: set<TableId>)
    requires Inv(s) && s.begin && FromRoots(s, p) && Mutation(s, s', p, added) && forall t :: t in added ==>
      CanLink(s, t)
    ensures TriColour(s')
  {
    hide Reach, Kids, SortedKeys, NoDup, Ascending, NurseryFresh, SweepDisjoint, Unlinked, Kept;
    MutationUnlinked(s, s', p, added);
    assert forall x :: Black(s', x) <==> Black(s, x);
    assert forall x :: Safe(s, x) ==> Safe(s', x);
    forall x | KidsSafe(s, x)
      ensures KidsSafe(s', x)
    {
      forall k | k in KidsOf(s', x)
        ensures Safe(s', k)
      {
        if x != p { assert KidsOf(s', x) == KidsOf(s, x); }
      }
    }
    if s'.garbageQ != [] {
      forall t | t in added ensures KidsSafe(s, t) { LinkableKidsSafe(s, t); }
    }
  }

  lemma MutationKeeps(s: State, s': State, p: TableId, added: set<TableId>)
    requires Inv(s) && FromRoots(s, p) && Mutation(s, s', p, added) && forall t :: t in added ==> CanLink(s, t)
    ensures Inv(s')
  {
    hide Reach, Kids, SortedKeys, NoDup, Ascending, Unlinked, TriColour, Colours, SweepDisjoint, Shape;
    MutationKept(s, s', p, added);
    MutationUnlinked(s, s', p, added);
    MutationShape(s, s', p, added);
    if s.begin { MutationTriColour(s, s', p, added); }
    NurseryNotReached(s, p);
    forall x | x in s'.nursery
      ensures KidsOf(s', x) == []
    {
      assert KidsOf(s', x) == KidsOf(s, x);
    }
  }

  // ----- the table operations -----

  function Stored(v: Value): set<TableId> { if v.Ref? then {v.id} else {} }

  /** Changing p's elements, sweeping what was dropped and marking what was stored make a Mutation. */
  lemma UpdateMutates(s: State, p: TableId, es: seq<Element>, bump: nat, dropped: set<TableId>, s1: State, v: Value)
    requires p in s.tables && NoDup(s.markQ) && SortedKeys(es)
    requires forall k :: k in Kids(es) ==> k in KidsOf(s, p) || v == Ref(k)
    requires forall k :: k in dropped ==> k in KidsOf(s, p)
    requires SweepPushed(WithElems(s, p, es, bump), s1, dropped)
    requires v.Ref? ==> White(s, v.id) || Black(s, v.id)
    ensures Mutation(s, MarkValue(s1, v), p, Stored(v))
  {
    hide Kids, SortedKeys, NoDup, Ascending;
    if v.Ref? {
      NoDupConcat(s1.markQ, [v.id]);
      NoDupSingle(v.id);
    }
  }

  lemma UpdateKeeps(s: State, p: TableId, es: seq<Element>, bump: nat, dropped: set<TableId>, s1: State, v: Value)
    requires Inv(s) && FromRoots(s, p) && CanStore(s, v) && SortedKeys(es)
    requires forall k :: k in Kids(es) ==> k in KidsOf(s, p) || v == Ref(k)
    requires forall k :: k in dropped ==> k in KidsOf(s, p)
    requires SweepPushed(WithElems(s, p, es, bump), s1, dropped)
    ensures Inv(MarkValue(s1, v))
  {
    hide Kids, SortedKeys, NoDup, Ascending, Unlinked, TriColour, NurseryFresh, FromRoots, NoDangling, SweepPushed;
    ReachedKids(s, p);
    var s' := MarkValue(s1, v);
    if v.Ref? { LinkableLive(s, v.id); }
    UpdateMutates(s, p, es, bump, dropped, s1, v);
    hide Mutation, Inv, MarkValue;
    MutationKeeps(s, s', p, Stored(v));
  }

  lemma LinkableLive(s: State, t: TableId)
    requires Inv(s) && CanLink(s, t)
    ensures t in s.tables && !Garbage(s, t)
  {
    hide Reach, Kids, SortedKeys, NoDup, Ascending;
    LinkableKept(s, t);
    if Garbage(s, t) {
      assert t in s.garbageQ && s.begin;
      if FromRoots(s, t) {
        RootsReachSafe(s, t);
      }
    }
  }

  lemma NothingSwept(s: State)
    requires SweepDisjoint(s)
    ensures SweepPushed(s, s, {})
  {
  }

  lemma AddKeeps(s: State, p: TableId, k: int, v: Value)
    requires Inv(s) && FromRoots(s, p) && CanStore(s, v)
    ensures Inv(AddKeyValue(s, p, k, v).0)
  {
    hide Reach, Kids, SortedKeys, NoDup, Ascending, Unlinked, TriColour, NurseryFresh, FromRoots, Colours;
    var es := ElemsOf(s, p);
    var i := Rank(es, k);
    ReachedKids(s, p);
    if !(i < |es| && es[i].key == k) {
      var es' := es[..i] + [Element(k, v)] + es[i..];
      InsertElement(es, k, v);
      var s1 := WithElems(s, p, es', 1);
      NothingSwept(s1);
      UpdateKeeps(s, p, es', 1, {}, s1, v);
    }
  }

  lemma SweepOneValue(s: State, v: Value)
    requires SweepDisjoint(s) && (v.Ref? ==> v.id !in s.garbageQ)
    ensures SweepPushed(s, SweepValue(s, v), Stored(v))
  {
    if v.Ref? { PushToSweepEffect(s, v.id); } else { NothingSwept(s); }
  }

  lemma SetKeeps(s: State, p: TableId, k: int, v: Value)
    requires Inv(s) && FromRoots(s, p) && CanStore(s, v)
    ensures Inv(SetKeyValue(s, p, k, v).0)
  {
    hide Reach, Kids, SortedKeys, NoDup, Ascending, Unlinked, TriColour, NurseryFresh, FromRoots, Colours;
    var es := ElemsOf(s, p);
    var i := Rank(es, k);
    ReachedKids(s, p);
    if i < |es| && es[i].key == k {
      var es' := es[i := Element(k, v)];
      ReplaceElement(es, i, v);
      var s0 := WithElems(s, p, es', 1);
      SweepOneValue(s0, es[i].value);
      UpdateKeeps(s, p, es', 1, Stored(es[i].value), SweepValue(s0, es[i].value), v);
    } else {
      AddKeeps(s, p, k, v);
    }
  }

  lemma RemoveKeeps(s: State, p: TableId, k: int)
    requires Inv(s) && FromRoots(s, p)
    ensures Inv(RemoveKey(s, p, k).0)
  {
    hide Reach, Kids, SortedKeys, NoDup, Ascending, Unlinked, TriColour, NurseryFresh, FromRoots, Colours;
    hide Rank, Without, NoDangling;
    var es := ElemsOf(s, p);
    var i := Rank(es, k);
    ReachedKids(s, p);
    if i < |es| && es[i].key == k {
      var es' := es[..i] + es[i + 1..];
      DeleteElement(es, i);
      var s0 := WithElems(s, p, es', 1);
      SweepOneValue(s0, es[i].value);
      UpdateKeeps(s, p, es', 1, Stored(es[i].value), SweepValue(s0, es[i].value), Scalar(0));
    }
  }

  lemma RemoveAllKeeps(s: State, p: TableId, order: seq<TableId>)
    requires Inv(s) && FromRoots(s, p) && forall t :: t in order ==> t in KidsOf(s, p)
    ensures Inv(RemoveAll(s, p, order))
  {
    hide Reach, SortedKeys, NoDup, Ascending, Unlinked, TriColour, NurseryFresh, FromRoots, Colours;
    ReachedKids(s, p);
    SweepAllEffect(s, order);
    var s1 := RemoveAll(s, p, order);
    assert SweepPushed(WithElems(s, p, [], |ElemsOf(s, p)|), s1, Members(order));
    EmptySorted();
    UpdateKeeps(s, p, [], |ElemsOf(s, p)|, Members(order), s1, Scalar(0));
  }

  lemma EmptySorted()
    ensures SortedKeys([])
  {
  }

  // ----- the queue operations by themselves -----

  /** Queueing a reachable table for marking keeps the invariant. */
  lemma PushToMarkKeeps(s: State, t: TableId)
    requires Inv(s) && FromRoots(s, t)
    ensures Inv(PushToMark(s, t)) && Safe(PushToMark(s, t), t)
  {
    hide Reach, Kids, SortedKeys, NoDup, Ascending, TriColour, NurseryFresh, NoDangling;
    var s' := PushToMark(s, t);
    if s' != s {
      NurseryNotReached(s, t);
      LinkableLive(s, t);
      NoDupSingle(t);
      NoDupConcat(s.markQ, [t]);
      assert s.nursery - {t} == s.nursery;
      assert Mutation(s, s', t, {t});
      MutationKeeps(s, s', t, {t});
    }
  }

  /** Queueing what a reachable table refers to for sweeping keeps the invariant. */
  lemma PushToSweepKeeps(s: State, p: TableId, t: TableId)
    requires Inv(s) && FromRoots(s, p) && t in KidsOf(s, p)
    ensures Inv(PushToSweep(s, t))
  {
    hide Reach, Kids, SortedKeys, NoDup, Ascending, TriColour, NurseryFresh, NoDangling, PushToSweep;
    ReachedKids(s, p);
    PushToSweepEffect(s, t);
    var s' := PushToSweep(s, t);
    assert Mutation(s, s', p, {});
    MutationKeeps(s, s', p, {});
  }

  // ----- allocation and roots -----

  lemma NewTableKeeps(s: State, t: TableId)
    requires Inv(s) && t !in s.tables
    ensures Inv(NewTable(s, t))
  {
    hide Reach, SortedKeys, NoDup, Ascending, Kids, Unlinked, Shape, Colours, SweepDisjoint, NurseryFresh, TriColour;
    NewTableKept(s, t);
    NewTableShape(s, t);
    if s.begin { NewTableTriColour(s, t); }
    NewTableNursery(s, t);
  }

  /** What a new table leaves as it was. */
  lemma NewTableFrame(s: State, t: TableId)
    requires t !in s.tables
    ensures var s' := NewTable(s, t);
      && (forall x :: Black(s', x) <==> Black(s, x)) && (forall x :: Garbage(s', x) <==> Garbage(s, x))
      && (forall x :: x != t ==> (White(s', x) <==> White(s, x)))
      && (forall x :: KidsOf(s', x) == KidsOf(s, x)) && KidsOf(s', t) == []
  {
    hide Kids;
    EmptyKids();
  }

  lemma NewTableShape(s: State, t: TableId)
    requires Shape(s) && Colours(s) && t !in s.tables
    ensures Shape(NewTable(s, t)) && Colours(NewTable(s, t))
  {
    hide SortedKeys, NoDup, Ascending, Kids, SweepDisjoint;
    EmptySorted();
    SameSweep(s, NewTable(s, t));
  }

  lemma NewTableTriColour(s: State, t: TableId)
    requires Shape(s) && TriColour(s) && NoDangling(s) && t !in s.tables
    ensures TriColour(NewTable(s, t))
  {
    hide Reach, Kids, Unlinked, Shape, KidsOf, Black;
    NewTableFrame(s, t);
    NewTableUnlinked(s, t);
  }

  lemma NewTableNursery(s: State, t: TableId)
    requires Shape(s) && NurseryFresh(s) && NoDangling(s) && t !in s.tables
    ensures NurseryFresh(NewTable(s, t))
  {
    hide Reach, Kids, Unlinked, KidsOf, SortedKeys, NoDup, Ascending, SweepDisjoint;
    NewTableFrame(s, t);
    NewTableUnlinked(s, t);
  }

  lemma NewTableUnlinked(s: State, t: TableId)
    requires NoDangling(s) && t !in s.tables && Shape(s)
    ensures forall x :: Unlinked(s, x) || x == t ==> Unlinked(NewTable(s, t), x)
  {
    hide Reach, SortedKeys, NoDup, Ascending, Kids, SweepDisjoint;
    NewTableKept(s, t);
    var s' := NewTable(s, t);
    EmptyKids();
    assert forall a, x :: Edge(s'.tables, a, x) ==> Edge(s.tables, a, x);
  }

  lemma NewTableKept(s: State, t: TableId)
    requires NoDangling(s) && t !in s.tables
    ensures forall x :: Kept(NewTable(s, t), x) ==> Kept(s, x) || x == t
    ensures forall x :: Kept(NewTable(s, t), x) ==> !Edge(NewTable(s, t).tables, x, t)
  {
    hide Reach;
    var s' := NewTable(s, t);
    SourcesKept(s);
    var inside := (x: TableId) => Kept(s, x) || x == t;
    forall a, b | inside(a) && Edge(s'.tables, a, b)
      ensures inside(b)
    {
      assert a != t && Edge(s.tables, a, b);
      ReachStep(s.tables, Sources(s), a, b);
    }
    forall x | Kept(s', x)
      ensures inside(x) && !Edge(s'.tables, x, t)
    {
      ReachInClosed(s'.tables, Sources(s'), inside, x);
      if Edge(s'.tables, x, t) { ReachStep(s.tables, Sources(s), x, t); }
    }
  }

  lemma AddRootKeeps(s: State, t: TableId)
    requires Inv(s) && CanRoot(s, t)
    ensures Inv(AddRoot(s, t).0)
  {
    hide Reach, SortedKeys, NoDup, Kids, Ascending;
    var s' := AddRoot(s, t).0;
    LinkableLive(s, t);
    if s' != s {
      RootInserted(s.roots, t);
      RootAdded(s, s', t);
    }
  }

  lemma RootAdded(s: State, s': State, t: TableId)
    requires Inv(s) && CanRoot(s, t) && t in s.tables
    requires s' == s.(roots := s'.roots, nursery := s.nursery - {t})
    requires Ascending(s'.roots) && forall x :: x in s'.roots <==> x in s.roots || x == t
    ensures Inv(s')
  {
    hide Reach, SortedKeys, NoDup, Ascending, Kids, Shape, Colours, SweepDisjoint, TriColour, Unlinked;
    SourcesKept(s);
    LinkableKept(s, t);
    KeptShrinks(s, s');
    UnlinkedAll(s, s');
    RootAddedShape(s, s', t);
    hide Kept, FromRoots;
    if s.begin { RootAddedTriColour(s, s', t); }
    RootAddedNursery(s, s', t);
  }

  lemma RootAddedTriColour(s: State, s': State, t: TableId)
    requires TriColour(s) && NurseryFresh(s) && s.begin && (t in s.nursery || Safe(s, t))
    requires s' == s.(roots := s'.roots, nursery := s.nursery - {t}) && forall x :: x in s'.roots <==>
      x in s.roots || x == t
    requires forall x :: Unlinked(s, x) && x !in s'.markQ && !InSweep(s', x) ==> Unlinked(s', x)
    ensures TriColour(s')
  {
    hide Kids, Unlinked;
    UnlinkedFree(s);
    KidsSafeStays(s, s');
    assert t in s.nursery ==> KidsSafe(s, t);
  }

  /** An unlinked table is in no queue. */
  lemma UnlinkedFree(s: State)
    ensures forall x :: Unlinked(s, x) ==> x !in s.markQ && !InSweep(s, x)
  {
  }

  lemma RootAddedNursery(s: State, s': State, t: TableId)
    requires NurseryFresh(s)
    requires s' == s.(roots := s'.roots, nursery := s.nursery - {t}) && forall x :: x in s'.roots <==>
      x in s.roots || x == t
    requires forall x :: Unlinked(s, x) && x !in s'.markQ && !InSweep(s', x) ==> Unlinked(s', x)
    ensures NurseryFresh(s')
  {
    hide Kids, Unlinked;
    UnlinkedFree(s);
  }

  lemma RootAddedShape(s: State, s': State, t: TableId)
    requires Shape(s) && Colours(s) && t in s.tables
    requires s' == s.(roots := s'.roots, nursery := s.nursery - {t})
    requires Ascending(s'.roots) && forall x :: x in s'.roots <==> x in s.roots || x == t
    ensures Shape(s') && Colours(s')
  {
    hide SortedKeys, NoDup, Ascending, Kids;
  }

  /** Inserting at the rank keeps the root array in order. */
  lemma {:induction false} RootInserted(q: seq<TableId>, t: TableId)
    requires t !in q && Ascending(q)
    ensures var i := RootRank(q, t); var q' := q[..i] + [t] + q[i..];
      Ascending(q') && forall x :: x in q' <==> x in q || x == t
  {
    if q == [] {
      AscendingOne(t);
    } else if q[0] < t {
      var i := RootRank(q[1..], t);
      RootInserted(q[1..], t);
      assert q[..i + 1] + [t] + q[i + 1..] == [q[0]] + (q[1..][..i] + [t] + q[1..][i..]);
      AscendingFirst(q[0], q[1..][..i] + [t] + q[1..][i..]);
      assert forall x :: x in q <==> x == q[0] || x in q[1..];
    } else {
      assert q[..0] + [t] + q[0..] == [t] + q;
      assert forall x :: x in q ==> x == q[0] || x in q[1..];
      AscendingFirst(t, q);
    }
  }

  lemma AscendingOne(t: TableId)
    ensures Ascending([t]) && [][..0] + [t] + [][0..] == [t]
  {
  }

  lemma AscendingFirst(x: TableId, q: seq<TableId>)
    requires Ascending(q) && forall y :: y in q ==> x < y
    ensures Ascending([x] + q) && forall y :: y in [x] + q <==> y == x || y in q
  {
    assert ([x] + q)[1..] == q;
  }

  lemma {:induction false} RootTaken(q: seq<TableId>, t: TableId)
    requires Ascending(q)
    ensures Ascending(Without(q, t))
  {
    if q != [] {
      RootTaken(q[1..], t);
      if q[0] != t {
        WithoutMembers(q[1..], t);
        AscendingFirst(q[0], Without(q[1..], t));
      }
    }
  }

  lemma RemoveRootKeeps(s: State, t: TableId, free: bool)
    requires Inv(s)
    ensures Inv(RemoveRoot(s, t, free).0)
  {
    hide Reach, SortedKeys, NoDup, Kids, PushToSweep, Ascending;
    var s' := RemoveRoot(s, t, free).0;
    if s' != s {
      RootNotGarbage(s, t);
      WithoutMembers(s.roots, t);
      RootTaken(s.roots, t);
      var s1 := s.(roots := Without(s.roots, t));
      if free { PushToSweepEffect(s1, t); }
      assert SweepPushed(s1, s', if free then {t} else {}) by { NothingSwept(s1); }
      RootDropped(s, s', t);
    }
  }

  lemma RootNotGarbage(s: State, t: TableId)
    requires Inv(s) && t in s.roots
    ensures t !in s.garbageQ
  {
    hide Reach, SortedKeys, NoDup, Ascending, Kids;
    assert t in s.garbageQ ==> Garbage(s, t) && s.begin && !Unlinked(s, t);
  }

  lemma RootDropped(s: State, s': State, t: TableId)
    requires Inv(s) && t in s.roots
    requires exists ks :: ks <= {t} && SweepPushed(s.(roots := s'.roots), s', ks)
    requires Ascending(s'.roots) && forall x :: x in s'.roots ==> x in s.roots && x != t
    ensures Inv(s')
  {
    hide Reach, SortedKeys, NoDup, Ascending, Kids, Shape, Colours, SweepDisjoint, TriColour, Unlinked, NurseryFresh;
    SourcesKept(s);
    KeptShrinks(s, s');
    UnlinkedAll(s, s');
    hide Kept;
    RootDroppedShape(s, s', t);
    RootDroppedRest(s, s', t);
  }

  lemma RootDroppedShape(s: State, s': State, t: TableId)
    requires Shape(s) && Colours(s) && t in s.roots
    requires exists ks :: ks <= {t} && SweepPushed(s.(roots := s'.roots), s', ks)
    requires Ascending(s'.roots) && forall x :: x in s'.roots ==> x in s.roots && x != t
    ensures Shape(s') && Colours(s')
  {
    hide SortedKeys, NoDup, Ascending, Kids;
    assert s'.remainedQ != [] ==> s'.remainedQ[0] in s.remainedQ;
  }

  lemma RootDroppedRest(s: State, s': State, t: TableId)
    requires NurseryFresh(s) && (s.begin ==> TriColour(s)) && t in s.roots
    requires exists ks :: ks <= {t} && SweepPushed(s.(roots := s'.roots), s', ks)
    requires forall x :: x in s'.roots ==> x in s.roots && x != t
    requires forall x :: Unlinked(s, x) && x !in s'.markQ && !InSweep(s', x) ==> Unlinked(s', x)
    ensures NurseryFresh(s') && (s.begin ==> TriColour(s'))
  {
    hide Kids, NoDup, SweepDisjoint, Unlinked;
    UnlinkedFree(s);
    KidsSafeStays(s, s');
  }

  // ----- what the table operations do to the elements -----

  /** Only p's elements changed, and p gained references only to tables that a caller may link. */
  ghost predicate Changed(gc: State, gc': State, p: TableId, added: set<TableId>) {
    && gc'.roots == gc.roots && gc'.tables.Keys == gc.tables.Keys
    && (forall q :: q != p ==> ElemsOf(gc', q) == ElemsOf(gc, q))
    && (forall k :: k in KidsOf(gc', p) ==> k in KidsOf(gc, p) || k in added)
  }

  lemma ElemsChanged(gc: State, gc': State, p: TableId, es: seq<Element>, bump: nat, added: set<TableId>)
    requires p in gc.tables && gc'.roots == gc.roots && gc'.tables == WithElems(gc, p, es, bump).tables
    requires forall k :: k in Kids(es) ==> k in KidsOf(gc, p) || k in added
    ensures Changed(gc, gc', p, added) && ElemsOf(gc', p) == es
  {
    hide Kids;
  }

  lemma AddChanges(gc: State, p: TableId, k: int, v: Value)
    requires Inv(gc) && p in gc.tables
    ensures var (gc', r) := AddKeyValue(gc, p, k, v); var es := ElemsOf(gc, p);
      && Changed(gc, gc', p, Stored(v))
      && r == (if k in Contents(es) then Existed else Ok)
      && Contents(ElemsOf(gc', p)) == if k in Contents(es) then Contents(es) else Contents(es)[k := v]
  {
    hide Reach, NoDup, Ascending, Kids, TriColour, Colours, NoDangling, NurseryFresh, Rank, Contents, SweepDisjoint;
    var es := ElemsOf(gc, p);
    var i := Rank(es, k);
    if i < |es| && es[i].key == k {
      DeleteContents(es, i);
    } else {
      InsertElement(es, k, v);
      InsertContents(es, k, v);
      ElemsChanged(gc, AddKeyValue(gc, p, k, v).0, p, es[..i] + [Element(k, v)] + es[i..], 1, Stored(v));
    }
  }

  lemma SetChanges(gc: State, p: TableId, k: int, v: Value)
    requires Inv(gc) && p in gc.tables
    ensures var gc' := SetKeyValue(gc, p, k, v).0;
      && Changed(gc, gc', p, Stored(v))
      && Contents(ElemsOf(gc', p)) == Contents(ElemsOf(gc, p))[k := v]
  {
    hide Reach, NoDup, Ascending, Kids, TriColour, Colours, NoDangling, NurseryFresh, Rank, Without, SweepDisjoint,
      Contents;
    var es := ElemsOf(gc, p);
    var i := Rank(es, k);
    if i < |es| && es[i].key == k {
      ReplaceElement(es, i, v);
      ReplaceContents(es, i, v);
      ElemsChanged(gc, SetKeyValue(gc, p, k, v).0, p, es[i := Element(k, v)], 1, Stored(v));
    } else {
      InsertElement(es, k, v);
      InsertContents(es, k, v);
      ElemsChanged(gc, SetKeyValue(gc, p, k, v).0, p, es[..i] + [Element(k, v)] + es[i..], 1, Stored(v));
    }
  }

  lemma RemoveChanges(gc: State, p: TableId, k: int)
    requires Inv(gc) && p in gc.tables
    ensures var (gc', r) := RemoveKey(gc, p, k); var es := ElemsOf(gc, p);
      && Changed(gc, gc', p, {})
      && r == (if k in Contents(es) then Ok else NotFound)
      && Contents(ElemsOf(gc', p)) == Contents(es) - {k}
  {
    hide Reach, NoDup, Ascending, Kids, TriColour, Colours, NoDangling, NurseryFresh, Rank, Without, SweepDisjoint,
      Contents;
    var es := ElemsOf(gc, p);
    var i := Rank(es, k);
    if i < |es| && es[i].key == k {
      DeleteElement(es, i);
      DeleteContents(es, i);
      ElemsChanged(gc, RemoveKey(gc, p, k).0, p, es[..i] + es[i + 1..], 1, {});
    } else {
      InsertContents(es, k, Scalar(0));
    }
  }
}
