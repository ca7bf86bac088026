/**
  When a table made a root is never lost: the open round knows it, or will come to it through a table that no caller can
  get at.  Together with the runs that lose a root this gives the exact condition.
 */
module GcRootKept {
  import opened Queues
  import opened Tables
  import opened GcModel
  import opened GcReach
  import opened GcInvariant
  import opened GcSteps
  import opened GcSlice
  import opened GcMutators
  import opened GcTrace
  import opened GcRuns
  import opened GcRootLost

  // ----- the order of the mark queue plays no part -----

  /** s' is s with another order of the mark queue and other counters. */
  ghost predicate Reordered(s: State, s': State) {
    && s' == s.(markQ := s'.markQ, maxVisit := s'.maxVisit, currVisit := s'.currVisit, maxFree := s'.maxFree,
      currFree := s'.currFree)
    && NoDup(s'.markQ) && forall x :: x in s'.markQ <==> x in s.markQ
  }

  lemma ReorderedInv(s: State, s': State)
    requires Inv(s) && Reordered(s, s')
    ensures Inv(s')
  {
    hide Reach, SortedKeys, Kids, NoDup, Ascending, Shape, Colours, TriColour, NurseryFresh, Unlinked;
    assert Sources(s') == Sources(s) by { assert Members(s'.markQ) == Members(s.markQ); }
    ReorderedLinks(s, s');
    hide Sources, Kept;
    ReorderedShape(s, s');
    ReorderedRest(s, s');
  }

  lemma ReorderedShape(s: State, s': State)
    requires Shape(s) && Colours(s) && Reordered(s, s')
    ensures Shape(s') && Colours(s')
  {
    hide SortedKeys, Kids, NoDup, Ascending, SweepDisjoint;
    SameSweep(s, s');
  }

  lemma ReorderedRest(s: State, s': State)
    requires NurseryFresh(s) && (s.begin ==> TriColour(s)) && Reordered(s, s')
    requires forall x :: Unlinked(s, x) ==> Unlinked(s', x)
    ensures NurseryFresh(s') && (s.begin ==> TriColour(s'))
  {
    hide Kids, NoDup, Unlinked;
    KidsSafeStays(s, s');
  }

  lemma ReorderedLinks(s: State, s': State)
    requires Reordered(s, s') && Sources(s') == Sources(s)
    ensures (forall x :: Kept(s', x) <==> Kept(s, x)) && (forall x :: Unlinked(s, x) ==> Unlinked(s', x))
  {
    hide Reach, Sources, NoDup, Edge;
  }

  // ----- the promise that t will be marked -----

  /** The state as if t had been queued for marking. */
  function Promised(s: State, t: TableId): State {
    s.(markQ := s.markQ + [t])
  }

  /**
    t is a root that is neither marked nor queued, but no marked table refers to it, and marking will come to it through
    a table that no caller can get at.
   */
  ghost predicate Pending(s: State, t: TableId) {
    && s.begin && t in s.roots && White(s, t) && t !in s.markQ && Inv(Promised(s, t)) && Shielded(s, t)
    && forall x :: Black(s, x) ==> t !in KidsOf(s, x)
  }

  lemma PendingReordered(s: State, s': State, t: TableId)
    requires Pending(s, t) && Reordered(s, s')
    ensures Pending(s', t)
  {
    hide Inv, Reach, Kids, NoDup;
    PromisedNoDup(s, t);
    NoDupSingle(t);
    NoDupConcat(s'.markQ, [t]);
    ReorderedInv(Promised(s, t), Promised(s', t));
    assert Members(s'.markQ) == Members(s.markQ);
    var a :| Reach(s.tables, Members(s.markQ), a) && !FromRoots(s, a) && Edge(s.tables, a, t);
    assert Reach(s'.tables, Members(s'.markQ), a) && !FromRoots(s', a) && Edge(s'.tables, a, t);
    assert Shielded(s', t);
    forall x | Black(s', x) ensures t !in KidsOf(s', x) { assert Black(s, x) && KidsOf(s', x) == KidsOf(s, x); }
  }

  lemma PromisedNoDup(s: State, t: TableId)
    requires Inv(Promised(s, t))
    ensures NoDup(s.markQ) && t !in s.markQ
  {
    hide Reach, Kids, SortedKeys, TriColour, NurseryFresh, NoDangling, Colours, SweepDisjoint, Ascending;
    NoDupConcat(s.markQ, [t]);
  }

  lemma PushPromised(s: State, t: TableId)
    requires Inv(s) && FromRoots(s, t) && White(s, t) && t !in s.markQ
    ensures Inv(Promised(s, t))
  {
    hide Inv, FromRoots;
    PushToMarkKeeps(s, t);
  }

  /** Making a shielded table a root. */
  lemma PendingStarts(s: State, t: TableId)
    requires Inv(s) && FromRoots(s, t) && t !in s.roots && |s.roots| < MAX_ROOTS && s.begin && !Safe(s, t)
      && Shielded(s, t)
    ensures Pending(AddRoot(s, t).0, t)
  {
    hide Inv, Reach, Kids, FromRoots;
    AddRootIs(s, t);
    var s1 := AddRoot(s, t).0;
    PushPromised(s, t);
    var u := Promised(s, t);
    SameReach(s, u);
    AddRootKeeps(u, t);
    assert Promised(s1, t) == AddRoot(u, t).0;
    var a :| Reach(s.tables, Members(s.markQ), a) && !FromRoots(s, a) && Edge(s.tables, a, t);
    RootedReach(s, s1, t, a);
    assert Reach(s1.tables, Members(s1.markQ), a) && !FromRoots(s1, a) && Edge(s1.tables, a, t);
    assert Shielded(s1, t);
    NoBlackParent(s, t);
    forall x | Black(s1, x) ensures t !in KidsOf(s1, x) { assert Black(s, x) && KidsOf(s1, x) == KidsOf(s, x); }
  }

  lemma SameReach(s: State, u: State)
    requires u.tables == s.tables && u.roots == s.roots
    ensures forall x :: FromRoots(u, x) <==> FromRoots(s, x)
  {
    hide Reach;
  }

  /** A new root that was reached before reaches nothing new. */
  lemma RootedReach(s: State, s': State, t: TableId, a: TableId)
    requires s'.tables == s.tables && FromRoots(s, t) && forall x :: x in s'.roots ==> x in s.roots || x == t
    ensures FromRoots(s', a) ==> FromRoots(s, a)
  {
    hide Reach;
    var inside := (x: TableId) => FromRoots(s, x);
    forall x | x in Members(s'.roots)
      ensures inside(x)
    {
      if x in s.roots { ReachSource(s.tables, Members(s.roots), x); }
    }
    forall x, y | inside(x) && Edge(s'.tables, x, y) ensures inside(y) { ReachStep(s.tables, Members(s.roots), x, y); }
    if FromRoots(s', a) { ReachInClosed(s'.tables, Members(s'.roots), inside, a); }
  }

  lemma NoBlackParent(s: State, t: TableId)
    requires Inv(s) && s.begin && !Safe(s, t)
    ensures forall x :: Black(s, x) ==> t !in KidsOf(s, x)
  {
    hide Reach, Kids, SortedKeys, NoDup, Ascending, NurseryFresh, NoDangling, Colours, SweepDisjoint;
  }

  // ----- marking -----

  lemma PendingQueue(s: State, t: TableId)
    requires Pending(s, t)
    ensures s.markQ != []
  {
    hide Inv, Kids;
    var a :| Reach(s.tables, Members(s.markQ), a) && !FromRoots(s, a) && Edge(s.tables, a, t);
    var p :| Path(s.tables, p) && p[0] in Members(s.markQ) && p[|p| - 1] == a;
  }

  /** Marking the first table of the queue, up to the queueing of its kids. */
  function Marked(s: State): State
    requires s.markQ != []
  {
    s.(tables := WithMark(s.tables, s.markQ[0], s.round + 1), markQ := s.markQ[1..])
  }

  lemma MarkOneIs(s: State)
    requires s.markQ != []
    ensures var s1 := Marked(s); var q := Enqueue(s1, KidsOf(s1, s.markQ[0]), s1.markQ, {});
      MarkOne(s) == s1.(markQ := q, currVisit := MarkOne(s).currVisit)
  {
    hide Enqueue, Kids;
  }

  /** What marking one table does with and without t queued. */
  lemma MarkBoth(s: State, t: TableId)
    requires s.markQ != [] && Inv(Promised(s, t)) && White(s, t)
    ensures var s', u' := MarkOne(s), MarkOne(Promised(s, t));
      && s' == s.(tables := s'.tables, markQ := s'.markQ, currVisit := s'.currVisit)
      && u' == s'.(markQ := u'.markQ, currVisit := u'.currVisit) && NoDup(s'.markQ)
      && (forall x :: x in u'.markQ <==> x in s'.markQ || x == t)
      && s.markQ[0] in s.tables && s'.tables == s.tables[s.markQ[0] := s.tables[s.markQ[0]].(mark := s.round + 1)]
      && (forall x :: x in s.markQ ==> x in s'.markQ || x == s.markQ[0])
      && (t in KidsOf(s, s.markQ[0]) ==> t in s'.markQ)
  {
    hide Kids, NoDup, Enqueue, Inv, MarkOne, White, Marked, KidsOf;
    PromisedNoDup(s, t);
    PromisedHead(s, t);
    var u := Promised(s, t);
    NoDupTail(s.markQ);
    MarkOneIs(s);
    MarkOneIs(u);
    MarkedBoth(s, t);
    EnqueueBoth(Marked(s), Marked(u), KidsOf(s, s.markQ[0]), t);
  }

  lemma MarkedBoth(s: State, t: TableId)
    requires s.markQ != [] && s.markQ[0] in s.tables && White(s, t) && t !in s.markQ
    ensures var s1, u1 := Marked(s), Marked(Promised(s, t)); var x := s.markQ[0];
      && s1 == s.(tables := s.tables[x := s.tables[x].(mark := s.round + 1)], markQ := s.markQ[1..])
      && u1 == s1.(markQ := s1.markQ + [t]) && White(s1, t)
      && Promised(s, t).markQ[0] == x && KidsOf(s1, x) == KidsOf(s, x) && KidsOf(u1, x) == KidsOf(s, x)
  {
    hide Kids;
    assert Marked(Promised(s, t)).markQ == s.markQ[1..] + [t];
  }

  lemma EnqueueBoth(s: State, u: State, kids: seq<TableId>, t: TableId)
    requires u.tables == s.tables && u.round == s.round && u.markQ == s.markQ + [t] && White(s, t) && NoDup(s.markQ)
    ensures var q, q' := Enqueue(s, kids, s.markQ, {}), Enqueue(u, kids, u.markQ, {});
      && NoDup(q) && (forall x :: x in q' <==> x in q || x == t)
      && (forall x :: x in s.markQ ==> x in q) && (t in kids ==> t in q)
  {
    hide NoDup, Enqueue;
    EnqueueNoDup(s, kids, s.markQ, {});
    assert forall x :: x in u.markQ <==> x in s.markQ || x == t;
    assert forall x :: White(s, x) <==> White(u, x);
  }

  lemma PromisedHead(s: State, t: TableId)
    requires s.markQ != [] && Inv(Promised(s, t))
    ensures s.markQ[0] in s.tables
  {
    hide Reach, Kids, SortedKeys, NoDup, Ascending, TriColour, NurseryFresh, NoDangling, Colours, SweepDisjoint;
    assert s.markQ[0] in Promised(s, t).markQ;
  }

  lemma MarkOnePending(s: State, t: TableId)
    requires Pending(s, t)
    ensures s.markQ != []
    ensures var s' := MarkOne(s); Pending(s', t) || (Inv(s') && s'.begin && t in s'.roots)
  {
    hide Inv, Reach, Kids, NoDup, Ascending, MarkOne;
    PendingQueue(s, t);
    var u := Promised(s, t);
    var s', u' := MarkOne(s), MarkOne(u);
    MarkBoth(s, t);
    MarkOneKeeps(u);
    if t in s'.markQ {
      ReorderedInv(u', s');
    } else {
      NoDupSingle(t);
      NoDupConcat(s'.markQ, [t]);
      ReorderedInv(u', Promised(s', t));
      StillShielded(s, s', s.markQ[0], t);
    }
  }

  /** What marked tables refer to, when t counts as queued. */
  lemma PromisedKids(s: State, t: TableId)
    requires Inv(Promised(s, t)) && s.begin
    ensures forall y, z :: Black(s, y) && Edge(s.tables, y, z) ==> Black(s, z) || z in s.markQ || z == t
  {
    hide Reach, Kids, SortedKeys, NoDup, Ascending, NurseryFresh, NoDangling, Colours, SweepDisjoint, Unlinked;
    forall y, z | Black(s, y) && Edge(s.tables, y, z)
      ensures Black(s, z) || z in s.markQ || z == t
    {
      assert KidsSafe(Promised(s, t), y) && z in KidsOf(Promised(s, t), y);
    }
  }

  lemma RemarkedEdges(s: State, s': State, x: TableId)
    requires x in s.tables && s'.round == s.round && s'.tables == s.tables[x := s.tables[x].(mark := s.round + 1)]
    ensures forall y, z :: Edge(s'.tables, y, z) <==> Edge(s.tables, y, z)
    ensures forall y :: Black(s', y) <==> Black(s, y) || y == x
    ensures forall y :: KidsOf(s', y) == KidsOf(s, y)
  {
    hide Kids;
  }

  /** Marking goes on along the way that shields t. */
  lemma StillShielded(s: State, s': State, x: TableId, t: TableId)
    requires Shielded(s, t) && x in s.tables && t in s.roots && Inv(Promised(s', t)) && s'.begin
    requires s' == s.(tables := s.tables[x := s.tables[x].(mark := s.round + 1)], markQ := s'.markQ,
      currVisit := s'.currVisit)
    requires forall y :: y in s.markQ ==> y in s'.markQ || y == x
    requires (forall y :: Black(s, y) ==> t !in KidsOf(s, y)) && t !in KidsOf(s, x)
    ensures Shielded(s', t) && forall y :: Black(s', y) ==> t !in KidsOf(s', y)
  {
    hide Reach, Inv, Black;
    RemarkedEdges(s, s', x);
    PromisedKids(s', t);
    var a :| Reach(s.tables, Members(s.markQ), a) && !FromRoots(s, a) && Edge(s.tables, a, t);
    assert !Black(s', a) by { hide Kids; assert t in KidsOf(s, a); }
    hide Edge, KidsOf;
    SameEdges(s.tables, s'.tables, Members(s.roots));
    var inside := (y: TableId) => Black(s', y) || Reach(s'.tables, Members(s'.markQ), y) || FromRoots(s', y);
    ReachSource(s'.tables, Members(s'.roots), t);
    forall y | y in Members(s'.markQ) ensures inside(y) { ReachSource(s'.tables, Members(s'.markQ), y); }
    forall y, z | inside(y) && Edge(s.tables, y, z)
      ensures inside(z)
    {
      if FromRoots(s', y) {
        ReachStep(s'.tables, Members(s'.roots), y, z);
      } else if Reach(s'.tables, Members(s'.markQ), y) {
        ReachStep(s'.tables, Members(s'.markQ), y, z);
      } else if z in s'.markQ {
        assert z in Members(s'.markQ);
      }
    }
    ReachInClosed(s.tables, Members(s.markQ), inside, a);
  }

  lemma SameEdges(a: map<TableId, Table>, b: map<TableId, Table>, src: set<TableId>)
    requires forall y, z :: Edge(a, y, z) <==> Edge(b, y, z)
    ensures forall x :: Reach(a, src, x) <==> Reach(b, src, x)
  {
    hide Edge;
    forall x
      ensures Reach(a, src, x) <==> Reach(b, src, x)
    {
      if Reach(a, src, x) { var p :| Path(a, p) && p[0] in src && p[|p| - 1] == x; assert Path(b, p); }
      if Reach(b, src, x) { var p :| Path(b, p) && p[0] in src && p[|p| - 1] == x; assert Path(a, p); }
    }
  }

  lemma {:induction false} MarkReachablePending(s: State, t: TableId)
    requires Pending(s, t)
    ensures var (s', r) := MarkReachable(s);
      || (Pending(s', t) && r == Ok)
      || (Inv(s') && s'.begin && t in s'.roots && r in {Ok, Empty})
    ensures var (s', r) := MarkReachable(s); MarkReachable(s') == (s', r)
    decreases s.maxVisit - s.currVisit
  {
    hide Pending, Inv, MarkOne, Frame;
    if s.currVisit < s.maxVisit {
      MarkOnePending(s, t);
      MarkOneProgress(s);
      MaxVisitStays(s);
      var s1 := MarkOne(s);
      if Pending(s1, t) {
        MarkReachablePending(s1, t);
      } else {
        MarkReachableKeeps(s1);
        MarkReachableRoots(s1);
        MarkReachableTwice(s1);
      }
    }
  }

  lemma MarkReachableRoots(s: State)
    ensures MarkReachable(s).0.roots == s.roots
  {
    hide MarkReachable;
    MarkReachableCommutes(s, s.roots);
    assert s.(roots := s.roots) == s;
  }

  lemma {:induction false} MarkReachableTwice(s: State)
    ensures var (s', r) := MarkReachable(s); MarkReachable(s') == (s', r)
    decreases s.maxVisit - s.currVisit
  {
    hide MarkOne;
    if s.currVisit < s.maxVisit && s.markQ != [] {
      MarkOneProgress(s);
      MaxVisitStays(s);
      MarkReachableTwice(MarkOne(s));
    }
  }

  /** A slice keeps t pending or makes the invariant whole again. */
  lemma SlicePending(s: State, visit: nat, free: nat, t: TableId)
    requires Pending(s, t)
    ensures var s' := RunSlice(s, visit, free).0; t in s'.roots && (Pending(s', t) || Inv(s'))
  {
    hide Inv, Pending, MarkReachable, MarkGarbage, FreeTables, SliceBody;
    var s0 := s.(currVisit := 0, currFree := 0);
    PendingFields(s, t);
    SliceRoots(s, visit, free);
    PendingReordered(s, s0, t);
    MarkReachablePending(s0, t);
    var (s1, r1) := MarkReachable(s0);
    SameBody(s0, visit, free);
    if Pending(s1, t) && r1 == Ok {
      PendingFields(s1, t);
      PendingReordered(s1, NextVisit(s1, visit), t);
      StopsMarking(s0, visit, free);
    } else {
      SliceBodyKeeps(s1, visit, free);
    }
  }

  lemma PendingFields(s: State, t: TableId)
    requires Pending(s, t)
    ensures s.begin && t in s.roots && t in s.tables && NoDup(s.markQ)
  {
    hide Inv, Reach;
    PromisedNoDup(s, t);
  }

  /** The rest of a slice starts where marking stopped. */
  lemma SameBody(s: State, visit: nat, free: nat)
    requires var (s1, r1) := MarkReachable(s); MarkReachable(s1) == (s1, r1)
    ensures SliceBody(s, visit, free) == SliceBody(MarkReachable(s).0, visit, free)
  {
    hide MarkReachable, MarkGarbage, FreeTables;
  }

  lemma StopsMarking(s: State, visit: nat, free: nat)
    requires MarkReachable(s).1 == Ok
    ensures SliceBody(s, visit, free).0 == NextVisit(MarkReachable(s).0, visit)
  {
    hide MarkReachable, MarkGarbage, FreeTables;
  }

  // ----- mutators -----

  /** u' is s' with t queued as well. */
  ghost predicate Twins(s': State, u': State, t: TableId) {
    u' == s'.(markQ := u'.markQ) && NoDup(s'.markQ) && forall x :: x in u'.markQ <==> x in s'.markQ || x == t
  }

  lemma MarkValueBoth(s: State, v: Value, t: TableId)
    requires White(s, t) && NoDup(s.markQ) && t !in s.markQ
    ensures Twins(MarkValue(s, v), MarkValue(Promised(s, t), v), t)
    ensures forall x :: x in s.markQ || v == Ref(x) ==> Safe(MarkValue(s, v), x)
    ensures forall x :: x in s.markQ ==> x in MarkValue(s, v).markQ
  {
    hide NoDup;
    if v.Ref? {
      NoDupSingle(v.id);
      NoDupConcat(s.markQ, [v.id]);
    }
  }

  lemma SameTwins(s: State, t: TableId)
    requires NoDup(s.markQ)
    ensures Twins(s, Promised(s, t), t)
  {
    hide NoDup;
  }

  lemma SweepValueBoth(s: State, v: Value, t: TableId)
    ensures SweepValue(Promised(s, t), v) == Promised(SweepValue(s, v), t)
    ensures SweepValue(s, v).markQ == s.markQ && SweepValue(s, v).tables == s.tables && SweepValue(s, v).round ==
      s.round
  {
    hide Without;
  }

  lemma {:induction false} SweepAllBoth(s: State, ts: seq<TableId>, t: TableId)
    ensures SweepAll(Promised(s, t), ts) == Promised(SweepAll(s, ts), t) && SweepAll(s, ts).markQ == s.markQ
    decreases ts
  {
    hide Without;
    if ts != [] { SweepAllBoth(PushToSweep(s, ts[0]), ts[1..], t); }
  }

  lemma WithElemsBoth(s: State, p: TableId, es: seq<Element>, bump: nat, t: TableId)
    ensures WithElems(Promised(s, t), p, es, bump) == Promised(WithElems(s, p, es, bump), t)
    ensures var s' := WithElems(s, p, es, bump); s'.markQ == s.markQ && (White(s, t) ==> White(s', t))
  {
  }

  /** What a mutator does with and without t queued; nothing leaves the mark queue. */
  lemma DoBoth(s: State, a: Action, t: TableId)
    requires !a.Slice? && White(s, t) && NoDup(s.markQ) && t !in s.markQ
    ensures Twins(Do(s, a), Do(Promised(s, t), a), t)
    ensures forall x :: x in s.markQ ==> x in Do(s, a).markQ
  {
    hide NoDup, Rank, Without, White, Twins, WithElems, SweepValue, MarkValue, SweepAll, PushToSweep;
    SameTwins(s, t);
    match a
    case New(_) => SameTwins(Do(s, a), t);
    case Add(p, k, v) => AddBoth(s, p, k, v, t);
    case Set(p, k, v) => SetBoth(s, p, k, v, t);
    case Remove(p, k) => RemoveBoth(s, p, k, t);
    case Clear(p, order) =>
      SweepAllBoth(s, order, t);
      WithElemsBoth(SweepAll(s, order), p, [], |ElemsOf(s, p)|, t);
      SameTwins(Do(s, a), t);
    case AddR(_) => SameTwins(Do(s, a), t);
    case RemoveR(x, _) =>
      SweepValueBoth(s.(roots := Without(s.roots, x)), Ref(x), t);
      RemoveRootBoth(s, x, a.free, t);
      SameTwins(Do(s, a), t);
  }

  lemma RemoveRootBoth(s: State, x: TableId, free: bool, t: TableId)
    ensures RemoveRoot(Promised(s, t), x, free).0 == Promised(RemoveRoot(s, x, free).0, t)
    ensures RemoveRoot(s, x, free).0.markQ == s.markQ
  {
    hide Without;
  }

  lemma AddBoth(s: State, p: TableId, k: int, v: Value, t: TableId)
    requires White(s, t) && NoDup(s.markQ) && t !in s.markQ
    ensures Twins(AddKeyValue(s, p, k, v).0, AddKeyValue(Promised(s, t), p, k, v).0, t)
    ensures forall x :: x in s.markQ ==> x in AddKeyValue(s, p, k, v).0.markQ
  {
    hide NoDup, Rank, White, Twins, WithElems, MarkValue;
    SameTwins(s, t);
    var es := ElemsOf(s, p);
    var i := Rank(es, k);
    var es' := es[..i] + [Element(k, v)] + es[i..];
    WithElemsBoth(s, p, es', 1, t);
    MarkValueBoth(WithElems(s, p, es', 1), v, t);
  }

  lemma SetBoth(s: State, p: TableId, k: int, v: Value, t: TableId)
    requires White(s, t) && NoDup(s.markQ) && t !in s.markQ
    ensures Twins(SetKeyValue(s, p, k, v).0, SetKeyValue(Promised(s, t), p, k, v).0, t)
    ensures forall x :: x in s.markQ ==> x in SetKeyValue(s, p, k, v).0.markQ
  {
    hide NoDup, Rank, Twins, WithElems, MarkValue, SweepValue;
    var es := ElemsOf(s, p);
    var i := Rank(es, k);
    if i < |es| && es[i].key == k {
      WithElemsBoth(s, p, es[i := Element(k, v)], 1, t);
      var s1 := WithElems(s, p, es[i := Element(k, v)], 1);
      SweepValueBoth(s1, es[i].value, t);
      MarkValueBoth(SweepValue(s1, es[i].value), v, t);
    } else {
      AddBoth(s, p, k, v, t);
    }
  }

  lemma RemoveBoth(s: State, p: TableId, k: int, t: TableId)
    requires NoDup(s.markQ)
    ensures Twins(RemoveKey(s, p, k).0, RemoveKey(Promised(s, t), p, k).0, t)
    ensures RemoveKey(s, p, k).0.markQ == s.markQ
  {
    hide NoDup, Rank, Twins, WithElems, SweepValue;
    SameTwins(s, t);
    var es := ElemsOf(s, p);
    var i := Rank(es, k);
    if i < |es| && es[i].key == k {
      var es' := es[..i] + es[i + 1..];
      WithElemsBoth(s, p, es', 1, t);
      SweepValueBoth(WithElems(s, p, es', 1), es[i].value, t);
      SameTwins(RemoveKey(s, p, k).0, t);
    }
  }

  function StoredBy(a: Action): set<TableId> {
    if a.Add? || a.Set? then Stored(a.v) else {}
  }

  /** Storing t queues it. */
  lemma StoreQueues(s: State, a: Action, t: TableId)
    requires White(s, t)
    ensures t in StoredBy(a) ==> Do(s, a) == s || t in Do(s, a).markQ
  {
    hide Rank, Without, WithElems, SweepValue, MarkValue;
    if t in StoredBy(a) {
      var es := ElemsOf(s, a.p);
      var i := Rank(es, a.k);
      if i < |es| && es[i].key == a.k {
        var s1 := WithElems(s, a.p, es[i := Element(a.k, a.v)], 1);
        WithElemsBoth(s, a.p, es[i := Element(a.k, a.v)], 1, t);
        SweepValueBoth(s1, es[i].value, t);
        MarkQueues(SweepValue(s1, es[i].value), t);
      } else {
        WithElemsBoth(s, a.p, es[..i] + [Element(a.k, a.v)] + es[i..], 1, t);
        MarkQueues(WithElems(s, a.p, es[..i] + [Element(a.k, a.v)] + es[i..], 1), t);
      }
    }
  }

  lemma MarkQueues(s: State, t: TableId)
    requires White(s, t)
    ensures t in MarkValue(s, Ref(t)).markQ
  {
  }

  /** The references and marks after a mutator step, for tables that no caller could get at. */
  ghost predicate Graph(s: State, s': State, added: set<TableId>) {
    && s'.round == s.round && s'.begin == s.begin
    && (forall x :: x in s.tables ==> x in s'.tables && s'.tables[x].mark == s.tables[x].mark)
    && (forall x, k :: k in KidsOf(s', x) ==> k in KidsOf(s, x) || k in added)
    && (forall x :: x in s.tables && !FromRoots(s, x) ==> KidsOf(s', x) == KidsOf(s, x))
    && (forall x :: FromRoots(s', x) ==> CanLink(s, x))
  }

  ghost predicate SameMarks(s: State, s': State) {
    && s'.round == s.round && s'.begin == s.begin && s'.maxVisit == s.maxVisit && s'.maxFree == s.maxFree
    && forall x :: x in s.tables ==> x in s'.tables && s'.tables[x].mark == s.tables[x].mark
  }

  /** Tables, round and budgets are as they were. */
  predicate SameTables(s: State, s': State) {
    && s'.tables == s.tables && s'.round == s.round && s'.begin == s.begin
    && s'.maxVisit == s.maxVisit && s'.maxFree == s.maxFree
  }

  lemma MarksStay(s: State, a: Action)
    requires !a.Slice? && (a.New? ==> a.t !in s.tables)
    ensures SameMarks(s, Do(s, a))
  {
    hide Rank, Without, WithElems, SweepValue, MarkValue, SweepAll, PushToSweep, Kids;
    match a
    case New(_) =>
    case AddR(_) =>
    case RemoveR(t, _) => SameSweepValue(s.(roots := Without(s.roots, t)), Ref(t)); RemoveRootMarks(s, t, a.free);
    case Clear(p, order) => SweepAllFrame(s, order); SameWithElems(SweepAll(s, order), p, [], |ElemsOf(s, p)|);
    case _ => StoreMarks(s, a);
  }

  lemma SameWithElems(s: State, p: TableId, es: seq<Element>, bump: nat)
    ensures SameMarks(s, WithElems(s, p, es, bump))
  {
  }

  lemma SameSweepValue(s: State, v: Value)
    ensures SameTables(s, SweepValue(s, v))
  {
    hide Without;
  }

  lemma SameMarkValue(s: State, v: Value)
    ensures SameTables(s, MarkValue(s, v))
  {
  }

  lemma RemoveRootMarks(s: State, t: TableId, free: bool)
    ensures SameMarks(s, RemoveRoot(s, t, free).0)
  {
    hide Without;
  }

  lemma StoreMarks(s: State, a: Action)
    requires a.Add? || a.Set? || a.Remove?
    ensures SameMarks(s, Do(s, a))
  {
    hide Rank, WithElems, SweepValue, MarkValue;
    var es := ElemsOf(s, a.p);
    var i := Rank(es, a.k);
    var v := if a.Remove? then Scalar(0) else a.v;
    if i < |es| && es[i].key == a.k {
      var es' := if a.Remove? then es[..i] + es[i + 1..] else es[i := Element(a.k, v)];
      var s1 := WithElems(s, a.p, es', 1);
      SameWithElems(s, a.p, es', 1);
      SameSweepValue(s1, es[i].value);
      SameMarkValue(SweepValue(s1, es[i].value), v);
    } else {
      var es' := es[..i] + [Element(a.k, v)] + es[i..];
      SameWithElems(s, a.p, es', 1);
      SameMarkValue(WithElems(s, a.p, es', 1), v);
    }
  }

  lemma {:induction false} SweepAllFrame(s: State, ts: seq<TableId>)
    ensures var s' := SweepAll(s, ts); s' == s.(prevQ := s'.prevQ, sweepQ := s'.sweepQ, garbageQ := s'.garbageQ,
      remainedQ := s'.remainedQ)
    decreases ts
  {
    hide Without;
    if ts != [] { SweepAllFrame(PushToSweep(s, ts[0]), ts[1..]); }
  }

  /** What the roots reach was within reach of a caller before, if every new root and reference was. */
  lemma ReachAfter(s: State, s': State)
    requires Inv(s)
    requires forall x :: x in s'.roots ==> CanLink(s, x)
    requires forall x, k :: CanLink(s, x) && k in KidsOf(s', x) ==> k in KidsOf(s, x) || CanLink(s, k)
    ensures forall x :: FromRoots(s', x) ==> CanLink(s, x)
  {
    hide Reach, SortedKeys, NoDup, Ascending, Kids, TriColour, Colours, Shape, NoDangling, Unlinked;
    var inside := (x: TableId) => CanLink(s, x);
    forall x, y | inside(x) && Edge(s'.tables, x, y)
      ensures inside(y)
    {
      assert y in KidsOf(s', x);
      if FromRoots(s, x) && y in KidsOf(s, x) { ReachStep(s.tables, Members(s.roots), x, y); }
    }
    forall x | FromRoots(s', x) ensures inside(x) { ReachInClosed(s'.tables, Members(s'.roots), inside, x); }
  }

  lemma ChangedGraph(s: State, a: Action, p: TableId, added: set<TableId>)
    requires Inv(s) && !a.Slice? && !a.New? && FromRoots(s, p) && Changed(s, Do(s, a), p, added)
    requires forall k :: k in added ==> CanLink(s, k)
    ensures Graph(s, Do(s, a), added)
  {
    hide Inv, FromRoots, Do, Kids;
    var s' := Do(s, a);
    MarksStay(s, a);
    RootsLinkable(s);
    forall x | x != p ensures KidsOf(s', x) == KidsOf(s, x) { SameElems(s, s', x); }
    ReachAfter(s, s');
  }

  lemma SameElems(s: State, s': State, x: TableId)
    requires s'.tables.Keys == s.tables.Keys && ElemsOf(s', x) == ElemsOf(s, x)
    ensures KidsOf(s', x) == KidsOf(s, x)
  {
    hide Kids;
  }

  lemma RootsLinkable(s: State)
    ensures forall x :: x in s.roots ==> CanLink(s, x)
  {
    hide Reach;
    forall x | x in s.roots ensures FromRoots(s, x) { ReachSource(s.tables, Members(s.roots), x); }
  }

  /** Roots changed, or a table was allocated. */
  lemma RootGraph(s: State, a: Action)
    requires Inv(s) && Allowed(s, a) && (a.New? || a.AddR? || a.RemoveR?)
    ensures Graph(s, Do(s, a), StoredBy(a))
  {
    hide Inv, FromRoots, Kids, Without;
    var s' := Do(s, a);
    MarksStay(s, a);
    RootsLinkable(s);
    EmptyKids();
    if a.RemoveR? { WithoutMembers(s.roots, a.t); }
    assert forall x :: x in s.tables ==> KidsOf(s', x) == KidsOf(s, x);
    assert forall x :: x !in s.tables ==> KidsOf(s', x) == [];
    ReachAfter(s, s');
  }

  lemma StepGraph(s: State, a: Action)
    requires Inv(s) && Allowed(s, a) && !a.Slice?
    ensures Graph(s, Do(s, a), StoredBy(a))
  {
    hide Inv, FromRoots, Kids, Graph, Changed, AddKeyValue, SetKeyValue, RemoveKey, Contents;
    if a.New? || a.AddR? || a.RemoveR? {
      RootGraph(s, a);
    } else {
      LinkableLive(s, a.p);
      match a
      case Add(p, k, v) => AddChanges(s, p, k, v); ChangedGraph(s, a, p, Stored(v));
      case Set(p, k, v) => SetChanges(s, p, k, v); ChangedGraph(s, a, p, Stored(v));
      case Remove(p, k) => RemoveChanges(s, p, k); ChangedGraph(s, a, p, {});
      case Clear(p, order) => ClearChanges(s, p, order); ChangedGraph(s, a, p, {});
    }
  }

  lemma ClearChanges(s: State, p: TableId, order: seq<TableId>)
    requires p in s.tables
    ensures Changed(s, RemoveAll(s, p, order), p, {})
  {
    hide Kids;
    EmptyKids();
    SweepAllFrame(s, order);
    ElemsChanged(s, RemoveAll(s, p, order), p, [], |ElemsOf(s, p)|, {});
  }

  // ----- a pending root through a mutator step -----

  /** The tables on the way that shields t are out of reach, and stay as they are. */
  lemma ShieldStays(s: State, s': State, t: TableId, added: set<TableId>)
    requires Inv(Promised(s, t)) && Shielded(s, t) && Graph(s, s', added) && forall x :: x in s.markQ ==> x in s'.markQ
    ensures Shielded(s', t)
  {
    hide Inv, Reach, Kids, Graph;
    var a :| Reach(s.tables, Members(s.markQ), a) && !FromRoots(s, a) && Edge(s.tables, a, t);
    ShieldReach(s, s', t, a, added);
    OutOfReach(s, t, a);
    GraphEdge(s, s', a, t, added);
    if FromRoots(s', a) { GraphReach(s, s', a, added); }
  }

  lemma GraphReach(s: State, s': State, x: TableId, added: set<TableId>)
    requires Graph(s, s', added) && FromRoots(s', x)
    ensures CanLink(s, x)
  {
    hide FromRoots;
  }

  lemma GraphEdge(s: State, s': State, x: TableId, y: TableId, added: set<TableId>)
    requires Graph(s, s', added) && !FromRoots(s, x) && Edge(s.tables, x, y)
    ensures Edge(s'.tables, x, y)
  {
    hide Kids, FromRoots;
    assert KidsOf(s', x) == KidsOf(s, x);
  }

  /** What marking comes to is not fresh. */
  lemma OutOfReach(s: State, t: TableId, x: TableId)
    requires Inv(Promised(s, t)) && Reach(s.tables, Members(s.markQ), x)
    ensures x !in s.nursery
  {
    hide Kids, SortedKeys, NoDup, Ascending;
    var u := Promised(s, t);
    var p :| Path(s.tables, p) && p[0] in Members(s.markQ) && p[|p| - 1] == x;
    if |p| > 1 {
      var a, q := p[|p| - 2], p[..|p| - 1];
      assert Path(u.tables, q) && q[0] in Sources(u) && q[|q| - 1] == a;
      assert Kept(u, a) && Edge(u.tables, a, x);
    }
    assert !Unlinked(u, x);
  }

  /** The way from the mark queue to a table out of reach stays open. */
  lemma ShieldReach(s: State, s': State, t: TableId, a: TableId, added: set<TableId>)
    requires Inv(Promised(s, t)) && Graph(s, s', added) && Reach(s.tables, Members(s.markQ), a) && !FromRoots(s, a)
    requires forall x :: x in s.markQ ==> x in s'.markQ
    ensures Reach(s'.tables, Members(s'.markQ), a)
  {
    hide Inv, Reach, Graph, Edge;
    var inside := (x: TableId) => FromRoots(s, x) || Reach(s'.tables, Members(s'.markQ), x);
    forall x | x in Members(s.markQ) ensures inside(x) { ReachSource(s'.tables, Members(s'.markQ), x); }
    forall x, y | inside(x) && Edge(s.tables, x, y)
      ensures inside(y)
    {
      if FromRoots(s, x) {
        ReachStep(s.tables, Members(s.roots), x, y);
      } else {
        GraphEdge(s, s', x, y, added);
        ReachStep(s'.tables, Members(s'.markQ), x, y);
      }
    }
    ReachInClosed(s.tables, Members(s.markQ), inside, a);
  }

  lemma PromisedAllowed(s: State, a: Action, t: TableId)
    requires Allowed(s, a)
    ensures Allowed(Promised(s, t), a)
  {
    hide Reach, Kids;
    SameReach(s, Promised(s, t));
  }

  /** The graph does not depend on the mark queue. */
  lemma GraphTwins(s: State, u: State, s': State, u': State, added: set<TableId>)
    requires Graph(u, u', added) && u == s.(markQ := u.markQ) && u' == s'.(markQ := u'.markQ)
    ensures Graph(s, s', added)
  {
    hide Reach, Kids;
    SameReach(s, u);
    SameReach(s', u');
    assert forall x :: KidsOf(s, x) == KidsOf(u, x);
    assert forall x :: KidsOf(s', x) == KidsOf(u', x);
  }

  lemma GraphColours(s: State, s': State, t: TableId, added: set<TableId>)
    requires Graph(s, s', added) && White(s, t) && t !in added
    requires forall x :: Black(s, x) ==> t !in KidsOf(s, x)
    ensures s'.begin == s.begin && White(s', t) && forall x :: Black(s', x) ==> t !in KidsOf(s', x)
  {
    hide FromRoots, Kids;
  }

  /** A mutator step keeps t pending or makes the invariant whole again. */
  lemma StepPending(s: State, a: Action, t: TableId)
    requires Pending(s, t) && Allowed(s, a) && !a.Slice? && KeepsRoot([a], t)
    ensures var s' := Do(s, a); t in s'.roots && (Pending(s', t) || Inv(s'))
  {
    hide Inv, Reach, Kids, NoDup, Do, FromRoots, Twins, Graph, White, Shielded, Allowed;
    var u := Promised(s, t);
    var s', u' := Do(s, a), Do(u, a);
    PromisedNoDup(s, t);
    PromisedAllowed(s, a, t);
    StepKeeps(u, a);
    DoBoth(s, a, t);
    RootKept(s, a, t);
    StepGraph(u, a);
    TwinsReordered(s', u', t);
    StoreQueues(s, a, t);
    if t !in s'.markQ && s' != s {
      GraphTwins(s, u, s', u', StoredBy(a));
      ShieldStays(s, s', t, StoredBy(a));
      GraphColours(s, s', t, StoredBy(a));
    }
  }

  lemma TwinsReordered(s': State, u': State, t: TableId)
    requires Twins(s', u', t) && Inv(u')
    ensures u' == s'.(markQ := u'.markQ) && (if t in s'.markQ then Inv(s') else Inv(Promised(s', t)))
  {
    hide Inv, NoDup;
    if t in s'.markQ {
      ReorderedInv(u', s');
    } else {
      NoDupSingle(t);
      NoDupConcat(s'.markQ, [t]);
      ReorderedInv(u', Promised(s', t));
    }
  }

  lemma RootKept(s: State, a: Action, t: TableId)
    requires t in s.roots && KeepsRoot([a], t)
    ensures t in Do(s, a).roots
  {
    hide Rank, Without, RunSlice, Kids;
    assert a in [a];
    match a
    case Slice(visit, free) => SliceRoots(s, visit, free);
    case Clear(_, order) => SweepAllFrame(s, order);
    case RemoveR(x, _) => WithoutMembers(s.roots, x);
    case _ =>
  }

  // ----- whole runs -----

  lemma KeepsRootSplit(acts: seq<Action>, t: TableId)
    requires acts != [] && KeepsRoot(acts, t)
    ensures KeepsRoot([acts[0]], t) && KeepsRoot(acts[1..], t)
  {
  }

  /** While t stays a root it stays allocated, if the invariant holds or t is pending. */
  lemma {:induction false} RootNeverLost(s: State, acts: seq<Action>, t: TableId)
    requires (Pending(s, t) || Inv(s)) && t in s.roots && Runs(s, acts) && KeepsRoot(acts, t)
    ensures t in After(s, acts).tables
    decreases acts
  {
    hide Inv, Pending, Allowed, Do, KeepsRoot;
    if acts == [] {
      RootAllocated(s, t);
    } else {
      var a := acts[0];
      KeepsRootSplit(acts, t);
      RootKept(s, a, t);
      if Inv(s) {
        StepKeeps(s, a);
      } else if a.Slice? {
        SliceIs(s, a);
        SlicePending(s, a.visit, a.frees, t);
      } else {
        StepPending(s, a, t);
      }
      RootNeverLost(Do(s, a), acts[1..], t);
    }
  }

  lemma SliceIs(s: State, a: Action)
    requires a.Slice?
    ensures Do(s, a) == RunSlice(s, a.visit, a.frees).0
  {
  }

  lemma RootAllocated(s: State, t: TableId)
    requires (Pending(s, t) || Inv(s)) && t in s.roots
    ensures t in s.tables
  {
    hide Reach, Kids, SortedKeys, NoDup, Ascending, TriColour, NurseryFresh, NoDangling, Colours, SweepDisjoint;
  }

  // ----- a slice without budget frees nothing -----

  /** An open round that may visit or free nothing; its budgets never change again. */
  predicate Jammed(s: State) {
    s.begin && (s.maxVisit == 0 || s.maxFree == 0)
  }

  /** The same tables are allocated, and the round and the budget for freeing are as they were. */
  predicate Level(s: State, s': State) {
    && s'.tables.Keys == s.tables.Keys && s'.begin == s.begin && s'.maxFree == s.maxFree && s'.currFree == s.currFree
  }

  lemma {:induction false} MarkReachableLevel(s: State)
    ensures Level(s, MarkReachable(s).0)
    decreases s.maxVisit - s.currVisit
  {
    hide Enqueue, Kids;
    if s.currVisit < s.maxVisit && s.markQ != [] {
      assert Level(s, MarkOne(s));
      MarkReachableLevel(MarkOne(s));
    }
  }

  lemma {:induction false} MarkGarbageLevel(s: State, p: Phase)
    ensures Level(s, MarkGarbage(s, p).0)
    decreases s.maxVisit - s.currVisit
  {
    hide SweepOne;
    if s.currVisit < s.maxVisit && Queue(s, p) != [] && !Garbage(s, Queue(s, p)[0]) {
      SweepOneLevel(s, p);
      SweepOneProgress(s, p);
      MaxVisitStays(s);
      MarkGarbageLevel(SweepOne(s, p), p);
    }
  }

  lemma SweepOneLevel(s: State, p: Phase)
    requires Queue(s, p) != []
    ensures Level(s, SweepOne(s, p))
  {
    hide Enqueue, Kids, OtherSweepNodes;
  }

  lemma MarkTablesLevel(s: State, budget: nat)
    ensures Level(s, MarkTables(s, budget).0)
  {
    hide MarkReachable, MarkGarbage;
    MarkReachableLevel(s);
    var s1 := MarkReachable(s).0;
    MarkGarbageLevel(s1, Prev);
    MarkGarbageLevel(MarkGarbage(s1, Prev).0, Sweep);
  }

  lemma NothingVisited(s: State, budget: nat)
    requires s.maxVisit == 0 && s.currVisit == 0
    ensures MarkTables(s, budget) == (s, Ok)
  {
    hide MarkGarbage;
  }

  lemma NothingFreed(s: State, budget: nat)
    requires s.maxFree == 0 && s.currFree == 0
    ensures FreeTables(s, budget) == (s, Ok)
  {
  }

  lemma JammedSlice(s: State, visit: nat, free: nat)
    requires Jammed(s)
    ensures var s' := RunSlice(s, visit, free).0; Jammed(s') && s'.tables.Keys == s.tables.Keys
  {
    hide MarkTables, FreeTables, EndRound;
    var s0 := s.(currVisit := 0, currFree := 0);
    MarkTablesLevel(s0, visit);
    if s.maxVisit == 0 {
      NothingVisited(s0, visit);
    } else {
      NothingFreed(MarkTables(s0, visit).0, free);
    }
  }

  lemma JammedStep(s: State, a: Action)
    requires Jammed(s) && Allowed(s, a)
    ensures Jammed(Do(s, a)) && forall x :: x in s.tables ==> x in Do(s, a).tables
  {
    if a.Slice? {
      hide RunSlice, Allowed;
      JammedSlice(s, a.visit, a.frees);
    } else {
      hide Do, FromRoots, KidsOf, CanStore, CanRoot;
      MarksStay(s, a);
    }
  }

  lemma {:induction false} JammedRun(s: State, acts: seq<Action>, t: TableId)
    requires Jammed(s) && Runs(s, acts) && t in s.tables
    ensures t in After(s, acts).tables
    decreases acts
  {
    hide Allowed, Do, Jammed;
    if acts != [] {
      JammedStep(s, acts[0]);
      JammedRun(Do(s, acts[0]), acts[1..], t);
    }
  }

  // ----- exactly when a root can be lost -----

  /**
    A root-reachable table that is made a root can be freed while it stays a root exactly when a round is open and not
    stuck for want of budget, the round has neither marked nor queued the table, and no table out of the callers' reach
    will lead marking to it.
   */
  lemma RootLostExactly(s: State, t: TableId)
    requires Inv(s) && FromRoots(s, t) && t !in s.roots && |s.roots| < MAX_ROOTS
    ensures CanBeLost(AddRoot(s, t).0, t) <==> s.begin && !Jammed(s) && !Safe(s, t) && !Shielded(s, t)
  {
    hide Inv, FromRoots, Shielded, Safe, Runs, After, AddRoot, Pending, KeepsRoot;
    var s' := AddRoot(s, t).0;
    AddRootIs(s, t);
    if s.begin && !Safe(s, t) {
      if Shielded(s, t) {
        PendingStarts(s, t);
      } else if !Jammed(s) {
        LateRootLost(s, t);
      }
    } else {
      AddRootKeeps(s, t);
    }
    forall acts | (Pending(s', t) || Inv(s') || Jammed(s')) && Runs(s', acts) && KeepsRoot(acts, t)
      ensures t in After(s', acts).tables
    {
      if Jammed(s') { JammedRun(s', acts, t); } else { RootNeverLost(s', acts, t); }
    }
  }
}
