/** Each single step of the collector keeps the invariant. */
module GcSteps {
  import opened Queues
  import opened Tables
  import opened GcModel
  import opened GcReach
  import opened GcInvariant

  /** s' refers to nothing that s did not refer to. */
  ghost predicate NoNewEdges(s: State, s': State) {
    forall a, b :: Edge(s'.tables, a, b) ==> Edge(s.tables, a, b)
  }

  lemma KeptShrinks(s: State, s': State)
    requires NoNewEdges(s, s')
    requires forall x :: x in Sources(s') ==> Kept(s, x)
    ensures forall t :: Kept(s', t) ==> Kept(s, t)
  {
    forall t | Kept(s', t)
      ensures Kept(s, t)
    {
      forall a, b | Kept(s, a) && Edge(s'.tables, a, b)
        ensures Kept(s, b)
      {
        ReachStep(s.tables, Sources(s), a, b);
      }
      ReachShrinks(s.tables, Sources(s), s'.tables, Sources(s'), t);
    }
  }

  lemma SourcesKept(s: State)
    ensures forall x :: x in Sources(s) ==> Kept(s, x)
  {
    forall x | x in Sources(s)
      ensures Kept(s, x)
    {
      ReachSource(s.tables, Sources(s), x);
    }
  }

  lemma KidsKept(s: State, t: TableId)
    requires Kept(s, t)
    ensures forall k :: k in KidsOf(s, t) ==> Kept(s, k)
  {
    forall k | k in KidsOf(s, t)
      ensures Kept(s, k)
    {
      ReachStep(s.tables, Sources(s), t, k);
    }
  }

  lemma KidsSafeStays(s: State, s': State)
    requires forall x :: x in s'.tables ==> KidsOf(s', x) == KidsOf(s, x)
    requires forall x :: Safe(s, x) ==> Safe(s', x)
    ensures forall x :: KidsSafe(s, x) ==> KidsSafe(s', x)
  {
    hide Safe, Kids;
    forall x | KidsSafe(s, x)
      ensures KidsSafe(s', x)
    {
      if x in s'.tables { assert KidsOf(s', x) == KidsOf(s, x); }
    }
  }

  // ----- marking one table -----

  lemma MarkOneEffect(s: State)
    requires Shape(s) && s.markQ != []
    ensures var t, s' := s.markQ[0], MarkOne(s);
      && s' == s.(tables := s'.tables, markQ := s'.markQ, currVisit := s'.currVisit)
      && t in s.tables && s'.tables == s.tables[t := s.tables[t].(mark := s.round + 1)]
      && NoDup(s'.markQ)
      && (forall x :: x in s'.markQ ==> x != t && (x in s.markQ || (x in KidsOf(s, t) && White(s, x))))
      && (forall x :: x in s.markQ && x != t ==> x in s'.markQ)
      && (forall x :: x in KidsOf(s, t) && White(s, x) && x != t ==> x in s'.markQ)
      && s'.currVisit > s.currVisit
  {
    hide Enqueue, Kids, NoDup, Ascending, SortedKeys, SweepDisjoint;
    var t := s.markQ[0];
    var s1 := s.(tables := WithMark(s.tables, t, s.round + 1), markQ := s.markQ[1..]);
    assert t in s.markQ;
    NoDupTail(s.markQ);
    EnqueueNoDup(s1, KidsOf(s1, t), s1.markQ, {});
  }

  lemma MarkOneKeptShrinks(s: State)
    requires Shape(s) && s.markQ != []
    ensures forall t :: Kept(MarkOne(s), t) ==> Kept(s, t)
  {
    var s' := MarkOne(s);
    MarkOneEffect(s);
    SourcesKept(s);
    KidsKept(s, s.markQ[0]);
    KeptShrinks(s, s');
  }

  /** A table on its way to be scanned refers only to allocated tables, and to no unlinked one. */
  lemma SourceKids(s: State, t: TableId)
    requires NoDangling(s) && t in Sources(s)
    ensures forall k :: k in KidsOf(s, t) ==> k in s.tables && !Unlinked(s, k)
  {
    SourcesKept(s);
    KidsKept(s, t);
    forall k | k in KidsOf(s, t)
      ensures !Unlinked(s, k)
    {
      assert Edge(s.tables, t, k);
    }
  }

  lemma MarkOneSafe(s: State)
    requires Shape(s) && Colours(s) && TriColour(s) && NoDangling(s) && s.markQ != []
    ensures forall x :: Safe(s, x) ==> Safe(MarkOne(s), x)
    ensures KidsSafe(MarkOne(s), s.markQ[0])
  {
    hide Reach, SortedKeys, Kids, NoDup, Ascending, MarkOne, Enqueue;
    var t, s' := s.markQ[0], MarkOne(s);
    MarkOneEffect(s);
    SourceKids(s, t);
    forall k | k in KidsOf(s', t)
      ensures Safe(s', k)
    {
      assert k in KidsOf(s, t);
      if s.garbageQ != [] { assert KidsSafe(s, t); }
    }
  }

  lemma UnlinkedStays(s: State, s': State, t: TableId)
    requires Unlinked(s, t) && t !in s'.markQ && !InSweep(s', t) && NoNewEdges(s, s')
    requires forall x :: Kept(s', x) ==> Kept(s, x)
    ensures Unlinked(s', t)
  {
  }

  lemma MarkOneTriColour(s: State)
    requires Shape(s) && Colours(s) && TriColour(s) && NoDangling(s) && s.markQ != []
    ensures TriColour(MarkOne(s))
  {
    hide Reach, SortedKeys, Kids, NoDup, Ascending, MarkOne, Enqueue;
    var t, s' := s.markQ[0], MarkOne(s);
    MarkOneEffect(s);
    MarkOneSafe(s);
    assert forall x :: KidsOf(s', x) == KidsOf(s, x);
    assert forall x :: x != t && KidsSafe(s, x) ==> KidsSafe(s', x);
    assert forall x :: Black(s', x) && x != t ==> Black(s, x);
    forall x | x in s'.roots && !Safe(s', x)
      ensures Unlinked(s', x)
    {
      MarkOneKeptShrinks(s);
      UnlinkedStays(s, s', x);
    }
    if s'.garbageQ != [] {
      assert KidsSafe(s, t);
      forall x | x in s'.markQ
        ensures KidsSafe(s', x)
      {
        assert x in s.markQ && KidsSafe(s, x);
      }
    }
  }

  lemma MarkOneNursery(s: State)
    requires Shape(s) && NurseryFresh(s) && s.markQ != []
    ensures NurseryFresh(MarkOne(s))
  {
    hide Reach, SortedKeys, Kids, NoDup, Ascending, MarkOne, SweepDisjoint;
    MarkOneEffect(s);
    MarkOneKeptShrinks(s);
    SourcesKept(s);
    forall x | x in s.nursery
      ensures Unlinked(MarkOne(s), x) && x != s.markQ[0]
    {
      assert Unlinked(s, x);
      assert !Edge(s.tables, s.markQ[0], x);
    }
  }

  lemma MarkOneKeeps(s: State)
    requires Inv(s) && s.begin && s.markQ != []
    ensures Inv(MarkOne(s)) && MarkOne(s).begin
  {
    hide Reach, SortedKeys, Kids, NoDup, Ascending, MarkOne, Enqueue, Shape, Colours, TriColour, NurseryFresh;
    MarkOneEffect(s);
    MarkOneKeptShrinks(s);
    MarkOneTriColour(s);
    MarkOneNursery(s);
    MarkOneShape(s);
  }

  lemma MarkOneShape(s: State)
    requires Shape(s) && Colours(s) && NoDangling(s) && s.begin && s.markQ != []
    ensures Shape(MarkOne(s)) && Colours(MarkOne(s))
  {
    hide Reach, SortedKeys, Kids, NoDup, Ascending, MarkOne, SweepDisjoint;
    var s' := MarkOne(s);
    MarkOneEffect(s);
    SourcesKept(s);
    KidsKept(s, s.markQ[0]);
    hide Kept;
    SameSweep(s, s');
    assert White(s, s.markQ[0]);
    assert forall x :: Garbage(s', x) <==> Garbage(s, x);
  }

  // ----- classifying one swept table -----

  /** t leaves the queues being swept; only unknown kids of t may join them. */
  ghost predicate Swept(s: State, s': State, t: TableId) {
    && s' == s.(tables := s'.tables, prevQ := s'.prevQ, sweepQ := s'.sweepQ, garbageQ := s'.garbageQ,
                remainedQ := s'.remainedQ, currVisit := s'.currVisit)
    && s'.currVisit > s.currVisit
    && (t in s.prevQ || t in s.sweepQ) && t in s.tables
    && SweepDisjoint(s')
    && (forall x :: x in s'.prevQ || x in s'.sweepQ ==>
          x != t && (x in s.prevQ || x in s.sweepQ || (x in KidsOf(s, t) && White(s, x) && !InSweep(s, x))))
  }

  ghost predicate SweptBlack(s: State, s': State, t: TableId) {
    && Swept(s, s', t) && s'.tables == s.tables && s'.garbageQ == s.garbageQ
    && (forall x :: x in s'.remainedQ ==> x in s.remainedQ || x == t)
  }

  ghost predicate SweptWhite(s: State, s': State, t: TableId) {
    && Swept(s, s', t) && s'.tables == s.tables[t := s.tables[t].(mark := s.round + 2)]
    && s'.garbageQ == s.garbageQ + [t] && s'.remainedQ == s.remainedQ
    && (forall k :: k in KidsOf(s, t) && White(s, k) ==> InSweep(s', k))
    && (forall x :: InSweep(s, x) ==> InSweep(s', x))
  }

  lemma SweepBlackEffect(s: State, p: Phase)
    requires Shape(s) && Queue(s, p) != [] && Black(s, Queue(s, p)[0])
    ensures SweptBlack(s, SweepOne(s, p), Queue(s, p)[0])
  {
    hide Kids, SortedKeys, NoDup, Ascending;
    var t := Queue(s, p)[0];
    NoDupTail(Queue(s, p));
    NoDupConcat(s.remainedQ, [t]);
    NoDupSingle(t);
  }

  /** How the kids of t join the queue being swept. */
  lemma SweepEnqueue(s: State, p: Phase, s2: State, q: seq<TableId>)
    requires Shape(s) && Queue(s, p) != []
    requires var t := Queue(s, p)[0];
      s2 == WithQueue(s, p, Queue(s, p)[1..]).(tables := WithMark(s.tables, t, s.round + 2), garbageQ := s.garbageQ
        + [t])
    requires q == Enqueue(s2, KidsOf(s2, Queue(s, p)[0]), Queue(s2, p), OtherSweepNodes(s2, p))
    ensures var t := Queue(s, p)[0];
      && NoDup(q) && |q| >= |Queue(s2, p)|
      && (forall x :: x in q ==> x != t && (x in Queue(s, p) || (x in KidsOf(s, t) && White(s, x) && !InSweep(s, x))))
      && (forall x :: x in Queue(s, p) ==> x in q || x == t)
      && (forall k :: k in KidsOf(s, t) && White(s, k) ==> k in q || k in OtherSweepNodes(s2, p))
  {
    hide Kids, SortedKeys, NoDup, Ascending, Enqueue;
    var t := Queue(s, p)[0];
    NoDupTail(Queue(s, p));
    EnqueueNoDup(s2, KidsOf(s2, t), Queue(s2, p), OtherSweepNodes(s2, p));
    assert KidsOf(s2, t) == KidsOf(s, t);
    assert t in OtherSweepNodes(s2, p);
  }

  /** Condemning one swept table, as one queue of unknown kids joining the queue being swept. */
  lemma SweepWhiteIs(s: State, p: Phase) returns (s2: State, q: seq<TableId>)
    requires Shape(s) && Queue(s, p) != [] && !Black(s, Queue(s, p)[0])
    ensures var t := Queue(s, p)[0];
      && s2 == WithQueue(s, p, Queue(s, p)[1..]).(tables := WithMark(s.tables, t, s.round + 2), garbageQ := s.garbageQ
        + [t])
      && q == Enqueue(s2, KidsOf(s2, t), Queue(s2, p), OtherSweepNodes(s2, p)) && |q| >= |Queue(s2, p)|
      && SweepOne(s, p) == WithQueue(s2, p, q).(currVisit := s.currVisit + (|q| - |Queue(s2, p)|) + 1)
  {
    hide Kids, SortedKeys, NoDup, Ascending, Enqueue, OtherSweepNodes, SweepDisjoint;
    var t := Queue(s, p)[0];
    s2 := WithQueue(s, p, Queue(s, p)[1..]).(tables := WithMark(s.tables, t, s.round + 2), garbageQ := s.garbageQ
      + [t]);
    q := Enqueue(s2, KidsOf(s2, t), Queue(s2, p), OtherSweepNodes(s2, p));
  }

  /** The queue being swept became q, and t went to the garbage. */
  predicate Requeued(s: State, s': State, p: Phase, t: TableId, q: seq<TableId>) {
    && Queue(s', p) == q && s'.garbageQ == s.garbageQ + [t] && s'.remainedQ == s.remainedQ
    && (if p == Prev then s'.sweepQ == s.sweepQ else s'.prevQ == s.prevQ)
  }

  lemma RequeuedDisjoint(s: State, s': State, p: Phase, t: TableId, q: seq<TableId>)
    requires SweepDisjoint(s) && t in Queue(s, p) && Requeued(s, s', p, t, q) && NoDup(q)
    requires forall x :: x in q ==> x != t && (x in Queue(s, p) || !InSweep(s, x))
    ensures SweepDisjoint(s')
  {
    hide NoDup;
    NoDupConcat(s.garbageQ, [t]);
    NoDupSingle(t);
  }

  lemma RequeuedMembers(s: State, s': State, p: Phase, t: TableId, q: seq<TableId>)
    requires Requeued(s, s', p, t, q) && t in Queue(s, p)
    requires forall x :: x in Queue(s, p) ==> x in q || x == t
    ensures forall x :: x in s'.prevQ || x in s'.sweepQ ==>
      x in q || (x in s.prevQ && p == Sweep) || (x in s.sweepQ && p == Prev)
    ensures forall x :: InSweep(s, x) ==> InSweep(s', x)
    ensures InSweep(s', t) && forall x :: x in q ==> InSweep(s', x)
  {
  }

  lemma SweepWhiteFields(s: State, p: Phase)
    requires Shape(s) && Queue(s, p) != [] && !Black(s, Queue(s, p)[0])
    ensures var t, s' := Queue(s, p)[0], SweepOne(s, p);
      && s' == s.(tables := s'.tables, prevQ := s'.prevQ, sweepQ := s'.sweepQ, garbageQ := s'.garbageQ,
        currVisit := s'.currVisit)
      && s'.currVisit > s.currVisit && t in s.tables && s'.tables == s.tables[t := s.tables[t].(mark := s.round + 2)]
      && s'.garbageQ == s.garbageQ + [t]
  {
    hide Kids, SortedKeys, NoDup, Ascending, Enqueue, SweepOne, KidsOf, White, SweepDisjoint, OtherSweepNodes, Shape;
    SweptHead(s, p);
    var s2, q := SweepWhiteIs(s, p);
  }

  lemma SweepWhiteQueues(s: State, p: Phase)
    requires Shape(s) && Queue(s, p) != [] && !Black(s, Queue(s, p)[0])
    ensures var t, s' := Queue(s, p)[0], SweepOne(s, p);
      && SweepDisjoint(s')
      && (forall x :: x in s'.prevQ || x in s'.sweepQ ==>
            x != t && (x in s.prevQ || x in s.sweepQ || (x in KidsOf(s, t) && White(s, x) && !InSweep(s, x))))
      && (forall k :: k in KidsOf(s, t) && White(s, k) ==> InSweep(s', k))
      && (forall x :: InSweep(s, x) ==> InSweep(s', x))
  {
    hide Kids, SortedKeys, NoDup, Ascending, Enqueue, SweepOne, KidsOf, White, Requeued, InSweep, SweepDisjoint, Shape,
      WithQueue;
    var t, s' := Queue(s, p)[0], SweepOne(s, p);
    var s2, q := SweepWhiteIs(s, p);
    SweepEnqueue(s, p, s2, q);
    SweptHead(s, p);
    OtherNodes(s, s2, p, t);
    RequeuedIs(s, s2, s', p, t, q);
    RequeuedDisjoint(s, s', p, t, q);
    RequeuedMembers(s, s', p, t, q);
  }

  lemma SweepWhiteEffect(s: State, p: Phase)
    requires Shape(s) && Queue(s, p) != [] && !Black(s, Queue(s, p)[0])
    ensures SweptWhite(s, SweepOne(s, p), Queue(s, p)[0])
  {
    hide SweepOne, KidsOf, White, InSweep, SweepDisjoint, Shape;
    SweptHead(s, p);
    SweepWhiteFields(s, p);
    SweepWhiteQueues(s, p);
  }

  lemma RequeuedIs(s: State, s2: State, s': State, p: Phase, t: TableId, q: seq<TableId>)
    requires exists r :: s2 == WithQueue(s, p, r).(tables := s2.tables, garbageQ := s.garbageQ + [t])
    requires s' == WithQueue(s2, p, q).(currVisit := s'.currVisit)
    ensures Requeued(s, s', p, t, q)
  {
  }

  lemma SweptHead(s: State, p: Phase)
    requires Shape(s) && Queue(s, p) != []
    ensures var t := Queue(s, p)[0];
      && t in s.tables && t in Queue(s, p) && (t in s.prevQ || t in s.sweepQ) && SweepDisjoint(s)
      && (p == Sweep ==> t !in s.prevQ) && (p == Prev ==> t !in s.sweepQ)
  {
    hide SortedKeys, NoDup, Ascending;
    assert InSweep(s, Queue(s, p)[0]);
  }

  lemma OtherNodes(s: State, s2: State, p: Phase, t: TableId)
    requires exists r :: s2 == WithQueue(s, p, r).(tables := s2.tables, garbageQ := s.garbageQ + [t])
    ensures forall x :: x in OtherSweepNodes(s2, p) ==> InSweep(s, x) || x == t
  {
  }

  lemma SweptKeptShrinks(s: State, s': State, t: TableId)
    requires Shape(s) && (SweptBlack(s, s', t) || SweptWhite(s, s', t))
    ensures forall x :: Kept(s', x) ==> Kept(s, x)
  {
    hide Reach, SortedKeys, Kids, NoDup, Ascending;
    SourcesKept(s);
    KidsKept(s, t);
    KeptShrinks(s, s');
  }

  /** With nothing left to mark, a swept table that is not black is neither a root nor fresh. */
  lemma SweptNotRoot(s: State, t: TableId)
    requires Inv(s) && s.begin && s.markQ == [] && (t in s.prevQ || t in s.sweepQ) && !Black(s, t)
    ensures White(s, t) && t !in s.roots && t !in s.nursery
  {
    hide Reach, SortedKeys, Kids, NoDup, Ascending;
    assert InSweep(s, t) && !Unlinked(s, t);
  }

  lemma UnlinkedAll(s: State, s': State)
    requires NoNewEdges(s, s')
    requires forall x :: Kept(s', x) ==> Kept(s, x)
    ensures forall x :: Unlinked(s, x) && x !in s'.markQ && !InSweep(s', x) ==> Unlinked(s', x)
  {
    hide Reach, Kids;
  }

  /** An unlinked table is not drawn into the sweep. */
  lemma SweptUnlinked(s: State, s': State, t: TableId)
    requires Shape(s) && NoDangling(s) && (SweptBlack(s, s', t) || SweptWhite(s, s', t))
    ensures forall x :: Unlinked(s, x) ==> Unlinked(s', x) && x != t
  {
    hide Reach, SortedKeys, Kids, NoDup, Ascending;
    SweptKeptShrinks(s, s', t);
    UnlinkedAll(s, s');
    SourceKids(s, t);
  }

  lemma SweptWhiteColours(s: State, s': State, t: TableId)
    requires Inv(s) && s.begin && s.markQ == [] && SweptWhite(s, s', t) && !Black(s, t)
    ensures Shape(s') && Colours(s')
  {
    hide Reach, SortedKeys, Kids, NoDup, Ascending, NurseryFresh, TriColour, Unlinked;
    SweptNotRoot(s, t);
    SourceKids(s, t);
    assert forall x :: Garbage(s', x) <==> Garbage(s, x) || x == t;
  }

  lemma SweptWhiteKeeps(s: State, s': State, t: TableId)
    requires Inv(s) && s.begin && s.markQ == [] && SweptWhite(s, s', t) && !Black(s, t)
    ensures Inv(s')
  {
    hide Reach, SortedKeys, Kids, NoDup, Ascending, Shape, Colours, Unlinked, Swept;
    SweptWhiteColours(s, s', t);
    SweptKeptShrinks(s, s', t);
    SweptUnlinked(s, s', t);
    SweptFrame(s, s', t);
    SweptNotRoot(s, t);
    assert forall x :: KidsOf(s', x) == KidsOf(s, x);
    assert forall x :: Black(s', x) <==> Black(s, x);
    KidsSafeStays(s, s');
  }

  lemma SweptFrame(s: State, s': State, t: TableId)
    requires Swept(s, s', t)
    ensures s'.roots == s.roots && s'.markQ == s.markQ && s'.nursery == s.nursery
    ensures s'.round == s.round && s'.begin == s.begin
    ensures t in s.tables && (t in s.prevQ || t in s.sweepQ)
  {
  }

  lemma SweptBlackKeeps(s: State, s': State, t: TableId)
    requires Inv(s) && s.begin && s.markQ == [] && SweptBlack(s, s', t) && Black(s, t)
    ensures Inv(s')
  {
    hide Reach, SortedKeys, Kids, NoDup, Ascending, Unlinked, Shape, Colours, Swept;
    SweptBlackShape(s, s', t);
    SweptKeptShrinks(s, s', t);
    SweptUnlinked(s, s', t);
    SweptFrame(s, s', t);
    assert forall x :: KidsOf(s', x) == KidsOf(s, x);
    KidsSafeStays(s, s');
  }

  lemma SweptBlackShape(s: State, s': State, t: TableId)
    requires Shape(s) && Colours(s) && NoDangling(s) && s.begin && SweptBlack(s, s', t) && Black(s, t)
    ensures Shape(s') && Colours(s')
  {
    hide Reach, SortedKeys, Kids, NoDup, Ascending, Unlinked, Kept;
    SourceKids(s, t);
  }

  lemma SweepOneKeeps(s: State, p: Phase)
    requires Inv(s) && s.begin && s.markQ == [] && Queue(s, p) != []
    ensures Inv(SweepOne(s, p)) && SweepOne(s, p).begin && SweepOne(s, p).markQ == []
    ensures !Garbage(s, Queue(s, p)[0])
  {
    hide Reach, SortedKeys, Kids, NoDup, Ascending, SweepOne, TriColour, NurseryFresh, NoDangling;
    var t, s' := Queue(s, p)[0], SweepOne(s, p);
    assert InSweep(s, t);
    if Black(s, t) {
      SweepBlackEffect(s, p);
      SweptBlackKeeps(s, s', t);
    } else {
      SweepWhiteEffect(s, p);
      SweptWhiteKeeps(s, s', t);
    }
  }

  // ----- freeing one table -----

  /** Once both sweeps are over, no traversal can meet garbage. */
  lemma GarbageUnreachable(s: State, t: TableId)
    requires Inv(s) && s.begin && s.markQ == [] && s.prevQ == [] && s.sweepQ == [] && Kept(s, t)
    ensures !Garbage(s, t)
  {
    hide Reach, SortedKeys, Kids, NoDup, Ascending;
    var inside := (x: TableId) => Black(s, x) || x in s.roots || x in s.nursery;
    forall a, b | inside(a) && Edge(s.tables, a, b)
      ensures inside(b)
    {
      assert KidsSafe(s, a) && b in KidsOf(s, a);
    }
    ReachInClosed(s.tables, Sources(s), inside, t);
    assert Garbage(s, t) ==> InSweep(s, t) && !Unlinked(s, t);
  }

  lemma FreeOneKeeps(s: State)
    requires Inv(s) && s.begin && s.markQ == [] && s.prevQ == [] && s.sweepQ == [] && s.garbageQ != []
    ensures Inv(FreeOne(s))
  {
    hide Reach, SortedKeys, Kids, NoDup, Ascending;
    var g, s' := s.garbageQ[0], FreeOne(s);
    SourcesKept(s);
    KeptShrinks(s, s');
    NoDupTail(s.garbageQ);
    assert Garbage(s, g);
    forall x | Kept(s, x)
      ensures x != g
    {
      GarbageUnreachable(s, x);
    }
    UnlinkedAll(s, s');
    assert forall x :: Black(s', x) <==> Black(s, x);
    KidsSafeStays(s, s');
    assert Shape(s') && Colours(s');
  }

  // ----- opening and closing a round -----

  lemma BeginRoundKeeps(s: State)
    requires Inv(s) && !s.begin
    ensures Inv(BeginRound(s))
  {
    hide Reach, SortedKeys, Kids, NoDup, Ascending, RootsToMark, Unlinked, SweepDisjoint;
    var s' := BeginRound(s);
    RootsToMarkNoDup(s.roots, s.markQ);
    SourcesKept(s);
    KeptShrinks(s, s');
    UnlinkedAll(s, s');
    hide Kept, NoNewEdges;
    assert s.garbageQ != [] ==> Garbage(s, s.garbageQ[0]);
    SameSweep(s, s');
    BeginRoundNursery(s, s');
  }

  lemma SameSweep(s: State, s': State)
    requires s'.prevQ == s.prevQ && s'.sweepQ == s.sweepQ && s'.garbageQ == s.garbageQ && s'.remainedQ == s.remainedQ
    ensures SweepDisjoint(s') <==> SweepDisjoint(s)
    ensures forall x :: InSweep(s', x) <==> InSweep(s, x)
  {
    hide NoDup;
  }

  lemma BeginRoundNursery(s: State, s': State)
    requires NurseryFresh(s) && s' == BeginRound(s)
    requires forall x :: Unlinked(s, x) && x !in s'.markQ && !InSweep(s', x) ==> Unlinked(s', x)
    ensures NurseryFresh(s')
  {
    hide Kids, RootsToMark, Kept;
  }

  lemma {:induction false} RootsToMarkNoDup(roots: seq<TableId>, q: seq<TableId>)
    requires NoDup(q)
    ensures NoDup(RootsToMark(roots, q))
    decreases roots
  {
    if roots != [] {
      NoDupConcat(q, [roots[0]]);
      RootsToMarkNoDup(roots[1..], if roots[0] !in q then q + [roots[0]] else q);
    }
  }

  lemma EndRoundKeeps(s: State)
    requires Inv(s) && s.begin && s.garbageQ == []
    ensures Inv(EndRound(s))
  {
    hide Reach, SortedKeys, Kids, NoDup, Ascending;
    var s' := EndRound(s);
    SourcesKept(s);
    KeptShrinks(s, s');
    NoDupConcat(s.prevQ, s.remainedQ);
    assert forall x :: InSweep(s', x) <==> InSweep(s, x);
    forall x | x in s.nursery
      ensures Unlinked(s', x)
    {
      UnlinkedStays(s, s', x);
    }
  }
}
