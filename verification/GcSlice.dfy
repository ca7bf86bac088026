/** A whole slice: it keeps the invariant, changes no element, and frees nothing the roots reach. */
module GcSlice {
  import opened Queues
  import opened Tables
  import opened GcModel
  import opened GcReach
  import opened GcInvariant
  import opened GcSteps

  /** s' has the same roots and fresh tables, and of the tables of s some, with their elements untouched. */
  ghost predicate Frame(s: State, s': State) {
    && s'.roots == s.roots && s'.nursery == s.nursery
    && forall t :: t in s'.tables ==>
         t in s.tables && s'.tables[t].elems == s.tables[t].elems && s'.tables[t].version == s.tables[t].version
  }

  lemma FrameTrans(a: State, b: State, c: State)
    requires Frame(a, b) && Frame(b, c)
    ensures Frame(a, c)
  {
  }

  lemma {:induction false} MarkReachableKeeps(s: State)
    requires Inv(s) && s.begin
    ensures var (s', r) := MarkReachable(s);
      Inv(s') && s'.begin && Frame(s, s') && (r == Ok || (r == Empty && s'.markQ == []))
    ensures MarkReachable(s).0.maxVisit == s.maxVisit
    decreases s.maxVisit - s.currVisit
  {
    hide Inv, Frame;
    if s.currVisit >= s.maxVisit || s.markQ == [] {
      assert Frame(s, s) by { FrameRefl(s); }
    } else {
      MarkOneKeeps(s);
      MarkOneFrame(s);
      MarkReachableKeeps(MarkOne(s));
      FrameTrans(s, MarkOne(s), MarkReachable(MarkOne(s)).0);
    }
  }

  lemma FrameRefl(s: State)
    ensures Frame(s, s)
  {
  }

  lemma MarkOneFrame(s: State)
    requires Inv(s) && s.markQ != []
    ensures Frame(s, MarkOne(s)) && MarkOne(s).maxVisit == s.maxVisit
  {
    MarkOneEffect(s) by { InvShape(s); }
  }

  lemma InvShape(s: State)
    requires Inv(s)
    ensures Shape(s)
  {
  }

  lemma SweepOneFrame(s: State, p: Phase)
    requires Inv(s) && Queue(s, p) != []
    ensures var s' := SweepOne(s, p); Frame(s, s') && s'.maxVisit == s.maxVisit && (p == Sweep ==> s'.prevQ == s.prevQ)
  {
    hide Enqueue, Kids, SortedKeys, NoDup, Ascending;
    InvShape(s);
    assert InSweep(s, Queue(s, p)[0]);
  }

  lemma {:induction false} MarkGarbageKeeps(s: State, p: Phase)
    requires Inv(s) && s.begin && s.markQ == []
    ensures var (s', r) := MarkGarbage(s, p);
      && Inv(s') && s'.begin && s'.markQ == [] && Frame(s, s')
      && (r == Ok || (r == Empty && Queue(s', p) == []))
      && (p == Sweep ==> s'.prevQ == s.prevQ)
      && s'.maxVisit == s.maxVisit
    decreases s.maxVisit - s.currVisit
  {
    hide Inv, Frame, SweepOne;
    if s.currVisit >= s.maxVisit || Queue(s, p) == [] {
      FrameRefl(s);
    } else {
      var s1 := SweepOne(s, p);
      SweepOneKeeps(s, p);
      SweepOneFrame(s, p);
      SweepOneProgress(s, p);
      MarkGarbageKeeps(s1, p);
      FrameTrans(s, s1, MarkGarbage(s1, p).0);
    }
  }

  lemma SweepOneProgress(s: State, p: Phase)
    requires Queue(s, p) != []
    ensures SweepOne(s, p).currVisit > s.currVisit
  {
  }

  lemma NextVisitKeeps(s: State, budget: nat)
    requires Inv(s)
    ensures Inv(NextVisit(s, budget)) && Frame(s, NextVisit(s, budget))
  {
    hide Reach, SortedKeys, Kids, NoDup, Ascending;
    BudgetsKeep(s, NextVisit(s, budget));
  }

  /** Budgets and counters play no part in the invariant. */
  lemma BudgetsKeep(s: State, s': State)
    requires Inv(s)
    requires s' == s.(maxVisit := s'.maxVisit, currVisit := s'.currVisit, maxFree := s'.maxFree,
      currFree := s'.currFree)
    ensures Inv(s') && Frame(s, s')
  {
    hide Reach, SortedKeys, Kids, NoDup, Ascending;
    assert forall x :: Kept(s', x) <==> Kept(s, x);
    assert forall x :: Unlinked(s, x) ==> Unlinked(s', x);
    KidsSafeStays(s, s');
  }

  /** Both phases end with ST_OK or ST_EMPTY: the ST_STATE_INVALID branch is never taken. */
  lemma MarkTablesKeeps(s: State, budget: nat)
    requires Inv(s) && s.begin
    ensures var (s', r) := MarkTables(s, budget);
      && Inv(s') && s'.begin && Frame(s, s')
      && (r == Ok || (r == Empty && s'.markQ == [] && s'.prevQ == [] && s'.sweepQ == []))
  {
    hide Inv, Frame, MarkReachable, MarkGarbage;
    var (s1, r1) := MarkReachable(s);
    MarkReachableKeeps(s);
    NextVisitKeeps(s1, budget);
    FrameTrans(s, s1, NextVisit(s1, budget));
    if r1 == Empty {
      var (s2, r2) := MarkGarbage(s1, Prev);
      MarkGarbageKeeps(s1, Prev);
      FrameTrans(s, s1, s2);
      NextVisitKeeps(s2, budget);
      FrameTrans(s, s2, NextVisit(s2, budget));
      if r2 == Empty {
        var (s3, r3) := MarkGarbage(s2, Sweep);
        MarkGarbageKeeps(s2, Sweep);
        FrameTrans(s, s2, s3);
        NextVisitKeeps(s3, budget);
        FrameTrans(s, s3, NextVisit(s3, budget));
      }
    }
  }

  lemma {:induction false} FreeTablesKeeps(s: State, budget: nat)
    requires Inv(s) && s.begin && s.markQ == [] && s.prevQ == [] && s.sweepQ == []
    ensures var (s', r) := FreeTables(s, budget);
      && Inv(s') && s'.begin && s'.markQ == [] && s'.prevQ == [] && s'.sweepQ == [] && Frame(s, s')
      && (r == Ok || (r == Empty && s'.garbageQ == []))
    decreases s.maxFree - s.currFree
  {
    hide Inv, Frame;
    if s.currFree >= s.maxFree || s.garbageQ == [] {
      BudgetsKeep(s, FreeTables(s, budget).0);
    } else {
      FreeOneKeeps(s);
      FreeOneFrame(s);
      FreeTablesKeeps(FreeOne(s), budget);
      FrameTrans(s, FreeOne(s), FreeTables(FreeOne(s), budget).0);
    }
  }

  lemma FreeOneFrame(s: State)
    requires s.garbageQ != []
    ensures Frame(s, FreeOne(s))
  {
  }

  lemma EndRoundFrame(s: State)
    ensures Frame(s, EndRound(s)) && Frame(s, BeginRound(s))
  {
  }

  /** The work of a slice inside an open round. */
  lemma SliceBodyKeeps(s: State, visit: nat, free: nat)
    requires Inv(s) && s.begin
    ensures var (s', r) := SliceBody(s, visit, free); Inv(s') && Frame(s, s') && r == Ok
  {
    hide Inv, Frame, MarkTables, FreeTables, EndRound;
    var (s2, r2) := MarkTables(s, visit);
    MarkTablesKeeps(s, visit);
    if r2 == Empty {
      var (s3, r3) := FreeTables(s2, free);
      FreeTablesKeeps(s2, free);
      FrameTrans(s, s2, s3);
      if r3 == Empty {
        EndRoundKeeps(s3);
        EndRoundFrame(s3);
        FrameTrans(s, s3, EndRound(s3));
      }
    }
  }

  /** A slice with any budgets keeps the invariant and ends with ST_OK or ST_NO_GC_DATA. */
  lemma RunSliceKeeps(s: State, visit: nat, free: nat)
    requires Inv(s)
    ensures var (s', r) := RunSlice(s, visit, free); Inv(s') && Frame(s, s') && (r == Ok || r == NoGcData)
  {
    hide Inv, Frame, SliceBody, BeginRound;
    var s0 := s.(currVisit := 0, currFree := 0);
    BudgetsKeep(s, s0);
    if s.begin || s.sweepQ != [] || s.prevQ != [] {
      var s1 := if s.begin then s0 else BeginRound(s0);
      EndRoundFrame(s0);
      FrameRefl(s0);
      FrameTrans(s, s0, s1);
      if !s.begin { BeginRoundKeeps(s0); BeginRoundBegins(s0); }
      SliceBodyKeeps(s1, visit, free);
      FrameTrans(s, s1, SliceBody(s1, visit, free).0);
    }
  }

  lemma BeginRoundBegins(s: State)
    ensures BeginRound(s).begin
  {
  }

  /** Whatever the roots reach before a slice is still there after it, unchanged and still reachable. */
  lemma SliceSafe(s: State, s': State, t: TableId)
    requires Frame(s, s') && NoDangling(s') && FromRoots(s, t)
    ensures t in s'.tables && FromRoots(s', t)
  {
    var inside := (x: TableId) => FromRoots(s', x);
    forall x | x in Members(s.roots)
      ensures inside(x)
    {
      ReachSource(s'.tables, Members(s'.roots), x);
    }
    forall a, b | inside(a) && Edge(s.tables, a, b)
      ensures inside(b)
    {
      RootsKept(s', a);
      ReachStep(s'.tables, Members(s'.roots), a, b);
    }
    ReachInClosed(s.tables, Members(s.roots), inside, t);
    RootsKept(s', t);
  }

  lemma RootsKept(s: State, t: TableId)
    requires FromRoots(s, t)
    ensures Kept(s, t)
  {
    hide Kids;
    var p :| Path(s.tables, p) && p[0] in Members(s.roots) && p[|p| - 1] == t;
  }
}
