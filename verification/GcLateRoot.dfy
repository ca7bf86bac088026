/**
  Why a root may not be added late: a table that the roots reach, that the open round has neither marked nor
  queued, and that is made a root and then unlinked, is freed while it is a root.
 */
module GcLateRoot {
  import opened Tables
  import opened GcModel
  import opened GcReach
  import opened GcInvariant
  import opened GcRuns

  /** A run that ends inside a round: root 0 marked, its kid 1 queued, 1's kid 2 still unknown. */
  const Prelude: seq<Action> :=
    [New(0), AddR(0), New(1), Add(0, 7, Ref(1)), New(2), Add(1, 7, Ref(2)), Set(1, 7, Ref(2)), Slice(1, 50),
      Slice(100, 50)]

  const T: Table := Table([], 0, 0)
  const S1 := Initial.(tables := map[0 := T], nursery := {0})
  const S2 := S1.(roots := [0], nursery := {})
  const S3 := S2.(tables := map[0 := T, 1 := T], nursery := {1})
  const S4 := S3.(tables := map[0 := Table([Element(7, Ref(1))], 0, 1), 1 := T], nursery := {}, markQ := [1])
  const S5 := S4.(tables := S4.tables[2 := T], nursery := {2})
  const S6 := S5.(tables := S5.tables[1 := Table([Element(7, Ref(2))], 0, 1)], nursery := {}, markQ := [1, 2])
  const S7 := S6.(tables := S6.tables[1 := Table([Element(7, Ref(2))], 0, 2)], sweepQ := [2])
  const S8 := S7.(
    tables := map[0 := Table([Element(7, Ref(1))], 1, 1), 1 := Table([Element(7, Ref(2))], 1, 2), 2 := Table([], 1, 0)],
    markQ := [], sweepQ := [], prevQ := [2], round := 4, maxVisit := 1, currVisit := 4)
  const S9 := S8.(
    tables := S8.tables[0 := Table([Element(7, Ref(1))], 5, 1)], markQ := [1], begin := true, maxVisit := 100,
      currVisit := 2)

  const Rooted := S9.(roots := [0, 2])
  const Cut := Rooted.(tables := S9.tables[1 := Table([], 1, 3)], prevQ := [], sweepQ := [2])
  const Marked := Cut.(tables := Cut.tables[1 := Table([], 5, 3)], markQ := [], currVisit := 1)
  const Condemned := Marked.(tables := Marked.tables[2 := Table([], 6, 0)], sweepQ := [], garbageQ := [2],
    currVisit := 2)

  lemma OneKid(k: int, t: TableId)
    ensures Kids([Element(k, Ref(t))]) == [t]
  {
    KidsSingle(Element(k, Ref(t)));
  }

  lemma Allocating()
    ensures Do(Initial, New(0)) == S1 && Do(S1, AddR(0)) == S2 && Do(S2, New(1)) == S3 && Do(S4, New(2)) == S5
  {
  }

  lemma Linking()
    ensures Do(S3, Add(0, 7, Ref(1))) == S4 && Do(S5, Add(1, 7, Ref(2))) == S6
  {
    assert [][..0] + [Element(7, Ref(1))] + [][0..] == [Element(7, Ref(1))];
    assert [][..0] + [Element(7, Ref(2))] + [][0..] == [Element(7, Ref(2))];
  }

  lemma Relinking()
    ensures Do(S6, Set(1, 7, Ref(2))) == S7
  {
    assert Rank([Element(7, Ref(2))], 7) == 0;
    assert [Element(7, Ref(2))][0 := Element(7, Ref(2))] == [Element(7, Ref(2))];
  }

  const M0 := S7.(markQ := [1, 2, 0], begin := true)
  const M1 := M0.(tables := M0.tables[1 := Table([Element(7, Ref(2))], 1, 2)], markQ := [2, 0], currVisit := 1)
  const M2 := M1.(tables := M1.tables[2 := Table([], 1, 0)], markQ := [0], currVisit := 2)
  const M3 := M2.(tables := S8.tables, markQ := [], currVisit := 3)
  const M4 := M3.(sweepQ := [], remainedQ := [2], currVisit := 4)

  lemma FirstMarks()
    ensures MarkOne(M0) == M1 && MarkOne(M1) == M2
  {
    OneKid(7, 2);
    EmptyKids();
    hide Kids;
  }

  lemma LastMark()
    ensures MarkOne(M2) == M3
  {
    OneKid(7, 1);
    hide Kids;
  }

  lemma FirstMarking()
    ensures MarkReachable(M0) == (M3, Empty)
  {
    FirstMarks();
    LastMark();
    hide MarkOne;
    assert MarkReachable(M3) == (M3, Empty);
    assert MarkReachable(M2) == (M3, Empty);
    assert MarkReachable(M1) == (M3, Empty);
  }

  lemma FirstSweep()
    ensures MarkGarbage(M3, Prev) == (M3, Empty) && MarkGarbage(M3, Sweep) == (M4, Empty)
  {
    hide Kids;
    assert SweepOne(M3, Sweep) == M4;
    assert MarkGarbage(M4, Sweep) == (M4, Empty);
  }

  /** The first round, in one slice, marks all three tables and keeps 2 for the next round. */
  lemma FirstRound()
    ensures Do(S7, Slice(1, 50)) == S8
  {
    FirstMarking();
    FirstSweep();
    hide MarkReachable, MarkGarbage, Kids;
    assert BeginRound(S7) == M0;
    assert MarkTables(M0, 1) == (M4.(maxVisit := 1), Empty);
    assert FreeTables(M4.(maxVisit := 1), 50) == (M4.(maxVisit := 1), Empty);
  }

  /** The second round stops after one table. */
  lemma SecondRound()
    ensures Do(S8, Slice(100, 50)) == S9
  {
    OneKid(7, 1);
    hide Kids;
    var s := BeginRound(S8.(currVisit := 0));
    assert s.markQ == [0];
    assert MarkOne(s) == S9.(maxVisit := 1);
    assert MarkReachable(s) == (S9.(maxVisit := 1), Ok);
  }

  lemma PreludeReach()
    ensures FromRoots(S3, 0) && FromRoots(S5, 1) && FromRoots(S6, 1) && FromRoots(S6, 2) && FromRoots(S9, 2)
  {
    OneKid(7, 1);
    OneKid(7, 2);
    hide Kids, Reach;
    ReachSource(S3.tables, Members(S3.roots), 0);
    ReachSource(S5.tables, Members(S5.roots), 0);
    ReachSource(S6.tables, Members(S6.roots), 0);
    ReachSource(S9.tables, Members(S9.roots), 0);
    ReachStep(S5.tables, Members(S5.roots), 0, 1);
    ReachStep(S6.tables, Members(S6.roots), 0, 1);
    ReachStep(S6.tables, Members(S6.roots), 1, 2);
    ReachStep(S9.tables, Members(S9.roots), 0, 1);
    ReachStep(S9.tables, Members(S9.roots), 1, 2);
  }

  lemma PreludeRuns()
    ensures Runs(Initial, Prelude) && After(Initial, Prelude) == S9 && FromRoots(S9, 2)
  {
    Allocating();
    Linking();
    Relinking();
    FirstRound();
    SecondRound();
    PreludeReach();
    hide Do, FromRoots, Runs, After;
    NoActions(S9);
    assert Prelude[9..] == [] && Prelude[0..] == Prelude;
    RunsStep(S8, Prelude, 8);
    RunsStep(S7, Prelude, 7);
    RunsStep(S6, Prelude, 6);
    RunsStep(S5, Prelude, 5);
    RunsStep(S4, Prelude, 4);
    RunsStep(S3, Prelude, 3);
    RunsStep(S2, Prelude, 2);
    RunsStep(S1, Prelude, 1);
    RunsStep(Initial, Prelude, 0);
  }

  lemma NoActions(s: State)
    ensures Runs(s, []) && After(s, []) == s
  {
  }

  lemma RunsStep(s: State, acts: seq<Action>, i: nat)
    requires i < |acts| && Allowed(s, acts[i]) && Runs(Do(s, acts[i]), acts[i + 1..])
    ensures Runs(s, acts[i..]) && After(s, acts[i..]) == After(Do(s, acts[i]), acts[i + 1..])
  {
    assert acts[i..][1..] == acts[i + 1..];
  }

  /**
    From a state that a run really reaches, making table 2 a root, cutting 1's reference to it and running one slice
    frees 2.
   */
  lemma LateRootIsFreed()
    ensures Runs(Initial, Prelude) && FromRoots(After(Initial, Prelude), 2)
    ensures var s1 := AddRoot(After(Initial, Prelude), 2).0; var s2 := RemoveKey(s1, 1, 7).0;
      var s3 := RunSlice(s2, 100, 50).0;
      2 in s3.roots && 2 !in s3.tables
  {
    PreludeRuns();
    hide Runs, After, FromRoots;
    assert AddRoot(S9, 2).0 == Rooted;
    assert RemoveKey(Rooted, 1, 7).0 == Cut by {
      assert Rank([Element(7, Ref(2))], 7) == 0;
      assert [Element(7, Ref(2))][..0] + [Element(7, Ref(2))][1..] == [];
    }
    LastMarking();
    hide MarkTables;
    assert FreeTables(Condemned, 50) == (FreeOne(Condemned), Empty) by {
      assert FreeTables(FreeOne(Condemned), 50) == (FreeOne(Condemned), Empty);
    }
  }

  lemma LastMarking()
    ensures MarkTables(Cut.(currVisit := 0, currFree := 0), 100) == (Condemned, Empty)
  {
    EmptyKids();
    hide Kids;
    var s0 := Cut.(currVisit := 0, currFree := 0);
    assert MarkOne(s0) == Marked;
    assert MarkReachable(s0) == (Marked, Empty) by { assert MarkReachable(Marked) == (Marked, Empty); }
    assert MarkGarbage(Marked, Prev) == (Marked, Empty);
    assert SweepOne(Marked, Sweep) == Condemned;
    assert MarkGarbage(Marked, Sweep) == (Condemned, Empty) by {
      assert MarkGarbage(Condemned, Sweep) == (Condemned, Empty);
    }
  }
}
