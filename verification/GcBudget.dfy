/** What the budgets of a slice mean: no slice does more work than they allow, and none stops early. */
module GcBudget {
  import opened Tables
  import opened GcModel
  import opened GcInvariant
  import opened GcSteps
  import opened GcSlice
  import opened GcTrace

  /** Tables that were marked or condemned and are still allocated. */
  function Coloured(s: State, s': State): set<TableId> {
    set t | t in s.tables && t in s'.tables && s'.tables[t].mark != s.tables[t].mark
  }

  function Freed(s: State, s': State): set<TableId> {
    s.tables.Keys - s'.tables.Keys
  }

  /** How many tables wait to be visited. */
  function Queued(s: State): nat {
    |s.markQ| + |s.prevQ| + |s.sweepQ|
  }

  /** A step changes the mark of one table at most, or frees one. */
  lemma StepTouches(s: State, m: Micro)
    requires Enabled(s, m)
    ensures |Coloured(s, Step(s, m))| <= Visits([m]) && |Freed(s, Step(s, m))| <= Frees([m])
    ensures Step(s, m).tables.Keys <= s.tables.Keys
  {
    hide MarkOne, SweepOne, WithMark, Coloured;
    var s' := Step(s, m);
    assert Visits([m][1..]) == 0 && Frees([m][1..]) == 0;
    match m
    case MarkStep =>
      MarkOneTables(s);
      OneMark(s, s', s.markQ[0], s.round + 1);
    case SweepStep(p) =>
      SweepOneTables(s, p);
      OneMark(s, s', Queue(s, p)[0], s.round + 2);
    case FreeStep =>
      Few(Freed(s, s'), s.garbageQ[0]);
      SameMarks(s, s');
    case Budget(_, _) => SameMarks(s, s');
  }

  lemma MarkOneTables(s: State)
    requires s.markQ != []
    ensures MarkOne(s).tables == WithMark(s.tables, s.markQ[0], s.round + 1)
  {
    hide WithMark, Enqueue, Kids;
  }

  lemma SweepOneTables(s: State, p: Phase)
    requires Queue(s, p) != []
    ensures SweepOne(s, p).tables in {s.tables, WithMark(s.tables, Queue(s, p)[0], s.round + 2)}
  {
    hide WithMark, Enqueue, Kids;
  }

  lemma SameMarks(s: State, s': State)
    requires forall t :: t in s'.tables ==> t in s.tables && s'.tables[t] == s.tables[t]
    ensures Coloured(s, s') == {}
  {
  }

  lemma OneMark(s: State, s': State, t: TableId, m: int)
    requires s'.tables == s.tables || s'.tables == WithMark(s.tables, t, m)
    ensures |Coloured(s, s')| <= 1 && Freed(s, s') == {} && s'.tables.Keys == s.tables.Keys
  {
    Few(Coloured(s, s'), t);
  }

  lemma Few(a: set<TableId>, t: TableId)
    requires a <= {t}
    ensures |a| <= 1
  {
    assert a == {} || a == {t};
  }

  lemma {:induction false} TraceTouches(s: State, ms: seq<Micro>)
    requires Inv(s) && s.begin && Trace(s, ms)
    ensures |Coloured(s, End(s, ms))| <= Visits(ms) && |Freed(s, End(s, ms))| <= Frees(ms)
    ensures End(s, ms).tables.Keys <= s.tables.Keys
    decreases ms
  {
    hide Inv, Step, Enabled, Frame;
    if ms != [] {
      var s1, s2 := Step(s, ms[0]), End(s, ms);
      StepKeepsInv(s, ms[0]);
      StepTouches(s, ms[0]);
      TraceTouches(s1, ms[1..]);
      CountsConcat([ms[0]], ms[1..]);
      assert [ms[0]] + ms[1..] == ms;
      Union(Coloured(s, s2), Coloured(s, s1), Coloured(s1, s2));
      Union(Freed(s, s2), Freed(s, s1), Freed(s1, s2));
    }
  }

  lemma Union(a: set<TableId>, b: set<TableId>, c: set<TableId>)
    requires a <= b + c
    ensures |a| <= |b| + |c|
  {
    assert |b + c| <= |b| + |c|;
    assert b + c == a + (b + c - a);
  }

  /** However large the heap, a slice marks or condemns at most maxVisit tables and frees at most maxFree. */
  lemma SliceBounded(s: State, visit: nat, free: nat)
    requires Inv(s)
    ensures var s' := RunSlice(s, visit, free).0;
      |Coloured(s, s')| <= s.maxVisit && |Freed(s, s')| <= s.maxFree && s'.tables.Keys <= s.tables.Keys
  {
    hide Inv, Trace, End, RunSlice, Frame, Visits, Frees;
    if s.begin || s.sweepQ != [] || s.prevQ != [] {
      var ms := SliceTrace(s, visit, free);
      OpeningKeeps(s);
      TraceTouches(Opening(s), ms);
    } else {
      NothingDone(s, visit, free);
    }
  }

  lemma NothingDone(s: State, visit: nat, free: nat)
    requires !s.begin && s.sweepQ == [] && s.prevQ == []
    ensures RunSlice(s, visit, free).0.tables == s.tables
  {
  }

  /** A slice that leaves its round open has used up one of its budgets. */
  lemma SliceUsesBudget(s: State, visit: nat, free: nat)
    requires Inv(s) && RunSlice(s, visit, free).0.begin
    ensures var s' := RunSlice(s, visit, free).0; s'.currVisit >= s.maxVisit || s'.currFree >= s.maxFree
  {
    hide Inv, MarkTables, FreeTables, BeginRound, Frame;
    var o := Opening(s);
    OpeningKeeps(s);
    OpeningBudget(s);
    MarkTablesKeeps(o, visit);
    MarkTablesSpent(o, visit);
    MarkTablesFree(o, visit);
    if MarkTables(o, visit).1 == Empty { FreeTablesSpent(MarkTables(o, visit).0, free); }
  }

  /**
    The budgets of the next slice: the visit budget is renewed whenever something was visited, the free budget only when
    the slice stopped for want of it.
   */
  lemma NextBudgets(s: State, visit: nat, free: nat)
    requires Inv(s)
    ensures var s' := RunSlice(s, visit, free).0;
      && s'.maxVisit == (if s'.currVisit > 0 then visit else s.maxVisit)
      && s'.maxFree == (if s'.begin && s'.currFree > 0 then free else s.maxFree)
  {
    hide Inv, MarkTables, FreeTables, BeginRound, Frame;
    var o := Opening(s);
    OpeningKeeps(s);
    OpeningBudget(s);
    MarkTablesKeeps(o, visit);
    MarkTablesSpent(o, visit);
    MarkTablesFree(o, visit);
    FreeTablesSpent(MarkTables(o, visit).0, free);
  }

  lemma {:induction false} MarkReachableSpent(s: State)
    ensures MarkReachable(s).0.maxVisit == s.maxVisit
    ensures MarkReachable(s).1 == Ok ==> MarkReachable(s).0.currVisit >= s.maxVisit
    decreases s.maxVisit - s.currVisit
  {
    hide Enqueue;
    if s.currVisit < s.maxVisit && s.markQ != [] { MarkReachableSpent(MarkOne(s)); }
  }

  lemma {:induction false} MarkGarbageSpent(s: State, p: Phase)
    ensures MarkGarbage(s, p).0.maxVisit == s.maxVisit
    ensures MarkGarbage(s, p).1 == Ok ==> MarkGarbage(s, p).0.currVisit >= s.maxVisit
    decreases s.maxVisit - s.currVisit
  {
    hide Enqueue;
    if s.currVisit < s.maxVisit && Queue(s, p) != [] && !Garbage(s, Queue(s, p)[0]) {
      MarkGarbageSpent(SweepOne(s, p), p);
    }
  }

  lemma MarkTablesSpent(s: State, budget: nat)
    ensures MarkTables(s, budget).1 == Ok ==> MarkTables(s, budget).0.currVisit >= s.maxVisit
    ensures MarkTables(s, budget).1 in {Ok, Empty} ==>
      MarkTables(s, budget).0.maxVisit == if MarkTables(s, budget).0.currVisit > 0 then budget else s.maxVisit
  {
    hide MarkReachable, MarkGarbage;
    MarkReachableSpent(s);
    MarkGarbageSpent(MarkReachable(s).0, Prev);
    MarkGarbageSpent(MarkGarbage(MarkReachable(s).0, Prev).0, Sweep);
  }

  lemma {:induction false} FreeTablesSpent(s: State, budget: nat)
    ensures FreeTables(s, budget).1 in {Ok, Empty}
    ensures FreeTables(s, budget).1 == Ok ==> FreeTables(s, budget).0.currFree >= s.maxFree
    ensures FreeTables(s, budget).0.currVisit == s.currVisit && FreeTables(s, budget).0.maxVisit == s.maxVisit
    ensures FreeTables(s, budget).0.begin == s.begin
    ensures var (s', r) := FreeTables(s, budget);
      s'.maxFree == if r == Ok && s'.currFree > 0 then budget else s.maxFree
    decreases s.maxFree - s.currFree
  {
    if s.currFree < s.maxFree && s.garbageQ != [] { FreeTablesSpent(FreeOne(s), budget); }
  }

  /** The counters: a visited table counts once when it is taken and once for each child that it queues. */
  lemma {:induction false} TraceCounts(s: State, ms: seq<Micro>)
    requires Trace(s, ms)
    ensures End(s, ms).currVisit + Queued(s) == s.currVisit + Queued(End(s, ms)) + 2 * Visits(ms)
    ensures End(s, ms).currFree == s.currFree + Frees(ms)
    decreases ms
  {
    hide Step, Enabled;
    if ms != [] {
      StepCounts(s, ms[0]);
      TraceCounts(Step(s, ms[0]), ms[1..]);
    }
  }

  lemma StepCounts(s: State, m: Micro)
    requires Enabled(s, m)
    ensures var s' := Step(s, m);
      && s'.currVisit + Queued(s) == s.currVisit + Queued(s') + (if m.MarkStep? || m.SweepStep? then 2 else 0)
      && s'.currFree == s.currFree + (if m.FreeStep? then 1 else 0)
  {
    hide Enqueue, Kids;
  }
}
