/** The collector ends: every slice makes progress, and without mutators two rounds empty all queues. */
module GcProgress {
  import opened Queues
  import opened Tables
  import opened GcModel
  import opened GcInvariant
  import opened GcSteps
  import opened GcSlice
  import opened GcTrace

  function Whites(s: State): set<TableId> {
    set t | t in s.tables && s.tables[t].mark <= s.round
  }

  datatype Measure = Measure(unknown: nat, swept: nat, garbage: nat)

  function Work(s: State): Measure {
    Measure(|Whites(s)|, |s.prevQ| + |s.sweepQ|, |s.garbageQ|)
  }

  predicate Less(a: Measure, b: Measure) {
    || a.unknown < b.unknown
    || (a.unknown == b.unknown && a.swept < b.swept)
    || (a.unknown == b.unknown && a.swept == b.swept && a.garbage < b.garbage)
  }

  lemma FewerWhites(s: State, s': State, t: TableId)
    requires t in Whites(s) && Whites(s') == Whites(s) - {t}
    ensures |Whites(s')| < |Whites(s)|
  {
  }

  lemma MarkWork(s: State)
    requires Shape(s) && Colours(s) && s.markQ != []
    ensures |Whites(MarkOne(s))| < |Whites(s)|
  {
    hide MarkOne, Kids, SortedKeys, NoDup, Ascending;
    MarkOneEffect(s);
    assert White(s, s.markQ[0]);
    assert Whites(MarkOne(s)) == Whites(s) - {s.markQ[0]};
    FewerWhites(s, MarkOne(s), s.markQ[0]);
  }

  lemma SweepWork(s: State, p: Phase)
    requires Shape(s) && Queue(s, p) != [] && White(s, Queue(s, p)[0])
    ensures |Whites(SweepOne(s, p))| < |Whites(s)|
  {
    hide SweepOne, Kids, SortedKeys, NoDup, Ascending, Queue;
    var t := Queue(s, p)[0];
    SweepWhiteEffect(s, p);
    assert Whites(SweepOne(s, p)) == Whites(s) - {t};
    FewerWhites(s, SweepOne(s, p), t);
  }

  lemma SweepBlackWork(s: State, p: Phase)
    requires Queue(s, p) != [] && Black(s, Queue(s, p)[0])
    ensures Less(Work(SweepOne(s, p)), Work(s))
  {
    assert Whites(SweepOne(s, p)) == Whites(s);
  }

  /** Marking or condemning a table leaves one unknown table less; else a queue gets shorter. */
  lemma StepWork(s: State, m: Micro)
    requires Inv(s) && Enabled(s, m)
    ensures if m.Budget? then Work(Step(s, m)) == Work(s) else Less(Work(Step(s, m)), Work(s))
  {
    hide Kids, SortedKeys, NoDup, Ascending, Enqueue, TriColour, NurseryFresh, NoDangling, SweepOne, MarkOne,
      SweepDisjoint;
    match m
    case MarkStep => MarkWork(s);
    case SweepStep(p) =>
      var t := Queue(s, p)[0];
      assert InSweep(s, t);
      if Black(s, t) {
        SweepBlackWork(s, p);
      } else {
        SweepOneKeeps(s, p);
        SweepWork(s, p);
      }
    case FreeStep =>
      assert Garbage(s, s.garbageQ[0]);
      assert Whites(FreeOne(s)) == Whites(s);
    case Budget(_, _) =>
  }

  lemma {:induction false} TraceWork(s: State, ms: seq<Micro>)
    requires Inv(s) && s.begin && Trace(s, ms)
    ensures if Works(ms) then Less(Work(End(s, ms)), Work(s)) else Work(End(s, ms)) == Work(s)
    decreases ms
  {
    hide Inv, Step, Enabled, Work;
    if ms != [] {
      StepKeepsInv(s, ms[0]);
      StepWork(s, ms[0]);
      TraceWork(Step(s, ms[0]), ms[1..]);
      WorksConcat([ms[0]], ms[1..]);
      assert [ms[0]] + ms[1..] == ms;
      assert Works([ms[0]]) <==> !ms[0].Budget? by { assert ms[0] in [ms[0]]; }
    }
  }

  /** With budgets of at least one, a slice that does not end the round leaves strictly less to do. */
  lemma SliceWork(s: State, visit: nat, free: nat)
    requires Inv(s) && s.maxVisit >= 1 && s.maxFree >= 1 && (s.begin || s.sweepQ != [] || s.prevQ != [])
    ensures var s' := RunSlice(s, visit, free).0; s'.begin ==> Less(Work(s'), Work(s))
  {
    hide Inv, RunSlice, Trace, End, Works;
    OpeningKeeps(s);
    assert Whites(Opening(s)) == Whites(s);
    assert Work(Opening(s)) == Work(s);
    hide Work;
    var ms := SliceTrace(s, visit, free);
    TraceWork(Opening(s), ms);
  }

  // ----- how many rounds are left without mutators -----

  /** Nothing waits to be carried over to the next round. */
  predicate LastRound(s: State) {
    s.sweepQ == [] && s.remainedQ == []
  }

  function Stage(s: State): nat {
    if s.begin then (if LastRound(s) then 1 else 3)
    else if s.sweepQ != [] then 4
    else if s.prevQ != [] then 2
    else 0
  }

  lemma StepLastRound(s: State, m: Micro)
    requires Enabled(s, m) && LastRound(s)
    ensures LastRound(Step(s, m))
  {
    hide Kids, Enqueue;
  }

  lemma {:induction false} TraceLastRound(s: State, ms: seq<Micro>)
    requires Trace(s, ms) && LastRound(s)
    ensures LastRound(End(s, ms))
    decreases ms
  {
    hide Step, Enabled, LastRound;
    if ms != [] {
      StepLastRound(s, ms[0]);
      TraceLastRound(Step(s, ms[0]), ms[1..]);
    }
  }

  /** The stage never grows, falls when a round ends, and a round that ends has emptied the mark queue. */
  lemma SliceStage(s: State, visit: nat, free: nat)
    requires Inv(s) && (s.begin || s.sweepQ != [] || s.prevQ != [])
    ensures var s' := RunSlice(s, visit, free).0;
      && Stage(s') <= Stage(s) && (!s'.begin ==> s'.markQ == [])
      && (if s'.begin then s'.round == s.round
        else s'.round == s.round + 4 && Stage(s') in {0, 2} && Stage(s') < Stage(s))
      && (!s.begin ==> Stage(s') < Stage(s))
  {
    hide Trace, End, RunSlice, Enabled, SortedKeys, NoDup, Ascending, TriColour, NurseryFresh, NoDangling, Unlinked,
      SweepDisjoint;
    OpeningKeeps(s);
    var ms := SliceTrace(s, visit, free);
    TraceKeepsInv(Opening(s), ms);
    if LastRound(s) { TraceLastRound(Opening(s), ms); }
  }

  /** ST_NO_GC_DATA means that only the mark queue can still hold anything. */
  lemma NoDataEmpty(s: State)
    requires Inv(s) && !s.begin && s.sweepQ == [] && s.prevQ == []
    ensures s.garbageQ == [] && s.remainedQ == []
  {
    hide Kids, SortedKeys, NoDup, Ascending, TriColour, NurseryFresh, NoDangling, Unlinked, SweepDisjoint;
    assert forall t :: !Garbage(s, t);
    NonEmptyHolds(s.garbageQ);
  }

  lemma NonEmptyHolds(q: seq<TableId>)
    ensures q == [] || exists x :: x in q
  {
    if q != [] { assert q[0] in q; }
  }

  // ----- budgets -----

  /** Budgets of at least one stay so. */
  lemma SliceBudgets(s: State, visit: nat, free: nat)
    requires Inv(s) && visit >= 1 && free >= 1 && s.maxVisit >= 1 && s.maxFree >= 1
    ensures RunSlice(s, visit, free).0.maxVisit >= 1 && RunSlice(s, visit, free).0.maxFree >= 1
  {
    hide Inv, MarkTables, FreeTables, Frame;
    var o := Opening(s);
    OpeningKeeps(s);
    MarkTablesKeeps(o, visit);
    MarkTablesBudget(o, visit);
    MarkTablesFree(o, visit);
    FreeTablesBudget(MarkTables(o, visit).0, free);
  }

  lemma MarkTablesBudget(s: State, budget: nat)
    requires Inv(s) && s.begin
    ensures MarkTables(s, budget).0.maxVisit in {s.maxVisit, budget}
  {
    hide Inv, MarkReachable, MarkGarbage, Frame;
    MarkReachableKeeps(s);
    var (s1, r1) := MarkReachable(s);
    if r1 == Empty {
      MarkGarbageKeeps(s1, Prev);
      var (s2, r2) := MarkGarbage(s1, Prev);
      if r2 == Empty { MarkGarbageKeeps(s2, Sweep); }
    }
  }

  lemma {:induction false} FreeTablesBudget(s: State, budget: nat)
    ensures FreeTables(s, budget).0.maxVisit == s.maxVisit && FreeTables(s, budget).0.maxFree in {s.maxFree, budget}
    decreases s.maxFree - s.currFree
  {
    if s.currFree < s.maxFree && s.garbageQ != [] { FreeTablesBudget(FreeOne(s), budget); }
  }
}
