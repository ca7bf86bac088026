/** A slice as the sequence of single steps it makes, however its budgets cut it. */
module GcTrace {
  import opened Tables
  import opened GcModel
  import opened GcInvariant
  import opened GcSteps
  import opened GcSlice

  datatype Micro = MarkStep | SweepStep(p: Phase) | FreeStep | Budget(maxVisit: nat, maxFree: nat)

  predicate Enabled(s: State, m: Micro) {
    && s.begin
    && match m
       case MarkStep => s.markQ != []
       case SweepStep(p) => s.markQ == [] && Queue(s, p) != [] && (p == Sweep ==> s.prevQ == [])
       case FreeStep => s.markQ == [] && s.prevQ == [] && s.sweepQ == [] && s.garbageQ != []
       case Budget(_, _) => true
  }

  function Step(s: State, m: Micro): State
    requires Enabled(s, m)
  {
    match m
    case MarkStep => MarkOne(s)
    case SweepStep(p) => SweepOne(s, p)
    case FreeStep => FreeOne(s)
    case Budget(visit, free) => s.(maxVisit := visit, maxFree := free)
  }

  predicate Trace(s: State, ms: seq<Micro>)
    decreases ms
  {
    ms == [] || (Enabled(s, ms[0]) && Trace(Step(s, ms[0]), ms[1..]))
  }

  function End(s: State, ms: seq<Micro>): State
    requires Trace(s, ms)
    decreases ms
  {
    if ms == [] then s else End(Step(s, ms[0]), ms[1..])
  }

  /** Some step other than a change of budget was made. */
  predicate Works(ms: seq<Micro>) {
    exists m :: m in ms && !m.Budget?
  }

  /** How many tables the steps visit, to mark or to classify them. */
  function Visits(ms: seq<Micro>): nat {
    if ms == [] then 0 else (if ms[0].MarkStep? || ms[0].SweepStep? then 1 else 0) + Visits(ms[1..])
  }

  function Frees(ms: seq<Micro>): nat {
    if ms == [] then 0 else (if ms[0].FreeStep? then 1 else 0) + Frees(ms[1..])
  }

  /** The steps stay within what is left of the visit budget, and free nothing. */
  predicate Within(s: State, ms: seq<Micro>)
    requires Trace(s, ms)
  {
    && Frees(ms) == 0 && End(s, ms).currVisit >= s.currVisit + Visits(ms)
    && (Visits(ms) == 0 || s.currVisit + Visits(ms) <= s.maxVisit) && End(s, ms).maxVisit == s.maxVisit
  }

  lemma {:induction false} CountsConcat(a: seq<Micro>, b: seq<Micro>)
    ensures Visits(a + b) == Visits(a) + Visits(b) && Frees(a + b) == Frees(a) + Frees(b)
  {
    if a == [] {
      assert a + b == b;
    } else {
      CountsConcat(a[1..], b);
      assert (a + b)[1..] == a[1..] + b;
    }
  }

  lemma WithinConcat(s: State, a: seq<Micro>, b: seq<Micro>)
    requires Trace(s, a) && Within(s, a) && Trace(End(s, a), b) && Within(End(s, a), b)
    ensures Trace(s, a + b) && Within(s, a + b)
  {
    hide Trace, End;
    TraceConcat(s, a, b);
    CountsConcat(a, b);
  }

  lemma StepKeepsInv(s: State, m: Micro)
    requires Inv(s) && Enabled(s, m)
    ensures Inv(Step(s, m)) && Step(s, m).begin && Frame(s, Step(s, m)) && Step(s, m).round == s.round
  {
    hide Inv, Frame, MarkOne, SweepOne;
    match m
    case MarkStep => MarkOneKeeps(s); MarkOneFrame(s); MarkOneRound(s);
    case SweepStep(p) => SweepOneKeeps(s, p); SweepOneFrame(s, p); MarkOneRound(s);
    case FreeStep => FreeOneKeeps(s); FreeOneFrame(s);
    case Budget(_, _) => BudgetsKeep(s, Step(s, m));
  }

  lemma MarkOneRound(s: State)
    ensures s.markQ != [] ==> MarkOne(s).round == s.round
    ensures forall p :: Queue(s, p) != [] ==> SweepOne(s, p).round == s.round
  {
  }

  lemma {:induction false} TraceKeepsInv(s: State, ms: seq<Micro>)
    requires Inv(s) && s.begin && Trace(s, ms)
    ensures Inv(End(s, ms)) && End(s, ms).begin && Frame(s, End(s, ms)) && End(s, ms).round == s.round
    decreases ms
  {
    hide Inv, Frame, Step, Enabled;
    if ms == [] {
      FrameRefl(s);
    } else {
      StepKeepsInv(s, ms[0]);
      TraceKeepsInv(Step(s, ms[0]), ms[1..]);
      FrameTrans(s, Step(s, ms[0]), End(s, ms));
    }
  }

  lemma {:induction false} TraceConcat(s: State, a: seq<Micro>, b: seq<Micro>)
    requires Trace(s, a) && Trace(End(s, a), b)
    ensures Trace(s, a + b) && End(s, a + b) == End(End(s, a), b)
    decreases a
  {
    hide Step, Enabled;
    if a == [] {
      assert a + b == b;
    } else {
      TraceConcat(Step(s, a[0]), a[1..], b);
      assert (a + b)[1..] == a[1..] + b;
    }
  }

  lemma {:induction false} MarkReachableTrace(s: State) returns (ms: seq<Micro>)
    requires Inv(s) && s.begin
    ensures Trace(s, ms) && End(s, ms) == MarkReachable(s).0
    ensures s.currVisit < s.maxVisit && s.markQ != [] ==> Works(ms)
    ensures !Works(ms) ==> End(s, ms) == s
    ensures Within(s, ms)
    decreases s.maxVisit - s.currVisit
  {
    hide Inv, MarkOne;
    ms := [];
    if s.currVisit < s.maxVisit && s.markQ != [] {
      MarkOneKeeps(s);
      MarkOneFrame(s);
      MarkOneProgress(s);
      var rest := MarkReachableTrace(MarkOne(s));
      ms := [MarkStep] + rest;
      assert MarkStep in ms && ms[1..] == rest;
    }
  }

  lemma MarkOneProgress(s: State)
    requires s.markQ != []
    ensures MarkOne(s).currVisit > s.currVisit && MarkOne(s).maxVisit == s.maxVisit
  {
  }

  lemma {:induction false} MarkGarbageTrace(s: State, p: Phase) returns (ms: seq<Micro>)
    requires Inv(s) && s.begin && s.markQ == [] && (p == Sweep ==> s.prevQ == [])
    ensures Trace(s, ms) && End(s, ms) == MarkGarbage(s, p).0
    ensures s.currVisit < s.maxVisit && Queue(s, p) != [] ==> Works(ms)
    ensures !Works(ms) ==> End(s, ms) == s
    ensures Within(s, ms)
    decreases s.maxVisit - s.currVisit
  {
    hide Inv, SweepOne;
    ms := [];
    if s.currVisit < s.maxVisit && Queue(s, p) != [] {
      SweepOneKeeps(s, p);
      SweepOneFrame(s, p);
      SweepOneProgress(s, p);
      SweepOnePrev(s);
      var rest := MarkGarbageTrace(SweepOne(s, p), p);
      ms := [SweepStep(p)] + rest;
      assert SweepStep(p) in ms && ms[1..] == rest;
    }
  }

  lemma SweepOnePrev(s: State)
    ensures s.sweepQ != [] ==> SweepOne(s, Sweep).prevQ == s.prevQ
  {
    hide Enqueue, Kids;
  }

  lemma {:induction false} FreeTablesTrace(s: State, budget: nat) returns (ms: seq<Micro>)
    requires Inv(s) && s.begin && s.markQ == [] && s.prevQ == [] && s.sweepQ == []
    ensures Trace(s, ms) && End(s, ms) == FreeTables(s, budget).0
    ensures s.currFree < s.maxFree && s.garbageQ != [] ==> Works(ms)
    ensures Visits(ms) == 0 && (Frees(ms) == 0 || s.currFree + Frees(ms) <= s.maxFree)
    decreases s.maxFree - s.currFree
  {
    hide Inv;
    if s.currFree < s.maxFree && s.garbageQ != [] {
      FreeOneKeeps(s);
      var rest := FreeTablesTrace(FreeOne(s), budget);
      ms := [FreeStep] + rest;
      assert FreeStep in ms && ms[1..] == rest;
    } else {
      var s' := FreeTables(s, budget).0;
      ms := [Budget(s'.maxVisit, s'.maxFree)];
      assert ms[1..] == [];
      assert Trace(s', []);
    }
  }

  lemma BudgetTrace(s: State, visit: nat)
    requires s.begin
    ensures var ms := [Budget(visit, s.maxFree)]; Trace(s, ms) && End(s, ms) == s.(maxVisit := visit)
  {
    var ms := [Budget(visit, s.maxFree)];
    assert ms[1..] == [] && Trace(s.(maxVisit := visit), []);
  }

  lemma NextVisitTrace(s: State, ms: seq<Micro>, budget: nat) returns (ms': seq<Micro>)
    requires Trace(s, ms) && End(s, ms).begin
    ensures Trace(s, ms') && End(s, ms') == NextVisit(End(s, ms), budget)
    ensures Works(ms) ==> Works(ms')
    ensures Visits(ms') == Visits(ms) && Frees(ms') == Frees(ms)
  {
    hide Step, Enabled;
    var e := End(s, ms);
    var b := [Budget(NextVisit(e, budget).maxVisit, e.maxFree)];
    BudgetTrace(e, NextVisit(e, budget).maxVisit);
    TraceConcat(s, ms, b);
    CountsConcat(ms, b);
    assert b[1..] == [];
    ms' := ms + b;
    if Works(ms) {
      var m :| m in ms && !m.Budget?;
      assert m in ms';
    }
  }

  lemma WorksConcat(a: seq<Micro>, b: seq<Micro>)
    ensures Works(a + b) <==> Works(a) || Works(b)
  {
    if Works(a) { var m :| m in a && !m.Budget?; assert m in a + b; }
    if Works(b) { var m :| m in b && !m.Budget?; assert m in a + b; }
  }

  lemma MarkTablesTrace(s: State, budget: nat) returns (ms: seq<Micro>)
    requires Inv(s) && s.begin
    ensures Trace(s, ms) && End(s, ms) == MarkTables(s, budget).0
    ensures s.currVisit < s.maxVisit && MarkTables(s, budget).1 == Ok ==> Works(ms)
    ensures Frees(ms) == 0 && (Visits(ms) == 0 || s.currVisit + Visits(ms) <= s.maxVisit)
  {
    hide Inv, Trace, End, Works, NextVisit, Visits, Frees;
    var (s1, r1) := MarkReachable(s);
    MarkReachableKeeps(s);
    ms := MarkReachableTrace(s);
    if r1 == Empty {
      var (s2, r2) := MarkGarbage(s1, Prev);
      MarkGarbageKeeps(s1, Prev);
      var ms2 := MarkGarbageTrace(s1, Prev);
      TraceConcat(s, ms, ms2);
      WithinConcat(s, ms, ms2);
      WorksConcat(ms, ms2);
      ms := ms + ms2;
      if r2 == Empty {
        MarkGarbageKeeps(s2, Sweep);
        var ms3 := MarkGarbageTrace(s2, Sweep);
        TraceConcat(s, ms, ms3);
        WithinConcat(s, ms, ms3);
        WorksConcat(ms, ms3);
        ms := ms + ms3;
      }
    }
    ms := NextVisitTrace(s, ms, budget);
  }

  /** Where a slice's own steps start: with the round open. */
  function Opening(s: State): State {
    var s0 := s.(currVisit := 0, currFree := 0);
    if s.begin then s0 else BeginRound(s0)
  }

  lemma OpeningKeeps(s: State)
    requires Inv(s)
    ensures Inv(Opening(s)) && Opening(s).begin && Frame(s, Opening(s)) && Opening(s).round == s.round
  {
    hide Inv, Frame;
    var s0 := s.(currVisit := 0, currFree := 0);
    BudgetsKeep(s, s0);
    if !s.begin {
      BeginRoundKeeps(s0);
      EndRoundFrame(s0);
      FrameTrans(s, s0, BeginRound(s0));
    }
  }

  /**
    Every slice that has something to do makes single steps, and ends the round once all queues but `remained` are
    empty.
   */
  lemma SliceTrace(s: State, visit: nat, free: nat) returns (ms: seq<Micro>)
    requires Inv(s) && (s.begin || s.sweepQ != [] || s.prevQ != [])
    ensures Trace(Opening(s), ms)
    ensures var e, s' := End(Opening(s), ms), RunSlice(s, visit, free).0;
      && (s'.begin ==> s' == e)
      && (!s'.begin ==> s' == EndRound(e) && e.markQ == [] && e.prevQ == [] && e.sweepQ == [] && e.garbageQ == [])
      && e.begin
    ensures s.maxVisit >= 1 && s.maxFree >= 1 && RunSlice(s, visit, free).0.begin ==> Works(ms)
    ensures Visits(ms) <= s.maxVisit && Frees(ms) <= s.maxFree
  {
    hide Inv, Trace, End, Works, MarkTables, FreeTables, BeginRound, Visits, Frees;
    var o := Opening(s);
    OpeningKeeps(s);
    OpeningBudget(s);
    var (s2, r2) := MarkTables(o, visit);
    MarkTablesKeeps(o, visit);
    ms := MarkTablesTrace(o, visit);
    if r2 == Empty {
      FreeTablesKeeps(s2, free);
      var ms3 := FreeTablesTrace(s2, free);
      TraceConcat(o, ms, ms3);
      WorksConcat(ms, ms3);
      CountsConcat(ms, ms3);
      MarkTablesFree(o, visit);
      if FreeTables(s2, free).1 == Ok && s.maxFree >= 1 { FreeOk(s2, free); }
      ms := ms + ms3;
    }
  }

  lemma OpeningBudget(s: State)
    ensures Opening(s).currVisit == 0 && Opening(s).currFree == 0
    ensures Opening(s).maxVisit == s.maxVisit && Opening(s).maxFree == s.maxFree
  {
  }

  lemma FreeOk(s: State, budget: nat)
    requires FreeTables(s, budget).1 == Ok && s.currFree < s.maxFree
    ensures s.garbageQ != []
  {
  }

  lemma {:induction false} MarkReachableFree(s: State)
    ensures MarkReachable(s).0.currFree == s.currFree && MarkReachable(s).0.maxFree == s.maxFree
    decreases s.maxVisit - s.currVisit
  {
    if s.currVisit < s.maxVisit && s.markQ != [] { MarkReachableFree(MarkOne(s)); }
  }

  lemma {:induction false} MarkGarbageFree(s: State, p: Phase)
    ensures MarkGarbage(s, p).0.currFree == s.currFree && MarkGarbage(s, p).0.maxFree == s.maxFree
    decreases s.maxVisit - s.currVisit
  {
    if s.currVisit < s.maxVisit && Queue(s, p) != [] && !Garbage(s, Queue(s, p)[0]) {
      MarkGarbageFree(SweepOne(s, p), p);
    }
  }

  lemma MarkTablesFree(s: State, budget: nat)
    ensures MarkTables(s, budget).0.currFree == s.currFree && MarkTables(s, budget).0.maxFree == s.maxFree
  {
    hide MarkReachable, MarkGarbage;
    MarkReachableFree(s);
    MarkGarbageFree(MarkReachable(s).0, Prev);
    MarkGarbageFree(MarkGarbage(MarkReachable(s).0, Prev).0, Sweep);
  }
}
