/** What waits to be swept is not forgotten: without mutators two rounds free it, unless the roots reach it. */
module GcReclaim {
  import opened Queues
  import opened Tables
  import opened GcModel
  import opened GcReach
  import opened GcInvariant
  import opened GcSteps
  import opened GcSlice
  import opened GcTrace
  import opened GcProgress
  import opened GcQuiet
  import opened GcMutators
  import opened GcRuns
  import opened GcEffects

  /** t waits for this round's or the next round's sweep, or is condemned or gone. */
  ghost predicate Waiting(s: State, t: TableId) {
    t in s.sweepQ || t in s.remainedQ || Garbage(s, t) || t !in s.tables
  }

  lemma WaitingMark(s: State, t: TableId)
    requires Inv(s) && s.markQ != [] && Waiting(s, t)
    ensures Waiting(MarkOne(s), t)
  {
    hide Reach, Kids, SortedKeys, NoDup, Ascending, MarkOne, TriColour, NurseryFresh, NoDangling, SweepDisjoint;
    MarkOneEffect(s);
    assert White(s, s.markQ[0]);
  }

  /** A table that leaves the sweep queue is condemned, or goes to the remained queue. */
  lemma SweptWaits(s: State, p: Phase, t: TableId)
    requires Queue(s, p) != [] && (t in s.sweepQ || t in s.remainedQ) && (p == Prev ==> Queue(s, p)[0] !in s.sweepQ)
    ensures var s' := SweepOne(s, p); t in s'.sweepQ || t in s'.remainedQ || (t == Queue(s, p)[0] && t in s'.garbageQ)
  {
    hide Enqueue, Kids, OtherSweepNodes;
    var q := Queue(s, p);
    assert t in q ==> t == q[0] || t in q[1..];
  }

  lemma WaitingSweep(s: State, p: Phase, t: TableId)
    requires Inv(s) && s.begin && s.markQ == [] && Queue(s, p) != [] && Waiting(s, t)
    ensures Waiting(SweepOne(s, p), t)
  {
    hide Reach, Kids, SortedKeys, NoDup, Ascending, SweepOne, TriColour, NurseryFresh, NoDangling;
    var x := Queue(s, p)[0];
    SweepOneKeeps(s, p);
    assert InSweep(s, x);
    if Black(s, x) { SweepBlackEffect(s, p); } else { SweepWhiteEffect(s, p); }
    if t in s.sweepQ || t in s.remainedQ { SweptWaits(s, p, t); }
  }

  lemma WaitingFree(s: State, t: TableId)
    requires Inv(s) && s.garbageQ != [] && Waiting(s, t)
    ensures Waiting(FreeOne(s), t)
  {
    hide Reach, Kids, SortedKeys, NoDup, Ascending, TriColour, NurseryFresh, NoDangling, SweepDisjoint;
  }

  lemma WaitingStep(s: State, m: Micro, t: TableId)
    requires Inv(s) && Enabled(s, m) && Waiting(s, t)
    ensures Waiting(Step(s, m), t)
  {
    hide Inv, MarkOne, SweepOne, FreeOne, Waiting;
    match m
    case MarkStep => WaitingMark(s, t);
    case SweepStep(p) => WaitingSweep(s, p, t);
    case FreeStep => WaitingFree(s, t);
    case Budget(visit, free) => WaitingSame(s, s.(maxVisit := visit, maxFree := free), t);
  }

  lemma WaitingSame(s: State, s': State, t: TableId)
    requires Waiting(s, t) && s'.tables == s.tables && s'.round == s.round && s'.sweepQ == s.sweepQ
      && s'.remainedQ == s.remainedQ
    ensures Waiting(s', t)
  {
  }

  lemma {:induction false} WaitingTrace(s: State, ms: seq<Micro>, t: TableId)
    requires Inv(s) && s.begin && Trace(s, ms) && Waiting(s, t)
    ensures Waiting(End(s, ms), t)
    decreases ms
  {
    hide Inv, Waiting, Step, Enabled;
    if ms != [] {
      StepKeepsInv(s, ms[0]);
      WaitingStep(s, ms[0], t);
      WaitingTrace(Step(s, ms[0]), ms[1..], t);
    }
  }

  /**
    Nothing that waits is forgotten: a slice that leaves its round open leaves it waiting, and after a slice that ends
    the
    round whatever waited and is still allocated waits for the next round.
   */
  lemma SliceKeepsWaiting(s: State, visit: nat, free: nat, t: TableId)
    requires Inv(s) && (s.begin || s.sweepQ != [] || s.prevQ != []) && Waiting(s, t)
    ensures var s' := RunSlice(s, visit, free).0;
      if s'.begin then Waiting(s', t) else t in s'.tables ==> t in s'.prevQ
  {
    hide Inv, RunSlice, Trace, End, Waiting;
    OpeningKeeps(s);
    OpeningSweeps(s);
    WaitingSame(s, Opening(s), t);
    var ms := SliceTrace(s, visit, free);
    WaitingTrace(Opening(s), ms, t);
    TraceKeepsInv(Opening(s), ms);
    WaitingEnds(End(Opening(s), ms), t);
  }

  lemma OpeningSweeps(s: State)
    ensures Opening(s).tables == s.tables && Opening(s).sweepQ == s.sweepQ && Opening(s).remainedQ == s.remainedQ
  {
  }

  lemma WaitingEnds(s: State, t: TableId)
    requires Inv(s) && Waiting(s, t)
    ensures s.sweepQ == [] && s.garbageQ == [] ==> t in EndRound(s).tables ==> t in EndRound(s).prevQ
  {
    hide Reach, Kids, SortedKeys, NoDup, Ascending, TriColour, NurseryFresh, NoDangling, SweepDisjoint;
  }

  // ----- over rounds -----

  /** The rest of a round, or a whole one: what waited is gone or waits for the next round. */
  lemma {:induction false} RoundKeepsWaiting(s: State, bs: seq<(nat, nat)>, t: TableId)
    requires Inv(s) && (s.begin || s.sweepQ != [] || s.prevQ != []) && OneRound(s, bs) && Waiting(s, t)
    ensures var s' := Slices(s, bs);
      Inv(s') && Frame(s, s') && !s'.begin && s'.markQ == [] && (t in s'.tables ==> t in s'.prevQ)
    decreases bs
  {
    hide Inv, RunSlice, Waiting, Frame;
    var s1 := RunSlice(s, bs[0].0, bs[0].1).0;
    RunSliceKeeps(s, bs[0].0, bs[0].1);
    SliceStage(s, bs[0].0, bs[0].1);
    SliceKeepsWaiting(s, bs[0].0, bs[0].1, t);
    if |bs| == 1 {
      assert bs[1..] == [];
    } else {
      RoundKeepsWaiting(s1, bs[1..], t);
      FrameTrans(s, s1, Slices(s, bs));
    }
  }

  /** What the roots reach after slices they reached before. */
  lemma ReachedBefore(s: State, s': State, t: TableId)
    requires Frame(s, s') && FromRoots(s', t)
    ensures FromRoots(s, t)
  {
    hide Reach, Kids;
    forall x | x in Members(s'.roots) ensures FromRoots(s, x) { ReachSource(s.tables, Members(s.roots), x); }
    forall a, b | FromRoots(s, a) && Edge(s'.tables, a, b) ensures FromRoots(s, b) {
      ReachStep(s.tables, Members(s.roots), a, b);
    }
    ReachShrinks(s.tables, Members(s.roots), s'.tables, Members(s'.roots), t);
  }

  lemma {:induction false} SlicesFrame(s: State, bs: seq<(nat, nat)>)
    requires Inv(s)
    ensures Inv(Slices(s, bs)) && Frame(s, Slices(s, bs))
    decreases bs
  {
    hide Inv, RunSlice, Frame;
    if bs == [] {
      FrameRefl(s);
    } else {
      RunSliceKeeps(s, bs[0].0, bs[0].1);
      SlicesFrame(RunSlice(s, bs[0].0, bs[0].1).0, bs[1..]);
      FrameTrans(s, RunSlice(s, bs[0].0, bs[0].1).0, Slices(s, bs));
    }
  }

  /**
    Two-round reclamation: from any state, inside a round or between rounds, a table that waits to be swept and that the
    roots do not reach is no longer allocated once two rounds have ended without mutators.
   */
  lemma SweptReclaimed(s: State, first: seq<(nat, nat)>, second: seq<(nat, nat)>, t: TableId)
    requires Inv(s) && (t in s.sweepQ || t in s.remainedQ) && !FromRoots(s, t)
    requires OneRound(s, first) && OneRound(Slices(s, first), second)
    ensures t !in Slices(Slices(s, first), second).tables
  {
    hide Inv, FromRoots, Frame, Slices, OneRound, FromSwept;
    WaitsInside(s, t);
    var s1 := Slices(s, first);
    RoundKeepsWaiting(s, first, t);
    if t in s1.tables {
      if FromRoots(s1, t) { ReachedBefore(s, s1, t); }
      PrevSwept(s1, t);
      QuietRound(s1, second, t);
    } else {
      SlicesFrame(s1, second);
      FrameTables(s1, Slices(s1, second), t);
    }
  }

  lemma WaitsInside(s: State, t: TableId)
    requires Inv(s) && (t in s.sweepQ || t in s.remainedQ)
    ensures Waiting(s, t) && (s.begin || s.sweepQ != [] || s.prevQ != [])
  {
    hide Reach, Kids, SortedKeys, NoDup, Ascending, TriColour, NurseryFresh, NoDangling, SweepDisjoint;
  }

  lemma PrevSwept(s: State, t: TableId)
    requires t in s.prevQ
    ensures FromSwept(s, t)
  {
    ReachSource(s.tables, Members(s.sweepQ) + Members(s.prevQ), t);
  }

  lemma FrameTables(s: State, s': State, t: TableId)
    requires Frame(s, s') && t !in s.tables
    ensures t !in s'.tables
  {
  }

  /** A table dropped by a step and no longer reached from the roots is reclaimed by the next two undisturbed rounds. */
  lemma DroppedReclaimed(s: State, a: Action, x: TableId, first: seq<(nat, nat)>, second: seq<(nat, nat)>)
    requires Inv(s) && Allowed(s, a) && !FromRoots(Do(s, a), x)
    requires
      || (Drops(a) && x in KidsOf(s, a.p) && x !in KidsOf(Do(s, a), a.p))
      || (a.RemoveR? && a.free && a.t == x && x in s.roots)
    requires OneRound(Do(s, a), first) && OneRound(Slices(Do(s, a), first), second)
    ensures x !in Slices(Slices(Do(s, a), first), second).tables
  {
    hide Inv, FromRoots, Slices, OneRound, KidsOf, Allowed;
    StepKeeps(s, a);
    if a.RemoveR? { RemoveRootEffect(s, a.t, a.free); } else { DroppedSwept(s, a, x); }
    SweptReclaimed(Do(s, a), first, second, x);
  }
}
