/** A round that no mutator disturbs frees exactly the swept tables that the roots do not reach. */
module GcQuiet {
  import opened Queues
  import opened Tables
  import opened GcModel
  import opened GcReach
  import opened GcInvariant
  import opened GcSteps
  import opened GcSlice
  import opened GcTrace

  /** Reachable from what was waiting to be swept. */
  ghost predicate FromSwept(s: State, t: TableId) {
    Reach(s.tables, Members(s.sweepQ) + Members(s.prevQ), t)
  }

  /** What a quiet round may free. */
  ghost predicate Doomed(s: State, t: TableId) {
    FromSwept(s, t) && !FromRoots(s, t)
  }

  /** t has been dealt with, or waits in a queue being swept. */
  ghost predicate Seen(s: State, t: TableId) {
    Black(s, t) || Garbage(s, t) || t !in s.tables || t in s.prevQ || t in s.sweepQ
  }

  /** Condemned or already freed. */
  ghost predicate Gone(s0: State, s: State, t: TableId) {
    t in s0.tables && (Garbage(s, t) || t !in s.tables)
  }

  ghost predicate Sound(s0: State, s: State) {
    && (forall t :: Safe(s, t) ==> FromRoots(s0, t))
    && (forall t :: t in s.prevQ || t in s.sweepQ ==> FromSwept(s0, t))
    && (forall t :: Gone(s0, s, t) ==> Doomed(s0, t))
  }

  ghost predicate Complete(s0: State, s: State) {
    && (forall t :: t in s0.sweepQ || t in s0.prevQ ==> Seen(s, t))
    && (forall t, k :: Gone(s0, s, t) && Edge(s0.tables, t, k) ==> Seen(s, k))
  }

  ghost predicate Quiet(s0: State, s: State) {
    && Frame(s0, s) && s.begin
    && Sound(s0, s)
    && Complete(s0, s)
  }

  lemma QuietOpens(s0: State)
    requires Inv(s0) && !s0.begin && s0.markQ == []
    ensures Quiet(s0, Opening(s0))
  {
    hide Reach, Kids, SortedKeys, NoDup, Ascending, TriColour, NurseryFresh, NoDangling, SweepDisjoint;
    var s := Opening(s0);
    OpeningKeeps(s0);
    forall t | t in Members(s0.roots) ensures FromRoots(s0, t) { ReachSource(s0.tables, Members(s0.roots), t); }
    forall t | t in Members(s0.sweepQ) + Members(s0.prevQ) ensures FromSwept(s0, t) {
      ReachSource(s0.tables, Members(s0.sweepQ) + Members(s0.prevQ), t);
    }
    assert forall t :: t in s.tables ==> !Black(s, t) && !Garbage(s, t);
  }

  lemma QuietMark(s0: State, s: State)
    requires Inv(s) && Quiet(s0, s) && s.markQ != []
    ensures Quiet(s0, MarkOne(s))
  {
    hide Reach, Kids, SortedKeys, NoDup, Ascending, TriColour, NurseryFresh, NoDangling, SweepDisjoint, MarkOne;
    var t, s' := s.markQ[0], MarkOne(s);
    MarkOneEffect(s);
    assert White(s, t) && Safe(s, t);
    forall k | k in KidsOf(s, t)
      ensures FromRoots(s0, k)
    {
      ReachStep(s0.tables, Members(s0.roots), t, k);
    }
    assert forall x :: Garbage(s', x) <==> Garbage(s, x);
    assert forall x :: Seen(s, x) ==> Seen(s', x);
    assert forall x :: Gone(s0, s', x) <==> Gone(s0, s, x);
    hide FromRoots, FromSwept;
  }

  /** A swept table that is still unknown when the mark queue is empty was not reachable from the roots. */
  lemma QuietWhite(s0: State, s: State, t: TableId)
    requires Inv(s) && Frame(s0, s) && s.begin && s.markQ == [] && (t in s.prevQ || t in s.sweepQ) && !Black(s, t)
    ensures White(s, t) && !FromRoots(s0, t)
  {
    hide Reach, Kids, SortedKeys, NoDup, Ascending, NurseryFresh, SweepDisjoint, Frame, FromRoots;
    SweptNotRoot(s, t);
    if FromRoots(s0, t) {
      SliceSafe(s0, s, t);
      RootsReachSafe(s, t);
    }
  }

  lemma QuietSweptWhite(s0: State, s: State, s': State, t: TableId)
    requires Inv(s) && Quiet(s0, s) && s.markQ == [] && !Black(s, t) && SweptWhite(s, s', t)
    ensures Sound(s0, s') && Complete(s0, s')
  {
    hide Reach, Kids, SortedKeys, NoDup, Ascending, TriColour, NurseryFresh, NoDangling, SweepDisjoint;
    QuietWhite(s0, s, t);
    forall k | k in KidsOf(s, t)
      ensures FromSwept(s0, k)
    {
      ReachStep(s0.tables, Members(s0.sweepQ) + Members(s0.prevQ), t, k);
    }
    hide FromRoots, FromSwept;
    assert forall x :: Garbage(s', x) <==> Garbage(s, x) || x == t;
    assert forall x :: Black(s', x) <==> Black(s, x);
    assert forall x :: Gone(s0, s', x) <==> Gone(s0, s, x) || x == t;
    forall x | InSweep(s', x) ensures Seen(s', x) { if x in s'.remainedQ { assert Black(s, x); } }
    forall x | Seen(s, x)
      ensures Seen(s', x)
    {
      assert InSweep(s, x) ==> InSweep(s', x);
    }
    forall k | Edge(s0.tables, t, k)
      ensures Seen(s', k)
    {
      assert k in KidsOf(s, t);
    }
  }

  lemma QuietSweptBlack(s0: State, s: State, s': State, t: TableId)
    requires Inv(s) && Quiet(s0, s) && Black(s, t) && SweptBlack(s, s', t) && s'.tables == s.tables
    requires forall x :: x in s.prevQ || x in s.sweepQ ==> x in s'.prevQ || x in s'.sweepQ || x == t
    ensures Sound(s0, s') && Complete(s0, s')
  {
    hide Reach, Kids, SortedKeys, NoDup, Ascending, TriColour, NurseryFresh, NoDangling, SweepDisjoint, FromRoots;
    forall k | k in KidsOf(s, t)
      ensures FromSwept(s0, k)
    {
      ReachStep(s0.tables, Members(s0.sweepQ) + Members(s0.prevQ), t, k);
    }
    hide FromSwept;
    assert forall x :: Seen(s, x) ==> Seen(s', x);
    assert forall x :: Gone(s0, s', x) <==> Gone(s0, s, x);
  }

  lemma QuietSweep(s0: State, s: State, p: Phase)
    requires Inv(s) && Quiet(s0, s) && s.markQ == [] && Queue(s, p) != []
    ensures Quiet(s0, SweepOne(s, p))
  {
    hide Reach, Kids, SortedKeys, NoDup, Ascending, TriColour, NurseryFresh, NoDangling, SweepDisjoint, Sound,
      Complete, Enqueue, SweepOne;
    var t, s' := Queue(s, p)[0], SweepOne(s, p);
    if Black(s, t) {
      SweepBlackEffect(s, p);
      SweepBlackStays(s, p);
      QuietSweptBlack(s0, s, s', t);
    } else {
      SweepWhiteEffect(s, p);
      QuietSweptWhite(s0, s, s', t);
    }
  }

  lemma SweepBlackStays(s: State, p: Phase)
    requires Queue(s, p) != [] && Black(s, Queue(s, p)[0])
    ensures forall x :: x in s.prevQ || x in s.sweepQ ==>
      x in SweepOne(s, p).prevQ || x in SweepOne(s, p).sweepQ || x == Queue(s, p)[0]
  {
  }

  lemma QuietFree(s0: State, s: State)
    requires Inv(s) && Quiet(s0, s) && s.garbageQ != []
    ensures Quiet(s0, FreeOne(s))
  {
    hide Reach, Kids, SortedKeys, NoDup, Ascending, TriColour, NurseryFresh, NoDangling, SweepDisjoint, FromRoots,
      FromSwept;
    var s' := FreeOne(s);
    assert Garbage(s, s.garbageQ[0]);
    assert forall x :: Seen(s, x) ==> Seen(s', x);
    assert forall x :: Gone(s0, s', x) <==> Gone(s0, s, x);
    assert forall x :: Safe(s', x) ==> Safe(s, x);
  }

  lemma {:induction false} QuietTrace(s0: State, s: State, ms: seq<Micro>)
    requires Inv(s) && Quiet(s0, s) && Trace(s, ms)
    ensures Quiet(s0, End(s, ms))
    decreases ms
  {
    hide Inv, Sound, Complete, MarkOne, SweepOne, FreeOne;
    if ms != [] {
      var m := ms[0];
      match m {
        case MarkStep => QuietMark(s0, s);
        case SweepStep(p) => QuietSweep(s0, s, p);
        case FreeStep => QuietFree(s0, s);
        case Budget(_, _) => QuietBudget(s0, s, Step(s, m));
      }
      StepKeepsInv(s, m);
      QuietTrace(s0, Step(s, m), ms[1..]);
    }
  }

  lemma QuietBudget(s0: State, s: State, s': State)
    requires Quiet(s0, s) && s' == s.(maxVisit := s'.maxVisit, maxFree := s'.maxFree, currVisit := s'.currVisit,
      currFree := s'.currFree)
    ensures Quiet(s0, s')
  {
    hide FromRoots, FromSwept;
    assert forall x :: Seen(s, x) ==> Seen(s', x);
    assert forall x :: Safe(s, x) <==> Safe(s', x);
    assert forall x :: Gone(s0, s', x) <==> Gone(s0, s, x);
  }

  /** When the queues are empty, exactly the doomed tables are gone. */
  lemma QuietEnds(s0: State, s: State, t: TableId)
    requires NoDangling(s0) && Quiet(s0, s) && s.markQ == [] && s.prevQ == [] && s.sweepQ == [] && s.garbageQ == []
      && Colours(s)
    ensures t in s.tables <==> t in s0.tables && !Doomed(s0, t)
  {
    hide Reach, Kids, NoDangling;
    if FromSwept(s0, t) {
      var inside := (x: TableId) => FromRoots(s0, x) || x !in s.tables;
      forall a, b | inside(a) && Edge(s0.tables, a, b)
        ensures inside(b)
      {
        if FromRoots(s0, a) {
          ReachStep(s0.tables, Members(s0.roots), a, b);
        } else {
          assert Gone(s0, s, a);
          assert Seen(s, b);
        }
      }
      assert forall x :: x in Members(s0.sweepQ) + Members(s0.prevQ) ==> Seen(s, x) && inside(x);
      ReachInClosed(s0.tables, Members(s0.sweepQ) + Members(s0.prevQ), inside, t);
    }
  }

  // ----- the round as slices -----

  /** The slices bs, with the clock-derived budgets each sets for the next one, make up exactly one round. */
  ghost predicate OneRound(s: State, bs: seq<(nat, nat)>)
    decreases bs
  {
    bs != [] &&
    var s1 := RunSlice(s, bs[0].0, bs[0].1).0;
    if |bs| == 1 then !s1.begin else s1.begin && OneRound(s1, bs[1..])
  }

  function Slices(s: State, bs: seq<(nat, nat)>): State
    decreases bs
  {
    if bs == [] then s else Slices(RunSlice(s, bs[0].0, bs[0].1).0, bs[1..])
  }

  /** The rest of a quiet round, from inside it. */
  lemma {:induction false} QuietRest(s0: State, s: State, bs: seq<(nat, nat)>, t: TableId)
    requires Inv(s0) && Inv(s) && (if s.begin then Quiet(s0, s)
      else s == s0 && s.markQ == [] && (s.sweepQ != [] || s.prevQ != []))
    requires OneRound(s, bs)
    ensures t in Slices(s, bs).tables <==> t in s0.tables && !Doomed(s0, t)
    decreases bs
  {
    hide Inv, Quiet, RunSlice, Doomed, Trace, End;
    var s1 := RunSlice(s, bs[0].0, bs[0].1).0;
    RunSliceKeeps(s, bs[0].0, bs[0].1);
    var ms := SliceTrace(s, bs[0].0, bs[0].1);
    OpeningKeeps(s);
    if s.begin { QuietBudget(s0, s, Opening(s)); } else { QuietOpens(s0); }
    QuietTrace(s0, Opening(s), ms);
    TraceKeepsInv(Opening(s), ms);
    if |bs| == 1 {
      InvParts(s0);
      InvParts(End(Opening(s), ms));
      QuietEnds(s0, End(Opening(s), ms), t);
      assert bs[1..] == [];
    } else {
      QuietRest(s0, s1, bs[1..], t);
    }
  }

  lemma InvParts(s: State)
    requires Inv(s)
    ensures NoDangling(s) && Colours(s)
  {
  }

  /**
    Quiet-round exactness: a round that begins with an empty mark queue and is not disturbed frees exactly the tables
    reachable from the swept tables and not from the roots, however it is cut into slices.
   */
  lemma QuietRound(s: State, bs: seq<(nat, nat)>, t: TableId)
    requires Inv(s) && !s.begin && s.markQ == [] && (s.sweepQ != [] || s.prevQ != []) && OneRound(s, bs)
    ensures t in Slices(s, bs).tables <==> t in s.tables && !(FromSwept(s, t) && !FromRoots(s, t))
  {
    hide FromSwept, FromRoots;
    QuietRest(s, s, bs, t);
  }
}
