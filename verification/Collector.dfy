/**
  The collector as the object it is: its queues, roots and counters are fields that loops update in
  place.  Each method is tied to the step functions of GcModel; every look-up of a table is of one that is still
  allocated.
 */
module Collectors {
  import opened Queues
  import opened Tables
  import opened GcModel
  import opened GcReach
  import opened GcInvariant
  import opened GcSteps
  import opened GcSlice
  import opened GcMutators
  import opened GcTrace
  import opened GcProgress
  import opened GcRuns
  import opened GcEffects
  import opened GcReclaim

  datatype Target = ToMark | ToSweep(p: Phase)

  class Collector {
    var tables: map<TableId, Table>
    var roots: seq<TableId>
    var markQueue: seq<TableId>
    var prevSweepQueue: seq<TableId>
    var sweepQueue: seq<TableId>
    var garbageQueue: seq<TableId>
    var remainedQueue: seq<TableId>
    var round: int
    var begin: bool
    var maxVisit: nat
    var currVisit: nat
    var maxFree: nat
    var currFree: nat
    ghost var nursery: set<TableId>

    ghost function View(): State
      reads this
    {
      State(tables, roots, markQueue, prevSweepQueue, sweepQueue, garbageQueue, remainedQueue, round, begin,
            maxVisit, currVisit, maxFree, currFree, nursery)
    }

    constructor ()
      ensures View() == Initial && Inv(View())
    {
      tables, roots, nursery := map[], [], {};
      markQueue, prevSweepQueue, sweepQueue, garbageQueue, remainedQueue := [], [], [], [], [];
      round, begin := 0, false;
      maxVisit, currVisit, maxFree, currFree := 100, 0, 50, 0;
      new;
      assert View() == Initial;
      InitialInv();
    }

    method RootsToMarkQueue()
      modifies this`markQueue
      ensures markQueue == RootsToMark(roots, old(markQueue))
    {
      var i := 0;
      while i < |roots|
        invariant 0 <= i <= |roots|
        invariant RootsToMark(roots[i..], markQueue) == RootsToMark(roots, old(markQueue))
      {
        var r := roots[i];
        if r !in markQueue {
          markQueue := markQueue + [r];
        }
        assert roots[i..][1..] == roots[i + 1..];
        i := i + 1;
      }
    }

    predicate SweepNodeInUse(t: TableId)
      reads this
    {
      t in prevSweepQueue || t in sweepQueue || t in garbageQueue || t in remainedQueue
    }

    /** One child of the walk: queue it if it is unknown and its queue node is free. */
    method VisitChild(k: TableId, target: Target)
      requires k in tables
      modifies this`markQueue, this`prevSweepQueue, this`sweepQueue, this`currVisit
      ensures View() == ChildStep(old(View()), k, target)
    {
      if tables[k].mark <= round {
        match target
        case ToMark =>
          if k !in markQueue {
            currVisit := currVisit + 1;
            markQueue := markQueue + [k];
          }
        case ToSweep(p) =>
          if !SweepNodeInUse(k) {
            currVisit := currVisit + 1;
            if p == Prev { prevSweepQueue := prevSweepQueue + [k]; } else { sweepQueue := sweepQueue + [k]; }
          }
      }
    }

    /** Walks t's elements in key order and queues each unknown table whose queue node is free. */
    method UnknownChildrenToQueue(t: TableId, target: Target)
      requires t in tables
      requires forall k :: k in Kids(tables[t].elems) ==> k in tables
      modifies this`markQueue, this`prevSweepQueue, this`sweepQueue, this`currVisit
      ensures View() == ChildrenRest(old(View()), KidsOf(old(View()), t), target)
    {
      hide ChildStep, ChildrenRest, Enqueue, Kids;
      var es := tables[t].elems;
      var i := 0;
      assert es[0..] == es;
      while i < |es|
        invariant 0 <= i <= |es|
        invariant tables == old(tables) && es == tables[t].elems
        invariant forall k :: k in Kids(es[i..]) ==> k in tables
        invariant ChildrenRest(View(), Kids(es[i..]), target) ==
          ChildrenRest(old(View()), KidsOf(old(View()), t), target)
      {
        var v := es[i].value;
        KidsFrom(es, i);
        if v.Ref? {
          ghost var c := View();
          VisitChild(v.id, target);
          ChildrenRestStep(c, v.id, Kids(es[i + 1..]), target);
        }
        i := i + 1;
      }
      NoKids(es);
      ChildrenRestDone(View(), target);
    }

    method MarkReachableTables() returns (r: Ret)
      requires Inv(View()) && begin
      modifies this`tables, this`markQueue, this`prevSweepQueue, this`sweepQueue, this`currVisit
      ensures (View(), r) == MarkReachable(old(View()))
    {
      hide Inv, ChildrenRest, MarkOne;
      while currVisit < maxVisit
        invariant Inv(View()) && begin
        invariant MarkReachable(View()) == MarkReachable(old(View()))
        decreases maxVisit - currVisit
      {
        ghost var s := View();
        if markQueue == [] {
          return Empty;
        }
        var t := markQueue[0];
        QueuedLive(s, t);
        markQueue := markQueue[1..];
        tables := tables[t := tables[t].(mark := round + 1)];
        UnknownChildrenToQueue(t, ToMark);
        currVisit := currVisit + 1;
        MarkOneIs(s);
        MarkOneKeeps(s);
        MarkOneProgress(s);
      }
      return Ok;
    }

    method PopSwept(p: Phase) returns (t: TableId)
      requires Queue(View(), p) != []
      modifies this`prevSweepQueue, this`sweepQueue
      ensures t == Queue(old(View()), p)[0] && View() == WithQueue(old(View()), p, Queue(old(View()), p)[1..])
    {
      match p
      case Prev => t, prevSweepQueue := prevSweepQueue[0], prevSweepQueue[1..];
      case Sweep => t, sweepQueue := sweepQueue[0], sweepQueue[1..];
    }

    method Condemn(t: TableId, p: Phase)
      requires t in tables && forall k :: k in Kids(tables[t].elems) ==> k in tables
      modifies this`tables, this`markQueue, this`prevSweepQueue, this`sweepQueue, this`garbageQueue, this`currVisit
      ensures var s1 := old(View());
        var s2 := s1.(tables := s1.tables[t := s1.tables[t].(mark := s1.round + 2)], garbageQ := s1.garbageQ + [t]);
        View() == ChildrenRest(s2, KidsOf(s2, t), ToSweep(p))
    {
      hide ChildrenRest, Kids;
      tables := tables[t := tables[t].(mark := round + 2)];
      garbageQueue := garbageQueue + [t];
      UnknownChildrenToQueue(t, ToSweep(p));
    }

    /** Classifies the first table of a queue being swept; false if it already is garbage. */
    method ClassifyFirst(p: Phase) returns (valid: bool)
      requires Queue(View(), p) != []
      requires var t := Queue(View(), p)[0]; t in tables && forall k :: k in Kids(tables[t].elems) ==> k in tables
      modifies this`tables, this`markQueue, this`prevSweepQueue, this`sweepQueue, this`garbageQueue,
        this`remainedQueue, this`currVisit
      ensures valid <==> !Garbage(old(View()), Queue(old(View()), p)[0])
      ensures View() == if valid then SweepOne(old(View()), p)
        else WithQueue(old(View()), p, Queue(old(View()), p)[1..])
    {
      hide ChildrenRest, SweepOne, Kids;
      ghost var s := View();
      var t := PopSwept(p);
      SweepOneIs(s, p);
      if tables[t].mark == round + 2 {
        return false;
      } else if tables[t].mark == round + 1 {
        if p == Sweep { remainedQueue := remainedQueue + [t]; }
      } else {
        Condemn(t, p);
      }
      currVisit := currVisit + 1;
      return true;
    }

    method MarkGarbageTables(p: Phase) returns (r: Ret)
      requires Inv(View()) && begin && markQueue == []
      modifies this`tables, this`markQueue, this`prevSweepQueue, this`sweepQueue, this`garbageQueue,
        this`remainedQueue, this`currVisit
      ensures (View(), r) == MarkGarbage(old(View()), p)
    {
      hide Inv, SweepOne;
      while currVisit < maxVisit
        invariant Inv(View()) && begin && markQueue == []
        invariant MarkGarbage(View(), p) == MarkGarbage(old(View()), p)
        decreases maxVisit - currVisit
      {
        ghost var s := View();
        if (if p == Prev then prevSweepQueue else sweepQueue) == [] {
          return Empty;
        }
        SweptLive(s, p);
        var valid := ClassifyFirst(p);
        if !valid {
          return StateInvalid;
        }
        SweepOneKeeps(s, p);
        SweepOneProgress(s, p);
      }
      return Ok;
    }

    /** `budget` is the limit that the clock readings give for the next slice. */
    method MarkAll(budget: nat) returns (r: Ret)
      requires Inv(View()) && begin
      modifies this`tables, this`markQueue, this`prevSweepQueue, this`sweepQueue, this`garbageQueue,
        this`remainedQueue, this`currVisit, this`maxVisit
      ensures (View(), r) == MarkTables(old(View()), budget)
    {
      hide Inv, MarkReachable, MarkGarbage;
      ghost var s := View();
      r := MarkReachableTables();
      MarkReachableKeeps(s);
      if r == Empty {
        ghost var s1 := View();
        r := MarkGarbageTables(Prev);
        MarkGarbageKeeps(s1, Prev);
        if r == Empty {
          ghost var s2 := View();
          r := MarkGarbageTables(Sweep);
          MarkGarbageKeeps(s2, Sweep);
        }
      }
      if currVisit > 0 {
        maxVisit := budget;
      }
    }

    method FreeGarbage(budget: nat) returns (r: Ret)
      requires Inv(View()) && begin && markQueue == [] && prevSweepQueue == [] && sweepQueue == []
      modifies this`tables, this`garbageQueue, this`currFree, this`maxFree
      ensures (View(), r) == FreeTables(old(View()), budget)
    {
      hide Inv;
      while currFree < maxFree
        invariant Inv(View()) && begin && markQueue == [] && prevSweepQueue == [] && sweepQueue == []
          && maxFree == old(maxFree)
        invariant FreeTables(View(), budget) == FreeTables(old(View()), budget)
        decreases maxFree - currFree
      {
        ghost var s := View();
        if garbageQueue == [] {
          return Empty;
        }
        FreeOneKeeps(s);
        var t := garbageQueue[0];
        garbageQueue := garbageQueue[1..];
        tables := tables - {t};
        currFree := currFree + 1;
      }
      if currFree > 0 {
        maxFree := budget;
      }
      return Ok;
    }

    method RunOpen(visit: nat, free: nat) returns (r: Ret)
      requires Inv(View()) && begin
      modifies this
      ensures (View(), r) == SliceBody(old(View()), visit, free)
    {
      hide Inv, MarkTables, FreeTables, Frame;
      MarkTablesKeeps(View(), visit);
      r := MarkAll(visit);
      if r != Empty {
        return;
      }
      r := FreeGarbage(free);
      if r != Empty {
        return;
      }
      prevSweepQueue, remainedQueue := prevSweepQueue + remainedQueue, [];
      round, begin := round + 4, false;
      r := Ok;
    }

    /** One slice under the collector lock. */
    method Run(visit: nat, free: nat) returns (r: Ret)
      requires Inv(View())
      modifies this
      ensures (View(), r) == RunSlice(old(View()), visit, free)
      ensures Inv(View()) && r in {Ok, NoGcData}
      ensures forall t :: CanLink(old(View()), t) ==> t in tables && tables[t].elems == old(tables)[t].elems
      ensures forall t :: !begin && t in tables && (t in old(sweepQueue) || t in old(remainedQueue)) ==>
        t in prevSweepQueue
    {
      hide Inv, SliceBody, CanLink, RootsToMark, Frame;
      ghost var s := View();
      forall t | t in sweepQueue || t in remainedQueue
        ensures var s' := RunSlice(s, visit, free).0; !s'.begin && t in s'.tables ==> t in s'.prevQ
      {
        WaitsInside(s, t);
        SliceKeepsWaiting(s, visit, free, t);
      }
      RunSliceKeeps(View(), visit, free);
      SlicePreservesAll(View(), visit, free);
      OpeningKeeps(View());
      currVisit, currFree := 0, 0;
      if !begin {
        if sweepQueue == [] && prevSweepQueue == [] {
          return NoGcData;
        }
        RootsToMarkQueue();
        begin := true;
      }
      r := RunOpen(visit, free);
    }

    /** The open round knows t from here on, and knows no other table that it did not know before. */
    method MarkTable(t: TableId)
      requires t in tables
      modifies this`markQueue
      ensures View() == PushToMark(old(View()), t)
      ensures forall x :: Safe(View(), x) <==> Safe(old(View()), x) || x == t
      ensures NoDup(old(markQueue)) ==> NoDup(markQueue)
      ensures Inv(old(View())) && FromRoots(old(View()), t) ==> Inv(View())
    {
      hide Inv, FromRoots, NoDup;
      if Inv(View()) && FromRoots(View(), t) { PushToMarkKeeps(View(), t); }
      NoDupSingle(t);
      NoDupConcat(markQueue, [t]);
      if tables[t].mark == round + 1 || t in markQueue {
        return;
      }
      markQueue := markQueue + [t];
    }

    /** t leaves whichever queue its sweep node is in for the sweep queue; every other table keeps its place. */
    method SweepTable(t: TableId)
      modifies this`prevSweepQueue, this`sweepQueue, this`garbageQueue, this`remainedQueue
      ensures View() == PushToSweep(old(View()), t)
      ensures SweepDisjoint(old(View())) && t !in old(garbageQueue) ==> SweepPushed(old(View()), View(), {t})
      ensures forall p :: Inv(old(View())) && FromRoots(old(View()), p) && t in KidsOf(old(View()), p) ==> Inv(View())
    {
      hide Inv, FromRoots, Without, SweepDisjoint, SweepPushed, Kids;
      if SweepDisjoint(View()) && t !in garbageQueue { PushToSweepEffect(View(), t); }
      forall p | Inv(View()) && FromRoots(View(), p) && t in KidsOf(View(), p)
        ensures Inv(PushToSweep(View(), t))
      {
        PushToSweepKeeps(View(), p, t);
      }
      prevSweepQueue := Without(prevSweepQueue, t);
      garbageQueue := Without(garbageQueue, t);
      remainedQueue := Without(remainedQueue, t);
      sweepQueue := Without(sweepQueue, t) + [t];
    }

    method NewTable(t: TableId)
      requires Inv(View()) && t !in tables
      modifies this`tables, this`nursery
      ensures View() == GcModel.NewTable(old(View()), t) && Inv(View())
      ensures t in tables && tables[t].elems == [] && tables == old(tables)[t := tables[t]]
    {
      hide Inv;
      NewTableKeeps(View(), t);
      tables := tables[t := Table([], round, 0)];
      nursery := nursery + {t};
    }

    method StoreNew(p: TableId, i: nat, k: int, v: Value)
      requires p in tables && i <= |tables[p].elems| && (v.Ref? ==> v.id in tables)
      modifies this`tables, this`markQueue, this`nursery
      ensures var es := old(tables[p].elems);
        View() == MarkValue(WithElems(old(View()), p, es[..i] + [Element(k, v)] + es[i..], 1), v)
    {
      var es := tables[p].elems;
      tables := tables[p := tables[p].(elems := es[..i] + [Element(k, v)] + es[i..], version := tables[p].version + 1)];
      if v.Ref? {
        MarkTable(v.id);
        nursery := nursery - {v.id};
      }
    }

    method AddKeyValue(p: TableId, k: int, v: Value) returns (r: Ret)
      requires Inv(View()) && FromRoots(View(), p) && CanStore(View(), v)
      modifies this`tables, this`markQueue, this`nursery
      ensures (View(), r) == GcModel.AddKeyValue(old(View()), p, k, v) && Inv(View())
      ensures var c := Contents(ElemsOf(old(View()), p));
        if k in c then r == Existed && View() == old(View())
        else r == Ok && Rewritten(old(View()), View(), p, c[k := v], 1) && Queued(old(View()), View(), v)
    {
      hide Inv, FromRoots, MarkValue, WithElems, Rank, Contents, Rewritten, Queued;
      AddKeeps(View(), p, k, v);
      AddEffect(View(), p, k, v);
      LinkableLive(View(), p);
      if v.Ref? { LinkableLive(View(), v.id); }
      var es := tables[p].elems;
      var i := Rank(es, k);
      if i < |es| && es[i].key == k {
        return Existed;
      }
      StoreNew(p, i, k, v);
      return Ok;
    }

    method SetKeyValue(p: TableId, k: int, v: Value) returns (r: Ret)
      requires Inv(View()) && FromRoots(View(), p) && CanStore(View(), v)
      modifies this`tables, this`markQueue, this`prevSweepQueue, this`sweepQueue, this`garbageQueue,
        this`remainedQueue, this`nursery
      ensures (View(), r) == GcModel.SetKeyValue(old(View()), p, k, v) && Inv(View())
      ensures var c := Contents(ElemsOf(old(View()), p));
        && Rewritten(old(View()), View(), p, c[k := v], 1) && Queued(old(View()), View(), v)
        && MovedToSweep(old(View()), View(), RefAt(c, k))
    {
      hide Inv, FromRoots, Rank, Without, Contents, Rewritten, Queued, MovedToSweep;
      SetKeeps(View(), p, k, v);
      SetEffect(View(), p, k, v);
      LinkableLive(View(), p);
      if v.Ref? { LinkableLive(View(), v.id); }
      var es := tables[p].elems;
      var i := Rank(es, k);
      if i < |es| && es[i].key == k {
        tables := tables[p := tables[p].(elems := es[i := Element(k, v)], version := tables[p].version + 1)];
        if es[i].value.Ref? {
          SweepTable(es[i].value.id);
        }
        if v.Ref? {
          MarkTable(v.id);
          nursery := nursery - {v.id};
        }
      } else {
        StoreNew(p, i, k, v);
      }
      return Ok;
    }

    method RemoveKey(p: TableId, k: int) returns (r: Ret)
      requires Inv(View()) && FromRoots(View(), p)
      modifies this`tables, this`prevSweepQueue, this`sweepQueue, this`garbageQueue, this`remainedQueue
      ensures (View(), r) == GcModel.RemoveKey(old(View()), p, k) && Inv(View())
      ensures var c := Contents(ElemsOf(old(View()), p));
        if k in c then
          r == Ok && Rewritten(old(View()), View(), p, c - {k}, 1) && MovedToSweep(old(View()), View(), RefAt(c, k))
        else r == NotFound && View() == old(View())
    {
      hide Inv, FromRoots, Rank, Without, Contents, Rewritten, MovedToSweep;
      RemoveKeeps(View(), p, k);
      RemoveEffect(View(), p, k);
      LinkableLive(View(), p);
      var es := tables[p].elems;
      var i := Rank(es, k);
      if !(i < |es| && es[i].key == k) {
        return NotFound;
      }
      tables := tables[p := tables[p].(elems := es[..i] + es[i + 1..], version := tables[p].version + 1)];
      if es[i].value.Ref? {
        SweepTable(es[i].value.id);
      }
      return Ok;
    }

    /** Drops every element of p; `order` is the order in which the tree walk meets the tables referred to. */
    method RemoveAll(p: TableId, order: seq<TableId>)
      requires Inv(View()) && FromRoots(View(), p) && multiset(order) == multiset(KidsOf(View(), p))
      modifies this`tables, this`prevSweepQueue, this`sweepQueue, this`garbageQueue, this`remainedQueue
      ensures View() == GcModel.RemoveAll(old(View()), p, order) && Inv(View())
      ensures Rewritten(old(View()), View(), p, map[], |ElemsOf(old(View()), p)|)
      ensures MovedToSweep(old(View()), View(), Members(KidsOf(old(View()), p)))
    {
      hide Inv, FromRoots, Without, PushToSweep, KidsOf, Rewritten, MovedToSweep;
      ClearEffect(View(), p, order);
      forall t | t in order ensures t in KidsOf(View(), p) { assert t in multiset(order); }
      RemoveAllKeeps(View(), p, order);
      LinkableLive(View(), p);
      SweepAllTables(View(), order);
      var i := 0;
      assert order[0..] == order;
      while i < |order|
        invariant 0 <= i <= |order|
        invariant SweepAll(View(), order[i..]) == SweepAll(old(View()), order)
        invariant tables == old(tables)
      {
        SweepTable(order[i]);
        assert order[i..][1..] == order[i + 1..];
        i := i + 1;
      }
      tables := tables[p := tables[p].(elems := [], version := tables[p].version + |tables[p].elems|)];
    }

    method AddRoot(t: TableId) returns (r: Ret)
      requires Inv(View()) && CanRoot(View(), t)
      modifies this`roots, this`nursery
      ensures (View(), r) == GcModel.AddRoot(old(View()), t) && Inv(View())
      ensures r == (if t in old(roots) then Existed else if |old(roots)| >= MAX_ROOTS then OutOfMemory else Ok)
      ensures forall x :: x in roots <==> x in old(roots) || (r == Ok && x == t)
    {
      hide Inv;
      AddRootKeeps(View(), t);
      AddRootEffect(View(), t);
      if t in roots {
        return Existed;
      }
      if |roots| >= MAX_ROOTS {
        return OutOfMemory;
      }
      var i := RootRank(roots, t);
      roots := roots[..i] + [t] + roots[i..];
      nursery := nursery - {t};
      return Ok;
    }

    method RemoveRoot(t: TableId, free: bool) returns (r: Ret)
      requires Inv(View())
      modifies this`roots, this`prevSweepQueue, this`sweepQueue, this`garbageQueue, this`remainedQueue
      ensures (View(), r) == GcModel.RemoveRoot(old(View()), t, free) && Inv(View())
      ensures r == (if t in old(roots) then Ok else NotFound) && forall x :: x in roots <==> x in old(roots) && x != t
      ensures r == Ok ==> MovedToSweep(old(View()), View(), if free then {t} else {})
    {
      hide Inv, Without, MovedToSweep;
      RemoveRootKeeps(View(), t, free);
      RemoveRootEffect(View(), t, free);
      if t !in roots {
        return NotFound;
      }
      roots := Without(roots, t);
      if free {
        SweepTable(t);
      }
      return Ok;
    }

    /**
      Runs slices until there is no more to do.  Without mutators this takes at most two rounds; it then fails exactly
      when no round was open, nothing was waiting to be swept and the mark queue was not empty.
     */
    method Destroy() returns (r: Ret)
      requires Inv(View()) && maxVisit >= 1 && maxFree >= 1
      modifies this
      ensures Inv(View()) && round <= old(round) + 8
      ensures prevSweepQueue == [] && sweepQueue == [] && garbageQueue == [] && remainedQueue == []
      ensures r == Ok <==> markQueue == []
      ensures r == Ok <==> old(begin || sweepQueue != [] || prevSweepQueue != [] || markQueue == [])
    {
      hide Inv, RunSlice;
      ghost var started := false;
      while true
        invariant Inv(View()) && maxVisit >= 1 && maxFree >= 1
        invariant round + (if Stage(View()) == 0 then 0 else if Stage(View()) <= 2 then 4 else 8) <= old(round) + 8
        invariant !started ==> View() == old(View())
        invariant started ==> old(begin || sweepQueue != [] || prevSweepQueue != []) && (begin || markQueue == [])
        decreases Stage(View()), Work(View()).unknown, Work(View()).swept, Work(View()).garbage
      {
        ghost var s := View();
        var visit: nat, free: nat :| visit >= 1 && free >= 1;
        r := Run(visit, free);
        NoDataIff(s, visit, free);
        if r == NoGcData {
          NoDataEmpty(s);
          break;
        }
        SliceStage(s, visit, free);
        SliceWork(s, visit, free);
        SliceBudgets(s, visit, free);
        started := true;
      }
      r := if markQueue == [] && prevSweepQueue == [] && sweepQueue == [] && garbageQueue == [] && remainedQueue == []
           then Ok else StateInvalid;
    }
  }

  /** The effect of visiting one child. */
  function ChildStep(s: State, k: TableId, target: Target): State {
    match target
    case ToMark =>
      if White(s, k) && k !in s.markQ then s.(markQ := s.markQ + [k], currVisit := s.currVisit + 1) else s
    case ToSweep(p) =>
      if White(s, k) && !InSweep(s, k) then WithQueue(s, p, Queue(s, p) + [k]).(currVisit := s.currVisit + 1) else s
  }

  /** The rest of a walk, with the kids still to come. */
  function ChildrenRest(c: State, kids: seq<TableId>, target: Target): State {
    match target
    case ToMark =>
      var q := Enqueue(c, kids, c.markQ, {});
      c.(markQ := q, currVisit := c.currVisit + (|q| - |c.markQ|))
    case ToSweep(p) =>
      var q := Enqueue(c, kids, Queue(c, p), OtherSweepNodes(c, p));
      WithQueue(c, p, q).(currVisit := c.currVisit + (|q| - |Queue(c, p)|))
  }

  lemma ChildrenRestDone(c: State, target: Target)
    ensures ChildrenRest(c, [], target) == c
  {
  }

  lemma NoKids(es: seq<Element>)
    ensures Kids(es[|es|..]) == []
  {
  }

  /** The tables referred to from element i on. */
  lemma KidsFrom(es: seq<Element>, i: nat)
    requires i < |es|
    ensures var v := es[i].value;
      if v.Ref? then Kids(es[i..]) == [v.id] + Kids(es[i + 1..]) && v.id in Kids(es[i..])
        && (forall k :: k in Kids(es[i + 1..]) ==> k in Kids(es[i..]))
      else Kids(es[i..]) == Kids(es[i + 1..])
  {
    assert es[i..][1..] == es[i + 1..] && es[i..][0] == es[i];
  }

  lemma ChildrenRestStep(c: State, k: TableId, rest: seq<TableId>, target: Target)
    ensures ChildrenRest(ChildStep(c, k, target), rest, target) == ChildrenRest(c, [k] + rest, target)
  {
    match target
    case ToMark => MarkRestStep(c, k, rest);
    case ToSweep(p) => SweepRestStep(c, k, rest, p);
  }

  lemma MarkRestStep(c: State, k: TableId, rest: seq<TableId>)
    ensures ChildrenRest(ChildStep(c, k, ToMark), rest, ToMark) == ChildrenRest(c, [k] + rest, ToMark)
  {
    hide Enqueue;
    var c' := ChildStep(c, k, ToMark);
    EnqueueFirst(c, k, rest, c.markQ, {});
    EnqueueFrame(c, c', rest, c'.markQ, {});
    assert Enqueue(c, [k] + rest, c.markQ, {}) == Enqueue(c', rest, c'.markQ, {});
  }

  lemma SweepRestStep(c: State, k: TableId, rest: seq<TableId>, p: Phase)
    ensures ChildrenRest(ChildStep(c, k, ToSweep(p)), rest, ToSweep(p)) == ChildrenRest(c, [k] + rest, ToSweep(p))
  {
    hide Enqueue;
    var c', others := ChildStep(c, k, ToSweep(p)), OtherSweepNodes(c, p);
    SweepNodesSplit(c, p, k);
    EnqueueFirst(c, k, rest, Queue(c, p), others);
    EnqueueFrame(c, c', rest, Queue(c', p), others);
    assert OtherSweepNodes(c', p) == others;
    assert Enqueue(c, [k] + rest, Queue(c, p), others) == Enqueue(c', rest, Queue(c', p), others);
    hide OtherSweepNodes, InSweep;
  }

  lemma SweepNodesSplit(c: State, p: Phase, k: TableId)
    ensures InSweep(c, k) <==> k in Queue(c, p) || k in OtherSweepNodes(c, p)
  {
  }

  lemma EnqueueFirst(s: State, k: TableId, rest: seq<TableId>, q: seq<TableId>, others: set<TableId>)
    ensures Enqueue(s, [k] + rest, q, others) ==
      Enqueue(s, rest, if White(s, k) && k !in q && k !in others then q + [k] else q, others)
  {
    assert ([k] + rest)[1..] == rest;
  }

  // ----- the loop bodies are the single steps -----

  lemma QueuedLive(s: State, t: TableId)
    requires Inv(s) && t in s.markQ
    ensures t in s.tables && forall k :: k in Kids(s.tables[t].elems) ==> k in s.tables
  {
    hide Kids, SortedKeys, NoDup, Ascending, Reach, TriColour, NurseryFresh, Colours;
    SourceKids(s, t);
  }

  lemma SweptLive(s: State, p: Phase)
    requires Inv(s) && Queue(s, p) != []
    ensures var t := Queue(s, p)[0]; t in s.tables && forall k :: k in Kids(s.tables[t].elems) ==> k in s.tables
  {
    hide Kids, SortedKeys, NoDup, Ascending, Reach, TriColour, NurseryFresh, Colours;
    assert InSweep(s, Queue(s, p)[0]);
    SourceKids(s, Queue(s, p)[0]);
  }

  lemma MarkOneIs(s: State)
    requires s.markQ != [] && s.markQ[0] in s.tables
    ensures var t := s.markQ[0];
      var s1 := s.(tables := s.tables[t := s.tables[t].(mark := s.round + 1)], markQ := s.markQ[1..]);
      var s2 := ChildrenRest(s1, KidsOf(s1, t), ToMark);
      MarkOne(s) == s2.(currVisit := s2.currVisit + 1)
  {
    hide Enqueue, Kids;
  }

  lemma SweepOneIs(s: State, p: Phase)
    requires Queue(s, p) != [] && Queue(s, p)[0] in s.tables
    ensures var t := Queue(s, p)[0];
      var s1 := WithQueue(s, p, Queue(s, p)[1..]);
      if Black(s, t) then
        SweepOne(s, p) == s1.(remainedQ := if p == Sweep then s.remainedQ + [t] else s.remainedQ,
          currVisit := s.currVisit + 1)
      else
        var s2 := s1.(tables := s.tables[t := s.tables[t].(mark := s.round + 2)], garbageQ := s.garbageQ + [t]);
        var s3 := ChildrenRest(s2, KidsOf(s2, t), ToSweep(p));
        SweepOne(s, p) == s3.(currVisit := s3.currVisit + 1)
  {
    hide Enqueue, Kids, OtherSweepNodes, KidsOf;
    if p == Prev { assert p != Sweep; }
  }

  lemma NoDataIff(s: State, visit: nat, free: nat)
    requires Inv(s)
    ensures RunSlice(s, visit, free).1 == NoGcData <==> !s.begin && s.sweepQ == [] && s.prevQ == []
    ensures RunSlice(s, visit, free).1 == NoGcData ==> RunSlice(s, visit, free).0 == s.(currVisit := 0, currFree := 0)
  {
    hide MarkTables, FreeTables, Inv, Frame;
    OpeningKeeps(s);
    MarkTablesKeeps(Opening(s), visit);
    if MarkTables(Opening(s), visit).1 == Empty { FreeTablesKeeps(MarkTables(Opening(s), visit).0, free); }
  }

  lemma SlicePreservesAll(s: State, visit: nat, free: nat)
    requires Inv(s)
    ensures forall t :: CanLink(s, t) ==>
      t in s.tables && t in RunSlice(s, visit, free).0.tables && RunSlice(s, visit, free).0.tables[t].elems ==
        s.tables[t].elems
  {
    hide Inv, RunSlice, CanLink;
    forall t | CanLink(s, t)
      ensures t in s.tables && t in RunSlice(s, visit, free).0.tables && RunSlice(s, visit, free).0.tables[t].elems ==
        s.tables[t].elems
    {
      SlicePreserves(s, visit, free, t);
    }
  }
}
