/**
  How a table made a root too late is lost: inside an open round the collector does not look at the roots, so once the
  references to the table are cut, the round condemns and frees it.
 */
module GcRootLost {
  import opened Queues
  import opened Tables
  import opened GcModel
  import opened GcReach
  import opened GcInvariant
  import opened GcSteps
  import opened GcSlice
  import opened GcMutators
  import opened GcTrace
  import opened GcProgress
  import opened GcRuns

  // ----- an open round does not read the roots -----

  lemma MarkOneCommutes(s: State, r: seq<TableId>)
    requires s.markQ != []
    ensures MarkOne(s.(roots := r)) == MarkOne(s).(roots := r)
  {
    hide Enqueue, Kids;
    var t := s.markQ[0];
    var s1 := s.(tables := WithMark(s.tables, t, s.round + 1), markQ := s.markQ[1..]);
    EnqueueFrame(s1, s1.(roots := r), KidsOf(s1, t), s1.markQ, {});
  }

  lemma SweepOneCommutes(s: State, r: seq<TableId>, p: Phase)
    requires Queue(s, p) != []
    ensures SweepOne(s.(roots := r), p) == SweepOne(s, p).(roots := r)
  {
    hide Enqueue, Kids, OtherSweepNodes;
    var t := Queue(s, p)[0];
    SameSweepNodes(s, r, p);
    var s2 := WithQueue(s, p, Queue(s, p)[1..]).(tables := WithMark(s.tables, t, s.round + 2), garbageQ := s.garbageQ
      + [t]);
    SameSweepNodes(s2, r, p);
    EnqueueFrame(s2, s2.(roots := r), KidsOf(s2, t), Queue(s2, p), OtherSweepNodes(s2, p));
  }

  lemma SameSweepNodes(s: State, r: seq<TableId>, p: Phase)
    ensures OtherSweepNodes(s.(roots := r), p) == OtherSweepNodes(s, p)
  {
  }

  lemma {:induction false} MarkReachableCommutes(s: State, r: seq<TableId>)
    ensures var (s', x) := MarkReachable(s); MarkReachable(s.(roots := r)) == (s'.(roots := r), x)
    decreases s.maxVisit - s.currVisit
  {
    hide MarkOne;
    if s.currVisit < s.maxVisit && s.markQ != [] {
      MarkOneCommutes(s, r);
      MarkOneProgress(s);
      MaxVisitStays(s);
      MarkReachableCommutes(MarkOne(s), r);
    }
  }

  lemma MaxVisitStays(s: State)
    ensures s.markQ != [] ==> MarkOne(s).maxVisit == s.maxVisit
    ensures forall p :: Queue(s, p) != [] ==> SweepOne(s, p).maxVisit == s.maxVisit
  {
  }

  lemma {:induction false} MarkGarbageCommutes(s: State, r: seq<TableId>, p: Phase)
    ensures var (s', x) := MarkGarbage(s, p); MarkGarbage(s.(roots := r), p) == (s'.(roots := r), x)
    decreases s.maxVisit - s.currVisit
  {
    hide SweepOne;
    if s.currVisit < s.maxVisit && Queue(s, p) != [] && !Garbage(s, Queue(s, p)[0]) {
      SweepOneCommutes(s, r, p);
      SweepOneProgress(s, p);
      MaxVisitStays(s);
      MarkGarbageCommutes(SweepOne(s, p), r, p);
    }
  }

  lemma MarkTablesCommutes(s: State, r: seq<TableId>, budget: nat)
    ensures var (s', x) := MarkTables(s, budget); MarkTables(s.(roots := r), budget) == (s'.(roots := r), x)
  {
    hide MarkReachable, MarkGarbage;
    MarkReachableCommutes(s, r);
    var (s1, r1) := MarkReachable(s);
    MarkGarbageCommutes(s1, r, Prev);
    var (s2, r2) := MarkGarbage(s1, Prev);
    MarkGarbageCommutes(s2, r, Sweep);
  }

  lemma {:induction false} FreeTablesCommutes(s: State, r: seq<TableId>, budget: nat)
    ensures var (s', x) := FreeTables(s, budget); FreeTables(s.(roots := r), budget) == (s'.(roots := r), x)
    decreases s.maxFree - s.currFree
  {
    if s.currFree < s.maxFree && s.garbageQ != [] {
      assert FreeOne(s.(roots := r)) == FreeOne(s).(roots := r);
      FreeTablesCommutes(FreeOne(s), r, budget);
    }
  }

  lemma SliceBodyCommutes(s: State, r: seq<TableId>, visit: nat, free: nat)
    ensures SliceBody(s.(roots := r), visit, free).0 == SliceBody(s, visit, free).0.(roots := r)
  {
    hide MarkTables, FreeTables;
    MarkTablesCommutes(s, r, visit);
    FreeTablesCommutes(MarkTables(s, visit).0, r, free);
  }

  /** A slice inside a round does the same whatever the roots are. */
  lemma SliceCommutes(s: State, r: seq<TableId>, visit: nat, free: nat)
    requires s.begin
    ensures RunSlice(s.(roots := r), visit, free).0 == RunSlice(s, visit, free).0.(roots := r)
  {
    hide SliceBody;
    var s0 := s.(currVisit := 0, currFree := 0);
    SliceBodyCommutes(s0, r, visit, free);
    assert s.(roots := r).(currVisit := 0, currFree := 0) == s0.(roots := r);
  }

  /** No slice changes the roots. */
  lemma SliceRoots(s: State, visit: nat, free: nat)
    ensures RunSlice(s, visit, free).0.roots == s.roots
  {
    hide SliceBody;
    var s0 := s.(currVisit := 0, currFree := 0);
    SliceBodyCommutes(s0, s.roots, visit, free);
    SliceBodyCommutes(BeginRound(s0), s.roots, visit, free);
    assert s0.(roots := s.roots) == s0 && BeginRound(s0).(roots := s.roots) == BeginRound(s0);
  }

  lemma RemoveCommutes(s: State, r: seq<TableId>, p: TableId, k: int)
    ensures RemoveKey(s.(roots := r), p, k).0 == RemoveKey(s, p, k).0.(roots := r)
  {
    hide Rank, Without;
  }

  // ----- runs that only cut references and run slices -----

  lemma MoreRoots(s: State, r: seq<TableId>, x: TableId)
    requires FromRoots(s, x) && forall t :: t in s.roots ==> t in r
    ensures FromRoots(s.(roots := r), x)
  {
    var p :| Path(s.tables, p) && p[0] in Members(s.roots) && p[|p| - 1] == x;
    assert p[0] in Members(r);
  }

  /** The same actions are allowed with more roots, and have the same effect on everything else. */
  ghost predicate Follows(s: State, r: seq<TableId>, acts: seq<Action>) {
    && Runs(s, acts) && Runs(s.(roots := r), acts) && After(s.(roots := r), acts) == After(s, acts).(roots := r)
  }

  lemma NothingFollows(s: State, r: seq<TableId>)
    ensures Follows(s, r, [])
  {
  }

  lemma FollowsStep(s: State, r: seq<TableId>, a: Action, rest: seq<Action>)
    requires Allowed(s, a) && Allowed(s.(roots := r), a) && Do(s.(roots := r), a) == Do(s, a).(roots := r)
    requires Follows(Do(s, a), r, rest)
    ensures Follows(s, r, [a] + rest) && After(s, [a] + rest) == After(Do(s, a), rest)
  {
    hide Allowed, Do;
    assert ([a] + rest)[1..] == rest;
  }

  lemma {:induction false} RunsConcat(s: State, a: seq<Action>, b: seq<Action>)
    requires Runs(s, a) && Runs(After(s, a), b)
    ensures Runs(s, a + b) && After(s, a + b) == After(After(s, a), b)
    decreases a
  {
    hide Allowed, Do;
    if a == [] {
      assert a + b == b;
    } else {
      assert (a + b)[1..] == a[1..] + b;
      RunsConcat(Do(s, a[0]), a[1..], b);
    }
  }

  lemma FollowsConcat(s: State, r: seq<TableId>, a: seq<Action>, b: seq<Action>)
    requires Follows(s, r, a) && Follows(After(s, a), r, b)
    ensures Follows(s, r, a + b) && After(s, a + b) == After(After(s, a), b)
  {
    hide Runs, After;
    RunsConcat(s, a, b);
    RunsConcat(s.(roots := r), a, b);
  }

  // ----- ways to t that do not pass through t -----

  ghost predicate AvoidPath(s: State, t: TableId, p: seq<TableId>, x: TableId) {
    Path(s.tables, p) && p[0] in s.roots && p[|p| - 1] == x && t !in p
  }

  /** x is reached from a root without passing through t. */
  ghost predicate Avoids(s: State, t: TableId, x: TableId) {
    exists p :: AvoidPath(s, t, p, x)
  }

  lemma AvoidsReached(s: State, t: TableId, x: TableId)
    requires Avoids(s, t, x)
    ensures FromRoots(s, x)
  {
    var p :| AvoidPath(s, t, p, x);
  }

  /** The last table before t on a way from the roots avoids t. */
  lemma Entry(s: State, t: TableId) returns (a: TableId)
    requires FromRoots(s, t) && t !in s.roots
    ensures Avoids(s, t, a) && Edge(s.tables, a, t)
  {
    var p :| Path(s.tables, p) && p[0] in Members(s.roots) && p[|p| - 1] == t;
    a := EntryOn(s, t, p);
  }

  lemma {:induction false} EntryOn(s: State, t: TableId, p: seq<TableId>) returns (a: TableId)
    requires Path(s.tables, p) && p[0] in s.roots && p[|p| - 1] == t && t !in s.roots
    ensures Avoids(s, t, a) && Edge(s.tables, a, t)
    decreases |p|
  {
    var q := p[..|p| - 1];
    assert Path(s.tables, q);
    if t in q {
      var i :| 0 <= i < |q| && q[i] == t;
      assert Path(s.tables, q[..i + 1]);
      a := EntryOn(s, t, q[..i + 1]);
    } else {
      a := q[|q| - 1];
      assert AvoidPath(s, t, q, a);
      assert Edge(s.tables, p[|p| - 2], p[|p| - 1]);
    }
  }

  // ----- cutting one reference to t -----

  /** s' differs from s in that some references to t are gone, and the sweep queues. */
  ghost predicate Trimmed(s: State, s': State, t: TableId) {
    && s' == s.(tables := s'.tables, prevQ := s'.prevQ, sweepQ := s'.sweepQ, garbageQ := s'.garbageQ,
      remainedQ := s'.remainedQ)
    && s'.tables.Keys == s.tables.Keys && (forall x :: x in s.tables ==> s'.tables[x].mark == s.tables[x].mark)
    && (forall x, y :: Edge(s'.tables, x, y) ==> Edge(s.tables, x, y))
    && (forall x, y :: y != t && Edge(s.tables, x, y) ==> Edge(s'.tables, x, y))
  }

  lemma TrimmedTwice(a: State, b: State, c: State, t: TableId)
    requires Trimmed(a, b, t) && Trimmed(b, c, t)
    ensures Trimmed(a, c, t)
  {
    hide Edge;
  }

  lemma TrimmedSelf(s: State, t: TableId)
    ensures Trimmed(s, s, t)
  {
  }

  lemma TrimmedAvoids(s: State, s': State, t: TableId, x: TableId)
    requires Trimmed(s, s', t)
    ensures Avoids(s, t, x) <==> Avoids(s', t, x)
  {
    hide Edge;
    if Avoids(s, t, x) {
      var p :| AvoidPath(s, t, p, x);
      forall i | 0 <= i < |p| - 1 ensures Edge(s'.tables, p[i], p[i + 1]) { assert p[i + 1] in p; }
      assert AvoidPath(s', t, p, x);
    }
    if Avoids(s', t, x) {
      var p :| AvoidPath(s', t, p, x);
      assert AvoidPath(s, t, p, x);
    }
  }

  /** If t is still reached, so is everything else. */
  lemma TrimmedReached(s: State, s': State, t: TableId, x: TableId)
    requires Trimmed(s, s', t) && FromRoots(s', t) && FromRoots(s, x)
    ensures FromRoots(s', x)
  {
    hide Edge, Reach;
    var inside := (y: TableId) => FromRoots(s', y);
    forall r | r in Members(s.roots) ensures inside(r) { ReachSource(s'.tables, Members(s'.roots), r); }
    forall a, b | inside(a) && Edge(s.tables, a, b)
      ensures inside(b)
    {
      if b != t { ReachStep(s'.tables, Members(s'.roots), a, b); }
    }
    ReachInClosed(s.tables, Members(s.roots), inside, x);
  }

  /** Where tables refer to t. */
  ghost function RefsTo(s: State, t: TableId): set<(TableId, int)> {
    set a, e | a in s.tables && e in s.tables[a].elems && e.value == Ref(t) :: (a, e.key)
  }

  lemma {:induction false} RefOf(es: seq<Element>, t: TableId) returns (i: nat)
    requires t in Kids(es)
    ensures i < |es| && es[i].value == Ref(t)
  {
    if es[0].value == Ref(t) {
      i := 0;
    } else {
      var j := RefOf(es[1..], t);
      i := j + 1;
    }
  }

  /** Removing the element at index i, which refers to t. */
  lemma CutEffect(s: State, a: TableId, i: nat, t: TableId)
    requires a in s.tables && SortedKeys(s.tables[a].elems) && i < |s.tables[a].elems| && s.tables[a].elems[i].value ==
      Ref(t)
    ensures var s' := RemoveKey(s, a, s.tables[a].elems[i].key).0;
      && Trimmed(s, s', t) && t in s'.sweepQ && |RefsTo(s', t)| < |RefsTo(s, t)|
      && s'.tables == s.tables[a := s'.tables[a]] && s'.tables[a].elems == s.tables[a].elems[..i]
        + s.tables[a].elems[i + 1..]
  {
    hide Kids, Trimmed, RemoveKey, RefsTo;
    CutFields(s, a, i, t);
    CutTrimmed(s, RemoveKey(s, a, s.tables[a].elems[i].key).0, a, i, t);
    CutRefs(s, RemoveKey(s, a, s.tables[a].elems[i].key).0, a, i, t);
  }

  lemma CutFields(s: State, a: TableId, i: nat, t: TableId)
    requires a in s.tables && SortedKeys(s.tables[a].elems) && i < |s.tables[a].elems| && s.tables[a].elems[i].value ==
      Ref(t)
    ensures var es := s.tables[a].elems; var s' := RemoveKey(s, a, es[i].key).0;
      && s' == s.(tables := s'.tables, prevQ := s'.prevQ, sweepQ := s'.sweepQ, garbageQ := s'.garbageQ,
        remainedQ := s'.remainedQ)
      && t in s'.sweepQ && a in s'.tables && s'.tables == s.tables[a := s'.tables[a]]
      && s'.tables[a].elems == es[..i] + es[i + 1..] && s'.tables[a].mark == s.tables[a].mark
  {
    hide Rank, Without, SortedKeys;
    RankAt(s.tables[a].elems, i);
  }

  lemma CutTrimmed(s: State, s': State, a: TableId, i: nat, t: TableId)
    requires a in s.tables && i < |s.tables[a].elems| && s.tables[a].elems[i].value == Ref(t) && a in s'.tables
    requires s' == s.(tables := s'.tables, prevQ := s'.prevQ, sweepQ := s'.sweepQ, garbageQ := s'.garbageQ,
      remainedQ := s'.remainedQ)
    requires s'.tables == s.tables[a := s'.tables[a]] && s'.tables[a].mark == s.tables[a].mark
    requires s'.tables[a].elems == s.tables[a].elems[..i] + s.tables[a].elems[i + 1..]
    ensures Trimmed(s, s', t)
  {
    hide Kids;
    CutKids(s.tables[a].elems, i, t);
  }

  lemma RankAt(es: seq<Element>, i: nat)
    requires SortedKeys(es) && i < |es|
    ensures Rank(es, es[i].key) == i
  {
    RankSplits(es, es[i].key);
  }

  lemma CutKids(es: seq<Element>, i: nat, t: TableId)
    requires i < |es| && es[i].value == Ref(t)
    ensures var es' := es[..i] + es[i + 1..];
      && (forall y :: y in Kids(es') ==> y in Kids(es))
      && (forall y :: y in Kids(es) && y != t ==> y in Kids(es'))
  {
    hide Kids;
    assert es == es[..i] + [es[i]] + es[i + 1..];
    KidsConcat(es[..i], [es[i]]);
    KidsConcat(es[..i] + [es[i]], es[i + 1..]);
    KidsConcat(es[..i], es[i + 1..]);
    KidsSingle(es[i]);
  }

  lemma CutRefs(s: State, s': State, a: TableId, i: nat, t: TableId)
    requires a in s.tables && SortedKeys(s.tables[a].elems) && i < |s.tables[a].elems| && s.tables[a].elems[i].value ==
      Ref(t)
    requires a in s'.tables && s'.tables == s.tables[a := s'.tables[a]]
    requires s'.tables[a].elems == s.tables[a].elems[..i] + s.tables[a].elems[i + 1..]
    ensures |RefsTo(s', t)| < |RefsTo(s, t)|
  {
    var es := s.tables[a].elems;
    var es' := s'.tables[a].elems;
    var gone := (a, es[i].key);
    forall e | e in es' ensures e in es && e.key != es[i].key {
      var j :| 0 <= j < |es'| && es'[j] == e;
      if j < i { assert es[j] == e; } else { assert es[j + 1] == e; }
    }
    assert es[i] in es && gone in RefsTo(s, t);
    assert RefsTo(s', t) <= RefsTo(s, t);
    assert gone !in RefsTo(s', t);
    assert RefsTo(s', t) <= RefsTo(s, t) - {gone};
    Smaller(RefsTo(s', t), RefsTo(s, t), gone);
  }

  lemma Smaller(x: set<(TableId, int)>, y: set<(TableId, int)>, e: (TableId, int))
    requires x <= y - {e} && e in y
    ensures |x| < |y|
  {
    Subset(x, y - {e});
  }

  lemma Subset(x: set<(TableId, int)>, y: set<(TableId, int)>)
    requires x <= y
    ensures |x| <= |y|
  {
    assert y == x + (y - x);
  }

  // ----- cutting all references to t that a caller can get at -----

  /** Only removals of keys and slices: no root is added or removed. */
  predicate Plain(acts: seq<Action>) {
    forall a :: a in acts ==> a.Remove? || a.Slice?
  }

  lemma PlainConcat(a: seq<Action>, b: seq<Action>)
    requires Plain(a) && Plain(b)
    ensures Plain(a + b)
  {
  }

  /** Removes one reference from b to t. */
  lemma CutOne(s: State, r: seq<TableId>, b: TableId, t: TableId) returns (a: Action)
    requires Inv(s) && FromRoots(s, b) && Edge(s.tables, b, t) && forall x :: x in s.roots ==> x in r
    ensures a.Remove? && Allowed(s, a) && Allowed(s.(roots := r), a) && Do(s.(roots := r), a) == Do(s, a).(roots := r)
    ensures var s' := Do(s, a);
      && Inv(s') && Trimmed(s, s', t) && t in s'.sweepQ && |RefsTo(s', t)| < |RefsTo(s, t)|
      && forall x :: x != b && Edge(s.tables, x, t) ==> Edge(s'.tables, x, t)
  {
    hide Reach, Kids, NoDup, Ascending, TriColour, NurseryFresh, Colours, SweepDisjoint, NoDangling, RemoveKey, RefsTo,
      Trimmed;
    var i := RefOf(s.tables[b].elems, t);
    var k := s.tables[b].elems[i].key;
    a := Remove(b, k);
    CutEffect(s, b, i, t);
    RemoveKeeps(s, b, k);
    RemoveCommutes(s, r, b, k);
    MoreRoots(s, r, b);
  }

  /** First the references from tables that are reached only through t; t stays reached. */
  lemma {:induction false} CutLate(s: State, r: seq<TableId>, t: TableId) returns (acts: seq<Action>)
    requires Inv(s) && FromRoots(s, t) && t !in s.roots && forall x :: x in s.roots ==> x in r
    ensures Follows(s, r, acts) && Plain(acts)
    ensures var s' := After(s, acts);
      && Inv(s') && Trimmed(s, s', t) && FromRoots(s', t)
      && forall b :: FromRoots(s, b) && Edge(s'.tables, b, t) ==> Avoids(s, t, b)
    decreases |RefsTo(s, t)|
  {
    hide Inv, Reach, FromRoots, Edge, Allowed, Do, RefsTo, Trimmed, Follows, Avoids, Runs;
    if b :| FromRoots(s, b) && Edge(s.tables, b, t) && !Avoids(s, t, b) {
      var a := CutOne(s, r, b, t);
      var s1 := Do(s, a);
      StillReached(s, s1, t, b);
      TrimmedFields(s, s1, t);
      var rest := CutLate(s1, r, t);
      acts := [a] + rest;
      FollowsStep(s, r, a, rest);
      TrimmedTwice(s, s1, After(s1, rest), t);
      forall x | FromRoots(s, x) && Edge(After(s, acts).tables, x, t)
        ensures Avoids(s, t, x)
      {
        TrimmedReached(s, s1, t, x);
        TrimmedAvoids(s, s1, t, x);
      }
    } else {
      acts := [];
      NothingFollows(s, r);
      TrimmedSelf(s, t);
    }
  }

  lemma TrimmedFields(s: State, s': State, t: TableId)
    requires Trimmed(s, s', t)
    ensures s'.roots == s.roots && s'.markQ == s.markQ && s'.begin == s.begin && s'.round == s.round
    ensures s'.maxVisit == s.maxVisit && s'.maxFree == s.maxFree
    ensures White(s, t) ==> White(s', t)
  {
  }

  /** Cutting a reference from a table that needs t does not cut t off. */
  lemma StillReached(s: State, s': State, t: TableId, b: TableId)
    requires FromRoots(s, t) && t !in s.roots && Trimmed(s, s', t) && !Avoids(s, t, b)
    requires forall x :: x != b && Edge(s.tables, x, t) ==> Edge(s'.tables, x, t)
    ensures FromRoots(s', t)
  {
    hide Edge, Reach, Avoids;
    var a := Entry(s, t);
    TrimmedAvoids(s, s', t, a);
    AvoidsReached(s', t, a);
    ReachStep(s'.tables, Members(s'.roots), a, t);
  }

  /** Then the references from tables that are reached without t. */
  lemma {:induction false} CutRest(s: State, r: seq<TableId>, t: TableId) returns (acts: seq<Action>)
    requires Inv(s) && forall x :: x in s.roots ==> x in r
    ensures Follows(s, r, acts) && Plain(acts)
    ensures var s' := After(s, acts);
      && Inv(s') && Trimmed(s, s', t)
      && (forall b :: Avoids(s, t, b) ==> !Edge(s'.tables, b, t))
      && (t in s.sweepQ || (exists b :: Avoids(s, t, b) && Edge(s.tables, b, t)) ==> t in s'.sweepQ)
    decreases |RefsTo(s, t)|
  {
    hide Inv, Reach, FromRoots, Edge, Allowed, Do, RefsTo, Trimmed, Follows, Avoids, Runs;
    if b :| Avoids(s, t, b) && Edge(s.tables, b, t) {
      AvoidsReached(s, t, b);
      var a := CutOne(s, r, b, t);
      var s1 := Do(s, a);
      TrimmedFields(s, s1, t);
      var rest := CutRest(s1, r, t);
      acts := [a] + rest;
      FollowsStep(s, r, a, rest);
      TrimmedTwice(s, s1, After(s1, rest), t);
      forall x | Avoids(s, t, x)
        ensures !Edge(After(s, acts).tables, x, t)
      {
        TrimmedAvoids(s, s1, t, x);
      }
    } else {
      acts := [];
      NothingFollows(s, r);
      TrimmedSelf(s, t);
    }
  }

  /** Afterwards no table that was reached from the roots refers to t, and t waits to be swept. */
  lemma CutAll(s: State, r: seq<TableId>, t: TableId) returns (acts: seq<Action>)
    requires Inv(s) && FromRoots(s, t) && t !in s.roots && forall x :: x in s.roots ==> x in r
    ensures Follows(s, r, acts) && Plain(acts)
    ensures var s' := After(s, acts);
      && Inv(s') && Trimmed(s, s', t) && t in s'.sweepQ
      && forall b :: FromRoots(s, b) ==> !Edge(s'.tables, b, t)
  {
    hide Inv, Reach, FromRoots, Edge, Allowed, Do, Trimmed, Follows, Avoids, Runs, After;
    var first := CutLate(s, r, t);
    var s1 := After(s, first);
    TrimmedFields(s, s1, t);
    var a := Entry(s1, t);
    var second := CutRest(s1, r, t);
    FollowsConcat(s, r, first, second);
    PlainConcat(first, second);
    acts := first + second;
    var s2 := After(s1, second);
    TrimmedTwice(s, s1, s2, t);
    forall b | FromRoots(s, b)
      ensures !Edge(s2.tables, b, t)
    {
      TrimmedAvoids(s, s1, t, b);
      TrimmedEdges(s1, s2, t, b);
    }
  }

  lemma TrimmedEdges(s: State, s': State, t: TableId, b: TableId)
    requires Trimmed(s, s', t)
    ensures Edge(s'.tables, b, t) ==> Edge(s.tables, b, t)
  {
  }

  // ----- the open round frees what it cannot mark any more -----

  /** t is gone or condemned, or it waits to be swept and marking cannot come to it. */
  ghost predicate Lost(s: State, t: TableId) {
    || t !in s.tables
    || Garbage(s, t)
    || (White(s, t) && t !in s.markQ && !Reach(s.tables, Members(s.markQ), t) && (t in s.sweepQ || t in s.prevQ))
  }

  lemma LostMark(s: State, t: TableId)
    requires Inv(s) && s.markQ != [] && Lost(s, t)
    ensures Lost(MarkOne(s), t)
  {
    hide Reach, Kids, SortedKeys, NoDup, Ascending, MarkOne, TriColour, NurseryFresh, NoDangling, SweepDisjoint;
    MarkOneEffect(s);
    assert White(s, s.markQ[0]);
    var s' := MarkOne(s);
    if White(s, t) && t !in s.markQ && !Reach(s.tables, Members(s.markQ), t) {
      MarkShrinks(s, s', s.markQ[0], t);
    }
  }

  /** Marking one table opens no way that was not open before. */
  lemma MarkShrinks(s: State, s': State, x: TableId, t: TableId)
    requires x in s.markQ && x in s.tables && s'.tables == s.tables[x := s.tables[x].(mark := s.round + 1)]
    requires forall y :: y in s'.markQ ==> y in s.markQ || y in KidsOf(s, x)
    requires !Reach(s.tables, Members(s.markQ), t)
    ensures !Reach(s'.tables, Members(s'.markQ), t) && t !in s'.markQ
  {
    hide Reach, Kids;
    forall y | y in Members(s'.markQ)
      ensures Reach(s.tables, Members(s.markQ), y)
    {
      if y in s.markQ {
        ReachSource(s.tables, Members(s.markQ), y);
      } else {
        ReachSource(s.tables, Members(s.markQ), x);
        assert Edge(s.tables, x, y);
        ReachStep(s.tables, Members(s.markQ), x, y);
      }
    }
    forall a, b | Reach(s.tables, Members(s.markQ), a) && Edge(s'.tables, a, b)
      ensures Reach(s.tables, Members(s.markQ), b)
    {
      assert Edge(s.tables, a, b);
      ReachStep(s.tables, Members(s.markQ), a, b);
    }
    if Reach(s'.tables, Members(s'.markQ), t) {
      ReachShrinks(s.tables, Members(s.markQ), s'.tables, Members(s'.markQ), t);
    }
    assert t in s'.markQ ==> t in Members(s'.markQ);
  }

  /** Sweeping one table leaves the others that wait in their queues. */
  lemma StaysQueued(s: State, p: Phase, t: TableId)
    requires Queue(s, p) != [] && t != Queue(s, p)[0] && (t in s.sweepQ || t in s.prevQ)
    ensures t in SweepOne(s, p).sweepQ || t in SweepOne(s, p).prevQ
  {
    hide Enqueue, Kids;
    var q := Queue(s, p);
    assert t in q ==> t in q[1..];
  }

  lemma LostSweep(s: State, p: Phase, t: TableId)
    requires Inv(s) && s.begin && s.markQ == [] && Queue(s, p) != [] && Lost(s, t)
    ensures Lost(SweepOne(s, p), t)
  {
    hide Reach, Kids, SortedKeys, NoDup, Ascending, SweepOne, TriColour, NurseryFresh, NoDangling, SweepDisjoint;
    var x, s' := Queue(s, p)[0], SweepOne(s, p);
    SweepOneKeeps(s, p);
    assert InSweep(s, x);
    if Black(s, x) { SweepBlackEffect(s, p); } else { SweepWhiteEffect(s, p); }
    if t != x && (t in s.sweepQ || t in s.prevQ) { StaysQueued(s, p, t); }
    NoSources(s'.tables, t);
    assert Members(s'.markQ) == {};
  }

  lemma NoSources(tables: map<TableId, Table>, t: TableId)
    ensures !Reach(tables, {}, t)
  {
  }

  lemma LostFree(s: State, t: TableId)
    requires Inv(s) && s.prevQ == [] && s.sweepQ == [] && s.garbageQ != [] && Lost(s, t)
    ensures Lost(FreeOne(s), t)
  {
    hide Reach, Kids, SortedKeys, NoDup, Ascending, TriColour, NurseryFresh, NoDangling, SweepDisjoint;
  }

  lemma LostStep(s: State, m: Micro, t: TableId)
    requires Inv(s) && Enabled(s, m) && Lost(s, t)
    ensures Lost(Step(s, m), t)
  {
    hide Inv, Lost, MarkOne, SweepOne, FreeOne;
    match m
    case MarkStep => LostMark(s, t);
    case SweepStep(p) => LostSweep(s, p, t);
    case FreeStep => LostFree(s, t);
    case Budget(visit, free) => LostSame(s, s.(maxVisit := visit, maxFree := free), t);
  }

  lemma LostSame(s: State, s': State, t: TableId)
    requires Lost(s, t) && s'.tables == s.tables && s'.round == s.round && s'.markQ == s.markQ
    requires s'.sweepQ == s.sweepQ && s'.prevQ == s.prevQ
    ensures Lost(s', t)
  {
    hide Reach;
  }

  lemma {:induction false} LostTrace(s: State, ms: seq<Micro>, t: TableId)
    requires Inv(s) && s.begin && Trace(s, ms) && Lost(s, t)
    ensures Lost(End(s, ms), t)
    decreases ms
  {
    hide Inv, Lost, Step, Enabled;
    if ms != [] {
      StepKeepsInv(s, ms[0]);
      LostStep(s, ms[0], t);
      LostTrace(Step(s, ms[0]), ms[1..], t);
    }
  }

  /** A slice leaves t lost, and if it ends the round, t is gone. */
  lemma LostSlice(s: State, visit: nat, free: nat, t: TableId)
    requires Inv(s) && s.begin && Lost(s, t)
    ensures var s' := RunSlice(s, visit, free).0; Lost(s', t) && (!s'.begin ==> t !in s'.tables)
  {
    hide Inv, RunSlice, Trace, End, Lost;
    OpeningKeeps(s);
    LostSame(s, Opening(s), t);
    var ms := SliceTrace(s, visit, free);
    LostTrace(Opening(s), ms, t);
    TraceKeepsInv(Opening(s), ms);
    LostEnd(End(Opening(s), ms), t);
  }

  lemma LostEnd(s: State, t: TableId)
    requires Inv(s) && Lost(s, t)
    ensures s.prevQ == [] && s.sweepQ == [] && s.garbageQ == [] ==> t !in s.tables && Lost(EndRound(s), t)
  {
    hide Reach, Kids, SortedKeys, NoDup, Ascending, TriColour, NurseryFresh, NoDangling, SweepDisjoint;
  }

  /** With budgets of at least one, slices alone free t. */
  lemma {:induction false} SlicesFree(s: State, r: seq<TableId>, t: TableId) returns (acts: seq<Action>)
    requires Inv(s) && s.begin && s.maxVisit >= 1 && s.maxFree >= 1 && Lost(s, t)
    ensures Follows(s, r, acts) && Plain(acts) && t !in After(s, acts).tables
    decreases Work(s).unknown, Work(s).swept, Work(s).garbage
  {
    hide Inv, RunSlice, Work, Lost, Follows, Runs, After;
    var a := Slice(1, 1);
    var s1 := RunSlice(s, 1, 1).0;
    RunSliceKeeps(s, 1, 1);
    SliceCommutes(s, r, 1, 1);
    SliceWork(s, 1, 1);
    SliceBudgets(s, 1, 1);
    LostSlice(s, 1, 1, t);
    if s1.begin {
      var rest := SlicesFree(s1, r, t);
      acts := [a] + rest;
      FollowsStep(s, r, a, rest);
    } else {
      acts := [a] + [];
      NothingFollows(s1, r);
      FollowsStep(s, r, a, []);
      NothingAfter(s1);
    }
  }

  lemma NothingAfter(s: State)
    ensures After(s, []) == s
  {
  }

  // ----- a root made too late can be lost -----

  /** Marking will come to t through a table that no caller can get at. */
  ghost predicate Shielded(s: State, t: TableId) {
    exists a :: Reach(s.tables, Members(s.markQ), a) && !FromRoots(s, a) && Edge(s.tables, a, t)
  }

  /** In some run in which t stays a root, t is freed. */
  ghost predicate CanBeLost(s: State, t: TableId) {
    exists acts :: Runs(s, acts) && KeepsRoot(acts, t) && t !in After(s, acts).tables
  }

  predicate KeepsRoot(acts: seq<Action>, t: TableId) {
    forall a :: a in acts ==> !(a.RemoveR? && a.t == t)
  }

  /** Once the references to t are cut, marking cannot come to it. */
  lemma CutIsLost(s: State, s': State, t: TableId)
    requires Trimmed(s, s', t) && White(s, t) && t !in s.markQ && !Shielded(s, t) && t in s'.sweepQ
    requires forall b :: FromRoots(s, b) ==> !Edge(s'.tables, b, t)
    ensures Lost(s', t)
  {
    hide Reach, Edge, FromRoots;
    TrimmedFields(s, s', t);
    var inside := (x: TableId) => Reach(s.tables, Members(s.markQ), x) && x != t;
    forall x | x in Members(s'.markQ) ensures inside(x) { ReachSource(s.tables, Members(s.markQ), x); }
    forall a, b | inside(a) && Edge(s'.tables, a, b)
      ensures inside(b)
    {
      ReachStep(s.tables, Members(s.markQ), a, b);
    }
    if Reach(s'.tables, Members(s'.markQ), t) { ReachInClosed(s'.tables, Members(s'.markQ), inside, t); }
  }

  /** A reachable table that the open round neither knows nor will come to can be freed while it is a root. */
  lemma LateRootLost(s: State, t: TableId)
    requires Inv(s) && FromRoots(s, t) && t !in s.roots && |s.roots| < MAX_ROOTS && s.maxVisit >= 1 && s.maxFree >= 1
    requires s.begin && !Safe(s, t) && !Shielded(s, t)
    ensures CanBeLost(AddRoot(s, t).0, t)
  {
    hide Inv, FromRoots, Shielded, Trimmed, Follows, Runs, After, Lost, Reach;
    var r := AddRoot(s, t).0.roots;
    AddRootIs(s, t);
    var cuts := CutAll(s, r, t);
    var s1 := After(s, cuts);
    TrimmedFields(s, s1, t);
    CutIsLost(s, s1, t);
    var slices := SlicesFree(s1, r, t);
    FollowsConcat(s, r, cuts, slices);
    PlainConcat(cuts, slices);
    FollowsMeans(s, r, cuts + slices);
  }

  lemma AddRootIs(s: State, t: TableId)
    requires Inv(s) && FromRoots(s, t) && t !in s.roots && |s.roots| < MAX_ROOTS
    ensures var s' := AddRoot(s, t).0;
      && s' == s.(roots := s'.roots) && (forall x :: x in s'.roots <==> x in s.roots || x == t)
    ensures White(s, t) || Black(s, t)
  {
    hide FromRoots, Reach, Kids, SortedKeys, NoDup, Ascending, TriColour, NurseryFresh, NoDangling, SweepDisjoint;
    NurseryNotReached(s, t);
    LinkableLive(s, t);
    RootInserted(s.roots, t);
    assert s.nursery - {t} == s.nursery;
  }

  lemma FollowsMeans(s: State, r: seq<TableId>, acts: seq<Action>)
    requires Follows(s, r, acts)
    ensures Runs(s.(roots := r), acts) && After(s.(roots := r), acts).tables == After(s, acts).tables
  {
    hide Runs, After;
  }
}
