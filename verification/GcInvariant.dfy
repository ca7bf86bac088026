/** What every step of the collector and of the mutators keeps. */
module GcInvariant {
  import opened Queues
  import opened Tables
  import opened GcModel
  import opened GcReach

  /** Where a traversal may still start: everything but the garbage queue. */
  function Sources(s: State): set<TableId> {
    Members(s.roots) + Members(s.markQ) + Members(s.prevQ) + Members(s.sweepQ) + Members(s.remainedQ) + s.nursery
  }

  ghost predicate Kept(s: State, t: TableId) {
    Reach(s.tables, Sources(s), t)
  }

  ghost predicate FromRoots(s: State, t: TableId) {
    Reach(s.tables, Members(s.roots), t)
  }

  /** t's sweep node is in use. */
  predicate InSweep(s: State, t: TableId) {
    t in s.prevQ || t in s.sweepQ || t in s.garbageQ || t in s.remainedQ
  }

  /** The four queues that share the sweep node have no table twice, within or across them. */
  predicate SweepDisjoint(s: State) {
    && NoDup(s.prevQ) && NoDup(s.sweepQ) && NoDup(s.garbageQ) && NoDup(s.remainedQ)
    && (forall x :: x in s.prevQ ==> x !in s.sweepQ && x !in s.garbageQ && x !in s.remainedQ)
    && (forall x :: x in s.sweepQ ==> x !in s.garbageQ && x !in s.remainedQ)
    && (forall x :: x in s.garbageQ ==> x !in s.remainedQ)
  }

  /** The root array is in address order, without repetition. */
  predicate Ascending(q: seq<TableId>) {
    q == [] || ((forall x :: x in q[1..] ==> q[0] < x) && Ascending(q[1..]))
  }

  /** The queues hold allocated tables, each at most once per queue node. */
  ghost predicate Shape(s: State) {
    && Ascending(s.roots)
    && NoDup(s.markQ)
    && SweepDisjoint(s)
    && (forall t :: t in s.roots || t in s.markQ || InSweep(s, t) || t in s.nursery ==> t in s.tables)
    && (forall t :: t in s.tables ==> SortedKeys(s.tables[t].elems))
  }

  /** How marks and queues go together. */
  ghost predicate Colours(s: State) {
    && (forall t :: t in s.tables ==> s.tables[t].mark <= s.round + 2)
    && (!s.begin ==> s.remainedQ == [] && forall t :: t in s.tables ==> White(s, t))
    && (forall t :: t in s.markQ ==> White(s, t))
    && (forall t :: t in s.remainedQ ==> Black(s, t))
    && (forall t :: Garbage(s, t) <==> t in s.garbageQ)
  }

  /** Already marked, or waiting to be. */
  predicate Safe(s: State, t: TableId) {
    Black(s, t) || t in s.markQ
  }

  ghost predicate KidsSafe(s: State, t: TableId) {
    forall k :: k in KidsOf(s, t) ==> Safe(s, k)
  }

  /** In no queue, and no table that a traversal may meet refers to it. */
  ghost predicate Unlinked(s: State, t: TableId) {
    && t !in s.markQ && !InSweep(s, t)
    && (forall a :: Kept(s, a) ==> !Edge(s.tables, a, t))
  }

  /** The tri-colour invariant of an open round. */
  ghost predicate TriColour(s: State) {
    && (forall t :: Black(s, t) ==> KidsSafe(s, t))
    && (forall t :: t in s.roots && t !in s.markQ ==> KidsSafe(s, t))
    && (forall t :: t in s.roots && !Safe(s, t) ==> Unlinked(s, t))
    && (s.garbageQ != [] ==> forall t :: t in s.markQ ==> KidsSafe(s, t))
  }

  ghost predicate NurseryFresh(s: State) {
    forall t :: t in s.nursery ==>
      && White(s, t) && t !in s.roots && KidsOf(s, t) == [] && Unlinked(s, t)
  }

  /** Nothing a traversal may meet has been freed. */
  ghost predicate NoDangling(s: State) {
    forall t :: Kept(s, t) ==> t in s.tables
  }

  ghost predicate Inv(s: State) {
    && Shape(s)
    && Colours(s)
    && (s.begin ==> TriColour(s))
    && NurseryFresh(s)
    && NoDangling(s)
  }

  // ----- sequences as queues -----

  lemma {:induction false} EnqueueNoDup(s: State, kids: seq<TableId>, q: seq<TableId>, others: set<TableId>)
    requires NoDup(q)
    ensures NoDup(Enqueue(s, kids, q, others))
    decreases kids
  {
    if kids != [] {
      var q1 := if White(s, kids[0]) && kids[0] !in q && kids[0] !in others then q + [kids[0]] else q;
      NoDupConcat(q, [kids[0]]);
      EnqueueNoDup(s, kids[1..], q1, others);
    }
  }

  lemma {:induction false} EnqueueFrame(s: State, s': State, kids: seq<TableId>, q: seq<TableId>, others: set<TableId>)
    requires s.tables == s'.tables && s.round == s'.round
    ensures Enqueue(s, kids, q, others) == Enqueue(s', kids, q, others)
    decreases kids
  {
    if kids != [] {
      EnqueueFrame(s, s', kids[1..], if White(s, kids[0]) && kids[0] !in q && kids[0] !in others then q + [kids[0]]
        else q, others);
    }
  }

  // ----- the closed set behind the sweep -----

  /** With nothing left to mark, or garbage already found, root-reachable tables are safe. */
  lemma RootsReachSafe(s: State, t: TableId)
    requires Shape(s) && TriColour(s) && FromRoots(s, t)
    requires s.markQ == [] || s.garbageQ != []
    ensures Safe(s, t) || t in s.roots
    ensures KidsSafe(s, t)
  {
    var inside := (x: TableId) => Safe(s, x) || x in s.roots;
    assert forall a :: inside(a) ==> KidsSafe(s, a);
    ReachInClosed(s.tables, Members(s.roots), inside, t);
  }
}
