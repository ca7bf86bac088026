/** What becomes of the memory of a process that is gone. */
module CapiReclaim {
  import opened Tables
  import opened GcModel
  import opened GcReach
  import opened GcInvariant
  import opened GcQuiet
  import opened GcReclaim
  import opened Capi

  /**
    Whenever a process is cleaned, two rounds without mutators reclaim its root table, and every table it had a handle
    for that the remaining roots do not reach.
   */
  lemma RootReclaimed(w: World, pid: Pid, order: seq<TableId>, first: seq<(nat, nat)>, second: seq<(nat, nat)>,
                      x: TableId)
    requires WorldInv(w) && pid in w.procs && multiset(order) == multiset(KidsOf(w.gc, ProotOf(w, pid)))
    requires var gc := Clean(w, pid, order).gc; OneRound(gc, first) && OneRound(Slices(gc, first), second)
    requires x == ProotOf(w, pid) || (x in KidsOf(w.gc, ProotOf(w, pid)) && !FromRoots(Clean(w, pid, order).gc, x))
    ensures x !in Slices(Slices(Clean(w, pid, order).gc, first), second).tables
  {
    hide Inv, Clean, FromRoots, Slices, OneRound, KidsOf, ProcessOk;
    CleanKeeps(w, pid, order);
    SweptReclaimed(Clean(w, pid, order).gc, first, second, x);
  }

  /**
    Between rounds one round is enough, and exact: of all that the process's root table led to, those tables stay that
    the remaining roots reach, and no others.
   */
  lemma ProcessReclaimed(w: World, pid: Pid, order: seq<TableId>, bs: seq<(nat, nat)>, x: TableId)
    requires WorldInv(w) && pid in w.procs && multiset(order) == multiset(KidsOf(w.gc, ProotOf(w, pid)))
    requires !w.gc.begin && w.gc.markQ == [] && OneRound(Clean(w, pid, order).gc, bs)
    requires Reach(w.gc.tables, {ProotOf(w, pid)}, x)
    ensures var gc := Clean(w, pid, order).gc;
      x in Slices(gc, bs).tables <==> x in w.gc.tables && FromRoots(gc, x)
  {
    hide Inv, Clean, FromRoots, Slices, OneRound, ProcessOk, Reach, Kids;
    CleanKeeps(w, pid, order);
    var gc' := Clean(w, pid, order).gc;
    LedToSwept(w.gc, gc', ProotOf(w, pid), x);
    QuietRound(gc', bs, x);
  }

  /** What p led to is reachable from what now waits to be swept. */
  lemma LedToSwept(gc: State, gc': State, p: TableId, x: TableId)
    requires p in gc'.sweepQ && forall k :: k in KidsOf(gc, p) ==> k in gc'.sweepQ
    requires (forall t :: t != p ==> ElemsOf(gc', t) == ElemsOf(gc, t)) && gc'.tables.Keys == gc.tables.Keys
    requires Reach(gc.tables, {p}, x)
    ensures FromSwept(gc', x)
  {
    hide Reach, Kids;
    var src := Members(gc'.sweepQ) + Members(gc'.prevQ);
    forall k | k in gc'.sweepQ ensures FromSwept(gc', k) { ReachSource(gc'.tables, src, k); }
    forall a, b | FromSwept(gc', a) && Edge(gc.tables, a, b) ensures FromSwept(gc', b) {
      if a == p {
        assert b in KidsOf(gc, p);
      } else {
        assert ElemsOf(gc', a) == ElemsOf(gc, a);
        ReachStep(gc'.tables, src, a, b);
      }
    }
    ReachInClosed(gc.tables, {p}, (t: TableId) => FromSwept(gc', t), x);
  }
}
