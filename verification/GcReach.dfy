/** Reachability between tables, as paths, and the closed-set arguments about it. */
module GcReach {
  import opened Tables

  predicate Edge(tables: map<TableId, Table>, a: TableId, b: TableId) {
    a in tables && b in Kids(tables[a].elems)
  }

  predicate Path(tables: map<TableId, Table>, p: seq<TableId>) {
    p != [] && forall i :: 0 <= i < |p| - 1 ==> Edge(tables, p[i], p[i + 1])
  }

  /** t can be reached from a member of src; t itself need not be allocated. */
  ghost predicate Reach(tables: map<TableId, Table>, src: set<TableId>, t: TableId) {
    exists p :: Path(tables, p) && p[0] in src && p[|p| - 1] == t
  }

  lemma ReachSource(tables: map<TableId, Table>, src: set<TableId>, t: TableId)
    requires t in src
    ensures Reach(tables, src, t)
  {
    assert Path(tables, [t]);
  }

  lemma ReachStep(tables: map<TableId, Table>, src: set<TableId>, a: TableId, b: TableId)
    requires Reach(tables, src, a) && Edge(tables, a, b)
    ensures Reach(tables, src, b)
  {
    var p :| Path(tables, p) && p[0] in src && p[|p| - 1] == a;
    assert Path(tables, p + [b]);
  }

  /** A set that holds the sources and is closed under edges holds everything reachable. */
  lemma ReachInClosed(tables: map<TableId, Table>, src: set<TableId>, inside: TableId -> bool, t: TableId)
    requires forall x :: x in src ==> inside(x)
    requires forall a, b :: inside(a) && Edge(tables, a, b) ==> inside(b)
    requires Reach(tables, src, t)
    ensures inside(t)
  {
    var p :| Path(tables, p) && p[0] in src && p[|p| - 1] == t;
    PathInClosed(tables, inside, p);
  }

  lemma {:induction false} PathInClosed(tables: map<TableId, Table>, inside: TableId -> bool, p: seq<TableId>)
    requires Path(tables, p) && inside(p[0])
    requires forall a, b :: inside(a) && Edge(tables, a, b) ==> inside(b)
    ensures inside(p[|p| - 1])
  {
    if |p| > 1 {
      var q := p[..|p| - 1];
      assert Path(tables, q);
      PathInClosed(tables, inside, q);
      assert Edge(tables, p[|p| - 2], p[|p| - 1]);
    }
  }

  /** If the new sources and the new edges stay inside what was reachable, so does everything reachable now. */
  lemma ReachShrinks(tables: map<TableId, Table>, src: set<TableId>,
                     tables': map<TableId, Table>, src': set<TableId>, t: TableId)
    requires forall x :: x in src' ==> Reach(tables, src, x)
    requires forall a, b :: Reach(tables, src, a) && Edge(tables', a, b) ==> Reach(tables, src, b)
    requires Reach(tables', src', t)
    ensures Reach(tables, src, t)
  {
    ReachInClosed(tables', src', (x: TableId) => Reach(tables, src, x), t);
  }
}
