/** Adding an entry: full children are split on the way down, and the entry lands after its equals. */
module BTreeAdd {
  import opened BTreeModel
  import opened BTreeFlat
  import opened BTreeOps

  predicate Lt(a: Entry, b: Entry) {
    a.k < b.k || (a.k == b.k && a.v < b.v)
  }

  function EntryQuery(e: Entry): Query { Query(e.k, e.v) }

  /** The greatest value is also the one that stands for any value; for adding, both readings agree. */
  lemma LtIsAbove(e: Entry, x: Entry)
    ensures Lt(e, x) <==> !Before(x, EntryQuery(e), Last)
  {
  }

  /** Where to go on adding: the child that holds the place, after a split if it was full. */
  function Room(t: nat, n: Node, level: nat, e: Entry): (r: (Node, nat))
    requires t >= 2 && level > 0 && Shape(t, n, level) && |n.es| < Max(t)
    ensures Shape(t, r.0, level) && r.1 <= |r.0.es| && |r.0.kids[r.1].es| < Max(t) && |r.0.es| >= |n.es|
  {
    var p := Count(n.es, EntryQuery(e), Last);
    if |n.kids[p].es| == Max(t) then
      var n' := SplitChild(t, n, p, level);
      SplitShape(t, n, p, level);
      (n', if Lt(e, n'.es[p]) then p else p + 1)
    else (n, p)
  }

  function AddRec(t: nat, n: Node, level: nat, e: Entry): (n': Node)
    requires t >= 2 && Shape(t, n, level) && |n.es| < Max(t)
    decreases level
  {
    if level == 0 then Node(Insert(n.es, Count(n.es, EntryQuery(e), Last), e), [])
    else
      var (n1, d) := Room(t, n, level, e);
      KidShape(t, n1, level, d);
      Node(n1.es, n1.kids[d := AddRec(t, n1.kids[d], level - 1, e)])
  }

  lemma AddRecBelow(t: nat, n: Node, level: nat, e: Entry)
    requires t >= 2 && level > 0 && Shape(t, n, level) && |n.es| < Max(t)
    ensures var (n1, d) := Room(t, n, level, e);
      && Shape(t, n1.kids[d], level - 1) && |n1.kids[d].es| >= Min(t)
      && AddRec(t, n, level, e) == Node(n1.es, n1.kids[d := AddRec(t, n1.kids[d], level - 1, e)])
  {
    hide Room, Shape;
    var (n1, d) := Room(t, n, level, e);
    KidShape(t, n1, level, d);
  }

  lemma AddLeaf(t: nat, n: Node, e: Entry)
    requires t >= 2 && Shape(t, n, 0) && |n.es| < Max(t)
    ensures var n' := AddRec(t, n, 0, e);
      && Shape(t, n', 0) && |n'.es| >= |n.es|
      && Flat(n', 0) == Insert(Flat(n, 0), Count(Flat(n, 0), EntryQuery(e), Last), e)
  {
  }

  /** Adding keeps the shape: uniform depth and the key bounds. */
  lemma {:induction false} AddShape(t: nat, n: Node, level: nat, e: Entry)
    requires t >= 2 && Shape(t, n, level) && |n.es| < Max(t)
    ensures var n' := AddRec(t, n, level, e); Shape(t, n', level) && |n'.es| >= |n.es|
    decreases level
  {
    hide Shape, Room, AddRec;
    if level == 0 {
      AddLeaf(t, n, e);
    } else {
      AddRecBelow(t, n, level, e);
      var (n1, d) := Room(t, n, level, e);
      AddShape(t, n1.kids[d], level - 1, e);
      SetKidShape(t, n1, level, d, AddRec(t, n1.kids[d], level - 1, e));
    }
  }

  lemma RoomPlace(t: nat, n: Node, level: nat, e: Entry)
    requires t >= 2 && level > 0 && Shape(t, n, level) && |n.es| < Max(t)
    ensures var (n1, d) := Room(t, n, level, e); var q := EntryQuery(e);
      && Flat(n1, level) == Flat(n, level)
      && (d > 0 ==> Before(n1.es[d - 1], q, Last))
      && (d < |n1.es| ==> !Before(n1.es[d], q, Last))
  {
    hide Flat, Before, Count;
    var p := Count(n.es, EntryQuery(e), Last);
    KidShape(t, n, level, p);
    hide Shape;
    if |n.kids[p].es| == Max(t) {
      FlatSplit(t, n, p, level);
      SplitEntries(t, n, p, level);
      LtIsAbove(e, SplitChild(t, n, p, level).es[p]);
    }
  }

  lemma InsertInside(a: seq<Entry>, x: seq<Entry>, b: seq<Entry>, i: nat, e: Entry)
    requires i <= |x|
    ensures a + Insert(x, i, e) + b == Insert(a + x + b, |a| + i, e)
  {
  }

  /** Adding below child d adds at the place that d holds in the whole sequence. */
  lemma AddBelow(n: Node, level: nat, d: nat, e: Entry, x': Node)
    requires level > 0 && Fits(n, level) && d <= |n.es| && Sorted(Flat(n, level))
    requires d > 0 ==> Before(n.es[d - 1], EntryQuery(e), Last)
    requires d < |n.es| ==> !Before(n.es[d], EntryQuery(e), Last)
    requires var x := Flat(n.kids[d], level - 1); Flat(x', level - 1) == Insert(x, Count(x, EntryQuery(e), Last), e)
    ensures var f := Flat(n, level);
      Flat(Node(n.es, n.kids[d := x']), level) == Insert(f, Count(f, EntryQuery(e), Last), e)
  {
    hide Flat, Lead, Trail, Count, Before, Sorted, Insert;
    Descend(n, level, d, EntryQuery(e), Last);
    FlatAt(n, level, d);
    FlatSetKid(n, level, d, x');
    var x := Flat(n.kids[d], level - 1);
    InsertInside(Lead(n.es[..d], n.kids[..d], level - 1), x, Trail(n.es[d..], n.kids[d + 1..], level - 1),
                 Count(x, EntryQuery(e), Last), e);
  }

  lemma SortedKid(n: Node, level: nat, d: nat)
    requires level > 0 && Fits(n, level) && d <= |n.es| && Sorted(Flat(n, level))
    ensures Sorted(Flat(n.kids[d], level - 1))
  {
    hide Flat, Lead, Trail, Sorted;
    var a, x, b := Lead(n.es[..d], n.kids[..d], level - 1), Flat(n.kids[d], level - 1),
      Trail(n.es[d..], n.kids[d + 1..], level - 1);
    FlatAt(n, level, d);
    assert a + x + b == a + (x + b);
    SortedParts(a, x + b);
    SortedParts(x, b);
  }

  /** Add refines inserting one entry into the sorted sequence, after its equals. */
  lemma {:induction false} AddFlat(t: nat, n: Node, level: nat, e: Entry)
    requires t >= 2 && Shape(t, n, level) && |n.es| < Max(t) && Sorted(Flat(n, level))
    ensures var f := Flat(n, level);
      Flat(AddRec(t, n, level, e), level) == Insert(f, Count(f, EntryQuery(e), Last), e)
    decreases level
  {
    hide Flat, Sorted, Before, Insert, Shape, Room, Count, AddRec;
    if level == 0 {
      AddLeaf(t, n, e);
    } else {
      AddRecBelow(t, n, level, e);
      var (n1, d) := Room(t, n, level, e);
      RoomPlace(t, n, level, e);
      SortedKid(n1, level, d);
      AddFlat(t, n1.kids[d], level - 1, e);
      AddBelow(n1, level, d, e, AddRec(t, n1.kids[d], level - 1, e));
    }
  }

  lemma SplitEntries(t: nat, n: Node, p: nat, level: nat)
    requires t >= 2 && level > 0 && Shape(t, n, level) && p < |n.kids| && |n.kids[p].es| == Max(t)
    ensures var n' := SplitChild(t, n, p, level);
      && Fits(n', level)
      && (p > 0 ==> n'.es[p - 1] == n.es[p - 1])
      && (p < |n.es| ==> n'.es[p + 1] == n.es[p])
  {
  }

  lemma CountSorted(f: seq<Entry>, e: Entry)
    requires Sorted(f)
    ensures Sorted(Insert(f, Count(f, EntryQuery(e), Last), e))
  {
    var p := Count(f, EntryQuery(e), Last);
    hide Count;
    forall i | p <= i < |f|
      ensures !Before(f[i], EntryQuery(e), Last)
    {
      if i > p { assert Le(f[p], f[i]); }
    }
    var s := Insert(f, p, e);
    forall i, j | 0 <= i < j < |s|
      ensures Le(s[i], s[j])
    {
      if i < p && j == p { assert Before(f[i], EntryQuery(e), Last); LtIsAbove(e, f[i]); }
      if i == p && j > p { LtIsAbove(e, f[j - 1]); }
      if i < p && j > p { assert Le(f[i], f[j - 1]); }
      if i > p { assert Le(f[i - 1], f[j - 1]); }
    }
  }
}
