/**
  The B-tree as the object it is: descents are loops that move a cursor from the root to a leaf, changing nodes on
  the way, and the binary searches are loops over a node's entries.
 */
module BTrees {
  import opened BTreeModel
  import opened BTreeFlat
  import opened BTreeOps
  import opened BTreeAdd
  import opened BTreeDel
  import opened BTreeSearch

  // ----- binary search in a node -----

  /** l such that entries up to l lie before the first match and the others do not. */
  method BinsearchFirst(es: seq<Entry>, q: Query) returns (l: int)
    requires Sorted(es)
    ensures l + 1 == Count(es, q, First)
  {
    var r := |es|;
    l := -1;
    while r - l > 1
      invariant -1 <= l < r <= |es|
      invariant l >= 0 ==> Below(es[l], q)
      invariant r < |es| ==> !Below(es[r], q)
    {
      var mid := (l + r) / 2;
      if q.k > es[mid].k || (q.k == es[mid].k && q.v != ANY && q.v > es[mid].v) {
        l := mid;
      } else {
        r := mid;
      }
    }
    CountAt(es, q, First, l + 1);
  }

  method BinsearchLast(es: seq<Entry>, q: Query) returns (l: int)
    requires Sorted(es)
    ensures l + 1 == Count(es, q, Last)
  {
    var r := |es|;
    l := -1;
    while r - l > 1
      invariant -1 <= l < r <= |es|
      invariant l >= 0 ==> !Above(es[l], q)
      invariant r < |es| ==> Above(es[r], q)
    {
      var mid := (l + r) / 2;
      if q.k < es[mid].k || (q.k == es[mid].k && q.v != ANY && q.v < es[mid].v) {
        r := mid;
      } else {
        l := mid;
      }
    }
    CountAt(es, q, Last, l + 1);
  }

  lemma CountAt(es: seq<Entry>, q: Query, flag: Flag, c: nat)
    requires Sorted(es) && c <= |es|
    requires c > 0 ==> Before(es[c - 1], q, flag)
    requires c < |es| ==> !Before(es[c], q, flag)
    ensures Count(es, q, flag) == c
  {
    hide Count;
    forall i | 0 <= i < c
      ensures Before(es[i], q, flag)
    {
      if i + 1 < c { assert Le(es[i], es[c - 1]); BeforeDown(es[i], es[c - 1], q, flag); }
    }
    CountIs(es, q, flag, c);
  }

  /** Where q stands in a node: the index of a match or -1, and the number of entries before it. */
  method Binsearch(es: seq<Entry>, q: Query, flag: Flag) returns (i: int, c: nat)
    requires Sorted(es)
    ensures i == Find(es, q, flag) && c == Count(es, q, flag)
  {
    hide Sorted, Count;
    var l;
    if flag == First {
      l := BinsearchFirst(es, q);
      i := l + 1;
    } else {
      l := BinsearchLast(es, q);
      i := l;
    }
    c := l + 1;
    if !(0 <= i < |es| && Matches(es[i], q)) {
      i := -1;
    }
  }

  lemma {:induction false} LeadHolds(n: Node, level: nat, i: nat, j: nat)
    requires level > 0 && Fits(n, level) && i < j <= |n.es|
    ensures n.es[i] in Lead(n.es[..j], n.kids[..j], level - 1)
    decreases j
  {
    hide Lead, Flat;
    LeadAt(n.es, n.kids, j - 1, level - 1);
    if i < j - 1 { LeadHolds(n, level, i, j - 1); }
  }

  /** A node's own entries are in order if its sequence is. */
  lemma EntriesSorted(n: Node, level: nat)
    requires Fits(n, level) && Sorted(Flat(n, level))
    ensures Sorted(n.es)
  {
    if level > 0 {
      forall i, j | 0 <= i < j < |n.es|
        ensures Le(n.es[i], n.es[j])
      {
        EntriesOrdered(n, level, i, j);
      }
    }
  }

  lemma EntriesOrdered(n: Node, level: nat, i: nat, j: nat)
    requires level > 0 && Fits(n, level) && Sorted(Flat(n, level)) && i < j < |n.es|
    ensures Le(n.es[i], n.es[j])
  {
    hide Flat, Lead, Trail, Sorted, Le;
    var a, x, b := Lead(n.es[..j], n.kids[..j], level - 1), Flat(n.kids[j], level - 1),
      Trail(n.es[j..], n.kids[j + 1..], level - 1);
    FlatAt(n, level, j);
    LeadHolds(n, level, i, j);
    TrailHead(n, level, j);
    SortedParts(a + x, b);
    assert n.es[i] in a + x && b[0] in b;
  }

  // ----- the way from the root to the cursor -----

  /** A node above the cursor and the child that was entered. */
  datatype Frame = Frame(n: Node, c: nat)

  predicate Enterable(path: seq<Frame>) {
    forall i :: 0 <= i < |path| ==> path[i].c < |path[i].n.kids|
  }

  /** The whole tree, with x at the cursor. */
  function Plug(path: seq<Frame>, x: Node): Node
    requires Enterable(path)
  {
    if path == [] then x
    else
      var f := path[|path| - 1];
      Plug(path[..|path| - 1], Node(f.n.es, f.n.kids[f.c := x]))
  }

  lemma PlugDown(path: seq<Frame>, n: Node, c: nat, x: Node)
    requires Enterable(path) && c < |n.kids|
    ensures Enterable(path + [Frame(n, c)]) && Plug(path + [Frame(n, c)], x) == Plug(path, Node(n.es, n.kids[c := x]))
  {
    assert (path + [Frame(n, c)])[..|path|] == path;
  }

  class BTree {
    const t: nat
    var root: Node
    var level: nat
    var nEntry: int

    ghost predicate Valid()
      reads this
    {
      && t >= 2 && Shape(t, root, level) && Sorted(Flat(root, level))
      && nEntry == |Flat(root, level)|
    }

    /** The entries in order. */
    ghost function Contents(): seq<Entry>
      reads this
    {
      Flat(root, level)
    }

    constructor (t: nat)
      requires t >= 2
      ensures Valid() && this.t == t && Contents() == []
    {
      this.t := t;
      root, level, nEntry := Node([], []), 0, 0;
    }

    method Add(e: Entry)
      requires Valid()
      modifies this
      ensures Valid()
      ensures var f := old(Contents()); Contents() == Insert(f, Count(f, EntryQuery(e), Last), e)
    {
      hide Shape, Flat, Sorted, AddRec, Count, Plug, Room, SplitChild;
      NewRootShape(t, root, level);
      if |root.es| == Max(t) {
        root := Node([], [root]);
        level := level + 1;
      }
      ghost var r0, l0 := root, level;
      var cur, lv: nat, path := root, level, [];
      EmptyPlug(AddRec(t, cur, lv, e));
      while lv > 0
        invariant root == r0 && level == l0 && nEntry == old(nEntry)
        invariant Shape(t, cur, lv) && |cur.es| < Max(t) && Sorted(Flat(cur, lv)) && Enterable(path)
        invariant Plug(path, AddRec(t, cur, lv, e)) == AddRec(t, r0, level, e)
      {
        EntriesSorted(cur, lv);
        RoomPlace(t, cur, lv, e);
        AddRecBelow(t, cur, lv, e);
        var l := BinsearchLast(cur.es, EntryQuery(e));
        var n, c := MakeRoom(t, cur, lv, l + 1, e);
        SortedKid(n, lv, c);
        PlugDown(path, n, c, AddRec(t, n.kids[c], lv - 1, e));
        path := path + [Frame(n, c)];
        cur, lv := n.kids[c], lv - 1;
      }
      EntriesSorted(cur, 0);
      var l := BinsearchLast(cur.es, EntryQuery(e));
      AddRecLeaf(t, cur, e);
      root := Plug(path, Node(Insert(cur.es, l + 1, e), []));
      nEntry := nEntry + 1;
      AddShape(t, r0, level, e);
      AddFlat(t, r0, level, e);
      CountSorted(Flat(r0, level), e);
      InsertSize(Flat(r0, level), Count(Flat(r0, level), EntryQuery(e), Last), e);
    }

    /**
      Deletes one entry that matches q: the sequence loses exactly that entry, which is reported; or nothing matches,
      and
      the sequence stays as it was.
     */
    method Del(q: Query, flag: Flag) returns (out: Outcome)
      requires Valid()
      modifies this
      ensures Valid()
      ensures Removed(old(Contents()), Contents(), q, out)
    {
      hide Shape, Flat, Sorted, DelRec, DelMin, Count, Plug, Refill, PushDown, Removed, NoMatch, Find;
      if |root.es| == 0 {
        RootShrinks(t, root, level, q);
        if level == 0 {
          return Missing;
        }
        root, level := root.kids[0], level - 1;
      }
      ghost var r0, l0, n0 := root, level, nEntry;
      DelCorrect(t, root, level, q, flag, -1);
      var cur, lv: nat, path, found := root, level, [], -1;
      EmptyPlug(DelRec(t, cur, lv, q, flag, -1).0);
      while lv > 0
        invariant root == r0 && level == l0 && nEntry == n0
        invariant Shape(t, cur, lv) && |cur.es| >= 1 && Sorted(Flat(cur, lv)) && Enterable(path)
          && -1 <= found < |cur.es|
        invariant path == [] || |cur.es| > Min(t)
        invariant Plug(path, DelRec(t, cur, lv, q, flag, found).0) == DelRec(t, r0, l0, q, flag, -1).0
        invariant DelRec(t, cur, lv, q, flag, found).1 == DelRec(t, r0, l0, q, flag, -1).1
      {
        EntriesSorted(cur, lv);
        var i, c := Binsearch(cur.es, q, flag);
        if found != -1 {
          i := found;
        }
        var n, j: int := cur, -1;
        if i == -1 {
          DelMissing(t, cur, lv, q, flag);
          var p := Refill(t, cur, lv, c);
          n, c := p.0, p.1;
        } else {
          DelFound(t, cur, lv, q, flag, found);
          var p := PushDown(t, cur, lv, i);
          if p.Stuck? {
            var k, e := DeleteMin(t, cur.kids[i + 1], lv - 1);
            out := Found(cur.es[i]);
            root := Plug(path, Node(cur.es[i := e], cur.kids[i + 1 := k]));
            nEntry := nEntry - 1;
            RemovedSorted(Flat(r0, l0), Contents(), q, out);
            return;
          }
          n, c, j := p.n, p.c, p.i;
        }
        ReadySorted(t, cur, lv, n, c);
        PlugDown(path, n, c, DelRec(t, n.kids[c], lv - 1, q, flag, j).0);
        path := path + [Frame(n, c)];
        cur, lv, found := n.kids[c], lv - 1, j;
      }
      EntriesSorted(cur, 0);
      DelRecLeaf(t, cur, q, flag, found);
      var i, c := Binsearch(cur.es, q, flag);
      if found != -1 {
        i := found;
      }
      if i == -1 {
        root := Plug(path, cur);
        out := Missing;
      } else {
        out := Found(cur.es[i]);
        root := Plug(path, Node(Remove(cur.es, i), []));
        nEntry := nEntry - 1;
      }
      RemovedSorted(Flat(r0, l0), Contents(), q, out);
    }

    method Search(q: Query, flag: Flag) returns (r: Place)
      requires Valid()
      ensures Scanned(Contents(), q, flag, r)
    {
      hide Shape, Flat, Sorted, BTreeSearch.Search, Count, Lead, EntryPos, FitsAll, Scanned;
      ShapeFitsAll(t, root, level);
      SearchScans(root, level, q, flag);
      var cur, lv: nat, base: nat := root, level, 0;
      r := Nowhere;
      while lv > 0
        invariant FitsAll(cur, lv) && Sorted(Flat(cur, lv))
        invariant BTreeSearch.Search(root, level, q, flag) == Deeper(base, BTreeSearch.Search(cur, lv, q, flag), r)
      {
        EntriesSorted(cur, lv);
        SearchBelow(cur, lv, q, flag);
        var i, c := Binsearch(cur.es, q, flag);
        SortedKid(cur, lv, c);
        if i != -1 {
          r := At(base + EntryPos(cur, lv, i));
        }
        base := base + |Lead(cur.es[..c], cur.kids[..c], lv - 1)|;
        cur, lv := cur.kids[c], lv - 1;
      }
      EntriesSorted(cur, 0);
      SearchLeaf(cur, q, flag);
      var i, c := Binsearch(cur.es, q, flag);
      if i != -1 {
        r := At(base + i);
      }
    }
  }

  /** The answer found deeper, if any, else the one kept so far. */
  function Deeper(base: nat, inner: Place, kept: Place): Place {
    if inner.At? then At(base + inner.pos) else kept
  }

  lemma SearchLeaf(n: Node, q: Query, flag: Flag)
    requires FitsAll(n, 0)
    ensures BTreeSearch.Search(n, 0, q, flag) == var i := Find(n.es, q, flag); if i == -1 then Nowhere else At(i)
  {
  }

  lemma InsertSize(s: seq<Entry>, i: nat, e: Entry)
    requires i <= |s|
    ensures |Insert(s, i, e)| == |s| + 1
  {
  }

  lemma AddRecLeaf(t: nat, n: Node, e: Entry)
    requires t >= 2 && Shape(t, n, 0) && |n.es| < Max(t)
    ensures AddRec(t, n, 0, e) == Node(Insert(n.es, Count(n.es, EntryQuery(e), Last), e), [])
  {
  }

  lemma EmptyPlug(x: Node)
    ensures Plug([], x) == x
  {
  }

  /** A root put on top of a full one keeps the sequence. */
  lemma NewRootShape(t: nat, root: Node, level: nat)
    requires t >= 2 && Shape(t, root, level)
    ensures |root.es| == Max(t) ==>
      Shape(t, Node([], [root]), level + 1) && Flat(Node([], [root]), level + 1) == Flat(root, level)
    ensures |root.es| <= Max(t)
  {
    hide Flat;
    var n := Node([], [root]);
    assert n.kids[1..] == [];
    FlatOnly(n, level + 1);
  }

  lemma FlatOnly(n: Node, level: nat)
    requires level > 0 && |n.es| == 0 && |n.kids| == 1
    ensures Flat(n, level) == Flat(n.kids[0], level - 1)
  {
    assert n.kids[1..] == [];
    assert Trail(n.es, [], level - 1) == [];
  }

  /** The child at place p, split first if it is full. */
  method MakeRoom(t: nat, n: Node, level: nat, p: nat, e: Entry) returns (n': Node, c: nat)
    requires t >= 2 && level > 0 && Shape(t, n, level) && |n.es| < Max(t) && p == Count(n.es, EntryQuery(e), Last)
    ensures (n', c) == Room(t, n, level, e)
  {
    hide Count;
    KidShape(t, n, level, p);
    n', c := n, p;
    if |n.kids[p].es| == Max(t) {
      n' := SplitChild(t, n, p, level);
      var m := n'.es[p];
      if e.k < m.k || (e.k == m.k && e.v < m.v) {
        c := p;
      } else {
        c := p + 1;
      }
    }
  }

  /** Removes the smallest entry below n, on the way down its left edge. */
  method DeleteMin(t: nat, n: Node, level: nat) returns (n': Node, e: Entry)
    requires t >= 2 && Shape(t, n, level) && |n.es| > Min(t)
    ensures (n', e) == DelMin(t, n, level)
  {
    hide Shape, Flat, DelMin, RefillFirst, Plug;
    var cur, lv: nat, path := n, level, [];
    EmptyPlug(DelMin(t, n, level).0);
    while lv > 0
      invariant Shape(t, cur, lv) && |cur.es| > Min(t) && Enterable(path)
      invariant Plug(path, DelMin(t, cur, lv).0) == DelMin(t, n, level).0 && DelMin(t, cur, lv).1 ==
        DelMin(t, n, level).1
    {
      DelMinBelow(t, cur, lv);
      var m := RefillFirst(t, cur, lv);
      PlugDown(path, m, 0, DelMin(t, m.kids[0], lv - 1).0);
      path := path + [Frame(m, 0)];
      cur, lv := m.kids[0], lv - 1;
    }
    DelMinAtLeaf(t, cur);
    n', e := Plug(path, Node(cur.es[1..], [])), cur.es[0];
  }

  lemma DelMinAtLeaf(t: nat, n: Node)
    requires t >= 2 && Shape(t, n, 0) && |n.es| > Min(t)
    ensures DelMin(t, n, 0) == (Node(n.es[1..], []), n.es[0])
  {
  }

  lemma DelRecLeaf(t: nat, n: Node, q: Query, flag: Flag, found: int)
    requires t >= 2 && Shape(t, n, 0) && -1 <= found < |n.es|
    ensures DelRec(t, n, 0, q, flag, found) ==
      var i := if found == -1 then Find(n.es, q, flag) else found;
      if i == -1 then (n, Missing) else (Node(Remove(n.es, i), []), Found(n.es[i]))
  {
  }

  /** A root without entries has nothing, or one child that holds everything. */
  lemma RootShrinks(t: nat, root: Node, level: nat, q: Query)
    requires t >= 2 && Shape(t, root, level) && |root.es| == 0
    ensures level == 0 ==> Removed(Flat(root, level), Flat(root, level), q, Missing)
    ensures level > 0 ==>
      && |root.kids| == 1 && Shape(t, root.kids[0], level - 1) && |root.kids[0].es| >= 1
      && Flat(root.kids[0], level - 1) == Flat(root, level)
  {
    if level > 0 {
      KidShape(t, root, level, 0);
      FlatOnly(root, level);
    }
  }

  /** Removing an entry keeps a sequence in order and counts. */
  lemma RemovedSorted(s: seq<Entry>, s': seq<Entry>, q: Query, out: Outcome)
    requires Sorted(s) && Removed(s, s', q, out)
    ensures Sorted(s') && |s'| == |s| - (if out.Found? then 1 else 0)
  {
  }

  // ----- the iterator -----

  /** A node on the way from the root to the iterator's position, and the index of the last entry passed in it. */
  datatype Spot = Spot(n: Node, i: int)

  /** What is left of a node whose child i + 1 is not yet entered; i at the end means that it is done. */
  function RestOf(s: Spot, level: nat): seq<Entry>
    requires Fits(s.n, level) && -1 <= s.i <= |s.n.es|
  {
    if s.i == |s.n.es| then []
    else if level == 0 then s.n.es[s.i + 1..]
    else Flat(s.n.kids[s.i + 1], level - 1) + Trail(s.n.es[s.i + 1..], s.n.kids[s.i + 2..], level - 1)
  }

  /** What is left of the nodes above, the innermost first; their child i + 1 is being visited. */
  function RestAbove(up: seq<Spot>, level: nat): seq<Entry>
    requires forall j :: 0 <= j < |up| ==> Fits(up[j].n, level + |up| - 1 - j) && -1 <= up[j].i < |up[j].n.es|
    requires level > 0
    decreases up
  {
    if up == [] then []
    else
      var s := up[|up| - 1];
      assert Fits(up[|up| - 1].n, level + |up| - 1 - (|up| - 1));
      Trail(s.n.es[s.i + 1..], s.n.kids[s.i + 2..], level - 1) + RestAbove(up[..|up| - 1], level + 1)
  }

  lemma RestAbovePush(up: seq<Spot>, s: Spot, level: nat)
    requires level > 0 && Fits(s.n, level) && -1 <= s.i < |s.n.es|
    requires forall j :: 0 <= j < |up| ==> Fits(up[j].n, level + |up| - j) && -1 <= up[j].i < |up[j].n.es|
    ensures RestAbove(up + [s], level) == Trail(s.n.es[s.i + 1..], s.n.kids[s.i + 2..], level - 1)
      + RestAbove(up, level + 1)
  {
    hide Trail;
    assert (up + [s])[..|up|] == up;
  }

  /** A node just entered still has its whole sequence before it. */
  lemma RestOfEntered(n: Node, level: nat)
    requires Fits(n, level)
    ensures RestOf(Spot(n, -1), level) == Flat(n, level)
  {
    assert n.es[0..] == n.es;
  }

  class Iterator {
    const root: Node
    const level: nat
    var up: seq<Spot>
    var cur: Spot
    var at: nat

    ghost predicate Valid()
      reads this
    {
      && at + |up| == level && FitsAll(cur.n, at) && -1 <= cur.i <= |cur.n.es|
      && (forall j :: 0 <= j < |up| ==> FitsAll(up[j].n, level - j) && -1 <= up[j].i < |up[j].n.es|)
    }

    /** What the iterator has still to yield. */
    ghost function Rest(): seq<Entry>
      reads this
      requires Valid()
    {
      RestOf(cur, at) + RestAbove(up, at + 1)
    }

    constructor (root: Node, level: nat)
      requires FitsAll(root, level)
      ensures Valid() && Rest() == Flat(root, level)
    {
      this.root, this.level := root, level;
      up, cur, at := [], Spot(root, -1), level;
      new;
      RestOfEntered(root, level);
    }

    /** Back to the node above, past its next entry. */
    method Climb() returns (out: Outcome)
      requires Valid() && cur.i == |cur.n.es| && up != []
      modifies this
      ensures Valid() && |up| == |old(up)| - 1
      ensures if out.Found? then old(Rest()) == [out.e] + Rest() else old(Rest()) == Rest() && cur.i == |cur.n.es|
    {
      hide Flat, Trail, RestAbove, FitsAll;
      var s := up[|up| - 1];
      ClimbRest(up, s, at + 1);
      up, at := up[..|up| - 1], at + 1;
      cur := Spot(s.n, s.i + 1);
      out := if cur.i < |cur.n.es| then Found(cur.n.es[cur.i]) else Missing;
    }

    method StepLeaf() returns (out: Outcome)
      requires Valid() && cur.i < |cur.n.es| && at == 0
      modifies this
      ensures Valid()
      ensures if out.Found? then old(Rest()) == [out.e] + Rest() else old(Rest()) == Rest() && cur.i == |cur.n.es|
    {
      hide Flat, Trail, RestAbove, FitsAll;
      StepRest(cur);
      cur := Spot(cur.n, cur.i + 1);
      out := if cur.i < |cur.n.es| then Found(cur.n.es[cur.i]) else Missing;
    }

    method Enter()
      requires Valid() && cur.i < |cur.n.es| && at > 0
      modifies this
      ensures Valid() && old(Rest()) == Rest() && at == old(at) - 1 && cur.i == -1
    {
      hide Flat, Trail, RestAbove, FitsAll;
      var k := cur.n.kids[cur.i + 1];
      KidFits(cur.n, at, cur.i + 1);
      RestAbovePush(up, cur, at);
      RestOfEntered(k, at - 1);
      up := up + [cur];
      cur, at := Spot(k, -1), at - 1;
    }

    /** The next entry, or none at the end. */
    method Next() returns (out: Outcome)
      requires Valid()
      modifies this
      ensures old(Rest()) == [] <==> out.Missing?
      ensures out.Found? ==> Valid() && old(Rest()) == [out.e] + Rest()
    {
      while true
        invariant Valid() && Rest() == old(Rest())
        decreases cur.i != |cur.n.es|, if cur.i == |cur.n.es| then |up| else at
      {
        if cur.i == |cur.n.es| {
          if up == [] {
            return Missing;
          }
          out := Climb();
          if out.Found? {
            return;
          }
        } else if at == 0 {
          out := StepLeaf();
          if out.Found? {
            return;
          }
        } else {
          Enter();
        }
      }
    }
  }

  lemma KidFits(n: Node, level: nat, c: nat)
    requires level > 0 && FitsAll(n, level) && c < |n.kids|
    ensures FitsAll(n.kids[c], level - 1)
  {
  }

  /** Going back up to a node passes its next entry, if there is one. */
  lemma ClimbRest(up: seq<Spot>, s: Spot, level: nat)
    requires level > 0 && up != [] && s == up[|up| - 1]
    requires forall j :: 0 <= j < |up| ==> Fits(up[j].n, level + |up| - 1 - j) && -1 <= up[j].i < |up[j].n.es|
    ensures RestAbove(up, level) ==
      (if s.i + 1 < |s.n.es| then [s.n.es[s.i + 1]] else []) + RestOf(Spot(s.n, s.i + 1), level)
        + RestAbove(up[..|up| - 1], level + 1)
  {
    hide Flat, Trail, RestAbove;
    var left, above := Trail(s.n.es[s.i + 1..], s.n.kids[s.i + 2..], level - 1), RestAbove(up[..|up| - 1], level + 1);
    RestAboveStep(up, level);
    if s.i + 1 < |s.n.es| {
      TrailAt(s.n.es, s.n.kids, s.i + 1, level - 1);
      var entered := RestOf(Spot(s.n, s.i + 1), level);
      Assoc([s.n.es[s.i + 1]], Flat(s.n.kids[s.i + 2], level - 1),
        Trail(s.n.es[s.i + 2..], s.n.kids[s.i + 3..], level - 1));
      assert left == [s.n.es[s.i + 1]] + entered;
    } else {
      assert s.n.es[s.i + 1..] == [] && s.n.kids[s.i + 2..] == [];
      EmptyTrail(level - 1);
      assert left == [] + [];
    }
  }

  lemma RestAboveStep(up: seq<Spot>, level: nat)
    requires level > 0 && up != []
    requires forall j :: 0 <= j < |up| ==> Fits(up[j].n, level + |up| - 1 - j) && -1 <= up[j].i < |up[j].n.es|
    ensures var s := up[|up| - 1]; Fits(s.n, level) && level + |up| - 1 - (|up| - 1) == level
    ensures var s := up[|up| - 1];
      RestAbove(up, level) == Trail(s.n.es[s.i + 1..], s.n.kids[s.i + 2..], level - 1)
        + RestAbove(up[..|up| - 1], level + 1)
  {
    hide Flat, Trail;
  }

  lemma Assoc(a: seq<Entry>, b: seq<Entry>, c: seq<Entry>)
    ensures a + b + c == a + (b + c)
  {
  }

  lemma StepRest(s: Spot)
    requires Fits(s.n, 0) && -1 <= s.i < |s.n.es|
    ensures s.i + 1 < |s.n.es| ==> RestOf(s, 0) == [s.n.es[s.i + 1]] + RestOf(Spot(s.n, s.i + 1), 0)
    ensures s.i + 1 == |s.n.es| ==> RestOf(s, 0) == RestOf(Spot(s.n, s.i + 1), 0)
  {
  }

  /** The iterator yields the whole in-order sequence once, and then reports the end. */
  method Collect(root: Node, level: nat) returns (out: seq<Entry>)
    requires FitsAll(root, level)
    ensures out == Flat(root, level)
  {
    hide Flat, FitsAll;
    var it := new Iterator(root, level);
    out := [];
    var more := true;
    while more
      invariant more ==> it.Valid() && fresh(it) && out + it.Rest() == Flat(root, level)
      invariant !more ==> out == Flat(root, level)
      decreases if more then |it.Rest()| + 1 else 0
    {
      ghost var rest := it.Rest();
      var e := it.Next();
      if e.Found? {
        assert out + ([e.e] + it.Rest()) == out + [e.e] + it.Rest();
        out := out + [e.e];
      } else {
        more := false;
      }
    }
  }
}
