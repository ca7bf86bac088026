/**
  A table on its red-black tree: the elements in key order are the in-order walk of the tree, and the element operations
  and the iterator do on the cells what the model of tables does on the sequence.
 */
module TreeTables {
  import opened Tables
  import RbModel
  import RbHeap
  import RbWalk
  import RbShape
  import RbTrees
  import TableIter

  type Id = RbModel.Id

  /** The elements that the nodes of an ordered walk stand for. */
  function Elems(key: Id -> int, values: map<Id, Value>, s: seq<Id>): seq<Element>
    requires forall x :: x in s ==> x in values
  {
    seq(|s|, i requires 0 <= i < |s| => Element(key(s[i]), values[s[i]]))
  }

  /** The elements do not depend on other values. */
  lemma ElemsFrame(key: Id -> int, values: map<Id, Value>, values': map<Id, Value>, s: seq<Id>)
    requires forall x :: x in s ==> x in values && x in values' && values'[x] == values[x]
    ensures Elems(key, values', s) == Elems(key, values, s)
  {
  }

  // ----- positions -----

  /** The rank of a key is where the smaller keys end. */
  lemma {:induction false} RankIs(es: seq<Element>, k: int, i: nat)
    requires i <= |es|
    requires (forall j :: 0 <= j < i ==> es[j].key < k) && (forall j :: i <= j < |es| ==> k <= es[j].key)
    ensures Rank(es, k) == i
  {
    if i > 0 {
      assert forall j :: 0 <= j < |es| - 1 ==> es[1..][j] == es[j + 1];
      RankIs(es[1..], k, i - 1);
    }
  }

  function Expected(side: TableIter.Side): RbWalk.Expect {
    match side
    case LeftOf => RbWalk.ToLeft
    case LeftOrEqual => RbWalk.ToLeftEq
    case Equal => RbWalk.Equal
    case RightOrEqual => RbWalk.ToRightEq
    case RightOf => RbWalk.ToRight
  }

  predicate Leftward(side: TableIter.Side) {
    side in {TableIter.LeftOf, TableIter.LeftOrEqual}
  }

  /** No node beyond the found one lies on the asked side. */
  lemma FoundExtreme(key: Id -> int, s: seq<Id>, k: int, side: TableIter.Side, x: Id, i: nat)
    requires RbWalk.Found(key, s, k, Expected(side), x, i) && forall a, b :: 0 <= a < b < |s| ==> key(s[a]) < key(s[b])
    ensures x == RbModel.NULL ==> forall j :: 0 <= j < |s| ==> !TableIter.OnSide(key(s[j]), k, side)
    ensures x != RbModel.NULL ==> i < |s| && s[i] == x && TableIter.OnSide(key(x), k, side)
    ensures x != RbModel.NULL ==>
      forall j :: 0 <= j < |s| && TableIter.OnSide(key(s[j]), k, side) ==> if Leftward(side) then j <= i else i <= j
  {
    forall j | 0 <= j < |s| && TableIter.OnSide(key(s[j]), k, side)
      ensures x != RbModel.NULL && if Leftward(side) then j <= i else i <= j
    {
    }
  }

  /** What the search of the tree finds is the nearest element on the asked side. */
  lemma SearchIsNearest(key: Id -> int, values: map<Id, Value>, s: seq<Id>, k: int, side: TableIter.Side, x: Id, i: nat)
    requires (forall y :: y in s ==> y in values) && SortedKeys(Elems(key, values, s))
    requires RbWalk.Found(key, s, k, Expected(side), x, i)
    ensures TableIter.Nearest(Elems(key, values, s), k, side) == if x == RbModel.NULL then |s| else i
    ensures x != RbModel.NULL ==> i < |s| && s[i] == x
  {
    hide Rank, RbWalk.Found, TableIter.Nearest, Expected;
    var es := Elems(key, values, s);
    assert forall j :: 0 <= j < |s| ==> es[j].key == key(s[j]);
    FoundExtreme(key, s, k, side, x, i);
    TableIter.NearestIsNearest(es, k, side);
  }

  // ----- the table -----

  /** Every node of the tree is an element with a value. */
  ghost predicate Known(values: map<Id, Value>, s: seq<Id>) {
    forall x :: x in s ==> x in values
  }

  /** Where the iterator stands: the element to yield next, NULL after the last one. */
  datatype Cursor = Cursor(element: Id, version: nat)

  /** Node x stands at position i of the walk, NULL behind its end. */
  ghost predicate Stands(s: seq<Id>, x: Id, i: nat) {
    i <= |s| && x == if i < |s| then s[i] else RbModel.NULL
  }

  class TreeTable {
    const tree: RbTrees.RbTree
    var values: map<Id, Value>
    var version: nat

    ghost predicate Valid()
      reads this, tree
    {
      && tree.Valid() && Known(values, Walk())
      && SortedKeys(Elems(tree.key, values, Walk()))
    }

    /** The nodes in key order. */
    ghost function Walk(): seq<Id>
      reads this, tree
    {
      RbModel.Flat(tree.tree)
    }

    ghost function Elements(): seq<Element>
      reads this, tree
      requires Valid()
    {
      Elems(tree.key, values, Walk())
    }

    /** The table as the iterator model sees it; the mark is the collector's. */
    ghost function View(): Table
      reads this, tree
      requires Valid()
    {
      Table(Elements(), 0, version)
    }

    constructor (key: Id -> int)
      ensures Valid() && fresh(tree) && tree.key == key && Elements() == [] && version == 0
    {
      tree := new RbTrees.RbTree(key);
      values, version := map[], 0;
    }

    /** A new element, not yet in the table. */
    method NewElement(node: Id, v: Value)
      requires Valid() && node > RbModel.SENTINEL && node !in RbModel.Ids(tree.tree)
      modifies this`values, tree`cells
      ensures Valid() && Elements() == old(Elements())
      ensures RbWalk.Unlinked(tree.cells, node) && node in values && values[node] == v
    {
      hide RbModel.Zipped, RbModel.Flat, RbModel.Ids, RbShape.RedBlack, RbWalk.Sorted, SortedKeys;
      tree.InitNode(node);
      RbWalk.IdsFlat(tree.tree, node);
      ElemsFrame(tree.key, values, values[node := v], Walk());
      values := values[node := v];
    }

    /** Adds an element, or with `force` puts it in the place of the one with the same key. */
    method AddElement(node: Id, force: bool) returns (r: Ret, existed: Id)
      requires Valid() && node > RbModel.SENTINEL && node !in RbModel.Ids(tree.tree)
      requires RbWalk.Unlinked(tree.cells, node) && node in values
      modifies this`version, tree
      ensures Valid()
      ensures var es, e := old(Elements()), Element(tree.key(node), values[node]); var i := Rank(es, e.key);
        if HasKey(es, e.key) then
          && r == Existed && i < |es| && existed in old(Walk()) && tree.key(existed) == e.key
          && Elements() == (if force then es[i := e] else es) && version == old(version) + (if force then 1 else 0)
        else
          && r == Ok && Elements() == es[..i] + [e] + es[i..] && version == old(version) + 1
    {
      hide RbModel.Zipped, RbModel.Flat, RbModel.Ids, RbShape.RedBlack, RbWalk.Sorted, Rank, RbWalk.Kept;
      ghost var s, es, e := Walk(), Elements(), Element(tree.key(node), values[node]);
      ghost var i;
      var got;
      SameKeys(tree.key, values, s, e.key);
      got, existed, i := tree.Insert(node, false);
      if got == RbTrees.Ok {
        InsertedElems(tree.key, values, s, i, node);
        version := version + 1;
        return Ok, existed;
      }
      RbWalk.IdsFlat(tree.tree, existed);
      if force {
        NotEmpty(tree.cells, tree.root, tree.tree, existed);
        got, i := tree.Replace(existed, node);
        ReplacedElems(tree.key, values, s, i, node);
        version := version + 1;
      } else {
        KeyRank(es, e.key);
      }
      r := Existed;
    }

    /** The node with a key, or NULL. */
    method Find(k: int) returns (x: Id)
      requires Valid()
      ensures x != RbModel.NULL <==> HasKey(Elements(), k)
      ensures x != RbModel.NULL ==>
        var i := Rank(Elements(), k); i < |Walk()| && Walk()[i] == x && tree.key(x) == k && x in RbModel.Ids(tree.tree)
    {
      hide RbModel.Zipped, RbModel.Flat, RbModel.Ids, RbShape.RedBlack, RbWalk.Sorted, Rank, RbWalk.Found;
      x := tree.Search(k, RbWalk.Equal);
      ghost var i: nat :| RbWalk.Found(tree.key, Walk(), k, RbWalk.Equal, x, i);
      FoundEqual(tree.key, values, Walk(), k, x, i);
      RbWalk.IdsFlat(tree.tree, x);
    }

    method Get(k: int) returns (r: Ret, v: Value)
      requires Valid()
      ensures r == (if HasKey(Elements(), k) then Ok else NotFound)
      ensures r == Ok ==> Rank(Elements(), k) < |Elements()| && Elements()[Rank(Elements(), k)] == Element(k, v)
    {
      hide RbModel.Zipped, RbModel.Flat, RbModel.Ids, RbShape.RedBlack, RbWalk.Sorted, Rank, HasKey;
      var x := Find(k);
      if x == RbModel.NULL {
        return NotFound, Scalar(0);
      }
      return Ok, values[x];
    }

    /** Removes the element with a key. */
    method RemoveElement(k: int) returns (r: Ret, removed: Id)
      requires Valid()
      modifies this`version, tree
      ensures Valid()
      ensures var es := old(Elements()); var i := Rank(es, k);
        if HasKey(es, k) then
          && r == Ok && i < |es| && Elements() == es[..i] + es[i + 1..] && version == old(version) + 1
          && removed == old(Walk())[i] && RbWalk.Unlinked(tree.cells, removed)
        else r == NotFound && Elements() == es && version == old(version)
    {
      hide RbModel.Zipped, RbModel.Flat, RbModel.Ids, RbShape.RedBlack, RbWalk.Sorted, Rank, HasKey, RbWalk.KeptOut;
      removed := Find(k);
      if removed == RbModel.NULL {
        return NotFound, removed;
      }
      ghost var s := Walk();
      ghost var i := tree.Delete(removed);
      DeletedElems(tree.key, values, s, i, k);
      version := version + 1;
      r := Ok;
    }

    // ----- the iterator -----

    /** The cursor is at the position of the modelled iterator; a cursor of another version may be anywhere. */
    ghost predicate Denotes(c: Cursor, it: TableIter.Iter)
      reads this, tree
    {
      c.version == it.version && (c.version == version ==> Stands(Walk(), c.element, it.pos))
    }

    method IterInit(start: TableIter.Start) returns (c: Cursor)
      requires Valid()
      ensures Denotes(c, TableIter.Init(View(), start)) && c.version == version
      ensures start.Leftmost? ==> Denotes(c, TableIter.Iter(0, version))
    {
      hide RbModel.Zipped, RbModel.Flat, RbModel.Ids, RbShape.RedBlack, RbWalk.Sorted, RbWalk.Found, TableIter.Nearest,
        Expected;
      match start
      case Leftmost =>
        var x := tree.LeftMost();
        c := Cursor(x, version);
      case Beside(k, side) =>
        var x := tree.Search(k, Expected(side));
        ghost var i: nat :| RbWalk.Found(tree.key, Walk(), k, Expected(side), x, i);
        SearchIsNearest(tree.key, values, Walk(), k, side, x, i);
        c := Cursor(x, version);
    }

    /** Yields what the modelled iterator yields, and moves to the next node of the tree. */
    method IterNext(c: Cursor, ghost it: TableIter.Iter) returns (c': Cursor, y: TableIter.Yield)
      requires Valid() && Denotes(c, it)
      ensures var (it', y') := TableIter.Next(View(), it); Denotes(c', it') && c'.version == c.version && y == y'
    {
      hide RbModel.Zipped, RbModel.Flat, RbModel.Ids, RbShape.RedBlack, RbWalk.Sorted, SortedKeys;
      if c.version != version {
        return c, TableIter.Yield(TableModified, []);
      }
      RealNodes(tree.cells, tree.root, tree.tree, it.pos);
      if c.element == RbModel.NULL {
        return c, TableIter.Yield(IterFinish, []);
      }
      var x, i := tree.GetNext(c.element);
      OnePlace(tree.key, values, Walk(), it.pos, i);
      c' := c.(element := x);
      y := TableIter.Yield(Ok, [Element(tree.key(c.element), values[c.element])]);
    }

    /**
      Iterating to the end of a table that does not change meets every element from the start on, once and in key
      order.
     */
    method ForEach(start: TableIter.Start) returns (out: seq<Element>)
      requires Valid()
      ensures var i := TableIter.Init(View(), start).pos; i <= |Elements()| && out == Elements()[i..]
      ensures start.Leftmost? ==> out == Elements()
    {
      hide RbModel.Zipped, RbModel.Flat, RbModel.Ids, RbShape.RedBlack, RbWalk.Sorted, SortedKeys, TableIter.Nearest;
      var c := IterInit(start);
      ghost var first := TableIter.Init(View(), start).pos;
      ghost var it := TableIter.Init(View(), start);
      out := [];
      var more := true;
      while more
        invariant Denotes(c, it) && c.version == version && first <= it.pos <= |Elements()|
        invariant out == Elements()[first..it.pos] && (!more ==> it.pos == |Elements()|)
        decreases |Elements()| - it.pos, more
      {
        ghost var it' := TableIter.Next(View(), it).0;
        var y;
        c, y := IterNext(c, it);
        it := it';
        out := out + y.elems;
        more := y.ret != IterFinish;
      }
    }
  }

  lemma SameKeys(key: Id -> int, values: map<Id, Value>, s: seq<Id>, k: int)
    requires Known(values, s)
    ensures RbWalk.HasKey(key, s, k) <==> HasKey(Elems(key, values, s), k)
  {
    var es := Elems(key, values, s);
    if j :| 0 <= j < |s| && key(s[j]) == k { assert es[j].key == k; }
    if j :| 0 <= j < |es| && es[j].key == k { assert key(s[j]) == k; }
  }

  lemma KeyRank(es: seq<Element>, k: int)
    requires SortedKeys(es) && HasKey(es, k)
    ensures Rank(es, k) < |es| && es[Rank(es, k)].key == k
  {
    RankSplits(es, k);
  }

  lemma InsertedElems(key: Id -> int, values: map<Id, Value>, s: seq<Id>, i: nat, node: Id)
    requires Known(values, s) && node in values && SortedKeys(Elems(key, values, s))
      && !RbWalk.HasKey(key, s, key(node))
    requires i <= |s| && RbWalk.AllLe(key, s[..i], key(node)) && RbWalk.AllGt(key, s[i..], key(node))
    ensures var es, e := Elems(key, values, s), Element(key(node), values[node]); var s' := s[..i] + [node] + s[i..];
      && Rank(es, e.key) == i && Known(values, s')
      && Elems(key, values, s') == es[..i] + [e] + es[i..] && SortedKeys(Elems(key, values, s'))
  {
    hide Rank;
    var es, e := Elems(key, values, s), Element(key(node), values[node]);
    forall j | 0 <= j < |s|
      ensures j < i ==> es[j].key < e.key
      ensures j >= i ==> e.key < es[j].key
    {
      if j < i { assert s[..i][j] == s[j]; } else { assert s[i..][j - i] == s[j]; }
    }
    RankIs(es, e.key, i);
    InsertSorted(es, e.key, e.value);
    var s' := s[..i] + [node] + s[i..];
    assert forall x :: x in s' ==> x in s || x == node;
    assert Elems(key, values, s') == es[..i] + [e] + es[i..];
  }

  lemma ReplacedElems(key: Id -> int, values: map<Id, Value>, s: seq<Id>, i: nat, node: Id)
    requires Known(values, s) && node in values && SortedKeys(Elems(key, values, s)) && i < |s|
      && key(s[i]) == key(node)
    ensures var es, e := Elems(key, values, s), Element(key(node), values[node]); var s' := s[i := node];
      && Rank(es, e.key) == i && Known(values, s')
      && Elems(key, values, s') == es[i := e] && SortedKeys(Elems(key, values, s'))
  {
    hide Rank;
    var es, e := Elems(key, values, s), Element(key(node), values[node]);
    assert es[i].key == e.key;
    RankIs(es, e.key, i);
    assert Elems(key, values, s[i := node]) == es[i := e];
  }

  /** A tree with a node in it has a root, and the node is not the sentinel. */
  lemma NotEmpty(h: RbModel.Heap, root: Id, t: RbModel.Tree, x: Id)
    requires RbModel.Zipped(h, root, RbModel.Top, t, root) && x in RbModel.Ids(t)
    ensures root != RbModel.SENTINEL && x != RbModel.SENTINEL
  {
    RbHeap.RealIds(h, root, RbModel.Top, t, root);
  }

  lemma FoundEqual(key: Id -> int, values: map<Id, Value>, s: seq<Id>, k: int, x: Id, i: nat)
    requires Known(values, s) && SortedKeys(Elems(key, values, s)) && RbWalk.Found(key, s, k, RbWalk.Equal, x, i)
    ensures x == RbModel.NULL <==> !HasKey(Elems(key, values, s), k)
    ensures x != RbModel.NULL ==> i < |s| && s[i] == x && key(x) == k && Rank(Elems(key, values, s), k) == i
  {
    hide Rank;
    SameKeys(key, values, s, k);
    var es := Elems(key, values, s);
    if x != RbModel.NULL {
      assert es[i].key == k;
      RankIs(es, k, i);
    }
  }

  lemma DeletedElems(key: Id -> int, values: map<Id, Value>, s: seq<Id>, i: nat, k: int)
    requires Known(values, s) && SortedKeys(Elems(key, values, s)) && i < |s| && key(s[i]) == k
    ensures var es, s' := Elems(key, values, s), s[..i] + s[i + 1..];
      && Rank(es, k) == i && Known(values, s')
      && Elems(key, values, s') == es[..i] + es[i + 1..] && SortedKeys(Elems(key, values, s'))
  {
    hide Rank;
    var es, s' := Elems(key, values, s), s[..i] + s[i + 1..];
    assert es[i].key == k;
    RankIs(es, k, i);
    assert forall x :: x in s' ==> x in s;
    assert Elems(key, values, s') == es[..i] + es[i + 1..];
  }

  /** The nodes of the walk are real ones, with cells. */
  lemma RealNodes(h: RbModel.Heap, root: Id, t: RbModel.Tree, i: nat)
    requires RbModel.Zipped(h, root, RbModel.Top, t, root)
    ensures var s := RbModel.Flat(t);
      i < |s| ==> s[i] != RbModel.NULL && s[i] in h && s[i] in RbModel.Ids(t)
  {
    hide RbModel.Flat, RbModel.Ids;
    var s := RbModel.Flat(t);
    if i < |s| {
      RbWalk.IdsFlat(t, s[i]);
      InCells(h, root, t, s[i]);
    }
  }

  lemma {:induction false} InCells(h: RbModel.Heap, x: Id, t: RbModel.Tree, y: Id)
    requires RbModel.Rep(h, x, t) && y in RbModel.Ids(t)
    ensures y in h && y > RbModel.SENTINEL
    decreases t
  {
    if y in RbModel.Ids(t.left) {
      InCells(h, h[x].left, t.left, y);
    } else if y in RbModel.Ids(t.right) {
      InCells(h, h[x].right, t.right, y);
    }
  }

  /** A node stands at one place only. */
  lemma OnePlace(key: Id -> int, values: map<Id, Value>, s: seq<Id>, i: nat, j: nat)
    requires Known(values, s) && SortedKeys(Elems(key, values, s)) && i < |s| && j < |s| && s[i] == s[j]
    ensures i == j
  {
    var es := Elems(key, values, s);
    assert es[i] == es[j];
  }
}
