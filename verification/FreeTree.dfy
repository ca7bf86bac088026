/**
  The index of free runs on its red-black tree: of the runs of one length the first is in the tree and the others hang
  in
  a ring off it.  Adding, removing and taking a run do on the cells what the page pool's index does on a map of rings.
 */
module FreeTrees {
  import opened Queues
  import opened PagePool
  import RbModel
  import RbShape
  import RbWalk
  import RbTrees
  import TreeTables

  type Id = RbModel.Id

  /** The runs that a ring of records stands for. */
  function Spots(spot: Id -> Spot, q: seq<Id>): seq<Spot> {
    seq(|q|, i requires 0 <= i < |q| => spot(q[i]))
  }

  lemma SpotsConcat(spot: Id -> Spot, a: seq<Id>, b: seq<Id>)
    ensures Spots(spot, a + b) == Spots(spot, a) + Spots(spot, b)
  {
  }

  /** Taking a record out of a ring takes its run out. */
  lemma {:induction false} SpotsWithout(spot: Id -> Spot, q: seq<Id>, x: Id)
    requires forall y :: y in q && y != x ==> spot(y) != spot(x)
    ensures Spots(spot, Without(q, x)) == Without(Spots(spot, q), spot(x))
  {
    if q != [] {
      SpotsWithout(spot, q[1..], x);
      assert Spots(spot, q)[1..] == Spots(spot, q[1..]);
      if q[0] != x { SpotsConcat(spot, [q[0]], Without(q[1..], x)); }
    }
  }

  /** Record h and the others q of its length stand for the runs ss, each once. */
  ghost predicate RingOk(key: Id -> int, spot: Id -> Spot, h: Id, q: seq<Id>, ss: seq<Spot>) {
    && key(h) >= 0 && ss == Spots(spot, [h] + q) && NoDup([h] + q)
    && (forall x :: x in q ==> key(x) == key(h))
    && (forall x, y :: x in [h] + q && y in [h] + q && spot(x) == spot(y) ==> x == y)
  }

  /** One record of each length is in the tree, and its ring holds the others. */
  ghost predicate Hung(key: Id -> int, spot: Id -> Spot, rings: map<Id, seq<Id>>, ix: Index) {
    && (forall h, h' :: h in rings && h' in rings && key(h) == key(h') ==> h == h')
    && (forall h :: h in rings ==> key(h) >= 0 && key(h) in ix && RingOk(key, spot, h, rings[h], ix[key(h)]))
    && (forall len :: len in ix ==> exists h :: h in rings && key(h) == len)
  }

  lemma HungRing(key: Id -> int, spot: Id -> Spot, rings: map<Id, seq<Id>>, ix: Index, h: Id)
    requires Hung(key, spot, rings, ix) && h in rings
    ensures key(h) >= 0 && key(h) in ix && RingOk(key, spot, h, rings[h], ix[key(h)])
    ensures forall x :: x in rings && key(x) == key(h) ==> x == h
  {
    hide RingOk;
  }

  /** The ring of one length changes. */
  lemma HungPut(key: Id -> int, spot: Id -> Spot, rings: map<Id, seq<Id>>, ix: Index, h: Id, q: seq<Id>, ss: seq<Spot>)
    requires Hung(key, spot, rings, ix) && key(h) >= 0 && RingOk(key, spot, h, q, ss)
    requires forall x :: x in rings && key(x) == key(h) ==> x == h
    ensures Hung(key, spot, rings[h := q], ix[key(h) := ss])
  {
    hide RingOk;
    var ix' := ix[key(h) := ss];
    forall len | len in ix' ensures exists x :: x in rings[h := q] && key(x) == len {
      if len != key(h) {
        var x :| x in rings && key(x) == len;
        assert x in rings[h := q];
      } else {
        assert h in rings[h := q];
      }
    }
  }

  /** The record in the tree goes, and its length with it. */
  lemma HungDrop(key: Id -> int, spot: Id -> Spot, rings: map<Id, seq<Id>>, ix: Index, h: Id)
    requires Hung(key, spot, rings, ix) && h in rings
    ensures Hung(key, spot, rings - {h}, ix - {key(h)})
  {
    hide RingOk;
    HungRing(key, spot, rings, ix, h);
    HungPart(key, spot, rings, ix, rings - {h}, ix - {key(h)});
  }

  lemma HungPart(key: Id -> int, spot: Id -> Spot, rings: map<Id, seq<Id>>, ix: Index, rings': map<Id, seq<Id>>,
      ix': Index)
    requires Hung(key, spot, rings, ix)
    requires forall h :: h in rings' ==> h in rings && rings'[h] == rings[h] && key(h) in ix'
    requires forall len :: len in ix' ==> len in ix && ix'[len] == ix[len]
    requires forall h :: h in rings && key(h) in ix' ==> h in rings'
    ensures Hung(key, spot, rings', ix')
  {
    hide RingOk;
    forall len | len in ix' ensures exists x :: x in rings' && key(x) == len {
      var x :| x in rings && key(x) == len;
    }
  }

  /** Records that are in no tree and have empty tree links. */
  ghost predicate Loose(cells: RbModel.Heap, ids: set<Id>, q: seq<Id>) {
    forall x :: x in q ==> x !in ids && x > RbModel.SENTINEL && RbWalk.Unlinked(cells, x)
  }

  /** Each record in the tree has a ring of loose records. */
  ghost predicate Hanging(cells: RbModel.Heap, ids: set<Id>, rings: map<Id, seq<Id>>) {
    rings.Keys == ids && forall h :: h in rings ==> Loose(cells, ids, rings[h])
  }

  /** Every ring without record x. */
  function WithoutAll(rings: map<Id, seq<Id>>, x: Id): map<Id, seq<Id>> {
    map k | k in rings :: Without(rings[k], x)
  }

  /** Record x is in the tree or in a ring. */
  ghost predicate Member(rings: map<Id, seq<Id>>, x: Id) {
    x in rings || exists h :: h in rings && x in rings[h]
  }

  class FreeTree {
    // The key of a record is the length of its run.
    const tree: RbTrees.RbTree
    const spot: Id -> Spot
    var rings: map<Id, seq<Id>>
    ghost var index: Index

    ghost predicate Valid()
      reads this, tree
    {
      && tree.Valid() && Hung(tree.key, spot, rings, index)
      && Hanging(tree.cells, RbModel.Ids(tree.tree), rings)
    }

    constructor (key: Id -> int, spot: Id -> Spot)
      ensures Valid() && fresh(tree) && tree.key == key && this.spot == spot && index == map[]
    {
      tree := new RbTrees.RbTree(key);
      this.spot, rings, index := spot, map[], map[];
    }

    /** The record in the tree for a length, or NULL. */
    method Find(len: int) returns (h: Id)
      requires Valid()
      ensures h != RbModel.NULL ==> h in rings && tree.key(h) == len && h in RbModel.Ids(tree.tree)
      ensures h == RbModel.NULL ==> forall x :: x in rings ==> tree.key(x) != len
    {
      hide RbModel.Zipped, RbModel.Flat, RbModel.Ids, RbShape.RedBlack, RbWalk.Sorted, Hung;
      h := tree.Search(len, RbWalk.Equal);
      ghost var i: nat :| RbWalk.Found(tree.key, RbModel.Flat(tree.tree), len, RbWalk.Equal, h, i);
      forall x ensures x in RbModel.Ids(tree.tree) <==> x in RbModel.Flat(tree.tree) { RbWalk.IdsFlat(tree.tree, x); }
    }

    /** Adds a run: a new length goes into the tree, another run of a known length to the end of its ring. */
    method Add(x: Id)
      requires Valid() && tree.key(x) >= 0 && x > RbModel.SENTINEL && RbWalk.Unlinked(tree.cells, x)
      requires !Indexed(index, tree.key(x), spot(x))
      modifies this`rings, this`index, tree
      ensures Valid() && index == AddSpot(old(index), tree.key(x), spot(x)) && Member(rings, x)
    {
      hide RbModel.Zipped, RbModel.Flat, RbModel.Ids, RbShape.RedBlack, RbWalk.Sorted, Hung, RbWalk.Unlinked, NoDup;
      hide Hanging, AddSpot, Indexed, RbWalk.Kept;
      var h := Find(tree.key(x));
      ghost var cells, ids := tree.cells, RbModel.Ids(tree.tree);
      RbWalk.InTreeLinked(tree.cells, tree.root, tree.tree, x);
      if h == RbModel.NULL {
        AddedHead(tree.key, spot, rings, index, x);
        var r, existed, i := tree.Insert(x, true);
        HangingKept(cells, tree.cells, ids, rings, x);
        rings := rings[x := []];
      } else {
        AddedMember(tree.key, spot, rings, index, h, x);
        HangingMore(cells, ids, rings, h, x);
        rings := rings[h := rings[h] + [x]];
        assert x in rings[h];
      }
      index := AddSpot(index, tree.key(x), spot(x));
    }

    /** A record that only hangs in a ring leaves it. */
    method Unhang(x: Id)
      requires Valid() && Member(rings, x) && x !in rings
      modifies this`rings, this`index
      ensures Valid() && tree.key(x) >= 0 && index == RemoveSpot(old(index), tree.key(x), spot(x))
      ensures forall y :: Member(rings, y) <==> Member(old(rings), y) && y != x
    {
      hide RbModel.Zipped, RbModel.Flat, RbModel.Ids, RbShape.RedBlack, RbWalk.Sorted, Hung, NoDup, Without, Hanging;
      hide RemoveSpot, WithoutAll;
      ghost var h :| h in rings && x in rings[h];
      LeftRing(tree.key, spot, rings, index, h, x);
      HangingFewer(tree.cells, RbModel.Ids(tree.tree), rings, x);
      rings := WithoutAll(rings, x);
      index := RemoveSpot(index, tree.key(x), spot(x));
    }

    /** The only record of its length leaves the tree. */
    method Uproot(x: Id)
      requires Valid() && x in rings && rings[x] == []
      modifies this`rings, this`index, tree
      ensures Valid() && tree.key(x) >= 0 && index == RemoveSpot(old(index), tree.key(x), spot(x))
      ensures forall y :: Member(rings, y) <==> Member(old(rings), y) && y != x
      ensures RbWalk.Unlinked(tree.cells, x)
    {
      hide RbModel.Zipped, RbModel.Flat, RbModel.Ids, RbShape.RedBlack, RbWalk.Sorted, Hung, NoDup, Hanging, RemoveSpot;
      hide RbWalk.Unlinked, RbWalk.KeptOut, Member;
      ghost var cells, ids := tree.cells, RbModel.Ids(tree.tree);
      HangingIds(cells, ids, rings);
      LeftTree(tree.key, spot, rings, index, x);
      var i := tree.Delete(x);
      HangingOut(cells, tree.cells, ids, rings, x);
      rings := rings - {x};
      index := RemoveSpot(index, tree.key(x), spot(x));
    }

    /** A record in the tree with others in its ring is replaced there by the first of them. */
    method Succeed(x: Id)
      requires Valid() && x in rings && rings[x] != []
      modifies this`rings, this`index, tree
      ensures Valid() && tree.key(x) >= 0 && index == RemoveSpot(old(index), tree.key(x), spot(x))
      ensures forall y :: Member(rings, y) <==> Member(old(rings), y) && y != x
      ensures RbWalk.Unlinked(tree.cells, x)
    {
      hide RbModel.Zipped, RbModel.Flat, RbModel.Ids, RbShape.RedBlack, RbWalk.Sorted, Hung, NoDup, Hanging, RemoveSpot;
      hide RbWalk.KeptOut, Member;
      ghost var cells, ids := tree.cells, RbModel.Ids(tree.tree);
      var c, rest := rings[x][0], rings[x][1..];
      HangingIds(cells, ids, rings);
      HangingNode(cells, ids, rings, x);
      LeftHead(tree.key, spot, rings, index, x);
      RealNode(tree.cells, tree.root, tree.tree, x);
      var r, i := tree.Replace(x, c);
      HangingNext(cells, tree.cells, ids, rings, x);
      rings := (rings - {x})[c := rest];
      index := RemoveSpot(index, tree.key(x), spot(x));
    }

    /** Removes a run, whichever of the three ways its record is held. */
    method Remove(x: Id)
      requires Valid() && Member(rings, x)
      modifies this`rings, this`index, tree
      ensures Valid() && tree.key(x) >= 0 && index == RemoveSpot(old(index), tree.key(x), spot(x))
      ensures forall y :: Member(rings, y) <==> Member(old(rings), y) && y != x
      ensures RbWalk.Unlinked(tree.cells, x)
    {
      hide RbModel.Zipped, RbModel.Flat, RbModel.Ids, RbShape.RedBlack, RbWalk.Sorted, Hung, NoDup, Hanging, RemoveSpot;
      hide Member;
      HangingIds(tree.cells, RbModel.Ids(tree.tree), rings);
      RbWalk.InTreeLinked(tree.cells, tree.root, tree.tree, x);
      MemberCells(tree.cells, tree.root, tree.tree, rings, x);
      var cell := tree.cells[x];
      if cell.left == RbModel.NULL && cell.right == RbModel.NULL && cell.parent == RbModel.NULL {
        Unhang(x);
      } else if rings[x] == [] {
        Uproot(x);
      } else {
        Succeed(x);
      }
    }

    /** Takes out the last run of the smallest length that suffices. */
    method TakeFit(cnt: int) returns (x: Id)
      requires Valid()
      modifies this`rings, this`index, tree
      ensures Valid()
      ensures x == RbModel.NULL ==> index == old(index) && forall len :: len in index ==> len < cnt
      ensures x != RbModel.NULL ==>
        && var len := tree.key(x);
           && len in old(index) && len >= cnt && (forall l :: l in old(index) && l >= cnt ==> len <= l)
           && old(index)[len] != [] && spot(x) == old(index)[len][|old(index)[len]| - 1]
           && index == RemoveSpot(old(index), len, spot(x))
    {
      hide RbModel.Zipped, RbModel.Flat, RbModel.Ids, RbShape.RedBlack, Hung, NoDup, Hanging, RemoveSpot, Member;
      HangingIds(tree.cells, RbModel.Ids(tree.tree), rings);
      var h := tree.Search(cnt, RbWalk.ToRightEq);
      ghost var i: nat :| RbWalk.Found(tree.key, RbModel.Flat(tree.tree), cnt, RbWalk.ToRightEq, h, i);
      SmallestLength(tree.key, spot, rings, index, tree.tree, cnt, h, i);
      if h == RbModel.NULL {
        return RbModel.NULL;
      }
      x := if rings[h] == [] then h else rings[h][|rings[h]| - 1];
      LastOfRing(tree.key, spot, rings, index, h);
      MemberCells(tree.cells, tree.root, tree.tree, rings, x);
      Remove(x);
    }
  }

  lemma AddedHead(key: Id -> int, spot: Id -> Spot, rings: map<Id, seq<Id>>, ix: Index, x: Id)
    requires Hung(key, spot, rings, ix) && key(x) >= 0 && forall h :: h in rings ==> key(h) != key(x)
    ensures Hung(key, spot, rings[x := []], AddSpot(ix, key(x), spot(x)))
    ensures forall h :: h in rings ==> x !in rings[h]
  {
    NewRing(key, spot, x);
    forall h | h in rings ensures x !in rings[h] { assert RingOk(key, spot, h, rings[h], ix[key(h)]); }
    hide RingOk;
    assert key(x) !in ix;
    HungPut(key, spot, rings, ix, x, [], [spot(x)]);
  }

  lemma NewRing(key: Id -> int, spot: Id -> Spot, x: Id)
    requires key(x) >= 0
    ensures RingOk(key, spot, x, [], [spot(x)])
  {
    assert [x] + [] == [x];
    NoDupSingle(x);
  }

  lemma AddedMember(key: Id -> int, spot: Id -> Spot, rings: map<Id, seq<Id>>, ix: Index, h: Id, x: Id)
    requires Hung(key, spot, rings, ix) && h in rings && key(h) == key(x) >= 0 && !Indexed(ix, key(x), spot(x))
    ensures Hung(key, spot, rings[h := rings[h] + [x]], AddSpot(ix, key(x), spot(x)))
    ensures x != h && x !in rings[h]
  {
    hide RingOk;
    LongerRing(key, spot, h, rings[h], ix[key(h)], x);
    HungPut(key, spot, rings, ix, h, rings[h] + [x], ix[key(h)] + [spot(x)]);
  }

  lemma LongerRing(key: Id -> int, spot: Id -> Spot, h: Id, q: seq<Id>, ss: seq<Spot>, x: Id)
    requires RingOk(key, spot, h, q, ss) && key(x) == key(h) && spot(x) !in ss
    ensures RingOk(key, spot, h, q + [x], ss + [spot(x)]) && x != h && x !in q
  {
    hide NoDup;
    var r := [h] + q;
    forall y | y in r ensures spot(y) != spot(x) {
      var i :| 0 <= i < |r| && r[i] == y;
      assert ss[i] == spot(y);
    }
    assert h in r && forall y :: y in q ==> y in r;
    assert [h] + (q + [x]) == r + [x];
    NoDupAppend(r, x);
    SpotsConcat(spot, r, [x]);
    assert Spots(spot, [x]) == [spot(x)];
  }

  // ----- the records in rings -----

  lemma HangingIds(cells: RbModel.Heap, ids: set<Id>, rings: map<Id, seq<Id>>)
    requires Hanging(cells, ids, rings)
    ensures rings.Keys == ids
    ensures forall x: Id :: Member(rings, x) && x !in ids ==> x > RbModel.SENTINEL && RbWalk.Unlinked(cells, x)
  {
    hide RbWalk.Unlinked;
    forall x: Id | Member(rings, x) && x !in ids ensures x > RbModel.SENTINEL && RbWalk.Unlinked(cells, x) {
      var h :| h in rings && x in rings[h];
      assert Loose(cells, ids, rings[h]);
    }
  }

  lemma HangingNode(cells: RbModel.Heap, ids: set<Id>, rings: map<Id, seq<Id>>, h: Id)
    requires Hanging(cells, ids, rings) && h in rings && rings[h] != []
    ensures var c := rings[h][0]; c !in ids && c > RbModel.SENTINEL && c in cells && RbWalk.Unlinked(cells, c)
  {
    assert Loose(cells, ids, rings[h]) && rings[h][0] in rings[h];
  }

  lemma HangingKept(cells: RbModel.Heap, cells': RbModel.Heap, ids: set<Id>, rings: map<Id, seq<Id>>, x: Id)
    requires Hanging(cells, ids, rings) && RbWalk.Kept(cells, cells', ids + {x})
    requires forall h :: h in rings ==> x !in rings[h]
    ensures Hanging(cells', ids + {x}, rings[x := []])
  {
    var rings' := rings[x := []];
    assert rings'.Keys == ids + {x};
    forall h | h in rings' ensures Loose(cells', ids + {x}, rings'[h]) {
      if h != x { assert Loose(cells, ids, rings[h]); }
    }
  }

  lemma HangingMore(cells: RbModel.Heap, ids: set<Id>, rings: map<Id, seq<Id>>, h: Id, x: Id)
    requires Hanging(cells, ids, rings) && h in rings && x !in ids && x > RbModel.SENTINEL && RbWalk.Unlinked(cells, x)
    ensures Hanging(cells, ids, rings[h := rings[h] + [x]])
  {
    hide RbWalk.Unlinked;
    var rings' := rings[h := rings[h] + [x]];
    assert rings'.Keys == rings.Keys;
    forall k | k in rings' ensures Loose(cells, ids, rings'[k]) { assert Loose(cells, ids, rings[k]); }
  }

  lemma HangingFewer(cells: RbModel.Heap, ids: set<Id>, rings: map<Id, seq<Id>>, x: Id)
    requires Hanging(cells, ids, rings)
    ensures Hanging(cells, ids, WithoutAll(rings, x))
  {
    hide RbWalk.Unlinked, Without;
    var rings' := WithoutAll(rings, x);
    assert rings'.Keys == rings.Keys;
    forall k | k in rings' ensures Loose(cells, ids, rings'[k]) {
      assert Loose(cells, ids, rings[k]);
      WithoutMembers(rings[k], x);
    }
  }

  lemma HangingOut(cells: RbModel.Heap, cells': RbModel.Heap, ids: set<Id>, rings: map<Id, seq<Id>>, x: Id)
    requires Hanging(cells, ids, rings) && RbWalk.KeptOut(cells, cells', ids)
    ensures Hanging(cells', ids - {x}, rings - {x})
  {
    var rings' := rings - {x};
    assert rings'.Keys == ids - {x};
    forall k | k in rings' ensures Loose(cells', ids - {x}, rings'[k]) { assert Loose(cells, ids, rings[k]); }
  }

  lemma HangingNext(cells: RbModel.Heap, cells': RbModel.Heap, ids: set<Id>, rings: map<Id, seq<Id>>, x: Id)
    requires Hanging(cells, ids, rings) && x in rings && rings[x] != [] && NoDup(rings[x])
    requires RbWalk.KeptOut(cells, cells', ids + {rings[x][0]})
    requires forall h :: h in rings && h != x ==> rings[x][0] !in rings[h]
    ensures Hanging(cells', ids - {x} + {rings[x][0]}, (rings - {x})[rings[x][0] := rings[x][1..]])
  {
    hide NoDup;
    var c, rest := rings[x][0], rings[x][1..];
    NoDupTail(rings[x]);
    assert Loose(cells, ids, rings[x]);
    var rings' := (rings - {x})[c := rest];
    assert rings'.Keys == ids - {x} + {c};
    forall h | h in rings' ensures Loose(cells', ids - {x} + {c}, rings'[h]) {
      if h != c { assert Loose(cells, ids, rings[h]); }
    }
  }

  // ----- removal -----

  lemma MemberCells(cells: RbModel.Heap, root: Id, t: RbModel.Tree, rings: map<Id, seq<Id>>, x: Id)
    requires RbModel.Zipped(cells, root, RbModel.Top, t, root) && Hanging(cells, RbModel.Ids(t), rings)
      && Member(rings, x)
    ensures x in cells && x > RbModel.SENTINEL
  {
    hide RbModel.Ids;
    HangingIds(cells, RbModel.Ids(t), rings);
    if x in rings { TreeTables.InCells(cells, root, t, x); }
  }

  lemma RealNode(cells: RbModel.Heap, root: Id, t: RbModel.Tree, x: Id)
    requires RbModel.Zipped(cells, root, RbModel.Top, t, root) && x in RbModel.Ids(t)
    ensures root != RbModel.SENTINEL && x != RbModel.SENTINEL
  {
    TreeTables.NotEmpty(cells, root, t, x);
  }

  /** A record of a ring, taken out of it. */
  lemma ShorterRing(key: Id -> int, spot: Id -> Spot, h: Id, q: seq<Id>, ss: seq<Spot>, x: Id)
    requires RingOk(key, spot, h, q, ss) && x in q
    ensures x != h && RingOk(key, spot, h, Without(q, x), Without(ss, spot(x))) && Without(ss, spot(x)) != []
  {
    hide NoDup;
    var r := [h] + q;
    assert r[0] == h && r[1..] == q;
    NoDupTail(r);
    assert x in r;
    SpotsWithout(spot, r, x);
    WithoutOk(r, x);
    WithoutOk(q, x);
    assert Without(r, x) == [h] + Without(q, x);
    assert Spots(spot, [h] + Without(q, x))[0] == spot(h);
  }

  lemma LeftRing(key: Id -> int, spot: Id -> Spot, rings: map<Id, seq<Id>>, ix: Index, h: Id, x: Id)
    requires Hung(key, spot, rings, ix) && h in rings && x in rings[h]
    ensures key(x) >= 0
    ensures var rings' := WithoutAll(rings, x);
      && Hung(key, spot, rings', RemoveSpot(ix, key(x), spot(x)))
      && (forall y :: Member(rings', y) <==> Member(rings, y) && y != x)
  {
    hide NoDup, Without, Hung, RingOk;
    HungRing(key, spot, rings, ix, h);
    KeyOfRing(key, spot, h, rings[h], ix[key(h)]);
    ShorterRing(key, spot, h, rings[h], ix[key(h)], x);
    var rings' := WithoutAll(rings, x);
    forall k | k in rings && k != h ensures Without(rings[k], x) == rings[k] {
      HungRing(key, spot, rings, ix, k);
      KeyOfRing(key, spot, k, rings[k], ix[key(k)]);
      WithoutAbsent(rings[k], x);
    }
    assert rings' == rings[h := Without(rings[h], x)];
    HungPut(key, spot, rings, ix, h, Without(rings[h], x), Without(ix[key(h)], spot(x)));
    OnlyHere(key, spot, rings, ix, h, x);
    MembersLess(rings, rings', x);
  }

  lemma KeyOfRing(key: Id -> int, spot: Id -> Spot, h: Id, q: seq<Id>, ss: seq<Spot>)
    requires RingOk(key, spot, h, q, ss)
    ensures forall x :: x in q ==> key(x) == key(h)
    ensures h !in q && NoDup(q) && |ss| == |q| + 1 && ss[0] == spot(h) && forall i: nat :: i < |q| ==>
      ss[i + 1] == spot(q[i])
  {
    hide NoDup;
    assert ([h] + q)[1..] == q;
    NoDupTail([h] + q);
  }

  lemma MembersLess(rings: map<Id, seq<Id>>, rings': map<Id, seq<Id>>, x: Id)
    requires rings' == WithoutAll(rings, x) && x !in rings
    ensures forall y :: Member(rings', y) <==> Member(rings, y) && y != x
  {
    forall k | k in rings ensures forall y :: y in rings'[k] <==> y in rings[k] && y != x {
      WithoutMembers(rings[k], x);
    }
    hide Without;
    forall y | Member(rings, y) && y != x ensures Member(rings', y) {
      if y !in rings {
        var h :| h in rings && y in rings[h];
        assert y in rings'[h];
      }
    }
  }

  /** A record that hangs in a ring is not in the tree, and in no other ring. */
  lemma OnlyHere(key: Id -> int, spot: Id -> Spot, rings: map<Id, seq<Id>>, ix: Index, h: Id, x: Id)
    requires Hung(key, spot, rings, ix) && h in rings && x in rings[h]
    ensures x !in rings && forall k :: k in rings && k != h ==> x !in rings[k]
  {
    hide NoDup, Hung, RingOk;
    HungRing(key, spot, rings, ix, h);
    KeyOfRing(key, spot, h, rings[h], ix[key(h)]);
    forall k | k in rings && k != h ensures x !in rings[k] {
      HungRing(key, spot, rings, ix, k);
      KeyOfRing(key, spot, k, rings[k], ix[key(k)]);
    }
  }

  lemma LeftTree(key: Id -> int, spot: Id -> Spot, rings: map<Id, seq<Id>>, ix: Index, x: Id)
    requires Hung(key, spot, rings, ix) && x in rings && rings[x] == []
    ensures key(x) >= 0 && Hung(key, spot, rings - {x}, RemoveSpot(ix, key(x), spot(x)))
    ensures forall y :: Member(rings - {x}, y) <==> Member(rings, y) && y != x
  {
    hide NoDup, Hung, RingOk;
    HungRing(key, spot, rings, ix, x);
    KeyOfRing(key, spot, x, [], ix[key(x)]);
    assert ix[key(x)] == [spot(x)];
    NoDupSingle(spot(x));
    WithoutFirst([spot(x)]);
    HungDrop(key, spot, rings, ix, x);
    NoHeadHangs(key, spot, rings, ix);
    MembersDrop(rings, x);
  }

  lemma NoHeadHangs(key: Id -> int, spot: Id -> Spot, rings: map<Id, seq<Id>>, ix: Index)
    requires Hung(key, spot, rings, ix)
    ensures forall h, y :: h in rings && y in rings[h] ==> y !in rings
  {
    hide Hung;
    forall h, y | h in rings && y in rings[h] ensures y !in rings { OnlyHere(key, spot, rings, ix, h, y); }
  }

  lemma MembersDrop(rings: map<Id, seq<Id>>, x: Id)
    requires x in rings && rings[x] == [] && forall h, y :: h in rings && y in rings[h] ==> y !in rings
    ensures forall y :: Member(rings - {x}, y) <==> Member(rings, y) && y != x
  {
    var rings' := rings - {x};
    forall y | Member(rings, y) && y != x ensures Member(rings', y) {
      if y !in rings {
        var h :| h in rings && y in rings[h];
        assert h in rings' && y in rings'[h];
      }
    }
  }

  lemma LeftHead(key: Id -> int, spot: Id -> Spot, rings: map<Id, seq<Id>>, ix: Index, x: Id)
    requires Hung(key, spot, rings, ix) && x in rings && rings[x] != []
    ensures var c, rest := rings[x][0], rings[x][1..]; var rings' := (rings - {x})[c := rest];
      && key(x) >= 0 && key(c) == key(x) && Hung(key, spot, rings', RemoveSpot(ix, key(x), spot(x)))
      && (forall y :: Member(rings', y) <==> Member(rings, y) && y != x)
    ensures NoDup(rings[x]) && forall h :: h in rings && h != x ==> rings[x][0] !in rings[h]
  {
    hide NoDup, Hung, RingOk, Member, Without;
    var c, rest := rings[x][0], rings[x][1..];
    OnlyHere(key, spot, rings, ix, x, c);
    HungRing(key, spot, rings, ix, x);
    var ss := ix[key(x)];
    KeyOfRing(key, spot, x, rings[x], ss);
    NextRing(key, spot, x, rings[x], ss);
    HungDrop(key, spot, rings, ix, x);
    HungPut(key, spot, rings - {x}, ix - {key(x)}, c, rest, ss[1..]);
    assert (ix - {key(x)})[key(x) := ss[1..]] == ix[key(x) := ss[1..]];
    NoHeadHangs(key, spot, rings, ix);
    MembersNext(rings, x);
  }

  lemma MembersNext(rings: map<Id, seq<Id>>, x: Id)
    requires x in rings && rings[x] != [] && forall h, y :: h in rings && y in rings[h] ==> y !in rings
    ensures var rings' := (rings - {x})[rings[x][0] := rings[x][1..]];
      forall y :: Member(rings', y) <==> Member(rings, y) && y != x
  {
    var c, rest := rings[x][0], rings[x][1..];
    var rings' := (rings - {x})[c := rest];
    assert c in rings[x] && forall y :: y in rings[x] <==> y == c || y in rest;
    forall y | Member(rings, y) && y != x ensures Member(rings', y) {
      if y !in rings {
        var h :| h in rings && y in rings[h];
        if h == x { assert y == c || y in rings'[c]; } else { assert y in rings'[h]; }
      }
    }
    forall y | Member(rings', y) ensures Member(rings, y) && y != x {
      if y !in rings' {
        var h :| h in rings' && y in rings'[h];
        assert if h == c then y in rings[x] else y in rings[h];
      }
    }
  }

  /** The ring without its first record. */
  lemma NextRing(key: Id -> int, spot: Id -> Spot, h: Id, q: seq<Id>, ss: seq<Spot>)
    requires RingOk(key, spot, h, q, ss) && q != []
    ensures |ss| > 1 && RingOk(key, spot, q[0], q[1..], ss[1..]) && key(q[0]) == key(h) && Without(ss, spot(h)) ==
      ss[1..]
  {
    hide NoDup, Without;
    var r := [h] + q;
    assert r[1..] == q && [q[0]] + q[1..] == q && q[0] in q;
    NoDupTail(r);
    assert ss[1..] == Spots(spot, q);
    SpotsNoDup(spot, r);
    WithoutFirst(ss);
  }

  lemma {:induction false} SpotsNoDup(spot: Id -> Spot, q: seq<Id>)
    requires NoDup(q) && forall x, y :: x in q && y in q && spot(x) == spot(y) ==> x == y
    ensures NoDup(Spots(spot, q))
  {
    if q != [] {
      var s := Spots(spot, q);
      SpotsNoDup(spot, q[1..]);
      assert s[1..] == Spots(spot, q[1..]);
      forall i | 1 <= i < |s| ensures s[i] != s[0] { assert q[i] in q[1..]; }
    }
  }

  // ----- the smallest length that suffices -----

  /** No node that suffices has a smaller key than the one found. */
  lemma FoundLeast(key: Id -> int, s: seq<Id>, cnt: int, h: Id, i: nat, j: nat)
    requires RbWalk.Sorted(key, s) && RbWalk.Found(key, s, cnt, RbWalk.ToRightEq, h, i) && j < |s| && key(s[j]) >= cnt
    ensures h != RbModel.NULL && cnt <= key(h) <= key(s[j])
  {
    if h != RbModel.NULL && j < i { assert s[..i][j] == s[j]; }
  }

  lemma FoundEnough(key: Id -> int, s: seq<Id>, cnt: int, h: Id, i: nat)
    requires RbWalk.Found(key, s, cnt, RbWalk.ToRightEq, h, i) && h != RbModel.NULL
    ensures h in s && key(h) >= cnt
  {
  }

  lemma SmallestLength(key: Id -> int, spot: Id -> Spot, rings: map<Id, seq<Id>>, ix: Index, t: RbModel.Tree, cnt: int,
                       h: Id, i: nat)
    requires Hung(key, spot, rings, ix) && rings.Keys == RbModel.Ids(t) && RbWalk.Sorted(key, RbModel.Flat(t))
    requires RbWalk.Found(key, RbModel.Flat(t), cnt, RbWalk.ToRightEq, h, i)
    ensures h == RbModel.NULL ==> forall len :: len in ix ==> len < cnt
    ensures h != RbModel.NULL ==> h in rings && key(h) >= cnt && forall len :: len in ix && len >= cnt ==> key(h) <= len
  {
    hide RbModel.Flat, RbModel.Ids, RingOk, RbWalk.Found, RbWalk.Sorted;
    var s := RbModel.Flat(t);
    forall x ensures x in rings <==> x in s { RbWalk.IdsFlat(t, x); }
    if h != RbModel.NULL { FoundEnough(key, s, cnt, h, i); }
    forall len | len in ix && len >= cnt ensures h != RbModel.NULL && key(h) <= len {
      var x :| x in rings && key(x) == len;
      var j :| 0 <= j < |s| && s[j] == x;
      FoundLeast(key, s, cnt, h, i, j);
    }
  }

  lemma LastOfRing(key: Id -> int, spot: Id -> Spot, rings: map<Id, seq<Id>>, ix: Index, h: Id)
    requires Hung(key, spot, rings, ix) && h in rings
    ensures var x := if rings[h] == [] then h else rings[h][|rings[h]| - 1];
      && key(x) == key(h) && key(h) >= 0 && key(h) in ix && ix[key(h)] != [] && spot(x) == ix[key(h)][|ix[key(h)]| - 1]
      && Member(rings, x)
  {
    hide Hung, RingOk, NoDup;
    HungRing(key, spot, rings, ix, h);
    KeyOfRing(key, spot, h, rings[h], ix[key(h)]);
    if rings[h] != [] { assert rings[h][|rings[h]| - 1] in rings[h]; }
  }
}
