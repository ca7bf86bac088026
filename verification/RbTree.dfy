/** The red-black tree of the tables and the page pool: linked cells changed in place, with a shared sentinel. */
module RbTrees {
  import opened RbModel
  import opened RbHeap
  import opened RbShape
  import opened RbSplice
  import opened RbWalk

  datatype Ret = Ok | Existed | ArgInvalid | NotEqual

  class RbTree {
    const key: Id -> int
    var cells: Heap
    var root: Id
    ghost var tree: Tree

    ghost predicate Valid()
      reads this
    {
      && Zipped(cells, root, Top, tree, root) && Nil(cells)
      && RedBlack(tree) && Sorted(key, Flat(tree))
    }

    constructor (key: Id -> int)
      ensures Valid() && this.key == key && tree == Leaf
    {
      this.key := key;
      cells := map[SENTINEL := Cell(NULL, NULL, NULL, false)];
      root := SENTINEL;
      tree := Leaf;
    }

    /** Empties the links of a node that is in no tree. */
    method InitNode(node: Id)
      requires Valid() && node > SENTINEL && node !in Ids(tree)
      modifies this`cells
      ensures Valid() && Unlinked(cells, node) && Kept(old(cells), cells, {node})
    {
      hide Ids, Distinct, Rep, Flat, RedBlack, Sorted;
      cells := cells[node := Cell(NULL, NULL, NULL, false)];
      InitFrame(old(cells), cells, root, tree, node);
    }

    method Recolour(x: Id, red: bool, ghost c: Ctx, ghost t: Tree)
      requires Zipped(cells, root, c, t, x) && Nil(cells) && t.Node?
      modifies this`cells
      ensures Zipped(cells, root, c, Paint(t, red), x) && Nil(cells) && Kept(old(cells), cells, All(c, t))
      ensures All(c, Paint(t, red)) == All(c, t)
    {
      PaintAt(cells, root, c, t, x, red);
      hide Zipped, Rep, RepCtx, Distinct, CtxDistinct, CtxIds;
      cells := cells[x := cells[x].(red := red)];
    }

    /** Puts child where x was, below x's parent or at the root; the side is found by looking at side s first. */
    method Hang(s: Side, x: Id, child: Id, ghost c: Ctx)
      requires x in cells && (x == root <==> c.Top?)
      requires c.In? ==>
        cells[x].parent == c.id && c.id in cells && Get(cells[c.id], c.side) == x && Get(cells[c.id], Opp(c.side)) != x
      modifies this`cells, this`root
      ensures cells == if c.Top? then old(cells) else old(cells)[c.id := Set(old(cells)[c.id], c.side, child)]
      ensures root == if c.Top? then child else old(root)
    {
      if x == root {
        root := child;
      } else {
        var p := cells[x].parent;
        if Get(cells[p], s) == x {
          cells := cells[p := Set(cells[p], s, child)];
        } else {
          cells := cells[p := Set(cells[p], Opp(s), child)];
        }
      }
    }

    /** The pointer writes of a rotation: the left rotation for side L, the right rotation for side R. */
    method Relink(s: Side, x: Id, ghost c: Ctx)
      requires x in cells && Get(cells[x], Opp(s)) in cells
      requires var u := Get(cells[x], Opp(s)); var inner := Get(cells[u], s);
        && u != x && (inner != SENTINEL ==> inner in cells && inner != x && inner != u)
        && (x == root <==> c.Top?)
        && (c.In? ==>
              && cells[x].parent == c.id && c.id in cells && c.id != x && c.id != u && c.id != inner
              && Get(cells[c.id], c.side) == x && Get(cells[c.id], Opp(c.side)) != x)
      modifies this`cells, this`root
      ensures var h := old(cells); var u := Get(h[x], Opp(s));
        && RotatedCells(h, cells, x, u, Get(h[u], s), c, s) && root == if c.Top? then u else old(root)
    {
      var child := Get(cells[x], Opp(s));
      var inner := Get(cells[child], s);
      cells := cells[x := Set(cells[x], Opp(s), inner)];
      if inner != SENTINEL {
        cells := cells[inner := cells[inner].(parent := x)];
      }
      cells := cells[child := cells[child].(parent := cells[x].parent)];
      Hang(s, x, child, c);
      cells := cells[child := Set(cells[child], s, x)];
      cells := cells[x := cells[x].(parent := child)];
    }

    method Rotate(s: Side, x: Id, ghost c: Ctx, ghost t: Tree)
      requires Zipped(cells, root, c, t, x) && Nil(cells) && t.Node? && Kid(t, Opp(s)).Node?
      modifies this`cells, this`root
      ensures Zipped(cells, root, c, Rot(s, t), Kid(t, Opp(s)).id) && Nil(cells) && Kept(old(cells), cells, All(c, t))
      ensures All(c, Rot(s, t)) == All(c, t)
    {
      hide Zipped, Rep, RepCtx, Distinct, CtxDistinct, CtxIds, Ids, Rot, RotatedCells;
      RotateReady(cells, root, c, t, x, s);
      RotateApart(cells, root, c, t, x, s);
      RotateDistinct(c, t, s, cells, root, x);
      OwnCtx(c);
      OwnId(Kid(Kid(t, Opp(s)), s));
      RealIds(cells, root, c, t, x);
      Relink(s, x, c);
      RotateAt(old(cells), cells, old(root), root, c, t, x, s);
    }

    /** Parent and uncle turn black, the grandparent red. */
    method Lift(node: Id, s: Side, ghost c: Ctx, ghost t: Tree) returns (g: Id)
      requires Zipped(cells, root, c, t, node) && Nil(cells) && t.Node? && c.In? && c.up.In? && c.up.sib.Node?
        && s == c.up.side
      modifies this`cells
      ensures Zipped(cells, root, c.up.up, Lifted(c, t), g) && Nil(cells)
      ensures Kept(old(cells), cells, All(c, t)) && All(c.up.up, Lifted(c, t)) == All(c, t)
    {
      hide Zipped, All, Nil, Kept, Get;
      SeenAt(cells, root, c, t, node);
      var p := cells[node].parent;
      g := cells[p].parent;
      var uncle := Get(cells[g], Opp(s));
      Rise(cells, root, c, t, node);
      ghost var tp := Mk(c.side, t, c.id, c.red, c.sib);
      Recolour(p, false, c.up, tp);
      ghost var tp1 := Paint(tp, false);
      Rise(cells, root, c.up, tp1, p);
      ghost var tg := Mk(s, tp1, c.up.id, c.up.red, c.up.sib);
      Descend(cells, root, c.up.up, tg, g, Opp(s));
      ghost var h1 := cells;
      SeenAt(cells, root, In(Opp(s), tg.id, tg.red, Kid(tg, s), c.up.up), Kid(tg, Opp(s)), Get(cells[g], Opp(s)));
      Recolour(uncle, false, In(Opp(s), tg.id, tg.red, Kid(tg, s), c.up.up), Kid(tg, Opp(s)));
      KeptTwice(old(cells), h1, cells, All(c, t));
      Rise(cells, root, In(Opp(s), tg.id, tg.red, Kid(tg, s), c.up.up), Paint(Kid(tg, Opp(s)), false), uncle);
      ghost var h2 := cells;
      Recolour(g, true, c.up.up, Mk(Opp(s), Paint(Kid(tg, Opp(s)), false), tg.id, tg.red, Kid(tg, s)));
      KeptTwice(old(cells), h2, cells, All(c, t));
    }

    /** The parent goes down on the outer side of the node. */
    method Turn(node: Id, s: Side, ghost c: Ctx, ghost t: Tree) returns (p: Id)
      requires Zipped(cells, root, c, t, node) && Nil(cells) && t.Node? && c.In? && c.up.In? && s == c.up.side
        && c.side == Opp(s)
      modifies this`cells, this`root
      ensures Zipped(cells, root, TurnedCtx(c, t), Turned(c, t), p) && Nil(cells)
      ensures Kept(old(cells), cells, All(c, t)) && All(TurnedCtx(c, t), Turned(c, t)) == All(c, t)
    {
      hide Zipped, All, Nil, Kept, Get;
      SeenAt(cells, root, c, t, node);
      p := cells[node].parent;
      Rise(cells, root, c, t, node);
      ghost var tp := Mk(c.side, t, c.id, c.red, c.sib);
      Rotate(s, p, c.up, tp);
      Descend(cells, root, c.up, Rot(s, tp), t.id, s);
      SeenAt(cells, root, TurnedCtx(c, t), Turned(c, t), Get(cells[t.id], s));
    }

    /** The parent turns black, the grandparent red and goes down on the other side. */
    method Hoist(node: Id, s: Side, ghost c: Ctx, ghost t: Tree)
      requires Zipped(cells, root, c, t, node) && Nil(cells) && t.Node? && c.In? && c.up.In? && s == c.up.side == c.side
      modifies this`cells, this`root
      ensures Zipped(cells, root, HoistedCtx(c), t, node) && Nil(cells)
      ensures Kept(old(cells), cells, All(c, t)) && All(HoistedCtx(c), t) == All(c, t)
    {
      hide Zipped, All, Nil, Kept, Get;
      SeenAt(cells, root, c, t, node);
      var p := cells[node].parent;
      var g := cells[p].parent;
      Rise(cells, root, c, t, node);
      ghost var tp := Mk(s, t, c.id, c.red, c.sib);
      Recolour(p, false, c.up, tp);
      ghost var tp1 := Paint(tp, false);
      Rise(cells, root, c.up, tp1, p);
      ghost var tg := Mk(s, tp1, c.up.id, c.up.red, c.up.sib);
      ghost var h1 := cells;
      Recolour(g, true, c.up.up, tg);
      KeptTwice(old(cells), h1, cells, All(c, t));
      ghost var h2 := cells;
      ghost var tg1 := Paint(tg, true);
      Rotate(Opp(s), g, c.up.up, tg1);
      KeptTwice(old(cells), h2, cells, All(c, t));
      ghost var top := Rot(Opp(s), tg1);
      Descend(cells, root, c.up.up, top, p, s);
      assert Kid(top, s) == t && In(s, top.id, top.red, Kid(top, Opp(s)), c.up.up) == HoistedCtx(c);
      SeenAt(cells, root, HoistedCtx(c), t, Get(cells[p], s));
    }

    method InsertStep(node: Id, ghost c: Ctx, ghost t: Tree, ghost n: int)
      returns (node': Id, ghost c': Ctx, ghost t': Tree, ghost n': int)
      requires Zipped(cells, root, c, t, node) && Nil(cells) && Rising(c, t, n) && c.In? && c.red
      modifies this`cells, this`root
      ensures Zipped(cells, root, c', t', node') && Nil(cells) && Rising(c', t', n')
      ensures Flat(Zip(c', t')) == Flat(Zip(c, t)) && Depth(c') < Depth(c)
      ensures Kept(old(cells), cells, All(c, t)) && All(c', t') == All(c, t)
    {
      hide Zipped, All, Kept, Bal, Calm, CtxBal, Flat, Zip, Lifted, Turned, Mk;
      assert t.Node? && c.up.In?;
      SeenAt(cells, root, c, t, node);
      var p := cells[node].parent;
      var g := cells[p].parent;
      var s := if cells[g].left == p then L else R;
      var uncle := Get(cells[g], Opp(s));
      if cells[uncle].red {
        LiftFlat(c, t);
        RisingLift(c, t, n);
        node' := Lift(node, s, c, t);
        return node', c.up.up, Lifted(c, t), n + 1;
      }
      node', c', t', n' := node, c, t, n;
      if Get(cells[p], Opp(s)) == node {
        TurnFlat(c, t);
        RisingTurn(c, t, n);
        node' := Turn(node, s, c, t);
        c', t' := TurnedCtx(c, t), Turned(c, t);
      }
      ghost var h1 := cells;
      HoistFlat(c', t');
      RisingHoist(c', t', n);
      Hoist(node', s, c', t');
      KeptTwice(old(cells), h1, cells, All(c, t));
      c' := HoistedCtx(c');
    }

    method InsertFix(node: Id, ghost c: Ctx, ghost t: Tree, ghost n: int) returns (ghost t': Tree)
      requires Zipped(cells, root, c, t, node) && Nil(cells) && Rising(c, t, n)
      modifies this`cells, this`root
      ensures Zipped(cells, root, Top, t', root) && Nil(cells) && RedBlack(t') && Flat(t') == Flat(Zip(c, t))
      ensures Kept(old(cells), cells, All(c, t)) && Ids(t') == All(c, t)
    {
      hide Zipped, Kept, Bal, Calm, CtxBal, CtxCalm, Flat, Zip, Mk, Ids, CtxIds, RedBlack;
      var x := node;
      ghost var c1, t1, n1 := c, t, n;
      SeenAt(cells, root, c1, t1, x);
      KeptSelf(cells, All(c, t));
      while x != root && cells[cells[x].parent].red
        invariant Zipped(cells, root, c1, t1, x) && Nil(cells) && Rising(c1, t1, n1)
        invariant Seen(cells, root, c1, x) && t1.Node?
        invariant Flat(Zip(c1, t1)) == Flat(Zip(c, t))
        invariant Kept(old(cells), cells, All(c, t)) && All(c1, t1) == All(c, t)
        decreases Depth(c1)
      {
        ghost var h1 := cells;
        x, c1, t1, n1 := InsertStep(x, c1, t1, n1);
        KeptTwice(old(cells), h1, cells, All(c, t));
        SeenAt(cells, root, c1, t1, x);
      }
      RisingEnd(c1, t1, n1);
      ghost var h1 := cells;
      ZipIds(c1, t1);
      ZipUp(cells, root, c1, t1, x);
      TopIds();
      t' := Zip(c1, t1);
      if c1.In? { GoodZip(c1, t1, n1); }
      ZipTop(c1, t1);
      RootNode(c1, t1);
      assert All(Top, t') == All(c, t);
      Recolour(root, false, Top, t');
      KeptTwice(old(cells), h1, cells, All(c, t));
      PaintFlat(t', false);
      PaintDistinct(t', false);
      if c1.Top? { GoodTop(Top, Paint(t1, false), n1 + 1); } else { BlackRoot(t'); }
      t' := Paint(t', false);
    }

    /** Where a node of this key goes: below cur on side s, after all nodes with an equal key. */
    method Descent(v: int, allowEqual: bool) returns (r: Ret, existed: Id, cur: Id, s: Side, ghost c: Ctx)
      requires Valid() && tree.Node?
      ensures r == Ok || r == Existed
      ensures existed != NULL ==> existed in Ids(tree) && key(existed) == v
      ensures r == Existed ==> !allowEqual && existed != NULL
      ensures r == Ok ==>
        && Zipped(cells, root, c, Leaf, SENTINEL) && c.In? && c.id == cur && c.side == s && cur in cells
          && cur > SENTINEL
        && Zip(c, Leaf) == tree && Good(c, Leaf, 0) && Place(key, c, v, existed == NULL)
          && (!allowEqual ==> existed == NULL)
    {
      hide Zipped, Flat, Good, Bal, Calm, Place, Ids, CtxIds;
      ghost var t, n := tree, Height(tree);
      c := Top;
      cur, existed, s := root, NULL, L;
      RedBlackGood(tree);
      SeenAt(cells, root, Top, tree, root);
      PlaceTop(key, v);
      while true
        invariant Zipped(cells, root, c, t, cur) && t.Node? && cur in cells && cur == t.id && cur > SENTINEL
        invariant Zip(c, t) == tree && Good(c, t, n)
        invariant existed != NULL ==> existed in Ids(tree) && key(existed) == v
        invariant Place(key, c, v, existed == NULL) && (!allowEqual ==> existed == NULL)
        decreases t
      {
        if v < key(cur) {
          s := L;
        } else if v > key(cur) {
          s := R;
        } else {
          ZipIds(c, t);
          OwnId(t);
          if !allowEqual {
            return Existed, cur, cur, s, c;
          }
          s := R;
        }
        PlaceDown(key, c, t, v, existed == NULL, s);
        if v == key(cur) {
          existed := cur;
        }
        GoodDown(c, t, n, s);
        Descend(cells, root, c, t, cur, s);
        c, t, n := In(s, t.id, t.red, Kid(t, Opp(s)), c), Kid(t, s), Below(t.red, n);
        LeafOrNode(cells, root, c, t, Get(cells[cur], s));
        if Get(cells[cur], s) == SENTINEL {
          GoodLeaf(c, n);
          return Ok, existed, cur, s, c;
        }
        cur := Get(cells[cur], s);
      }
    }

    /**
      Inserts a node after all nodes with an equal key; when equals are not allowed and there is one, nothing changes
      and the equal node is reported.
     */
    method Insert(node: Id, allowEqual: bool) returns (r: Ret, existed: Id, ghost i: nat)
      requires Valid() && node > SENTINEL && node !in Ids(tree)
      modifies this
      ensures Valid()
      ensures r == Existed || r == Ok
      ensures r == Existed <==> !allowEqual && HasKey(key, Flat(old(tree)), key(node))
      ensures r == Existed ==> cells == old(cells) && root == old(root) && tree == old(tree)
      ensures existed != NULL <==> HasKey(key, Flat(old(tree)), key(node))
      ensures existed != NULL ==> existed in Ids(old(tree)) && key(existed) == key(node)
      ensures r == Ok ==>
        var s := Flat(old(tree));
        i <= |s| && Flat(tree) == s[..i] + [node] + s[i..] && AllLe(key, s[..i], key(node))
          && AllGt(key, s[i..], key(node))
      ensures r == Ok ==> Ids(tree) == Ids(old(tree)) + {node} && Kept(old(cells), cells, Ids(tree))
    {
      hide Zipped, Good, Bal, Calm, Ids, CtxIds, RedBlack, Kept, Rising, Sorted, Flat, Zip, Lead, Trail;
      i := 0;
      LeafOrNode(cells, root, Top, tree, root);
      if root == SENTINEL {
        FirstNode(cells, node);
        existed := NULL;
        cells := cells[node := Cell(SENTINEL, SENTINEL, NULL, false)];
        root := node;
        tree := Node(Leaf, node, false, Leaf);
        SingleSorted(key, node);
        return Ok, existed, i;
      }
      var cur, s;
      ghost var c;
      r, existed, cur, s, c := Descent(key(node), allowEqual);
      if r == Existed {
        InFlat(tree, existed, key);
        return;
      }
      ghost var old_tree := tree;
      ghost var leaf := Node(Leaf, node, true, Leaf);
      ZipFlat(c, Leaf);
      ZipFlat(c, leaf);
      ZipIds(c, Leaf);
      SmallFlat(node);
      PlaceHasKey(key, c, key(node), existed == NULL, existed, tree);
      OwnCtx(c);
      cells := cells[cur := Set(cells[cur], s, node)];
      cells := cells[node := Cell(SENTINEL, SENTINEL, cur, true)];
      AttachAt(old(cells), cells, root, c, node);
      AttachKept(old(cells), cells, c, node);
      RisingStart(c, node);
      ghost var h1 := cells;
      tree := InsertFix(node, c, leaf, 0);
      KeptTwice(old(cells), h1, cells, All(c, leaf));
      i := |Lead(c)|;
      PlaceBounds(key, c, key(node), existed == NULL);
      assert Flat(old_tree) == Lead(c) + Trail(c);
      InsertSorted(key, Lead(c), node, Trail(c));
      assert Flat(old_tree)[..i] == Lead(c) && Flat(old_tree)[i..] == Trail(c);
    }

    // ----- deletion -----

    /** A red brother turns black, the parent red and goes down on the side of the short node. */
    method Swing(x: Id, s: Side, ghost c: Ctx, ghost t: Tree)
      requires Zipped(cells, root, c, t, x) && Nil(cells) && c.In? && c.sib.Node? && s == c.side && x in cells
        && cells[x].parent == c.id
      modifies this`cells, this`root
      ensures Zipped(cells, root, SwungCtx(c), t, x) && Nil(cells)
      ensures Kept(old(cells), cells, All(c, t)) && All(SwungCtx(c), t) == All(c, t)
    {
      hide Zipped, All, Nil, Kept, Get;
      ghost var w, ids := c.sib, All(c, t);
      SideStep(cells, root, c, t, x);
      var p := cells[x].parent;
      var brother := Get(cells[p], Opp(s));
      Recolour(brother, false, Across(c, t), w);
      ghost var h1 := cells;
      Rise(cells, root, Across(c, t), Paint(w, false), brother);
      ghost var tp := Mk(s, t, c.id, c.red, Paint(w, false));
      Recolour(p, true, c.up, tp);
      KeptTwice(old(cells), h1, cells, ids);
      ghost var h2 := cells;
      Rotate(s, p, c.up, Paint(tp, true));
      KeptTwice(old(cells), h2, cells, ids);
      ghost var top := Rot(s, Paint(tp, true));
      Descend(cells, root, c.up, top, w.id, s);
      ghost var c1 := In(s, w.id, false, Kid(w, Opp(s)), c.up);
      LeafOrNode(cells, root, c1, Kid(top, s), Get(cells[w.id], s));
      Descend(cells, root, c1, Kid(top, s), p, s);
      LeafOrNode(cells, root, SwungCtx(c), t, Get(cells[p], s));
    }

    /** The brother turns red. */
    method Sink(x: Id, s: Side, ghost c: Ctx, ghost t: Tree) returns (p: Id)
      requires Zipped(cells, root, c, t, x) && Nil(cells) && c.In? && c.sib.Node? && s == c.side && x in cells
        && cells[x].parent == c.id
      modifies this`cells
      ensures Zipped(cells, root, c.up, Sunk(c, t), p) && Nil(cells)
      ensures Kept(old(cells), cells, All(c, t)) && All(c.up, Sunk(c, t)) == All(c, t)
    {
      hide Zipped, All, Nil, Kept, Get;
      SideStep(cells, root, c, t, x);
      p := cells[x].parent;
      var brother := Get(cells[p], Opp(s));
      Recolour(brother, true, Across(c, t), c.sib);
      Rise(cells, root, Across(c, t), Paint(c.sib, true), brother);
    }

    /** The near child of the brother turns black and takes the brother's place, which turns red. */
    method Bend(x: Id, s: Side, ghost c: Ctx, ghost t: Tree)
      requires Zipped(cells, root, c, t, x) && Nil(cells) && c.In? && c.sib.Node? && Kid(c.sib, c.side).Node?
      requires s == c.side && x in cells && cells[x].parent == c.id
      modifies this`cells, this`root
      ensures Zipped(cells, root, c.(sib := Bent(c)), t, x) && Nil(cells)
      ensures Kept(old(cells), cells, All(c, t)) && All(c.(sib := Bent(c)), t) == All(c, t)
    {
      hide Zipped, All, Nil, Kept, Get;
      ghost var w, ids, cw := c.sib, All(c, t), Across(c, t);
      ghost var near := Kid(w, s);
      SideStep(cells, root, c, t, x);
      var p := cells[x].parent;
      var brother := Get(cells[p], Opp(s));
      Descend(cells, root, cw, w, brother, s);
      ghost var cn := In(s, w.id, w.red, Kid(w, Opp(s)), cw);
      var inner := Get(cells[brother], s);
      LeafOrNode(cells, root, cn, near, inner);
      Recolour(inner, false, cn, near);
      ghost var h1 := cells;
      Rise(cells, root, cn, Paint(near, false), inner);
      ghost var w1 := Mk(s, Paint(near, false), w.id, w.red, Kid(w, Opp(s)));
      Recolour(brother, true, cw, w1);
      KeptTwice(old(cells), h1, cells, ids);
      ghost var h2 := cells;
      Rotate(Opp(s), brother, cw, Paint(w1, true));
      KeptTwice(old(cells), h2, cells, ids);
      assert Rot(Opp(s), Paint(w1, true)) == Bent(c);
      SideStep(cells, root, cw, Bent(c), near.id);
    }

    /** The brother takes the parent's place and colour; the parent and the far child turn black. */
    method Settle(x: Id, s: Side, ghost c: Ctx, ghost t: Tree)
      requires Zipped(cells, root, c, t, x) && Nil(cells) && c.In? && c.sib.Node? && Kid(c.sib, Opp(c.side)).Node?
      requires s == c.side && x in cells && cells[x].parent == c.id && c.id in cells && cells[c.id].red == c.red
      modifies this`cells, this`root
      ensures Zipped(cells, root, c.up, Settled(c, t), c.sib.id) && Nil(cells)
      ensures Kept(old(cells), cells, All(c, t)) && All(c.up, Settled(c, t)) == All(c, t)
    {
      hide Zipped, All, Nil, Kept, Get;
      ghost var w, ids, cw := c.sib, All(c, t), Across(c, t);
      ghost var far := Kid(w, Opp(s));
      SideStep(cells, root, c, t, x);
      var p := cells[x].parent;
      var brother := Get(cells[p], Opp(s));
      Recolour(brother, cells[p].red, cw, w);
      ghost var h1, w1 := cells, Paint(w, c.red);
      Rise(cells, root, cw, w1, brother);
      ghost var tp := Mk(s, t, c.id, c.red, w1);
      Recolour(p, false, c.up, tp);
      KeptTwice(old(cells), h1, cells, ids);
      ghost var tp1 := Paint(tp, false);
      Descend(cells, root, c.up, tp1, p, Opp(s));
      ghost var cw1 := In(Opp(s), c.id, false, t, c.up);
      LeafOrNode(cells, root, cw1, w1, Get(cells[p], Opp(s)));
      Descend(cells, root, cw1, w1, brother, Opp(s));
      ghost var cf := In(Opp(s), w.id, c.red, Kid(w, s), cw1);
      var outer := Get(cells[brother], Opp(s));
      LeafOrNode(cells, root, cf, far, outer);
      ghost var h2 := cells;
      Recolour(outer, false, cf, far);
      KeptTwice(old(cells), h2, cells, ids);
      Rise(cells, root, cf, Paint(far, false), outer);
      ghost var w2 := Mk(s, Kid(w, s), w.id, c.red, Paint(far, false));
      Rise(cells, root, cw1, w2, brother);
      ghost var tp2 := Mk(s, t, c.id, false, w2);
      ghost var h3 := cells;
      Rotate(s, p, c.up, tp2);
      KeptTwice(old(cells), h3, cells, ids);
      assert Rot(s, tp2) == Settled(c, t);
    }

    method DeleteStep(x: Id, ghost c: Ctx, ghost t: Tree, ghost n: int)
      returns (x': Id, ghost c': Ctx, ghost t': Tree, ghost n': int)
      requires Zipped(cells, root, c, t, x) && Nil(cells) && Short(c, t, n) && c.In? && !IsRed(t)
        && Parented(cells, c, x)
      modifies this`cells, this`root
      ensures Zipped(cells, root, c', t', x') && Nil(cells) && Short(c', t', n') && Parented(cells, c', x')
      ensures Flat(Zip(c', t')) == Flat(Zip(c, t)) && (IsRed(t') || Depth(c') < Depth(c))
      ensures Kept(old(cells), cells, All(c, t)) && All(c', t') == All(c, t)
    {
      hide Zipped, All, Kept, Bal, Calm, CtxBal, CtxCalm, Flat, Zip, SwungCtx, Sunk, Bent, Settled, Mk, Short, Good;
      ghost var ids, c1 := All(c, t), c;
      ShortSibling(c, t, n);
      BrotherAt(cells, root, c, t, x);
      var s := if cells[cells[x].parent].left == x then L else R;
      var brother := Get(cells[cells[x].parent], Opp(s));
      KeptSelf(cells, ids);
      if cells[brother].red {
        SwingFlat(c, t);
        ShortSwing(c, t, n);
        Swing(x, s, c, t);
        c1 := SwungCtx(c);
        SwungFacts(c);
        StillParented(old(cells), cells, root, c, c1, t, x, ids);
        ShortSibling(c1, t, n);
        BrotherAt(cells, root, c1, t, x);
        brother := Get(cells[cells[x].parent], Opp(s));
      }
      SideStep(cells, root, c1, t, x);
      KidColour(cells, root, Across(c1, t), c1.sib, brother);
      ghost var h1 := cells;
      if !cells[cells[brother].left].red && !cells[cells[brother].right].red {
        SinkFlat(c1, t);
        ShortSink(c1, t, n);
        x' := Sink(x, s, c1, t);
        KeptTwice(old(cells), h1, cells, ids);
        c', t', n' := c1.up, Sunk(c1, t), Above(c1.red, n);
        SunkRed(c1, t);
        UpParented(cells, root, c', t', x');
        return;
      }
      if !cells[Get(cells[brother], Opp(s))].red {
        BendFlat(c1, t);
        ShortBend(c1, t, n);
        Bend(x, s, c1, t);
        KeptTwice(old(cells), h1, cells, ids);
        StillParented(h1, cells, root, c1, c1.(sib := Bent(c1)), t, x, ids);
        c1 := c1.(sib := Bent(c1));
      }
      ghost var h2 := cells;
      SettleFlat(c1, t);
      ShortSettle(c1, t, n);
      BrotherAt(cells, root, c1, t, x);
      Settle(x, s, c1, t);
      KeptTwice(old(cells), h2, cells, ids);
      ZipUp(cells, root, c1.up, Settled(c1, t), c1.sib.id);
      ZipIds(c1.up, Settled(c1, t));
      GoodZip(c1.up, Settled(c1, t), Above(c1.red, n + 1));
      c', t' := Top, Zip(c1.up, Settled(c1, t));
      AllTop(c1.up, Settled(c1, t));
      ZipTop(c', t');
      x', n' := root, Height(t');
      RedBlackShort(t');
      UpParented(cells, root, c', t', x');
    }

    method DeleteFix(x: Id, ghost c: Ctx, ghost t: Tree, ghost n: int) returns (ghost t': Tree)
      requires Zipped(cells, root, c, t, x) && Nil(cells) && Short(c, t, n) && Parented(cells, c, x)
      modifies this`cells, this`root
      ensures Zipped(cells, root, Top, t', root) && Nil(cells) && RedBlack(t') && Flat(t') == Flat(Zip(c, t))
      ensures Kept(old(cells), cells, All(c, t)) && Ids(t') == All(c, t)
    {
      hide Zipped, Kept, Bal, Calm, CtxBal, CtxCalm, Flat, Zip, Mk, Ids, CtxIds, RedBlack, Short, Parented, Good;
      var y := x;
      ghost var c1, t1, n1 := c, t, n;
      KeptSelf(cells, All(c, t));
      ShortSeen(cells, root, c1, t1, y);
      while y != root && !cells[y].red
        invariant Zipped(cells, root, c1, t1, y) && Nil(cells) && Short(c1, t1, n1) && Parented(cells, c1, y)
        invariant y in cells && (y == root <==> c1.Top?) && (cells[y].red <==> IsRed(t1))
        invariant Flat(Zip(c1, t1)) == Flat(Zip(c, t))
        invariant Kept(old(cells), cells, All(c, t)) && All(c1, t1) == All(c, t)
        decreases if IsRed(t1) then 0 else 1 + Depth(c1)
      {
        ghost var h1 := cells;
        y, c1, t1, n1 := DeleteStep(y, c1, t1, n1);
        KeptTwice(old(cells), h1, cells, All(c, t));
        ShortSeen(cells, root, c1, t1, y);
      }
      ghost var h1 := cells;
      ShortEnd(c1, t1, n1);
      BlackenAt(cells, root, c1, t1, y);
      cells := cells[y := cells[y].(red := false)];
      KeptTwice(old(cells), h1, cells, All(c, t));
      if t1.Node? {
        PaintFlat(t1, false);
        SameFlat(c1, t1, Paint(t1, false));
        t1 := Paint(t1, false);
      }
      ghost var n2 := if Good(c1, t1, n1) then n1 else n1 + 1;
      GoodZip(c1, t1, n2);
      ZipUp(cells, root, c1, t1, y);
      ZipIds(c1, t1);
      t' := Zip(c1, t1);
    }

    /** The first node of a subtree. */
    method LeftMostFrom(x: Id, ghost c: Ctx, ghost t: Tree, ghost n: int)
      returns (y: Id, ghost cs: Ctx, ghost ts: Tree, ghost ns: int)
      requires Zipped(cells, root, c, t, x) && Good(c, t, n) && t.Node?
      ensures Zipped(cells, root, cs, ts, y) && Good(cs, ts, ns) && ts.Node? && ts.left.Leaf? && Lefts(cs, c)
        && ZipTo(cs, c, ts) == t
    {
      hide Zipped, Good;
      y, cs, ts, ns := x, c, t, n;
      CellAt(cells, root, cs, ts, y);
      while cells[y].left != SENTINEL
        invariant Zipped(cells, root, cs, ts, y) && Good(cs, ts, ns) && ts.Node? && Lefts(cs, c) && ZipTo(cs, c, ts) ==
          t
        invariant y in cells && cells[y].left == Ptr(ts.left) && (ts.left.Node? ==> ts.left.id > SENTINEL)
        decreases ts
      {
        GoodDown(cs, ts, ns, L);
        Descend(cells, root, cs, ts, y, L);
        y := cells[y].left;
        ns := Below(ts.red, ns);
        cs, ts := In(L, ts.id, ts.red, ts.right, cs), ts.left;
        LeftsDown(cs, c, ts);
        CellAt(cells, root, cs, ts, y);
      }
    }

    /** The only child of the root becomes the root; its parent link is left as it is. */
    method UnlinkRoot(child: Id, ghost t: Tree, ghost n: int, ghost tc: Tree)
        returns (ghost c': Ctx, ghost t': Tree, ghost n': int)
      requires Zipped(cells, root, Top, t, root) && Nil(cells) && Good(Top, t, n) && OnlyChild(t, tc)
        && child == Ptr(tc)
      modifies this`cells, this`root
      ensures Zipped(cells, root, c', t', Ptr(t')) && Nil(cells) && Unlinked(cells, old(root))
        && KeptOut(old(cells), cells, All(Top, t))
      ensures Good(c', t', n') && Flat(Zip(c', t')) == Flat(Zip(Top, tc)) && All(c', t') == All(Top, t) - {old(root)}
    {
      hide Zipped, Good, Short, Flat, Zip, Ids, CtxIds, Lead, Trail;
      ghost var h := cells;
      var node := root;
      OnlyFacts(cells, root, Top, t, node, tc);
      root := child;
      cells := cells[child := cells[child].(red := false)];
      cells := cells[node := cells[node].(left := NULL, right := NULL, parent := NULL)];
      SpliceTop(h, cells, node, t, tc);
      TopIds();
      c', t' := Top, if tc.Node? then Paint(tc, false) else tc;
      RootSplice(t, n, tc);
      n' := Height(t');
      if tc.Node? { PaintFlat(tc, false); PaintDistinct(tc, false); SameFlat(Top, tc, t'); }
    }

    /** The only child of a node below the root takes its place. */
    method UnlinkInner(node: Id, child: Id, ghost c: Ctx, ghost t: Tree, ghost tc: Tree)
      requires Zipped(cells, root, c, t, node) && Nil(cells) && c.In? && OnlyChild(t, tc) && child == Ptr(tc)
      modifies this`cells, this`root
      ensures Zipped(cells, root, c, tc, child) && Nil(cells) && Unlinked(cells, node)
        && KeptOut(old(cells), cells, All(c, t))
      ensures Parented(cells, c, child) && All(c, tc) == All(c, t) - {node}
    {
      hide Zipped, Ids, CtxIds, Flat;
      ghost var h := cells;
      OnlyFacts(cells, root, c, t, node, tc);
      Hang(L, node, child, c);
      cells := cells[child := cells[child].(parent := cells[node].parent)];
      cells := cells[node := cells[node].(left := NULL, right := NULL, parent := NULL)];
      SpliceAt(h, cells, root, c, t, node, tc);
    }

    /** Takes out a node with at most one child; gives the child that is short of a black node, if any. */
    method UnlinkOne(node: Id, ghost c: Ctx, ghost t: Tree, ghost n: int)
        returns (rebalance: Id, ghost c': Ctx, ghost t': Tree, ghost n': int)
      requires Zipped(cells, root, c, t, node) && Nil(cells) && Good(c, t, n) && t.Node?
        && (t.left.Leaf? || t.right.Leaf?)
      modifies this`cells, this`root
      ensures Zipped(cells, root, c', t', Ptr(t')) && Nil(cells) && Unlinked(cells, node)
        && KeptOut(old(cells), cells, All(c, t))
      ensures rebalance == NULL ==> Good(c', t', n')
      ensures rebalance != NULL ==> rebalance == Ptr(t') && Short(c', t', n') && Parented(cells, c', rebalance)
      ensures Flat(Zip(c', t')) == Lead(c) + (Flat(t.left) + Flat(t.right)) + Trail(c)
        && All(c', t') == All(c, t) - {node}
    {
      hide Zipped, Good, Short, Flat, Zip, Ids, CtxIds, Lead, Trail;
      CellAt(cells, root, c, t, node);
      ghost var tc := if t.left.Leaf? then t.right else t.left;
      var child := if cells[node].left == SENTINEL then cells[node].right else cells[node].left;
      OnlyFacts(cells, root, c, t, node, tc);
      SpliceShape(c, t, n, tc);
      ZipFlat(c, tc);
      if node == root {
        c', t', n' := UnlinkRoot(child, t, n, tc);
        return NULL, c', t', n';
      }
      var red := cells[node].red;
      UnlinkInner(node, child, c, t, tc);
      c', t' := c, tc;
      if red {
        return NULL, c', t', n;
      }
      return child, c', t', n - 1;
    }

    /** The child of y goes to y's place below cs; its parent is y itself when y is to move up by one. */
    method SpliceOut(node: Id, y: Id, child: Id, ghost cs: Ctx)
      requires cs.In? && Here(cells, root, cs, y) && child in cells && child != y && child != cs.id && cs.id != y
      modifies this`cells, this`root
      ensures root == old(root)
      ensures cells == (var h1 := old(cells)[cs.id := Set(old(cells)[cs.id], cs.side, child)];
                        h1[child := h1[child].(parent := if cs.id == node then y else cs.id)])
    {
      Hang(L, y, child, cs);
      if cells[y].parent == node {
        cells := cells[child := cells[child].(parent := y)];
      } else {
        cells := cells[child := cells[child].(parent := cells[y].parent)];
      }
    }

    /** A child that is a node gets a new parent. */
    method SetParent(kid: Id, y: Id)
      requires kid in cells || kid == SENTINEL
      modifies this`cells
      ensures cells == Adopt(old(cells), kid, y)
    {
      if kid != SENTINEL {
        cells := cells[kid := cells[kid].(parent := y)];
      }
    }

    /** y gets the links and colour of the node, and the links to the node lead to y. */
    method TakePlace(node: Id, y: Id, ghost c: Ctx, ghost t: Tree)
      requires t.Node? && Here(cells, root, c, node) && node > SENTINEL && y > SENTINEL && y != node
      requires c.In? ==> c.id > SENTINEL && c.id != node && c.id != y && c.id != Ptr(t.left) && c.id != Ptr(t.right)
      requires cells[node].left == Ptr(t.left) && cells[node].right == Ptr(t.right)
      requires t.left.Node? ==>
        t.left.id in cells && t.left.id > SENTINEL && t.left.id != node && t.left.id != y && t.left.id != Ptr(t.right)
      requires t.right.Node? ==> t.right.id in cells && t.right.id > SENTINEL && t.right.id != node && t.right.id != y
      modifies this`cells, this`root
      ensures Renamed(old(cells), cells, c, t, node, y)
      ensures root == if c.Top? then y else old(root)
      ensures SENTINEL in old(cells) ==> SENTINEL in cells && cells[SENTINEL] == old(cells)[SENTINEL]
      ensures Unlinked(cells, node)
    {
      hide Renamed, Adopt, Set, Get, PlaceMap;
      PlaceMapIs(cells, c, t, node, y);
      ghost var h, l, r := cells, Ptr(t.left), Ptr(t.right);
      cells := cells[y := cells[node]];
      Hang(L, node, y, c);
      ghost var h2 := cells;
      assert cells[y] == h[node];
      AdoptFacts(cells, l, y, y);
      AdoptFacts(cells, l, y, node);
      SetParent(cells[y].left, y);
      AdoptFacts(cells, r, y, node);
      SetParent(cells[y].right, y);
      cells := cells[node := cells[node].(left := NULL, right := NULL, parent := NULL)];
      PlaceMapSteps(h, h2, c, t, node, y);
    }

    /** Takes out a node with two children: its successor, which has no left child, takes its place. */
    method UnlinkTwo(node: Id, ghost c: Ctx, ghost t: Tree, ghost n: int)
        returns (rebalance: Id, ghost c': Ctx, ghost t': Tree, ghost n': int)
      requires Zipped(cells, root, c, t, node) && Nil(cells) && Good(c, t, n) && t.Node? && t.left.Node?
        && t.right.Node?
      modifies this`cells, this`root
      ensures Zipped(cells, root, c', t', Ptr(t')) && Nil(cells) && Unlinked(cells, node)
        && KeptOut(old(cells), cells, All(c, t))
      ensures rebalance == NULL ==> Good(c', t', n')
      ensures rebalance != NULL ==> rebalance == Ptr(t') && Short(c', t', n') && Parented(cells, c', rebalance)
      ensures Flat(Zip(c', t')) == Lead(c) + (Flat(t.left) + Flat(t.right)) + Trail(c)
        && All(c', t') == All(c, t) - {node}
    {
      hide Zipped, Good, Short, Flat, Zip, Ids, CtxIds, Lead, Trail, Lefts, ZipTo, Onto, Renamed, KeptOut, All,
        SpliceMap, Rest;
      ghost var base := In(R, t.id, t.red, t.left, c);
      CellAt(cells, root, c, t, node);
      Descend(cells, root, c, t, node, R);
      GoodDown(c, t, n, R);
      var y;
      ghost var cs, ts, ns;
      y, cs, ts, ns := LeftMostFrom(cells[node].right, base, t.right, Below(t.red, n));
      ghost var tc := ts.right;
      TwoReady(cells, root, c, t, node, cs, ts, y);
      var child, red := cells[y].right, cells[y].red;
      ghost var h := cells;
      SpliceOut(node, y, child, cs);
      ghost var h2 := cells;
      TwoSpliced(h, h2, root, c, t, node, cs, ts, y);
      RestIs(c, t, cs, ts);
      TakePlace(node, y, c, Rest(c, t, cs, ts));
      TwoDone(h, h2, cells, old(root), root, c, t, node, cs, ts, y);
      TwoShape(h, old(root), c, t, node, n, cs, ts, ns, y);
      c', t' := Onto(cs, base, In(R, y, t.red, t.left, c)), tc;
      if red {
        return NULL, c', t', ns;
      }
      return child, c', t', ns - 1;
    }

    /** Takes a node of the tree out; the other nodes keep their order. */
    method Delete(node: Id) returns (ghost i: nat)
      requires Valid() && node in Ids(tree)
      modifies this
      ensures Valid() && Unlinked(cells, node) && KeptOut(old(cells), cells, Ids(old(tree)))
      ensures var s := Flat(old(tree)); i < |s| && s[i] == node && Flat(tree) == s[..i] + s[i + 1..]
      ensures Ids(tree) == Ids(old(tree)) - {node}
    {
      hide Zipped, Good, Short, Ids, CtxIds, RedBlack, Sorted, Flat, Zip, Lead, Trail, KeptOut, Kept, Parented;
      RedBlackGood(tree);
      ghost var c, t, n := Locate(cells, root, Top, tree, root, Height(tree), node);
      ZipTop(Top, tree);
      AllTop(c, t);
      TopIds();
      assert All(c, t) == Ids(tree);
      CellAt(cells, root, c, t, node);
      LeafOrNode(cells, root, c, t, node);
      ZipFlat(c, t);
      NodeFlat(t);
      i := |Lead(c)| + |Flat(t.left)|;
      TakeOut(key, Lead(c), Flat(t.left), node, Flat(t.right), Trail(c));
      var rebalance;
      ghost var c', t', n';
      if cells[node].left == SENTINEL || cells[node].right == SENTINEL {
        rebalance, c', t', n' := UnlinkOne(node, c, t, n);
      } else {
        rebalance, c', t', n' := UnlinkTwo(node, c, t, n);
      }
      ghost var h1 := cells;
      KeptSelf(cells, All(c', t'));
      if rebalance == NULL {
        GoodZip(c', t', n');
        ZipUp(cells, root, c', t', Ptr(t'));
        AllTop(c', t');
        tree := Zip(c', t');
      } else {
        tree := DeleteFix(rebalance, c', t', n');
      }
      OutAfter(old(cells), h1, cells, All(c, t), All(c', t'), node);
    }

    // ----- reading -----

    /** The nearest node on the expected side of v, or an equal one where that is accepted. */
    method Search(v: int, e: Expect) returns (x: Id)
      requires Valid()
      ensures exists i: nat :: Found(key, Flat(tree), v, e, x, i)
    {
      hide Zipped, Flat, Zip, Lead, Trail, RedBlack, Sorted, Split, Ids, CtxIds;
      var cur: Id, left: Id, right: Id := root, NULL, NULL;
      ghost var c, t := Top, tree;
      ZipTop(Top, tree);
      LeafOrNode(cells, root, c, t, cur);
      SplitTop(key, v, e);
      while cur != SENTINEL
        invariant Zipped(cells, root, c, t, cur) && Zip(c, t) == tree
        invariant if t.Leaf? then cur == SENTINEL else cur == t.id && cur > SENTINEL && cur in cells
        invariant Split(key, c, v, e) && (e != ToRight ==> left == Last(Lead(c)))
          && (e != ToLeft ==> right == First(Trail(c)))
        decreases t
      {
        var next;
        if key(cur) == v {
          if e == Equal || e == ToLeftEq || e == ToRightEq {
            ghost var i := At(c, t, tree);
            assert Found(key, Flat(tree), v, e, cur, i);
            return cur;
          }
          next := if e == ToLeft then L else R;
        } else if key(cur) < v {
          left := cur;
          next := R;
        } else {
          right := cur;
          next := L;
        }
        SplitDown(key, c, t, v, e, next);
        Descend(cells, root, c, t, cur, next);
        cur := Get(cells[cur], next);
        KidMk(t, next);
        ZipDown(c, t, next);
        c, t := In(next, t.id, t.red, Kid(t, Opp(next)), c), Kid(t, next);
        LeafOrNode(cells, root, c, t, cur);
      }
      x := if e == ToLeft || e == ToLeftEq then left else if e == Equal then NULL else right;
      ghost var i := FoundAt(key, cells, root, c, v, e, x, tree);
    }

    /** The next node in order, or NULL after the last one and for a node that is in no tree. */
    method GetNext(node: Id) returns (x: Id, ghost i: nat)
      requires Valid() && node in cells && (node in Ids(tree) || Unlinked(cells, node) || node == SENTINEL)
      ensures node !in Ids(tree) ==> x == NULL
      ensures node in Ids(tree) ==>
        var s := Flat(tree);
        i < |s| && s[i] == node && x == if i + 1 < |s| then s[i + 1] else NULL
    {
      hide Zipped, Flat, Zip, Lead, Trail, RedBlack, Sorted, Good, Ids, CtxIds;
      i := 0;
      RealIds(cells, root, Top, tree, root);
      if cells[node].left == NULL && cells[node].right == NULL && cells[node].parent == NULL {
        InTreeLinked(cells, root, tree, node);
        return NULL, i;
      }
      if node == SENTINEL {
        return NULL, i;
      }
      RedBlackGood(tree);
      ghost var c, t, n := Locate(cells, root, Top, tree, root, Height(tree), node);
      ZipTop(Top, tree);
      CellAt(cells, root, c, t, node);
      i := At(c, t, tree);
      NextIs(c, t, tree, i);
      if cells[node].right != SENTINEL {
        GoodDown(c, t, n, R);
        Descend(cells, root, c, t, node, R);
        ghost var cs, ts, ns;
        x, cs, ts, ns := LeftMostFrom(cells[node].right, In(R, t.id, t.red, t.left, c), t.right, Below(t.red, n));
        CellAt(cells, root, cs, ts, x);
        FirstOf(cs, In(R, t.id, t.red, t.left, c), ts);
        return;
      }
      var curr := node;
      ghost var c1, t1 := c, t;
      SeenAt(cells, root, c1, t1, curr);
      while curr != root
        invariant Zipped(cells, root, c1, t1, curr) && t1.Node? && Seen(cells, root, c1, curr) && Trail(c1) == Trail(c)
        decreases c1
      {
        var parent := cells[curr].parent;
        UpTrail(c1);
        if curr == cells[parent].left {
          return parent, i;
        }
        Rise(cells, root, c1, t1, curr);
        curr := parent;
        c1, t1 := c1.up, Mk(c1.side, t1, c1.id, c1.red, c1.sib);
        SeenAt(cells, root, c1, t1, curr);
      }
      UpTrail(c1);
      x := NULL;
    }

    /** The first node in order. */
    method LeftMost() returns (x: Id)
      requires Valid()
      ensures x == First(Flat(tree))
    {
      hide Zipped, Flat, RedBlack, Sorted, Good;
      LeafOrNode(cells, root, Top, tree, root);
      if root == SENTINEL {
        SmallFlat(0);
        return NULL;
      }
      RedBlackGood(tree);
      ghost var cs, ts, ns;
      x, cs, ts, ns := LeftMostFrom(root, Top, tree, Height(tree));
      CellAt(cells, root, cs, ts, x);
      FirstOf(cs, Top, ts);
    }

    /** The last node in order. */
    method RightMost() returns (x: Id)
      requires Valid()
      ensures x == Last(Flat(tree))
    {
      hide Zipped, Flat, RedBlack, Sorted, Good;
      LeafOrNode(cells, root, Top, tree, root);
      if root == SENTINEL {
        SmallFlat(0);
        return NULL;
      }
      x := root;
      ghost var c, t := Top, tree;
      CellAt(cells, root, c, t, x);
      while cells[x].right != SENTINEL
        invariant Zipped(cells, root, c, t, x) && t.Node? && x == t.id && x in cells && cells[x].right == Ptr(t.right)
          && (t.right.Node? ==> t.right.id > SENTINEL)
        invariant Last(Flat(t)) == Last(Flat(tree))
        decreases t
      {
        Descend(cells, root, c, t, x, R);
        LastOf(t);
        x := cells[x].right;
        c, t := In(R, t.id, t.red, t.left, c), t.right;
        CellAt(cells, root, c, t, x);
      }
      LastOf(t);
    }

    /** Puts an unused node with an equal key in the place of a node of the tree. */
    method Replace(original: Id, replacement: Id) returns (r: Ret, ghost i: nat)
      requires Valid() && replacement in cells && replacement != NULL
      requires root != SENTINEL && original != SENTINEL ==> original in Ids(tree)
      modifies this
      ensures Valid()
      ensures r == (if old(root) == SENTINEL || original == SENTINEL || replacement == SENTINEL
        || !Unlinked(old(cells), replacement) then ArgInvalid
                    else if key(original) != key(replacement) then NotEqual else Ok)
      ensures r != Ok ==> cells == old(cells) && root == old(root) && tree == old(tree)
      ensures r == Ok ==>
        var s := Flat(old(tree));
        i < |s| && s[i] == original && Flat(tree) == s[i := replacement]
      ensures r == Ok ==> Unlinked(cells, original) && Ids(tree) == Ids(old(tree)) - {original} + {replacement}
      ensures r == Ok ==> KeptOut(old(cells), cells, Ids(old(tree)) + {replacement})
    {
      hide Zipped, Flat, Zip, Lead, Trail, RedBlack, Sorted, Good, Ids, CtxIds, Renamed, KeptOut;
      i := 0;
      if root == SENTINEL || original == SENTINEL || replacement == SENTINEL {
        return ArgInvalid, i;
      }
      if !(cells[replacement].left == NULL && cells[replacement].right == NULL && cells[replacement].parent == NULL) {
        return ArgInvalid, i;
      }
      if key(original) != key(replacement) {
        return NotEqual, i;
      }
      InTreeLinked(cells, root, tree, replacement);
      RedBlackGood(tree);
      ghost var c, t, n := Locate(cells, root, Top, tree, root, Height(tree), original);
      ZipTop(Top, tree);
      i := At(c, t, tree);
      ghost var h := cells;
      ReplaceReady(cells, root, c, t, original, replacement, tree);
      TakePlace(original, replacement, c, t);
      ghost var h1 := cells;
      cells := cells[original := cells[original].(red := false)];
      ReplaceDone(h, h1, cells, old(root), root, c, t, original, replacement, tree, n, i, key);
      ReplaceKept(h, h1, cells, old(root), c, t, original, replacement);
      tree := Zip(c, Node(t.left, replacement, t.red, t.right));
      r := Ok;
    }
  }
}
