/** Taking a node out of the linked cells, and putting another node in its place. */
module RbSplice {
  import opened RbModel
  import opened RbHeap
  import opened RbShape

  function Ptr(t: Tree): Id {
    if t.Leaf? then SENTINEL else t.id
  }

  // ----- a node with at most one child -----

  predicate OnlyChild(t: Tree, child: Tree) {
    t.Node? && ((t.left.Leaf? && child == t.right) || (t.right.Leaf? && child == t.left))
  }

  /** The child hangs where x was. */
  ghost predicate Spliced(h: Heap, h': Heap, c: Ctx, x: Id, child: Tree)
    requires c.In?
  {
    && c.id in h && c.id in h' && h'[c.id] == Set(h[c.id], c.side, Ptr(child))
    && (child.Node? ==> child.id in h && child.id in h' && h'[child.id] == h[child.id].(parent := c.id))
    && forall k :: k in h && k != x && k != SENTINEL && k != c.id && !(child.Node? && k == child.id) ==>
      k in h' && h'[k] == h[k]
  }

  lemma ChildIds(t: Tree, child: Tree)
    requires OnlyChild(t, child)
    ensures Ids(t) == Ids(child) + {t.id} && (Distinct(t) ==> t.id !in Ids(child) && Distinct(child))
    ensures Flat(t.left) + Flat(t.right) == Flat(child)
  {
  }

  lemma ChildRep(h: Heap, x: Id, t: Tree, child: Tree)
    requires Rep(h, x, t) && OnlyChild(t, child)
    ensures Rep(h, Ptr(child), child) && x == t.id && x in h
    ensures h[x].left == SENTINEL ==> h[x].right == Ptr(child)
    ensures h[x].left != SENTINEL ==> h[x].left == Ptr(child)
    ensures h[x].left == SENTINEL <==> t.left.Leaf?
    ensures h[x].right == SENTINEL <==> t.right.Leaf?
  {
  }

  lemma SpliceAt(h: Heap, h': Heap, root: Id, c: Ctx, t: Tree, x: Id, child: Tree)
    requires Zipped(h, root, c, t, x) && c.In? && OnlyChild(t, child) && Spliced(h, h', c, x, child)
    ensures Zipped(h', root, c, child, Ptr(child))
    ensures Ids(child) + CtxIds(c) == Ids(t) + CtxIds(c) - {x} && x !in Ids(child) && x !in CtxIds(c)
  {
    hide Rep, RepCtx, Distinct, CtxDistinct, Ids, CtxIds;
    RealIds(h, root, c, t, x);
    ChildIds(t, child);
    ChildRep(h, x, t, child);
    OwnId(child);
    OwnCtx(c);
    assert child.Node? ==> Alike(h, h', child.id) && Same(h, h', Ids(child) - {child.id});
    RepFrame(h, h', Ptr(child), child);
    assert Same(h, h', CtxIds(c) - {c.id});
    CtxSwap(h, h', root, root, c, x, Ptr(child));
  }

  /** The only child of the root becomes the root, and black. */
  lemma SpliceTop(h: Heap, h': Heap, root: Id, t: Tree, child: Tree)
    requires Zipped(h, root, Top, t, root) && OnlyChild(t, child)
    requires forall k :: k in h && k != root && k != SENTINEL && !(child.Node? && k == child.id) ==>
      k in h' && h'[k] == h[k]
    requires child.Node? ==> child.id in h && child.id in h' && h'[child.id] == h[child.id].(red := false)
    ensures Zipped(h', Ptr(child), Top, if child.Node? then Paint(child, false) else child, Ptr(child))
    ensures Ids(child) == Ids(t) - {root} && root !in Ids(child)
  {
    hide Rep, RepCtx, Distinct, CtxDistinct, Ids, CtxIds;
    RealIds(h, root, Top, t, root);
    ChildIds(t, child);
    ChildRep(h, root, t, child);
    OwnId(child);
    TopZipped(h, Ptr(child), child);
    if child.Node? {
      PaintAt(h, child.id, Top, child, child.id, false);
      var h1 := h[child.id := h[child.id].(red := false)];
      PaintDistinct(child, false);
      TopRep(h1, child.id, Paint(child, false), child.id);
      SubFrame(h1, h', child.id, Paint(child, false), Ids(child));
      TopZipped(h', child.id, Paint(child, false));
    } else {
      LeafRep(h');
      TopZipped(h', SENTINEL, Leaf);
    }
  }

  lemma LeafRep(h: Heap)
    ensures Rep(h, SENTINEL, Leaf)
  {
  }

  lemma TopRep(h: Heap, root: Id, t: Tree, x: Id)
    requires Zipped(h, root, Top, t, x)
    ensures Rep(h, x, t) && Distinct(t)
  {
  }

  lemma TopZipped(h: Heap, x: Id, t: Tree)
    requires Rep(h, x, t) && Distinct(t)
    ensures Zipped(h, x, Top, t, x)
  {
  }

  // ----- another node in the place of a node -----

  /** y's cell is x's old cell, and the links to x now lead to y. */
  ghost predicate Renamed(h: Heap, h': Heap, c: Ctx, t: Tree, x: Id, y: Id)
    requires t.Node?
  {
    && x in h && y in h' && h'[y] == h[x]
    && (t.left.Node? ==> t.left.id in h && t.left.id in h' && h'[t.left.id] == h[t.left.id].(parent := y))
    && (t.right.Node? ==> t.right.id in h && t.right.id in h' && h'[t.right.id] == h[t.right.id].(parent := y))
    && (c.In? ==> c.id in h && c.id in h' && h'[c.id] == Set(h[c.id], c.side, y))
    && forall k ::
         (&& k in h && k != x && k != y && k != SENTINEL
          && !(t.left.Node? && k == t.left.id) && !(t.right.Node? && k == t.right.id) && !(c.In? && k == c.id))
         ==> k in h' && h'[k] == h[k]
  }

  lemma RenameAt(h: Heap, h': Heap, root: Id, root': Id, c: Ctx, t: Tree, x: Id, y: Id)
    requires Zipped(h, root, c, t, x) && t.Node? && y > SENTINEL && y !in Ids(t) && y !in CtxIds(c)
    requires Renamed(h, h', c, t, x, y) && root' == if c.Top? then y else root
    ensures Zipped(h', root', c, Node(t.left, y, t.red, t.right), y)
    ensures Ids(Node(t.left, y, t.red, t.right)) == Ids(t) - {x} + {y} && x !in CtxIds(c)
  {
    hide Rep, RepCtx, CtxDistinct, CtxIds;
    RealIds(h, root, c, t, x);
    OwnCtx(c);
    OwnId(t.left);
    OwnId(t.right);
    RenameKids(h, h', c, t, x, y);
    if c.In? { assert Same(h, h', CtxIds(c) - {c.id}); }
    CtxSwap(h, h', root, root', c, x, y);
    CellAt(h, root, c, t, x);
    var u := Node(t.left, y, t.red, t.right);
    FoldRep(h', y, u);
  }

  lemma CellAt(h: Heap, root: Id, c: Ctx, t: Tree, x: Id)
    requires Zipped(h, root, c, t, x) && t.Node?
    ensures x == t.id && x in h && h[x].red == t.red && (c.In? ==> h[x].parent == c.id)
    ensures h[x].left == Ptr(t.left) && h[x].right == Ptr(t.right)
    ensures (t.left.Node? ==> t.left.id > SENTINEL) && (t.right.Node? ==> t.right.id > SENTINEL)
  {
    assert Rep(h, h[x].left, t.left) && Rep(h, h[x].right, t.right);
  }

  lemma RenameKids(h: Heap, h': Heap, c: Ctx, t: Tree, x: Id, y: Id)
    requires Rep(h, x, t) && Distinct(t) && t.Node? && y !in Ids(t) && SENTINEL !in Ids(t)
      && Renamed(h, h', c, t, x, y) && (c.In? ==> c.id !in Ids(t))
    ensures x == t.id && x in h && Rep(h', h[x].left, t.left) && Rep(h', h[x].right, t.right) && Linked(h', t.left, y)
      && Linked(h', t.right, y)
  {
    OwnId(t.left);
    OwnId(t.right);
    assert t.left.Node? ==> Same(h, h', Ids(t.left) - {t.left.id});
    assert t.right.Node? ==> Same(h, h', Ids(t.right) - {t.right.id});
    RepFrame(h, h', h[x].left, t.left);
    RepFrame(h, h', h[x].right, t.right);
  }

  // ----- the way to the successor -----

  /** From base down to cs only left branches are taken. */
  predicate Lefts(cs: Ctx, base: Ctx)
    decreases cs
  {
    cs == base || (cs.In? && cs.side == L && Lefts(cs.up, base))
  }

  /** The tree at base when t is at cs. */
  function ZipTo(cs: Ctx, base: Ctx, t: Tree): Tree
    requires Lefts(cs, base)
    decreases cs
  {
    if cs == base then t else ZipTo(cs.up, base, Mk(L, t, cs.id, cs.red, cs.sib))
  }

  /** The same way down from another path. */
  function Onto(cs: Ctx, base: Ctx, base': Ctx): Ctx
    requires Lefts(cs, base)
    decreases cs
  {
    if cs == base then base' else In(cs.side, cs.id, cs.red, cs.sib, Onto(cs.up, base, base'))
  }

  lemma {:induction false} RiseTo(h: Heap, root: Id, cs: Ctx, base: Ctx, t: Tree, x: Id)
    requires Zipped(h, root, cs, t, x) && Lefts(cs, base)
    ensures Zipped(h, root, base, ZipTo(cs, base, t), Ptr(ZipTo(cs, base, t)))
    decreases cs
  {
    hide Zipped;
    if cs != base {
      MoveUp(h, root, cs, t, x);
      RiseTo(h, root, cs.up, base, Mk(L, t, cs.id, cs.red, cs.sib), cs.id);
    } else {
      PtrIs(h, root, cs, t, x);
    }
  }

  lemma PtrIs(h: Heap, root: Id, c: Ctx, t: Tree, x: Id)
    requires Zipped(h, root, c, t, x)
    ensures x == Ptr(t)
  {
  }

  lemma {:induction false} DownTo(h: Heap, root: Id, cs: Ctx, base: Ctx, base': Ctx, t: Tree)
    requires Lefts(cs, base) && Zipped(h, root, base', ZipTo(cs, base, t), Ptr(ZipTo(cs, base, t)))
    ensures Zipped(h, root, Onto(cs, base, base'), t, Ptr(t))
    decreases cs
  {
    hide Zipped;
    if cs != base {
      var u := Mk(L, t, cs.id, cs.red, cs.sib);
      DownTo(h, root, cs.up, base, base', u);
      MoveDown(h, root, Onto(cs.up, base, base'), u, cs.id, L);
      PtrIs(h, root, Onto(cs, base, base'), t, Get(h[cs.id], L));
    }
  }

  lemma {:induction false} ZipOnto(cs: Ctx, base: Ctx, base': Ctx, t: Tree)
    requires Lefts(cs, base)
    ensures Zip(Onto(cs, base, base'), t) == Zip(base', ZipTo(cs, base, t))
    ensures Onto(cs, base, base) == cs
    decreases cs
  {
    if cs != base { ZipOnto(cs.up, base, base', Mk(L, t, cs.id, cs.red, cs.sib)); }
  }

  /** Names do not matter for the shape. */
  lemma {:induction false} OntoShape(cs: Ctx, base: Ctx, base': Ctx, n: int)
    requires Lefts(cs, base) && base.In? && base'.In? && base' == base.(id := base'.id)
    ensures CtxBal(Onto(cs, base, base'), n) <==> CtxBal(cs, n)
    ensures CtxCalm(Onto(cs, base, base')) <==> CtxCalm(cs)
    ensures Onto(cs, base, base').In? && cs.In? && Onto(cs, base, base').red == cs.red
    decreases cs
  {
    if cs != base { OntoShape(cs.up, base, base', Above(cs.red, n)); }
  }

  /** The successor comes first below base. */
  lemma {:induction false} LeftsFlat(cs: Ctx, base: Ctx, base': Ctx)
    requires Lefts(cs, base) && base.In? && base'.In? && base.side == base'.side == R && base.up == base'.up
    ensures Lead(cs) == Lead(base) && Lead(Onto(cs, base, base')) == Lead(base') && Trail(Onto(cs, base, base')) ==
      Trail(cs)
    decreases cs
  {
    hide Flat;
    if cs != base { LeftsFlat(cs.up, base, base'); }
  }

  lemma {:induction false} OntoIds(cs: Ctx, base: Ctx, base': Ctx)
    requires Lefts(cs, base) && base.In? && base'.In? && CtxDistinct(cs)
    requires base'.sib == base.sib && base'.up == base.up && base'.id !in CtxIds(cs)
    ensures CtxIds(Onto(cs, base, base')) == CtxIds(cs) - {base.id} + {base'.id} && base.id in CtxIds(cs)
    decreases cs
  {
    hide Ids;
    if cs != base { OntoIds(cs.up, base, base'); }
  }

  /** The cells once child hangs where the node below cs was. */
  function SpliceMap(h: Heap, cs: Ctx, child: Id): Heap
    requires cs.In? && cs.id in h && child in h && cs.id != child
  {
    var h1 := h[cs.id := Set(h[cs.id], cs.side, child)];
    if child == SENTINEL then h1 else h1[child := h1[child].(parent := cs.id)]
  }

  lemma SpliceMapIs(h: Heap, cs: Ctx, x: Id, t: Tree)
    requires cs.In? && cs.id in h && Ptr(t) in h && cs.id != Ptr(t) && (t.Node? ==> t.id > SENTINEL) && cs.id > SENTINEL
    ensures Spliced(h, SpliceMap(h, cs, Ptr(t)), cs, x, t)
  {
  }

  lemma {:induction false} ZipToIds(cs: Ctx, base: Ctx, t: Tree)
    requires Lefts(cs, base)
    ensures Ids(ZipTo(cs, base, t)) + CtxIds(base) == Ids(t) + CtxIds(cs)
    decreases cs
  {
    hide Ids, Mk;
    if cs != base {
      MkIds(L, t, cs.id, cs.red, cs.sib);
      ZipToIds(cs.up, base, Mk(L, t, cs.id, cs.red, cs.sib));
    }
  }

  // ----- the writes that put y in the place of x -----

  function Adopt(h: Heap, kid: Id, y: Id): Heap {
    if kid == SENTINEL || kid !in h then h else h[kid := h[kid].(parent := y)]
  }

  lemma AdoptFacts(h: Heap, kid: Id, y: Id, z: Id)
    ensures Adopt(h, kid, y).Keys == h.Keys && (z in h && z != kid ==> Adopt(h, kid, y)[z] == h[z])
  {
  }

  function PlaceMap(h: Heap, c: Ctx, x: Id, y: Id): Heap
    requires x in h
  {
    var h1 := h[y := h[x]];
    var h2 := if c.In? && c.id in h1 then h1[c.id := Set(h1[c.id], c.side, y)] else h1;
    var h3 := Adopt(h2, h[x].left, y);
    var h4 := Adopt(h3, h[x].right, y);
    h4[x := h[x].(left := NULL, right := NULL, parent := NULL)]
  }

  /** The cell of k after the writes. */
  lemma PlaceMapAt(h: Heap, c: Ctx, x: Id, y: Id, k: Id)
    requires x in h && x != y && x > SENTINEL && y > SENTINEL && h[x].left != y && h[x].right != y
    requires c.In? ==> c.id in h && c.id != x && c.id != y && c.id != h[x].left && c.id != h[x].right
    requires (h[x].left in h || h[x].left == SENTINEL) && (h[x].right in h || h[x].right == SENTINEL)
    requires h[x].left == SENTINEL || h[x].left != h[x].right
    ensures var h' := PlaceMap(h, c, x, y);
      && (k == y ==> k in h' && h'[k] == h[x])
      && (k == h[x].left && k != SENTINEL && k != x ==> k in h' && h'[k] == h[k].(parent := y))
      && (k == h[x].right && k != SENTINEL && k != x ==> k in h' && h'[k] == h[k].(parent := y))
      && (c.In? && k == c.id ==> k in h' && h'[k] == Set(h[k], c.side, y))
      && ((k in h && k != x && k != y && (k == SENTINEL || (k != h[x].left && k != h[x].right))
        && !(c.In? && k == c.id)) ==> k in h' && h'[k] == h[k])
  {
  }

  /** The writes that make y take the place of x, one after the other. */
  lemma PlaceMapSteps(h: Heap, h2: Heap, c: Ctx, t: Tree, x: Id, y: Id)
    requires t.Node? && x in h && x != y && h[x].left == Ptr(t.left) && h[x].right == Ptr(t.right)
      && (c.In? ==> c.id in h)
    requires h2 == if c.Top? then h[y := h[x]] else h[y := h[x]][c.id := Set(h[y := h[x]][c.id], c.side, y)]
    requires x in h2 && h2[x] == h[x] && Ptr(t.left) != x && Ptr(t.right) != x
    ensures var h4 := Adopt(Adopt(h2, Ptr(t.left), y), Ptr(t.right), y);
      x in h4 && PlaceMap(h, c, x, y) == h4[x := h4[x].(left := NULL, right := NULL, parent := NULL)]
  {
    hide Adopt, Set;
    AdoptFacts(h2, Ptr(t.left), y, x);
    AdoptFacts(Adopt(h2, Ptr(t.left), y), Ptr(t.right), y, x);
  }

  lemma PlaceMapIs(h: Heap, c: Ctx, t: Tree, x: Id, y: Id)
    requires t.Node? && x in h && x != y && x > SENTINEL && y > SENTINEL && h[x].left == Ptr(t.left)
      && h[x].right == Ptr(t.right)
    requires c.In? ==>
      c.id in h && c.id > SENTINEL && c.id != x && c.id != y && c.id != Ptr(t.left) && c.id != Ptr(t.right)
    requires t.left.Node? ==>
      t.left.id in h && t.left.id > SENTINEL && t.left.id != x && t.left.id != y && t.left.id != Ptr(t.right)
    requires t.right.Node? ==> t.right.id in h && t.right.id > SENTINEL && t.right.id != x && t.right.id != y
    ensures Renamed(h, PlaceMap(h, c, x, y), c, t, x, y)
    ensures SENTINEL in h ==> SENTINEL in PlaceMap(h, c, x, y) && PlaceMap(h, c, x, y)[SENTINEL] == h[SENTINEL]
  {
    var h' := PlaceMap(h, c, x, y);
    hide PlaceMap;
    PlaceMapAt(h, c, x, y, y);
    PlaceMapAt(h, c, x, y, h[x].left);
    PlaceMapAt(h, c, x, y, h[x].right);
    PlaceMapAt(h, c, x, y, SENTINEL);
    if c.In? { PlaceMapAt(h, c, x, y, c.id); }
    forall k | k in h && k != x && k != y && k != SENTINEL && !(t.left.Node? && k == t.left.id)
      && !(t.right.Node? && k == t.right.id) && !(c.In? && k == c.id)
      ensures k in h' && h'[k] == h[k]
    {
      PlaceMapAt(h, c, x, y, k);
    }
  }

  /** Only the parent of a child of x, or the sentinel, differs: the renaming does not see it. */
  lemma RenamedAnyway(h: Heap, h1: Heap, h': Heap, c: Ctx, t: Tree, x: Id, y: Id, k: Id, p: Id)
    requires t.Node? && Renamed(h, h', c, t, x, y) && k in h1 && h == h1[k := h1[k].(parent := p)] && k != x && k != y
    requires k == SENTINEL || (t.right.Node? && k == t.right.id) || p == h1[k].parent
    requires (c.In? ==> k != c.id && c.id > SENTINEL) && (t.left.Node? ==> t.left.id != k && t.left.id > SENTINEL)
      && (t.right.Node? ==> t.right.id > SENTINEL)
    ensures Renamed(h1, h', c, t, x, y)
  {
  }
}
