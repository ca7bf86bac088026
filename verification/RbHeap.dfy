/** What the pointer operations of the red-black tree do to the cells, as steps on the tree and its path. */
module RbHeap {
  import opened RbModel

  // ----- what can be read at a node -----

  /** The links around the node x below path c. */
  ghost predicate Seen(h: Heap, root: Id, c: Ctx, x: Id) {
    && x in h && (x == root <==> c.Top?)
    && (c.In? ==>
          && c.id in h && c.id > SENTINEL && h[x].parent == c.id && h[c.id].red == c.red
          && Get(h[c.id], c.side) == x && Get(h[c.id], Opp(c.side)) != x)
  }

  /** The child pointer on side s of the parent of x, for the brother. */
  ghost predicate Sibling(h: Heap, c: Ctx) {
    c.In? ==> c.id in h && var b := Get(h[c.id], Opp(c.side)); if c.sib.Leaf? then b == SENTINEL
      else b == c.sib.id && b in h && b > SENTINEL && h[b].red == c.sib.red
  }

  lemma SeenAt(h: Heap, root: Id, c: Ctx, t: Tree, x: Id)
    requires Zipped(h, root, c, t, x) && t.Node?
    ensures Seen(h, root, c, x) && Sibling(h, c) && x == t.id && x > SENTINEL && h[x].red == t.red
    ensures c.In? ==> Seen(h, root, c.up, c.id) && Sibling(h, c.up)
  {
    hide Distinct, CtxDistinct;
    if c.In? {
      RootAbove(h, root, c, x);
      if c.sib.Node? { assert c.sib.id in CtxIds(c); }
      ParentSeen(h, root, c, t, x);
    }
  }

  lemma ParentSeen(h: Heap, root: Id, c: Ctx, t: Tree, x: Id)
    requires Zipped(h, root, c, t, x) && c.In?
    ensures Seen(h, root, c.up, c.id) && Sibling(h, c.up)
  {
    hide Distinct;
    assert RepCtx(h, root, c.up, c.id);
    if c.up.In? {
      RootAbove(h, root, c.up, c.id);
      if c.up.sib.Node? { assert c.up.sib.id in CtxIds(c.up); }
    }
  }

  lemma BrotherAt(h: Heap, root: Id, c: Ctx, t: Tree, x: Id)
    requires Zipped(h, root, c, t, x) && c.In?
    ensures c.id in h && c.id > SENTINEL && h[c.id].red == c.red && Get(h[c.id], c.side) == x && Sibling(h, c)
      && (t.Leaf? ==> x == SENTINEL)
    ensures t.Node? ==> x == t.id && x > SENTINEL && x in h && h[x].red == t.red && h[x].parent == c.id
    ensures root != SENTINEL
    ensures c.sib.Node? ==> Get(h[c.id], Opp(c.side)) != x && x != root
    ensures t.Node? ==> x != root
  {
    hide Distinct;
    RootAbove(h, root, c, x);
    RootReal(h, root, c, x);
    if c.sib.Node? { assert c.sib.id in CtxIds(c); }
  }

  lemma {:induction false} RootReal(h: Heap, root: Id, c: Ctx, x: Id)
    requires c.In? && RepCtx(h, root, c, x)
    ensures root > SENTINEL
    decreases c
  {
    if c.up.In? { RootReal(h, root, c.up, c.id); }
  }

  // ----- cells that do not matter -----

  /** The nodes of a set have the same cells in both heaps. */
  ghost predicate Same(h: Heap, h': Heap, ids: set<Id>) {
    forall k :: k in ids && k in h ==> k in h' && h'[k] == h[k]
  }

  /** Equal but for the parent link. */
  ghost predicate Alike(h: Heap, h': Heap, k: Id) {
    k in h ==> k in h' && h'[k].left == h[k].left && h'[k].right == h[k].right && h'[k].red == h[k].red
  }

  lemma {:induction false} RepFrame(h: Heap, h': Heap, x: Id, t: Tree)
    requires Rep(h, x, t) && Distinct(t)
    requires t.Node? ==> Alike(h, h', t.id) && Same(h, h', Ids(t) - {t.id})
    ensures Rep(h', x, t)
    decreases t
  {
    if t.Node? {
      RepFrame(h, h', h[x].left, t.left);
      RepFrame(h, h', h[x].right, t.right);
      assert t.left.Node? ==> t.left.id in Ids(t);
      assert t.right.Node? ==> t.right.id in Ids(t);
    }
  }

  lemma {:induction false} CtxFrame(h: Heap, h': Heap, root: Id, c: Ctx, x: Id)
    requires RepCtx(h, root, c, x) && CtxDistinct(c) && Same(h, h', CtxIds(c))
    ensures RepCtx(h', root, c, x)
    decreases c
  {
    if c.In? {
      assert Same(h, h', CtxIds(c.up));
      CtxFrame(h, h', root, c.up, c.id);
      SubFrame(h, h', Get(h[c.id], Opp(c.side)), c.sib, CtxIds(c));
      assert c.sib.Node? ==> c.sib.id in CtxIds(c);
    }
  }

  lemma SubFrame(h: Heap, h': Heap, x: Id, t: Tree, ids: set<Id>)
    requires Rep(h, x, t) && Distinct(t) && Same(h, h', ids) && Ids(t) <= ids
    ensures Rep(h', x, t)
  {
    if t.Node? { assert t.id in ids; }
    RepFrame(h, h', x, t);
  }

  /** The path stays, with another node below it. */
  lemma CtxSwap(h: Heap, h': Heap, root: Id, root': Id, c: Ctx, x: Id, x': Id)
    requires RepCtx(h, root, c, x) && CtxDistinct(c)
    requires c.Top? ==> root' == x'
    requires c.In? ==>
      && root' == root && Same(h, h', CtxIds(c) - {c.id})
      && c.id in h && c.id in h' && h'[c.id] == Set(h[c.id], c.side, x')
    ensures RepCtx(h', root', c, x')
  {
    if c.In? {
      CtxFrame(h, h', root, c.up, c.id);
      SubFrame(h, h', Get(h[c.id], Opp(c.side)), c.sib, CtxIds(c) - {c.id});
      assert c.sib.Node? ==> c.sib.id in CtxIds(c) - {c.id};
    }
  }

  // ----- colours -----

  lemma PaintAt(h: Heap, root: Id, c: Ctx, t: Tree, x: Id, red: bool)
    requires t.Node? && Zipped(h, root, c, t, x)
    ensures x in h && x == t.id && x > SENTINEL && Zipped(h[x := h[x].(red := red)], root, c, Paint(t, red), x)
  {
    hide RepCtx, CtxDistinct, CtxIds;
    var h' := h[x := h[x].(red := red)];
    OwnId(t.left);
    OwnId(t.right);
    SubFrame(h, h', h[x].left, t.left, Ids(t.left));
    SubFrame(h, h', h[x].right, t.right, Ids(t.right));
    CtxFrame(h, h', root, c, x);
    PaintDistinct(t, red);
  }

  lemma PaintDistinct(t: Tree, red: bool)
    requires t.Node?
    ensures Ids(Paint(t, red)) == Ids(t) && (Distinct(Paint(t, red)) <==> Distinct(t))
  {
  }

  // ----- rotation -----

  /** What a rotation may read. */
  lemma RotateReady(h: Heap, root: Id, c: Ctx, t: Tree, x: Id, s: Side)
    requires Zipped(h, root, c, t, x) && t.Node? && Kid(t, Opp(s)).Node?
    ensures var u := Kid(t, Opp(s));
      && x == t.id && x in h && x > SENTINEL && Get(h[x], Opp(s)) == u.id && u.id in h && u.id > SENTINEL
      && (Kid(u, s).Leaf? <==> Get(h[u.id], s) == SENTINEL)
        && (Kid(u, s).Node? ==> Get(h[u.id], s) == Kid(u, s).id && Kid(u, s).id in h)
      && (x == root <==> c.Top?) && (c.In? ==> h[x].parent == c.id && c.id in h && Get(h[c.id], c.side) == x)
      && (c.In? ==> Get(h[c.id], Opp(c.side)) != x)
  {
    hide CtxDistinct, Distinct;
    if c.In? { RootAbove(h, root, c, x); }
    var u := Kid(t, Opp(s));
    assert u.id in Ids(t);
    assert Rep(h, Get(h[x], Opp(s)), u);
    assert Rep(h, Get(h[u.id], s), Kid(u, s));
    if c.In? && c.sib.Node? { assert c.sib.id in CtxIds(c); }
  }

  /** A node below the root is not the root. */
  lemma {:induction false} RootAbove(h: Heap, root: Id, c: Ctx, x: Id)
    requires c.In? && RepCtx(h, root, c, x)
    ensures root in CtxIds(c)
    decreases c
  {
    if c.up.In? { RootAbove(h, root, c.up, c.id); }
  }

  /** The cells a rotation changes. */
  ghost predicate RotatedCells(h: Heap, h': Heap, x: Id, u: Id, inner: Id, c: Ctx, s: Side)
  {
    && x in h && u in h && x in h' && u in h'
    && h'[x] == Set(h[x], Opp(s), inner).(parent := u)
    && h'[u] == Set(h[u], s, x).(parent := h[x].parent)
    && (inner != SENTINEL ==> inner in h && inner in h' && h'[inner] == h[inner].(parent := x))
    && (c.In? ==> c.id in h && c.id in h' && h'[c.id] == Set(h[c.id], c.side, u))
    && forall k :: k in h && k != x && k != u && !(inner != SENTINEL && k == inner) && !(c.In? && k == c.id) ==>
      k in h' && h'[k] == h[k]
  }

  /** A rotation turns the tree at x and keeps the rest. */
  lemma RotateAt(h: Heap, h': Heap, root: Id, root': Id, c: Ctx, t: Tree, x: Id, s: Side)
    requires Zipped(h, root, c, t, x) && t.Node? && Kid(t, Opp(s)).Node? && Kid(t, Opp(s)).id in h
    requires var u := Kid(t, Opp(s)); RotatedCells(h, h', x, u.id, Get(h[u.id], s), c, s)
    requires root' == if c.Top? then Kid(t, Opp(s)).id else root
    ensures Zipped(h', root', c, Rot(s, t), Kid(t, Opp(s)).id)
    ensures forall k :: k in h && k !in Ids(t) && k !in CtxIds(c) ==> k in h' && h'[k] == h[k]
    ensures h.Keys <= h'.Keys
  {
    hide Zipped, Rep, RepCtx, RotatedCells, Rot, Ids, CtxIds, Distinct, CtxDistinct;
    RotateDistinct(c, t, s, h, root, x);
    RotateParts(h, h', root, c, t, x, s);
    RotateCtx(h, h', root, root', c, t, x, s);
    RotateFold(h', root', c, t, x, s);
    RotateFrame(h, h', root, c, t, x, s);
  }

  /** The nodes around a rotation are different. */
  lemma RotateApart(h: Heap, root: Id, c: Ctx, t: Tree, x: Id, s: Side)
    requires Zipped(h, root, c, t, x) && t.Node? && Kid(t, Opp(s)).Node?
    ensures var u := Kid(t, Opp(s)); var a, b, d := Kid(t, s), Kid(u, s), Kid(u, Opp(s));
      && Ids(t) == Ids(a) + {t.id} + Ids(b) + {u.id} + Ids(d)
      && t.id !in Ids(a) && t.id !in Ids(b) && t.id !in Ids(d) && u.id != t.id
      && u.id !in Ids(a) && u.id !in Ids(b) && u.id !in Ids(d)
      && Ids(a) !! Ids(b) && Ids(a) !! Ids(d) && Ids(b) !! Ids(d) && Ids(t) !! CtxIds(c)
      && Distinct(a) && Distinct(b) && Distinct(d) && CtxDistinct(c)
  {
    hide Rep, RepCtx, Ids, CtxIds, Distinct, CtxDistinct, Kid;
    KidIds(t, s);
    KidDistinct(t, s);
    KidIds(Kid(t, Opp(s)), s);
    KidDistinct(Kid(t, Opp(s)), s);
  }

  lemma RotateFrame(h: Heap, h': Heap, root: Id, c: Ctx, t: Tree, x: Id, s: Side)
    requires Zipped(h, root, c, t, x) && t.Node? && Kid(t, Opp(s)).Node? && Kid(t, Opp(s)).id in h
    requires var u := Kid(t, Opp(s)); RotatedCells(h, h', x, u.id, Get(h[u.id], s), c, s)
    ensures forall k :: k in h && k !in Ids(t) && k !in CtxIds(c) ==> k in h' && h'[k] == h[k]
    ensures h.Keys <= h'.Keys
  {
    hide Zipped, Rep, RepCtx, Ids, Distinct, CtxDistinct;
    RotateReady(h, root, c, t, x, s);
    RotateApart(h, root, c, t, x, s);
    OwnId(Kid(Kid(t, Opp(s)), s));
  }

  lemma RotateDistinct(c: Ctx, t: Tree, s: Side, h: Heap, root: Id, x: Id)
    requires t.Node? && Kid(t, Opp(s)).Node? && Zipped(h, root, c, t, x)
    ensures Distinct(Rot(s, t)) && CtxDistinct(c) && Ids(Rot(s, t)) == Ids(t) && Ids(Rot(s, t)) !! CtxIds(c)
  {
    hide Zipped, Rep, RepCtx, Ids, CtxIds, Distinct, CtxDistinct, Kid, Mk;
    RotateApart(h, root, c, t, x, s);
    var u := Kid(t, Opp(s));
    var low := Mk(s, Kid(t, s), t.id, t.red, Kid(u, s));
    MkIds(s, Kid(t, s), t.id, t.red, Kid(u, s));
    MkDistinct(s, Kid(t, s), t.id, t.red, Kid(u, s));
    MkIds(s, low, u.id, u.red, Kid(u, Opp(s)));
    MkDistinct(s, low, u.id, u.red, Kid(u, Opp(s)));
  }

  /** The three subtrees a rotation moves are kept. */
  lemma RotateParts(h: Heap, h': Heap, root: Id, c: Ctx, t: Tree, x: Id, s: Side)
    requires Zipped(h, root, c, t, x) && t.Node? && Kid(t, Opp(s)).Node?
    requires Kid(t, Opp(s)).id in h
    requires var u := Kid(t, Opp(s)); RotatedCells(h, h', x, u.id, Get(h[u.id], s), c, s)
    ensures var u := Kid(t, Opp(s)); var o := Opp(s);
      && x == t.id && x in h' && u.id in h' && x > SENTINEL && u.id > SENTINEL
      && h'[x].parent == u.id && Get(h'[x], o) == Get(h[u.id], s) && Get(h'[u.id], s) == x && h'[x].red == t.red
        && h'[u.id].red == u.red
      && (c.In? ==> h'[u.id].parent == c.id)
      && Rep(h', Get(h'[x], s), Kid(t, s)) && Rep(h', Get(h'[x], o), Kid(u, s)) && Rep(h', Get(h'[u.id], o), Kid(u, o))
      && Linked(h', Kid(t, s), x) && Linked(h', Kid(u, s), x) && Linked(h', Kid(u, o), u.id)
  {
    hide Zipped, Rep, RepCtx, Ids, CtxIds, Distinct, CtxDistinct;
    var u := Kid(t, Opp(s));
    var a, b, d := Kid(t, s), Kid(u, s), Kid(u, Opp(s));
    RotateReady(h, root, c, t, x, s);
    RotateApart(h, root, c, t, x, s);
    RotateKids(h, root, c, t, x, s);
    OwnId(a);
    OwnId(b);
    OwnId(d);
    if c.In? { assert c.id in CtxIds(c) by { OwnCtx(c); } }
    SubFrame(h, h', Get(h[x], s), a, Ids(a));
    RepFrame(h, h', Get(h[u.id], s), b);
    SubFrame(h, h', Get(h[u.id], Opp(s)), d, Ids(d));
  }

  lemma OwnCtx(c: Ctx)
    ensures c.In? ==> c.id in CtxIds(c)
  {
  }

  lemma RotateKids(h: Heap, root: Id, c: Ctx, t: Tree, x: Id, s: Side)
    requires Zipped(h, root, c, t, x) && t.Node? && Kid(t, Opp(s)).Node?
    ensures var u := Kid(t, Opp(s)); var o := Opp(s);
      && x in h && u.id in h && h[x].red == t.red && h[u.id].red == u.red
      && Rep(h, Get(h[x], s), Kid(t, s)) && Rep(h, Get(h[u.id], s), Kid(u, s)) && Rep(h, Get(h[u.id], o), Kid(u, o))
      && Linked(h, Kid(t, s), x) && Linked(h, Kid(u, s), u.id) && Linked(h, Kid(u, o), u.id)
  {
    hide RepCtx, Distinct, CtxDistinct, Ids, CtxIds, Linked;
    var u := Kid(t, Opp(s));
    assert Rep(h, Get(h[x], Opp(s)), u);
  }

  lemma RotateCtx(h: Heap, h': Heap, root: Id, root': Id, c: Ctx, t: Tree, x: Id, s: Side)
    requires Zipped(h, root, c, t, x) && t.Node? && Kid(t, Opp(s)).Node?
    requires Kid(t, Opp(s)).id in h
    requires var u := Kid(t, Opp(s)); RotatedCells(h, h', x, u.id, Get(h[u.id], s), c, s)
    requires root' == if c.Top? then Kid(t, Opp(s)).id else root
    ensures RepCtx(h', root', c, Kid(t, Opp(s)).id)
  {
    hide Rep, RepCtx, Distinct, CtxDistinct, Ids, CtxIds, Linked;
    RotateReady(h, root, c, t, x, s);
    RotateApart(h, root, c, t, x, s);
    var u := Kid(t, Opp(s));
    OwnId(Kid(u, s));
    if c.In? { assert Same(h, h', CtxIds(c) - {c.id}); }
    CtxSwap(h, h', root, root', c, x, u.id);
  }

  lemma RotateFold(h: Heap, root: Id, c: Ctx, t: Tree, x: Id, s: Side)
    requires t.Node? && Kid(t, Opp(s)).Node?
    requires var u := Kid(t, Opp(s)); var o := Opp(s);
      && x == t.id && x in h && u.id in h && x > SENTINEL && u.id > SENTINEL
      && h[x].parent == u.id && Get(h[u.id], s) == x && h[x].red == t.red && h[u.id].red == u.red
        && (c.In? ==> h[u.id].parent == c.id)
      && Rep(h, Get(h[x], s), Kid(t, s)) && Rep(h, Get(h[x], o), Kid(u, s)) && Rep(h, Get(h[u.id], o), Kid(u, o))
      && Linked(h, Kid(t, s), x) && Linked(h, Kid(u, s), x) && Linked(h, Kid(u, o), u.id)
    requires RepCtx(h, root, c, Kid(t, Opp(s)).id)
    requires Distinct(Rot(s, t)) && CtxDistinct(c) && Ids(Rot(s, t)) !! CtxIds(c)
    ensures Zipped(h, root, c, Rot(s, t), Kid(t, Opp(s)).id)
  {
    hide RepCtx, Distinct, CtxDistinct, Ids, CtxIds;
    var u := Kid(t, Opp(s));
    FoldRep(h, x, Mk(s, Kid(t, s), t.id, t.red, Kid(u, s)));
    FoldRep(h, u.id, Rot(s, t));
  }

  /** Nodes of the tree are not the sentinel. */
  /** A cell outside the tree does not matter to it. */
  lemma InitFrame(h: Heap, h': Heap, root: Id, t: Tree, x: Id)
    requires Zipped(h, root, Top, t, root) && x !in Ids(t) && x in h' && h' == h[x := h'[x]]
    ensures Zipped(h', root, Top, t, root)
  {
    hide Rep, Distinct;
    SubFrame(h, h', root, t, Ids(t));
  }

  lemma RealIds(h: Heap, root: Id, c: Ctx, t: Tree, x: Id)
    requires Zipped(h, root, c, t, x)
    ensures SENTINEL !in Ids(t) && SENTINEL !in CtxIds(c)
  {
    RealTree(h, x, t);
    RealCtx(h, root, c, x);
  }

  lemma {:induction false} RealTree(h: Heap, x: Id, t: Tree)
    requires Rep(h, x, t)
    ensures SENTINEL !in Ids(t)
    decreases t
  {
    if t.Node? {
      RealTree(h, h[x].left, t.left);
      RealTree(h, h[x].right, t.right);
    }
  }

  lemma {:induction false} RealCtx(h: Heap, root: Id, c: Ctx, x: Id)
    requires RepCtx(h, root, c, x)
    ensures SENTINEL !in CtxIds(c)
    decreases c
  {
    if c.In? {
      RealCtx(h, root, c.up, c.id);
      RealTree(h, Get(h[c.id], Opp(c.side)), c.sib);
    }
  }

  // ----- a new leaf -----

  /** A new red node in an empty place. */
  lemma AttachAt(h: Heap, h': Heap, root: Id, c: Ctx, node: Id)
    requires Zipped(h, root, c, Leaf, SENTINEL) && c.In? && node > SENTINEL && node !in CtxIds(c) && c.id in h
    requires h' == h[c.id := Set(h[c.id], c.side, node)][node := Cell(SENTINEL, SENTINEL, c.id, true)]
    ensures Zipped(h', root, c, Node(Leaf, node, true, Leaf), node)
  {
    hide RepCtx, CtxDistinct;
    OwnCtx(c);
    var t := Node(Leaf, node, true, Leaf);
    assert Ids(Leaf) == {} && Ids(t) == {node};
    assert Rep(h', SENTINEL, Leaf);
    CtxSwap(h, h', root, root, c, SENTINEL, node);
  }

  lemma {:induction false} ZipIds(c: Ctx, t: Tree)
    ensures Ids(Zip(c, t)) == Ids(t) + CtxIds(c)
    decreases c
  {
    hide Ids, Mk;
    if c.In? {
      ZipIds(c.up, Mk(c.side, t, c.id, c.red, c.sib));
      MkIds(c.side, t, c.id, c.red, c.sib);
    }
  }
}
