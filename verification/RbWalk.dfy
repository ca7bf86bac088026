/** Steps along the linked tree: moving the hole, finding a node, and what the operations of the tree rely on. */
module RbWalk {
  import opened RbModel
  import opened RbHeap
  import opened RbShape
  import opened RbSplice

  /** In-order keys never decrease. */
  ghost predicate Sorted(key: Id -> int, s: seq<Id>) {
    forall i, j :: 0 <= i < j < |s| ==> key(s[i]) <= key(s[j])
  }

  ghost predicate AllLt(key: Id -> int, s: seq<Id>, v: int) {
    forall i :: 0 <= i < |s| ==> key(s[i]) < v
  }

  ghost predicate AllLe(key: Id -> int, s: seq<Id>, v: int) {
    forall i :: 0 <= i < |s| ==> key(s[i]) <= v
  }

  ghost predicate AllGt(key: Id -> int, s: seq<Id>, v: int) {
    forall i :: 0 <= i < |s| ==> v < key(s[i])
  }

  /** The hole is where a node of key v belongs, after its equals; `strict` when no equal has been met. */
  ghost predicate Place(key: Id -> int, c: Ctx, v: int, strict: bool) {
    && AllLe(key, Lead(c), v) && (strict ==> AllLt(key, Lead(c), v)) && AllGt(key, Trail(c), v)
  }

  /** Going down to side s keeps the place. */
  lemma PlaceDown(key: Id -> int, c: Ctx, t: Tree, v: int, strict: bool, s: Side)
    requires t.Node? && Place(key, c, v, strict) && Sorted(key, Flat(Zip(c, t)))
    requires if s == L then v < key(t.id) else v >= key(t.id)
    ensures Place(key, In(s, t.id, t.red, Kid(t, Opp(s)), c), v, strict && key(t.id) != v)
  {
    hide Flat, Zip;
    ZipFlat(c, t);
    var a, b, l, r := Lead(c), Trail(c), Flat(t.left), Flat(t.right);
    assert Flat(t) == l + [t.id] + r by { NodeFlat(t); }
    var all := a + (l + [t.id] + r) + b;
    var at := |a| + |l|;
    assert all[at] == t.id;
    if s == L {
      forall i | 0 <= i < |r| ensures v < key(r[i]) { assert all[at + 1 + i] == r[i]; }
    } else {
      forall i | 0 <= i < |l| ensures key(l[i]) <= key(t.id) { assert all[|a| + i] == l[i]; }
    }
  }

  lemma NodeFlat(t: Tree)
    requires t.Node?
    ensures Flat(t) == Flat(t.left) + [t.id] + Flat(t.right)
  {
  }

  /** A sorted sequence stays sorted with the new node in its place. */
  lemma InsertSorted(key: Id -> int, a: seq<Id>, x: Id, b: seq<Id>)
    requires Sorted(key, a + b) && AllLe(key, a, key(x)) && AllGt(key, b, key(x))
    ensures Sorted(key, a + [x] + b)
  {
    var s, s' := a + b, a + [x] + b;
    forall i, j | 0 <= i < j < |s'|
      ensures key(s'[i]) <= key(s'[j])
    {
      if i < |a| { assert s[i] == a[i]; }
      if j > |a| { assert s[j - 1] == b[j - 1 - |a|]; }
      if i > |a| { assert s[i - 1] == b[i - 1 - |a|]; }
      if j < |a| { assert s[j] == a[j]; }
    }
  }

  /** All nodes of the tree around the hole. */
  ghost function All(c: Ctx, t: Tree): set<Id> {
    Ids(t) + CtxIds(c)
  }

  /** Cells outside the tree, and the sentinel, are as before. */
  ghost predicate Kept(h: Heap, h': Heap, ids: set<Id>) {
    && (forall k :: k in h && k !in ids ==> k in h' && h'[k] == h[k])
    && (SENTINEL in h ==> SENTINEL in h' && h'[SENTINEL] == h[SENTINEL])
  }

  lemma KeptTwice(h: Heap, h1: Heap, h2: Heap, ids: set<Id>)
    requires Kept(h, h1, ids) && Kept(h1, h2, ids)
    ensures Kept(h, h2, ids)
  {
  }

  lemma KeptSelf(h: Heap, ids: set<Id>)
    ensures Kept(h, h, ids)
  {
  }

  /** Moving the hole up, with the nodes of the tree. */
  lemma Rise(h: Heap, root: Id, c: Ctx, t: Tree, x: Id)
    requires c.In? && Zipped(h, root, c, t, x)
    ensures Zipped(h, root, c.up, Mk(c.side, t, c.id, c.red, c.sib), c.id)
    ensures All(c.up, Mk(c.side, t, c.id, c.red, c.sib)) == All(c, t)
  {
    hide Zipped, Ids, Mk;
    MoveUp(h, root, c, t, x);
    MkIds(c.side, t, c.id, c.red, c.sib);
  }

  /** Moving the hole down to side s. */
  lemma Descend(h: Heap, root: Id, c: Ctx, t: Tree, x: Id, s: Side)
    requires t.Node? && Zipped(h, root, c, t, x)
    ensures x in h && Zipped(h, root, In(s, t.id, t.red, Kid(t, Opp(s)), c), Kid(t, s), Get(h[x], s))
    ensures All(In(s, t.id, t.red, Kid(t, Opp(s)), c), Kid(t, s)) == All(c, t)
  {
    hide Zipped, Ids, Kid;
    MoveDown(h, root, c, t, x, s);
    KidIds(t, s);
  }

  /** The path to the brother. */
  ghost function Across(c: Ctx, t: Tree): Ctx
    requires c.In?
  {
    In(Opp(c.side), c.id, c.red, t, c.up)
  }

  /** Moving the hole from a node to its brother. */
  lemma SideStep(h: Heap, root: Id, c: Ctx, t: Tree, x: Id)
    requires c.In? && Zipped(h, root, c, t, x)
    ensures c.id in h && Zipped(h, root, Across(c, t), c.sib, Get(h[c.id], Opp(c.side)))
    ensures All(Across(c, t), c.sib) == All(c, t)
    ensures if c.sib.Leaf? then Get(h[c.id], Opp(c.side)) == SENTINEL else Get(h[c.id], Opp(c.side)) == c.sib.id
    ensures if t.Leaf? then x == SENTINEL else x == t.id
  {
    hide Zipped, All;
    Rise(h, root, c, t, x);
    Descend(h, root, c.up, Mk(c.side, t, c.id, c.red, c.sib), c.id, Opp(c.side));
    LeafOrNode(h, root, Across(c, t), c.sib, Get(h[c.id], Opp(c.side)));
    LeafOrNode(h, root, c, t, x);
  }

  lemma TopIds()
    ensures CtxIds(Top) == {}
  {
  }

  lemma ZipTop(c: Ctx, t: Tree)
    ensures c.Top? ==> Zip(c, t) == t
  {
  }

  lemma BlackRoot(t: Tree)
    requires RedBlack(t) && t.Node?
    ensures Paint(t, false) == t
  {
  }

  lemma {:induction false} RootNode(c: Ctx, t: Tree)
    requires t.Node?
    ensures Zip(c, t).Node?
    decreases c
  {
    if c.In? { RootNode(c.up, Mk(c.side, t, c.id, c.red, c.sib)); }
  }

  ghost predicate HasKey(key: Id -> int, s: seq<Id>, v: int) {
    exists i :: 0 <= i < |s| && key(s[i]) == v
  }

  lemma PlaceTop(key: Id -> int, v: int)
    ensures Place(key, Top, v, true)
  {
  }

  lemma LeafOrNode(h: Heap, root: Id, c: Ctx, t: Tree, x: Id)
    requires Zipped(h, root, c, t, x)
    ensures if t.Leaf? then x == SENTINEL else x == t.id && x > SENTINEL && x in h
  {
  }

  lemma GoodLeaf(c: Ctx, n: int)
    requires Good(c, Leaf, n)
    ensures n == 0
  {
  }

  lemma FirstNode(h: Heap, node: Id)
    requires Nil(h) && node > SENTINEL
    ensures var h', t := h[node := Cell(SENTINEL, SENTINEL, NULL, false)], Node(Leaf, node, false, Leaf);
      && Zipped(h', node, Top, t, node) && Nil(h') && RedBlack(t) && Flat(t) == [node] && Ids(t) == {node}
        && Kept(h, h', {node})
    ensures Flat(Leaf) == [] && Ids(Leaf) == {}
  {
    var h', t := h[node := Cell(SENTINEL, SENTINEL, NULL, false)], Node(Leaf, node, false, Leaf);
    assert Rep(h', SENTINEL, Leaf) && Ids(Leaf) == {} && Flat(Leaf) == [] && Bal(Leaf, 0) && Height(Leaf) == 0;
  }

  lemma SingleSorted(key: Id -> int, node: Id)
    ensures Sorted(key, [node])
  {
  }

  lemma InFlat(t: Tree, x: Id, key: Id -> int)
    requires x in Ids(t)
    ensures x in Flat(t) && HasKey(key, Flat(t), key(x))
  {
    IdsFlat(t, x);
  }

  lemma {:induction false} IdsFlat(t: Tree, x: Id)
    ensures x in Ids(t) <==> x in Flat(t)
  {
    if t.Node? {
      IdsFlat(t.left, x);
      IdsFlat(t.right, x);
      MemberThree(Flat(t.left), t.id, Flat(t.right), x);
    }
  }

  lemma MemberThree(a: seq<Id>, y: Id, b: seq<Id>, x: Id)
    ensures x in a + [y] + b <==> x in a || x == y || x in b
  {
  }

  lemma SmallFlat(node: Id)
    ensures Flat(Leaf) == [] && Flat(Node(Leaf, node, true, Leaf)) == [node] && Ids(Leaf) == {}
      && Ids(Node(Leaf, node, true, Leaf)) == {node}
  {
    assert Ids(Leaf) == {} && Flat(Leaf) == [];
  }

  /** No equal key was met exactly when there is none. */
  lemma PlaceHasKey(key: Id -> int, c: Ctx, v: int, strict: bool, existed: Id, t: Tree)
    requires Place(key, c, v, strict) && Flat(t) == Lead(c) + [] + Trail(c) && (strict <==> existed == NULL)
    requires existed != NULL ==> existed in Ids(t) && key(existed) == v
    ensures existed != NULL <==> HasKey(key, Flat(t), v)
  {
    hide Flat, Lead, Trail, Ids;
    if existed != NULL { InFlat(t, existed, key); }
  }

  lemma PlaceBounds(key: Id -> int, c: Ctx, v: int, strict: bool)
    requires Place(key, c, v, strict)
    ensures AllLe(key, Lead(c), v) && AllGt(key, Trail(c), v)
  {
  }

  lemma AttachKept(h: Heap, h': Heap, c: Ctx, node: Id)
    requires c.In? && c.id in h && c.id > SENTINEL && node > SENTINEL
    requires h' == h[c.id := Set(h[c.id], c.side, node)][node := Cell(SENTINEL, SENTINEL, c.id, true)]
    ensures Kept(h, h', All(c, Node(Leaf, node, true, Leaf))) && (Nil(h) ==> Nil(h'))
    ensures All(c, Node(Leaf, node, true, Leaf)) == CtxIds(c) + {node}
  {
    OwnCtx(c);
    SmallFlat(node);
  }

  // ----- deletion: small facts -----

  /** The short node, possibly the sentinel, links to its parent. */
  ghost predicate Parented(h: Heap, c: Ctx, x: Id) {
    x in h && (c.In? ==> h[x].parent == c.id)
  }

  lemma SwungFacts(c: Ctx)
    requires c.In? && c.sib.Node?
    ensures SwungCtx(c).In? && SwungCtx(c).side == c.side && SwungCtx(c).id == c.id && SwungCtx(c).red
      && Depth(SwungCtx(c).up) == Depth(c)
  {
  }

  lemma StillParented(h: Heap, h': Heap, root: Id, c: Ctx, c': Ctx, t: Tree, x: Id, ids: set<Id>)
    requires Parented(h, c, x) && c.In? && c'.In? && c'.id == c.id && Zipped(h', root, c', t, x) && Kept(h, h', ids)
      && SENTINEL in h
    ensures Parented(h', c', x)
  {
    hide Zipped;
    BrotherAt(h', root, c', t, x);
  }

  lemma UpParented(h: Heap, root: Id, c: Ctx, t: Tree, x: Id)
    requires Zipped(h, root, c, t, x) && (t.Leaf? ==> c.Top? && SENTINEL in h)
    ensures Parented(h, c, x)
  {
  }

  lemma KidColour(h: Heap, root: Id, c: Ctx, t: Tree, x: Id)
    requires Zipped(h, root, c, t, x) && Nil(h) && t.Node?
    ensures x in h && h[x].left in h && h[x].right in h
    ensures h[h[x].left].red == IsRed(t.left) && h[h[x].right].red == IsRed(t.right)
  {
    hide RepCtx, Distinct, CtxDistinct;
    assert Rep(h, h[x].left, t.left) && Rep(h, h[x].right, t.right);
  }

  lemma SunkRed(c: Ctx, t: Tree)
    requires c.In? && c.sib.Node?
    ensures Sunk(c, t).Node? && (IsRed(Sunk(c, t)) <==> c.red)
  {
  }

  lemma AllTop(c: Ctx, t: Tree)
    ensures All(Top, Zip(c, t)) == All(c, t)
  {
    ZipIds(c, t);
  }

  lemma RedBlackShort(t: Tree)
    requires RedBlack(t)
    ensures Short(Top, t, Height(t)) && !IsRed(t)
  {
  }

  lemma ShortSeen(h: Heap, root: Id, c: Ctx, t: Tree, x: Id)
    requires Zipped(h, root, c, t, x) && Parented(h, c, x) && Nil(h)
    ensures x in h && (x == root <==> c.Top?) && (h[x].red <==> IsRed(t))
  {
    hide RepCtx, Distinct, CtxDistinct, CtxIds, Ids;
    if c.In? { RootOther(h, root, c, t, x); } else { TopRoot(h, root, t, x); }
  }

  lemma RootOther(h: Heap, root: Id, c: Ctx, t: Tree, x: Id)
    requires Zipped(h, root, c, t, x) && c.In?
    ensures x != root
  {
    hide Rep, RepCtx, Distinct, CtxDistinct, CtxIds, Ids;
    RootReal(h, root, c, x);
    RootAbove(h, root, c, x);
    LeafOrNode(h, root, c, t, x);
    OwnId(t);
  }

  /** Painting the last short node black, be it a node or the sentinel. */
  lemma BlackenAt(h: Heap, root: Id, c: Ctx, t: Tree, x: Id)
    requires Zipped(h, root, c, t, x) && Nil(h)
    ensures x in h
    ensures var h', t' := h[x := h[x].(red := false)], if t.Node? then Paint(t, false) else t;
      Zipped(h', root, c, t', x) && Nil(h') && Kept(h, h', All(c, t)) && All(c, t') == All(c, t)
  {
    hide Zipped, Distinct, CtxDistinct, CtxIds;
    LeafOrNode(h, root, c, t, x);
    if t.Node? {
      PaintAt(h, root, c, t, x, false);
      PaintDistinct(t, false);
      OwnId(t);
    } else {
      assert h[x := h[x].(red := false)] == h;
    }
  }

  /** The cell of a node that was taken out. */
  ghost predicate Unlinked(h: Heap, x: Id) {
    x in h && h[x].left == NULL && h[x].right == NULL && h[x].parent == NULL
  }

  /** Cells outside the tree are as before; the sentinel's parent may differ. */
  ghost predicate KeptOut(h: Heap, h': Heap, ids: set<Id>) {
    forall k :: k in h && k !in ids && k != SENTINEL ==> k in h' && h'[k] == h[k]
  }

  lemma {:induction false} LeftsDepth(cs: Ctx, c: Ctx)
    requires Lefts(cs, c)
    ensures Depth(c) <= Depth(cs)
    decreases cs
  {
    if cs != c { LeftsDepth(cs.up, c); }
  }

  lemma LeftsDown(cs: Ctx, c: Ctx, t: Tree)
    requires cs.In? && cs.side == L && Lefts(cs.up, c)
    ensures Lefts(cs, c) && ZipTo(cs, c, t) == ZipTo(cs.up, c, Mk(L, t, cs.id, cs.red, cs.sib))
  {
    LeftsDepth(cs.up, c);
  }

  lemma OnlyFacts(h: Heap, root: Id, c: Ctx, t: Tree, x: Id, child: Tree)
    requires Zipped(h, root, c, t, x) && OnlyChild(t, child) && Nil(h)
    ensures x == t.id && x > SENTINEL && x in h && (x == root <==> c.Top?) && Ptr(child) in h && Ptr(child) != x
      && (child.Node? ==> child.id > SENTINEL)
    ensures c.In? ==>
      && h[x].parent == c.id && c.id in h && c.id > SENTINEL && c.id != x && c.id != Ptr(child)
      && Get(h[c.id], c.side) == x && Get(h[c.id], Opp(c.side)) != x
    ensures x in All(c, t) && (child.Node? ==> child.id in All(c, t)) && (c.In? ==> c.id in All(c, t))
    ensures Flat(t.left) + Flat(t.right) == Flat(child)
  {
    hide Rep, RepCtx, Distinct, CtxDistinct, Ids, CtxIds;
    SeenAt(h, root, c, t, x);
    ChildIds(t, child);
    ChildRep(h, x, t, child);
    OwnId(t);
    OwnId(child);
    OwnCtx(c);
    ChildPtr(h, child);
  }

  lemma ChildPtr(h: Heap, t: Tree)
    requires Rep(h, Ptr(t), t)
    ensures t.Node? ==> t.id > SENTINEL && t.id in h
  {
  }

  /** The only child of the root, painted black, is a red-black tree. */
  lemma RootSplice(t: Tree, n: int, child: Tree)
    requires Good(Top, t, n) && OnlyChild(t, child)
    ensures Good(Top, if child.Node? then Paint(child, false) else child,
      Height(if child.Node? then Paint(child, false) else child))
  {
    SpliceShape(Top, t, n, child);
    ShortEnd(Top, child, n - 1);
    if child.Node? && child.red { BalHeight(Paint(child, false), n); } else { BalHeight(child, n - 1); }
  }

  /** The links above x, as the pointer writes need them. */
  ghost predicate Here(h: Heap, root: Id, c: Ctx, x: Id) {
    && x in h && (x == root <==> c.Top?)
    && (c.In? ==> h[x].parent == c.id && c.id in h && Get(h[c.id], c.side) == x && Get(h[c.id], Opp(c.side)) != x)
  }

  // ----- a node with two children -----

  ghost function Base(c: Ctx, t: Tree): Ctx
    requires t.Node?
  {
    In(R, t.id, t.red, t.left, c)
  }

  /** Node t below c has two children, and ts below cs is the first node of its right subtree. */
  ghost predicate Two(h: Heap, root: Id, c: Ctx, t: Tree, node: Id, cs: Ctx, ts: Tree, y: Id) {
    && Zipped(h, root, c, t, node) && Nil(h) && t.Node? && t.left.Node? && t.right.Node?
    && Lefts(cs, Base(c, t)) && ZipTo(cs, Base(c, t), ts) == t.right && Zipped(h, root, cs, ts, y) && ts.Node?
      && ts.left.Leaf?
  }

  /** The node and its subtrees without the successor. */
  ghost function Rest(c: Ctx, t: Tree, cs: Ctx, ts: Tree): Tree
    requires t.Node? && ts.Node? && Lefts(cs, Base(c, t))
  {
    Node(t.left, t.id, t.red, ZipTo(cs, Base(c, t), ts.right))
  }

  lemma TwoReady(h: Heap, root: Id, c: Ctx, t: Tree, node: Id, cs: Ctx, ts: Tree, y: Id)
    requires Two(h, root, c, t, node, cs, ts, y)
    ensures cs.In? && Here(h, root, cs, y) && y == ts.id && y > SENTINEL && y in h && h[y].right == Ptr(ts.right)
      && h[y].red == ts.red
    ensures Ptr(ts.right) in h && Ptr(ts.right) != y && Ptr(ts.right) != cs.id && cs.id != y && cs.id in h
      && cs.id > SENTINEL
    ensures ts.right.Node? ==> ts.right.id > SENTINEL
    ensures y != node && node == t.id && node > SENTINEL && node in CtxIds(cs) && y !in Ids(ts.right)
      && y !in CtxIds(cs)
    ensures ts.right.Node? ==> ts.right.id !in CtxIds(cs)
  {
    hide Zipped, Ids, CtxIds, Distinct, CtxDistinct, Rep, RepCtx, Flat;
    LeftsIn(cs, Base(c, t));
    OnlyFacts(h, root, cs, ts, y, ts.right);
    CellAt(h, root, cs, ts, y);
    CellAt(h, root, c, t, node);
    SeenAt(h, root, c, t, node);
    TwoApart(h, root, cs, ts, y);
  }

  lemma TwoApart(h: Heap, root: Id, cs: Ctx, ts: Tree, y: Id)
    requires Zipped(h, root, cs, ts, y) && ts.Node? && ts.left.Leaf?
    ensures y == ts.id && y !in Ids(ts.right) && y !in CtxIds(cs) && Ids(ts.right) !! CtxIds(cs)
    ensures ts.right.Node? ==> ts.right.id !in CtxIds(cs)
  {
    hide RepCtx, CtxDistinct, CtxIds;
    OwnId(ts.right);
  }

  lemma {:induction false} LeftsIn(cs: Ctx, base: Ctx)
    requires Lefts(cs, base) && base.In?
    ensures cs.In? && base.id in CtxIds(cs)
    decreases cs
  {
    if cs != base { LeftsIn(cs.up, base); }
  }

  /** The cells after the successor's child has moved up. */
  ghost predicate Swapped(h: Heap, h2: Heap, cs: Ctx, child: Id, node: Id, y: Id)
    requires cs.In? && cs.id in h && child in h
  {
    var h1 := h[cs.id := Set(h[cs.id], cs.side, child)];
    h2 == h1[child := h1[child].(parent := if cs.id == node then y else cs.id)]
  }

  /** With the successor spliced out, the rest of the tree is in place. */
  lemma RestZipped(h: Heap, root: Id, c: Ctx, t: Tree, node: Id, cs: Ctx, ts: Tree, y: Id)
    requires Two(h, root, c, t, node, cs, ts, y) && cs.In? && cs.id in h && Ptr(ts.right) in h && cs.id != Ptr(ts.right)
    ensures var h1 := SpliceMap(h, cs, Ptr(ts.right)); Zipped(h1, root, c, Rest(c, t, cs, ts), node)
    ensures y !in Ids(Rest(c, t, cs, ts)) && y !in CtxIds(c)
    ensures Ids(Rest(c, t, cs, ts)) + CtxIds(c) == Ids(t) + CtxIds(c) - {y}
    ensures y in Ids(t)
  {
    hide Zipped, Ids, CtxIds, Distinct, CtxDistinct, Rep, RepCtx, SpliceMap, Flat, Lefts, ZipTo;
    TwoReady(h, root, c, t, node, cs, ts, y);
    var h1, base, tc := SpliceMap(h, cs, Ptr(ts.right)), Base(c, t), ts.right;
    SpliceMapIs(h, cs, y, tc);
    SpliceAt(h, h1, root, cs, ts, y, tc);
    RiseTo(h1, root, cs, base, tc, Ptr(tc));
    MoveUp(h1, root, base, ZipTo(cs, base, tc), Ptr(ZipTo(cs, base, tc)));
    ZipToIds(cs, base, tc);
    ZipToIds(cs, base, ts);
    BaseIds(c, t, ZipTo(cs, base, tc));
    BaseIds(c, t, t.right);
    OwnId(ts);
    YInside(h, root, c, t, node, cs, ts, y);
  }

  lemma BaseIds(c: Ctx, t: Tree, r: Tree)
    requires t.Node?
    ensures Ids(Node(t.left, t.id, t.red, r)) + CtxIds(c) == Ids(r) + CtxIds(Base(c, t))
  {
  }

  lemma YInside(h: Heap, root: Id, c: Ctx, t: Tree, node: Id, cs: Ctx, ts: Tree, y: Id)
    requires Two(h, root, c, t, node, cs, ts, y) && y == ts.id
    ensures y in Ids(t)
  {
    hide Zipped, CtxIds, Distinct, CtxDistinct, Rep, RepCtx, Flat;
    InZipTo(cs, Base(c, t), ts, y);
    OwnId(ts);
  }

  lemma {:induction false} InZipTo(cs: Ctx, base: Ctx, t: Tree, y: Id)
    requires Lefts(cs, base) && y in Ids(t)
    ensures y in Ids(ZipTo(cs, base, t))
    decreases cs
  {
    if cs != base { InZipTo(cs.up, base, Mk(L, t, cs.id, cs.red, cs.sib), y); }
  }

  /** What the successor finds when it takes the node's place. */
  lemma TwoSpliced(h: Heap, h2: Heap, root: Id, c: Ctx, t: Tree, node: Id, cs: Ctx, ts: Tree, y: Id)
    requires Two(h, root, c, t, node, cs, ts, y) && cs.In? && cs.id in h && Ptr(ts.right) in h && cs.id != Ptr(ts.right)
    requires Swapped(h, h2, cs, Ptr(ts.right), node, y)
    ensures var tn := Rest(c, t, cs, ts);
      && Here(h2, root, c, node) && node > SENTINEL && y > SENTINEL && y != node
      && (c.In? ==> c.id > SENTINEL && c.id != node && c.id != y && c.id != Ptr(tn.left) && c.id != Ptr(tn.right))
      && h2[node].left == Ptr(tn.left) && h2[node].right == Ptr(tn.right)
      && (tn.left.Node? ==>
          && tn.left.id in h2 && tn.left.id > SENTINEL && tn.left.id != node && tn.left.id != y
          && tn.left.id != Ptr(tn.right))
      && (tn.right.Node? ==> tn.right.id in h2 && tn.right.id > SENTINEL && tn.right.id != node && tn.right.id != y)
  {
    hide Zipped, Ids, CtxIds, Distinct, CtxDistinct, Rep, RepCtx, Flat, Lefts, ZipTo;
    TwoReady(h, root, c, t, node, cs, ts, y);
    RestZipped(h, root, c, t, node, cs, ts, y);
    var h1, tn := SpliceMap(h, cs, Ptr(ts.right)), Rest(c, t, cs, ts);
    TnFacts(h1, root, c, tn, node);
    OwnCtx(c);
    ChildNotNode(h, root, c, t, node, cs, ts, y);
  }

  lemma ChildNotNode(h: Heap, root: Id, c: Ctx, t: Tree, node: Id, cs: Ctx, ts: Tree, y: Id)
    requires Two(h, root, c, t, node, cs, ts, y) && node > SENTINEL && node in CtxIds(cs)
      && (ts.right.Node? ==> ts.right.id !in CtxIds(cs))
    ensures Ptr(ts.right) != node
    ensures c.In? ==> Ptr(ts.right) != c.id && cs.In? && cs.id != c.id && c.id > SENTINEL
  {
    hide Ids, CtxIds, Rep, RepCtx, Flat, ZipTo;
    SeenAt(h, root, c, t, node);
    if c.In? { LeftsAbove(cs, Base(c, t)); }
  }

  lemma {:induction false} LeftsAbove(cs: Ctx, base: Ctx)
    requires Lefts(cs, base) && base.In? && base.up.In? && CtxDistinct(cs)
    ensures base.up.id in CtxIds(cs) && cs.In? && cs.id != base.up.id
    decreases cs
  {
    hide Ids;
    OwnCtx(base.up);
    if cs != base { LeftsAbove(cs.up, base); }
  }

  lemma TnFacts(h: Heap, root: Id, c: Ctx, t: Tree, x: Id)
    requires Zipped(h, root, c, t, x) && t.Node?
    ensures x == t.id && x in h && Here(h, root, c, x) && h[x].left == Ptr(t.left) && h[x].right == Ptr(t.right)
    ensures t.left.Node? ==>
      t.left.id in h && t.left.id > SENTINEL && t.left.id != x && t.left.id != Ptr(t.right) && t.left.id in Ids(t)
    ensures t.right.Node? ==> t.right.id in h && t.right.id > SENTINEL && t.right.id != x && t.right.id in Ids(t)
    ensures c.In? ==> c.id !in Ids(t) && c.id > SENTINEL && x !in CtxIds(c)
    ensures x in Ids(t)
  {
    hide RepCtx, CtxDistinct, CtxIds;
    CellAt(h, root, c, t, x);
    SeenAt(h, root, c, t, x);
    OwnId(t.left);
    OwnId(t.right);
    OwnCtx(c);
  }

  /** Only the first step below the node can have the node as parent. */
  lemma {:induction false} LeftsTop(cs: Ctx, base: Ctx)
    requires Lefts(cs, base) && base.In? && CtxDistinct(cs) && cs.In? && cs.id == base.id
    ensures cs == base
  {
    if cs != base { LeftsIn(cs.up, base); }
  }

  /** The successor in the node's place, seen from the hole it left. */
  lemma TwoDone(h: Heap, h2: Heap, h': Heap, root: Id, root': Id, c: Ctx, t: Tree, node: Id, cs: Ctx, ts: Tree, y: Id)
    requires Two(h, root, c, t, node, cs, ts, y) && cs.In? && cs.id in h && Ptr(ts.right) in h && cs.id != Ptr(ts.right)
    requires Swapped(h, h2, cs, Ptr(ts.right), node, y) && Renamed(h2, h', c, Rest(c, t, cs, ts), node, y)
    requires root' == (if c.Top? then y else root) && SENTINEL in h2 && SENTINEL in h' && h'[SENTINEL] == h2[SENTINEL]
    ensures var c' := Onto(cs, Base(c, t), In(R, y, t.red, t.left, c));
      && Zipped(h', root', c', ts.right, Ptr(ts.right)) && Nil(h') && Parented(h', c', Ptr(ts.right))
      && KeptOut(h, h', All(c, t)) && All(c', ts.right) == All(c, t) - {node}
  {
    hide Zipped, Ids, CtxIds, Distinct, CtxDistinct, Rep, RepCtx, Flat, Lefts, ZipTo, Onto, Renamed, Rest, SpliceMap,
      KeptOut, Parented, All;
    TwoReady(h, root, c, t, node, cs, ts, y);
    RestZipped(h, root, c, t, node, cs, ts, y);
    var tn, base, base', tc := Rest(c, t, cs, ts), Base(c, t), In(R, y, t.red, t.left, c), ts.right;
    var h1 := SpliceMap(h, cs, Ptr(tc));
    TwoRenamed(h, h1, h2, h', root, c, t, node, cs, ts, y);
    RestIs(c, t, cs, ts);
    RenameAt(h1, h', root, root', c, tn, node, y);
    MoveDown(h', root', c, Node(t.left, y, t.red, tn.right), y, R);
    PtrIs(h', root', base', tn.right, Get(h'[y], R));
    DownTo(h', root', cs, base, base', tc);
    TwoNil(h, h2, h', cs, Ptr(tc), node, y);
    TwoParented(h, h2, h', root', c, t, node, cs, ts, y, root);
    TwoKept(h, h1, h', root, c, t, node, cs, ts, y);
    TwoIds(h, root, c, t, node, cs, ts, y);
  }

  lemma RestIs(c: Ctx, t: Tree, cs: Ctx, ts: Tree)
    requires t.Node? && ts.Node? && Lefts(cs, Base(c, t))
    ensures var tn := Rest(c, t, cs, ts);
      tn.Node? && tn.left == t.left && tn.red == t.red && tn.id == t.id && tn.right == ZipTo(cs, Base(c, t), ts.right)
  {
  }

  lemma TwoRenamed(h: Heap, h1: Heap, h2: Heap, h': Heap, root: Id, c: Ctx, t: Tree, node: Id, cs: Ctx, ts: Tree, y: Id)
    requires Two(h, root, c, t, node, cs, ts, y) && cs.In? && cs.id in h && Ptr(ts.right) in h && cs.id != Ptr(ts.right)
    requires h1 == SpliceMap(h, cs, Ptr(ts.right))
    requires Swapped(h, h2, cs, Ptr(ts.right), node, y) && Renamed(h2, h', c, Rest(c, t, cs, ts), node, y)
    ensures Renamed(h1, h', c, Rest(c, t, cs, ts), node, y)
  {
    hide Zipped, Ids, CtxIds, Distinct, Rep, RepCtx, Flat, Lefts, ZipTo, Renamed, Rest;
    TwoReady(h, root, c, t, node, cs, ts, y);
    ChildNotNode(h, root, c, t, node, cs, ts, y);
    RestZipped(h, root, c, t, node, cs, ts, y);
    var tn, k := Rest(c, t, cs, ts), Ptr(ts.right);
    RestIs(c, t, cs, ts);
    TnFacts(h1, root, c, tn, node);
    TwoTop(h, root, c, t, node, cs, ts, y);
    var p := if cs.id == node then y else cs.id;
    assert h2 == h1[k := h1[k].(parent := p)];
    RenamedAnyway(h2, h1, h', c, tn, node, y, k, p);
  }

  lemma TwoTop(h: Heap, root: Id, c: Ctx, t: Tree, node: Id, cs: Ctx, ts: Tree, y: Id)
    requires Two(h, root, c, t, node, cs, ts, y) && cs.In?
    ensures cs.id == node ==> cs == Base(c, t) && Rest(c, t, cs, ts).right == ts.right
    ensures ts.right.Node? && t.left.Node? ==> t.left.id != ts.right.id
  {
    hide Rep, RepCtx, Flat;
    CellAt(h, root, c, t, node);
    if cs.id == node { LeftsTop(cs, Base(c, t)); }
    LeftsIn(cs, Base(c, t));
    LeftInside(cs, Base(c, t));
    OwnId(ts.right);
    OwnId(t.left);
  }

  lemma {:induction false} LeftInside(cs: Ctx, base: Ctx)
    requires Lefts(cs, base) && base.In?
    ensures Ids(base.sib) <= CtxIds(cs)
    decreases cs
  {
    if cs != base { LeftInside(cs.up, base); }
  }

  lemma TwoNil(h: Heap, h2: Heap, h': Heap, cs: Ctx, child: Id, node: Id, y: Id)
    requires Nil(h) && cs.In? && cs.id in h && child in h && Swapped(h, h2, cs, child, node, y) && cs.id > SENTINEL
    requires SENTINEL in h2 && SENTINEL in h' && h'[SENTINEL] == h2[SENTINEL]
    ensures Nil(h')
    ensures child == SENTINEL ==> h'[SENTINEL].parent == if cs.id == node then y else cs.id
  {
  }

  lemma TwoParented(h: Heap, h2: Heap, h': Heap, root': Id, c: Ctx, t: Tree, node: Id, cs: Ctx, ts: Tree, y: Id,
      root: Id)
    requires Two(h, root, c, t, node, cs, ts, y) && cs.In?
    requires var c' := Onto(cs, Base(c, t), In(R, y, t.red, t.left, c)); Zipped(h', root', c', ts.right, Ptr(ts.right))
    requires Nil(h') && (Ptr(ts.right) == SENTINEL ==> h'[SENTINEL].parent == if cs.id == node then y else cs.id)
    ensures var c' := Onto(cs, Base(c, t), In(R, y, t.red, t.left, c)); Parented(h', c', Ptr(ts.right))
  {
    hide Rep, Ids, CtxIds, Flat, RepCtx, ZipTo;
    CellAt(h, root, c, t, node);
    var c' := Onto(cs, Base(c, t), In(R, y, t.red, t.left, c));
    if ts.right.Node? {
      SeenAt(h', root', c', ts.right, ts.right.id);
    } else if cs.id == node {
      LeftsTop(cs, Base(c, t));
    }
  }

  lemma TwoKept(h: Heap, h1: Heap, h': Heap, root: Id, c: Ctx, t: Tree, node: Id, cs: Ctx, ts: Tree, y: Id)
    requires Two(h, root, c, t, node, cs, ts, y) && cs.In? && cs.id in h && Ptr(ts.right) in h && cs.id != Ptr(ts.right)
    requires h1 == SpliceMap(h, cs, Ptr(ts.right)) && Renamed(h1, h', c, Rest(c, t, cs, ts), node, y)
    ensures KeptOut(h, h', All(c, t))
  {
    hide Zipped, Ids, CtxIds, Distinct, CtxDistinct, Rep, RepCtx, Flat, Lefts, ZipTo, Rest;
    TwoReady(h, root, c, t, node, cs, ts, y);
    RestZipped(h, root, c, t, node, cs, ts, y);
    RestIs(c, t, cs, ts);
    TnFacts(h1, root, c, Rest(c, t, cs, ts), node);
    OwnCtx(c);
    TwoMembers(h, root, c, t, node, cs, ts, y);
  }

  lemma TwoMembers(h: Heap, root: Id, c: Ctx, t: Tree, node: Id, cs: Ctx, ts: Tree, y: Id)
    requires Two(h, root, c, t, node, cs, ts, y) && cs.In?
    ensures cs.id in All(c, t) && (ts.right.Node? ==> ts.right.id in All(c, t)) && y in All(c, t)
  {
    hide Zipped, Ids, CtxIds, Flat, Rep, RepCtx, Distinct, CtxDistinct, Lefts, ZipTo;
    ZipToIds(cs, Base(c, t), ts);
    BaseIds(c, t, t.right);
    OwnCtx(cs);
    OwnId(ts);
    ChildIds(ts, ts.right);
    OwnId(ts.right);
    CellAt(h, root, cs, ts, y);
  }

  lemma TwoIds(h: Heap, root: Id, c: Ctx, t: Tree, node: Id, cs: Ctx, ts: Tree, y: Id)
    requires Two(h, root, c, t, node, cs, ts, y) && cs.In?
    ensures All(Onto(cs, Base(c, t), In(R, y, t.red, t.left, c)), ts.right) == All(c, t) - {node}
  {
    hide Zipped, Ids, CtxIds, Flat, Rep, RepCtx, Distinct, CtxDistinct, Lefts, ZipTo, Onto;
    TwoReady(h, root, c, t, node, cs, ts, y);
    TwoParts(h, root, c, t, node, cs, ts, y);
    ZipToIds(cs, Base(c, t), ts);
    BaseIds(c, t, t.right);
    ChildIds(ts, ts.right);
    OntoIds(cs, Base(c, t), In(R, y, t.red, t.left, c));
  }

  lemma TwoParts(h: Heap, root: Id, c: Ctx, t: Tree, node: Id, cs: Ctx, ts: Tree, y: Id)
    requires Two(h, root, c, t, node, cs, ts, y)
    ensures CtxDistinct(cs) && Ids(ts) !! CtxIds(cs) && node == t.id && y == ts.id
    ensures t == Node(t.left, t.id, t.red, t.right) && OnlyChild(ts, ts.right) && ZipTo(cs, Base(c, t), ts) == t.right
    ensures Distinct(ts)
  {
    hide Ids, CtxIds, Flat, RepCtx, Lefts, ZipTo;
  }

  /** What the successor leaves: its child fits or is short of one black node, and the node is gone from the order. */
  lemma TwoShape(h: Heap, root: Id, c: Ctx, t: Tree, node: Id, n: int, cs: Ctx, ts: Tree, ns: int, y: Id)
    requires Two(h, root, c, t, node, cs, ts, y) && Good(cs, ts, ns)
    ensures var c' := Onto(cs, Base(c, t), In(R, y, t.red, t.left, c));
      && (ts.red ==> Good(c', ts.right, ns)) && (!ts.red ==> Short(c', ts.right, ns - 1))
      && Flat(Zip(c', ts.right)) == Lead(c) + (Flat(t.left) + Flat(t.right)) + Trail(c)
  {
    hide Zipped, Ids, CtxIds, Flat, Rep, RepCtx, Distinct, CtxDistinct, Lefts, ZipTo, Onto, Bal, Calm, CtxBal, CtxCalm,
      Lead, Trail;
    var base, base' := Base(c, t), In(R, y, t.red, t.left, c);
    TwoParts(h, root, c, t, node, cs, ts, y);
    SpliceShape(cs, ts, ns, ts.right);
    OntoShape(cs, base, base', ns);
    TwoFlat(c, t, cs, ts, y);
  }

  lemma TwoFlat(c: Ctx, t: Tree, cs: Ctx, ts: Tree, y: Id)
    requires t.Node? && ts.Node? && ts.left.Leaf? && y == ts.id && Lefts(cs, Base(c, t))
      && ZipTo(cs, Base(c, t), ts) == t.right
    ensures Flat(Zip(Onto(cs, Base(c, t), In(R, y, t.red, t.left, c)), ts.right)) == Lead(c)
      + (Flat(t.left) + Flat(t.right)) + Trail(c)
  {
    hide Flat, Zip, Lefts, ZipTo, Onto, Lead, Trail;
    var base, base' := Base(c, t), In(R, y, t.red, t.left, c);
    LeftsFlat(cs, base, base');
    ZipFlat(Onto(cs, base, base'), ts.right);
    ZipOnto(cs, base, base, ts);
    ZipFlat(cs, ts);
    ZipFlat(base, t.right);
    FirstFlat(ts);
    BaseFlat(c, t);
    BaseFlat(c, Node(t.left, y, t.red, t.right));
    Cancel(Lead(base), Flat(t.right), Trail(c), [y] + Flat(ts.right), Trail(cs));
    var a, f := Lead(c), Flat(t.left);
    assert (a + f + [y]) + Flat(ts.right) + Trail(cs) == a + f + (([y] + Flat(ts.right)) + Trail(cs));
    assert a + (f + Flat(t.right)) + Trail(c) == a + f + (Flat(t.right) + Trail(c));
  }

  lemma Cancel(p: seq<Id>, a: seq<Id>, b: seq<Id>, a': seq<Id>, b': seq<Id>)
    requires p + a + b == p + a' + b'
    ensures a + b == a' + b'
  {
    assert (p + a + b)[|p|..] == a + b;
    assert (p + a' + b')[|p|..] == a' + b';
  }

  lemma FirstFlat(t: Tree)
    requires t.Node? && t.left.Leaf?
    ensures Flat(t) == [t.id] + Flat(t.right)
  {
    assert Flat(t.left) == [];
  }

  lemma BaseFlat(c: Ctx, t: Tree)
    requires t.Node?
    ensures Lead(Base(c, t)) == Lead(c) + Flat(t.left) + [t.id] && Trail(Base(c, t)) == Trail(c)
  {
  }

  // ----- finding a node of the tree -----

  lemma {:induction false} Locate(h: Heap, root: Id, c: Ctx, t: Tree, x: Id, n: int, node: Id)
      returns (c': Ctx, t': Tree, n': int)
    requires Zipped(h, root, c, t, x) && Good(c, t, n) && node in Ids(t)
    ensures Zipped(h, root, c', t', node) && Good(c', t', n') && t'.Node? && t'.id == node && Zip(c', t') == Zip(c, t)
    decreases t
  {
    hide Zipped, Good;
    if t.id == node {
      CellAt(h, root, c, t, x);
      c', t', n' := c, t, n;
    } else {
      var s := if node in Ids(t.left) then L else R;
      MoveDown(h, root, c, t, x, s);
      GoodDown(c, t, n, s);
      KidMk(t, s);
      c', t', n' := Locate(h, root, In(s, t.id, t.red, Kid(t, Opp(s)), c), Kid(t, s), Get(h[x], s), Below(t.red, n),
        node);
    }
  }

  lemma TakeOut(key: Id -> int, a: seq<Id>, l: seq<Id>, x: Id, r: seq<Id>, b: seq<Id>)
    requires Sorted(key, a + (l + [x] + r) + b)
    ensures var s, i := a + (l + [x] + r) + b, |a| + |l|; s[i] == x && s[..i] + s[i + 1..] == a + (l + r) + b
    ensures Sorted(key, a + (l + r) + b)
  {
    var s, i := a + (l + [x] + r) + b, |a| + |l|;
    var s' := a + (l + r) + b;
    assert s[..i] == a + l && s[i + 1..] == r + b;
    forall p, q | 0 <= p < q < |s'|
      ensures key(s'[p]) <= key(s'[q])
    {
      assert s'[p] == s[if p < i then p else p + 1];
      assert s'[q] == s[if q < i then q else q + 1];
    }
  }

  lemma OutAfter(h: Heap, h1: Heap, h2: Heap, ids: set<Id>, ids': set<Id>, node: Id)
    requires KeptOut(h, h1, ids) && Unlinked(h1, node) && Kept(h1, h2, ids') && ids' == ids - {node} && node > SENTINEL
    ensures KeptOut(h, h2, ids) && Unlinked(h2, node)
  {
  }

  // ----- reading: what is found -----

  datatype Expect = ToLeft | Equal | ToRight | ToLeftEq | ToRightEq

  ghost predicate AllGe(key: Id -> int, s: seq<Id>, v: int) {
    forall i :: 0 <= i < |s| ==> v <= key(s[i])
  }

  function First(s: seq<Id>): Id {
    if s == [] then NULL else s[0]
  }

  function Last(s: seq<Id>): Id {
    if s == [] then NULL else s[|s| - 1]
  }

  /** x is what a scan of the ordered nodes finds on the expected side of v. */
  ghost predicate Found(key: Id -> int, s: seq<Id>, v: int, e: Expect, x: Id, i: nat) {
    if x == NULL then
      match e
      case Equal => !HasKey(key, s, v)
      case ToLeft => AllGe(key, s, v)
      case ToRight => AllLe(key, s, v)
      case ToLeftEq => AllGt(key, s, v)
      case ToRightEq => AllLt(key, s, v)
    else
      && i < |s| && s[i] == x
      && match e
         case Equal => key(x) == v
         case ToLeft => key(x) < v && AllGe(key, s[i + 1..], v)
         case ToRight => v < key(x) && AllLe(key, s[..i], v)
         case ToLeftEq => key(x) == v || (key(x) < v && AllGt(key, s[i + 1..], v))
         case ToRightEq => key(x) == v || (v < key(x) && AllLt(key, s[..i], v))
  }

  /** The nodes before and after the hole lie on their sides of v. */
  ghost predicate Split(key: Id -> int, c: Ctx, v: int, e: Expect) {
    && (if e == ToRight then AllLe(key, Lead(c), v) else AllLt(key, Lead(c), v))
    && (if e == ToLeft then AllGe(key, Trail(c), v) else AllGt(key, Trail(c), v))
  }

  lemma SplitTop(key: Id -> int, v: int, e: Expect)
    ensures Split(key, Top, v, e) && Lead(Top) == [] && Trail(Top) == []
  {
  }

  lemma SplitDown(key: Id -> int, c: Ctx, t: Tree, v: int, e: Expect, s: Side)
    requires t.Node? && Split(key, c, v, e) && Sorted(key, Flat(Zip(c, t)))
    requires if s == L then v < key(t.id) || (e == ToLeft && v == key(t.id))
      else key(t.id) < v || (e == ToRight && v == key(t.id))
    ensures var c' := In(s, t.id, t.red, Kid(t, Opp(s)), c);
      && Split(key, c', v, e)
      && (if s == L then First(Trail(c')) == t.id && Lead(c') == Lead(c)
        else Last(Lead(c')) == t.id && Trail(c') == Trail(c))
  {
    hide Flat, Zip;
    ZipFlat(c, t);
    var a, b, l, r := Lead(c), Trail(c), Flat(t.left), Flat(t.right);
    assert Flat(t) == l + [t.id] + r by { NodeFlat(t); }
    var all := a + (l + [t.id] + r) + b;
    var at := |a| + |l|;
    assert all[at] == t.id;
    if s == L {
      forall i | 0 <= i < |r| ensures key(t.id) <= key(r[i]) { assert all[at + 1 + i] == r[i]; }
    } else {
      forall i | 0 <= i < |l| ensures key(l[i]) <= key(t.id) { assert all[|a| + i] == l[i]; }
    }
  }

  lemma ZipDown(c: Ctx, t: Tree, s: Side)
    requires t.Node?
    ensures Zip(In(s, t.id, t.red, Kid(t, Opp(s)), c), Kid(t, s)) == Zip(c, t)
  {
    KidMk(t, s);
  }

  /** The position of a node in the order. */
  lemma At(c: Ctx, t: Tree, tree: Tree) returns (i: nat)
    requires t.Node? && Zip(c, t) == tree
    ensures i == |Lead(c)| + |Flat(t.left)| && i < |Flat(tree)| && Flat(tree)[i] == t.id
    ensures Flat(tree) == Lead(c) + (Flat(t.left) + [t.id] + Flat(t.right)) + Trail(c)
  {
    hide Flat, Zip, Lead, Trail;
    ZipFlat(c, t);
    NodeFlat(t);
    i := |Lead(c)| + |Flat(t.left)|;
  }

  lemma FoundAt(key: Id -> int, h: Heap, root: Id, c: Ctx, v: int, e: Expect, x: Id, tree: Tree) returns (i: nat)
    requires Split(key, c, v, e) && Zip(c, Leaf) == tree && Zipped(h, root, c, Leaf, SENTINEL)
    requires x == if e == ToLeft || e == ToLeftEq then Last(Lead(c)) else if e == Equal then NULL else First(Trail(c))
    ensures Found(key, Flat(tree), v, e, x, i)
  {
    hide Flat, Zip, Lead, Trail, Zipped;
    ZipFlat(c, Leaf);
    SmallFlat(0);
    var a, b, s := Lead(c), Trail(c), Flat(tree);
    assert s == a + b;
    NoNull(h, root, c);
    i := if e == ToLeft || e == ToLeftEq then (if a == [] then 0 else |a| - 1) else |a|;
    assert s[..|a|] == a && s[|a|..] == b;
  }

  /** NULL is not a node. */
  lemma NoNull(h: Heap, root: Id, c: Ctx)
    requires Zipped(h, root, c, Leaf, SENTINEL)
    ensures NULL !in Lead(c) && NULL !in Trail(c)
  {
    hide Rep, Flat, Ids, Distinct, CtxDistinct;
    NoNullCtx(h, root, c, SENTINEL);
  }

  lemma {:induction false} NoNullTree(h: Heap, x: Id, t: Tree)
    requires Rep(h, x, t)
    ensures NULL !in Flat(t)
    decreases t
  {
    if t.Node? {
      NoNullTree(h, h[x].left, t.left);
      NoNullTree(h, h[x].right, t.right);
      MemberThree(Flat(t.left), t.id, Flat(t.right), NULL);
    }
  }

  lemma {:induction false} NoNullCtx(h: Heap, root: Id, c: Ctx, x: Id)
    requires RepCtx(h, root, c, x)
    ensures NULL !in Lead(c) && NULL !in Trail(c)
    decreases c
  {
    hide Rep, Flat;
    if c.In? {
      NoNullCtx(h, root, c.up, c.id);
      NoNullTree(h, Get(h[c.id], Opp(c.side)), c.sib);
    }
  }

  /** A node of the tree is linked. */
  lemma InTreeLinked(h: Heap, root: Id, t: Tree, x: Id)
    requires Zipped(h, root, Top, t, root) && RedBlack(t)
    ensures x in Ids(t) ==> !Unlinked(h, x)
  {
    hide Zipped, RedBlack, Good;
    if x in Ids(t) {
      RedBlackGood(t);
      var c', t', n' := Locate(h, root, Top, t, root, Height(t), x);
      CellAt(h, root, c', t', x);
    }
  }

  lemma NextIs(c: Ctx, t: Tree, tree: Tree, i: nat)
    requires t.Node? && i == |Lead(c)| + |Flat(t.left)| && Flat(tree) == Lead(c)
      + (Flat(t.left) + [t.id] + Flat(t.right)) + Trail(c)
    ensures First(Flat(tree)[i + 1..]) == if t.right.Leaf? then First(Trail(c)) else First(Flat(t.right))
    ensures t.right.Node? ==> Flat(t.right) != []
  {
    hide Lead, Trail;
    var s := Flat(tree);
    assert s[i + 1..] == Flat(t.right) + Trail(c);
    if t.right.Leaf? { assert s[i + 1..] == Trail(c); }
  }

  /** The end of a chain of left branches comes first. */
  lemma {:induction false} FirstOf(cs: Ctx, base: Ctx, ts: Tree)
    requires Lefts(cs, base) && ts.Node?
    ensures ts.left.Leaf? ==> First(Flat(ZipTo(cs, base, ts))) == ts.id
    ensures First(Flat(ZipTo(cs, base, ts))) == First(Flat(ts)) && Flat(ts) != []
    decreases cs
  {
    if cs != base { FirstOf(cs.up, base, Mk(L, ts, cs.id, cs.red, cs.sib)); }
  }

  lemma LastOf(t: Tree)
    requires t.Node?
    ensures Flat(t) != [] && Last(Flat(t)) == if t.right.Leaf? then t.id else Last(Flat(t.right))
  {
  }

  lemma UpTrail(c: Ctx)
    ensures c.Top? ==> Trail(c) == []
    ensures c.In? ==> if c.side == L then First(Trail(c)) == c.id else Trail(c) == Trail(c.up)
  {
  }

  lemma ReplaceReady(h: Heap, root: Id, c: Ctx, t: Tree, x: Id, y: Id, tree: Tree)
    requires Zipped(h, root, c, t, x) && t.Node? && Zip(c, t) == tree && y !in Ids(tree) && y > SENTINEL
    ensures Here(h, root, c, x) && x > SENTINEL && y != x && y !in Ids(t) && y !in CtxIds(c)
    ensures c.In? ==> c.id > SENTINEL && c.id != x && c.id != y && c.id != Ptr(t.left) && c.id != Ptr(t.right)
    ensures h[x].left == Ptr(t.left) && h[x].right == Ptr(t.right)
    ensures t.left.Node? ==>
      t.left.id in h && t.left.id > SENTINEL && t.left.id != x && t.left.id != y && t.left.id != Ptr(t.right)
    ensures t.right.Node? ==> t.right.id in h && t.right.id > SENTINEL && t.right.id != x && t.right.id != y
  {
    hide Zipped, Ids, CtxIds, Zip;
    TnFacts(h, root, c, t, x);
    LeafOrNode(h, root, c, t, x);
    ZipIds(c, t);
    OwnCtx(c);
  }

  lemma ReplaceDone(h: Heap, h1: Heap, h2: Heap, root: Id, root': Id, c: Ctx, t: Tree, x: Id, y: Id, tree: Tree,
      n: int, i: nat, key: Id -> int)
    requires Zipped(h, root, c, t, x) && Nil(h) && t.Node? && Zip(c, t) == tree && y !in Ids(t) && y !in CtxIds(c)
      && y > SENTINEL && x > SENTINEL
    requires Renamed(h, h1, c, t, x, y) && root' == (if c.Top? then y else root) && Unlinked(h1, x)
    requires SENTINEL in h1 && h1[SENTINEL] == h[SENTINEL]
    requires h2 == h1[x := h1[x].(red := false)] && Good(c, t, n) && i == |Lead(c)| + |Flat(t.left)| && key(x) == key(y)
    requires Sorted(key, Flat(tree))
    ensures var tree' := Zip(c, Node(t.left, y, t.red, t.right));
      && Zipped(h2, root', Top, tree', root') && Nil(h2) && RedBlack(tree') && Unlinked(h2, x)
      && i < |Flat(tree)| && Flat(tree') == Flat(tree)[i := y] && Sorted(key, Flat(tree'))
        && Ids(tree') == Ids(tree) - {x} + {y}
  {
    hide Zipped, Ids, CtxIds, Zip, Flat, Lead, Trail, Sorted, Good, Renamed, Unlinked;
    OwnId(t);
    CellAt(h, root, c, t, x);
    var u := Node(t.left, y, t.red, t.right);
    RenamedAlso(h, h1, h2, root, c, t, x, y);
    RenameAt(h, h2, root, root', c, t, x, y);
    ZipUp(h2, root', c, u, y);
    GoodSame(c, t, u, n);
    GoodZip(c, u, n);
    ReplaceIds(h, root, c, t, x, y);
    ReplaceFlat(c, t, y, tree, i);
    SwapSorted(key, Flat(tree), i, y);
  }

  /** A replacement touches no cell outside the tree but the two nodes'. */
  lemma ReplaceKept(h: Heap, h1: Heap, h2: Heap, root: Id, c: Ctx, t: Tree, x: Id, y: Id)
    requires Zipped(h, root, c, t, x) && t.Node? && x != y && Renamed(h, h1, c, t, x, y) && Unlinked(h1, x)
    requires h2 == h1[x := h1[x].(red := false)]
    ensures KeptOut(h, h2, Ids(Zip(c, t)) + {y})
  {
    hide Zipped, Zip, Unlinked;
    CellAt(h, root, c, t, x);
    RenamedAlso(h, h1, h2, root, c, t, x, y);
    ZipIds(c, t);
    OwnCtx(c);
    KidOwn(t);
  }

  lemma KidOwn(t: Tree)
    requires t.Node?
    ensures t.id in Ids(t) && (t.left.Node? ==> t.left.id in Ids(t)) && (t.right.Node? ==> t.right.id in Ids(t))
  {
  }

  lemma ReplaceIds(h: Heap, root: Id, c: Ctx, t: Tree, x: Id, y: Id)
    requires Zipped(h, root, c, t, x) && t.Node? && y !in Ids(t) && y !in CtxIds(c)
    ensures Ids(Zip(c, Node(t.left, y, t.red, t.right))) == Ids(Zip(c, t)) - {x} + {y}
  {
    hide Zip, CtxIds, RepCtx, CtxDistinct;
    ZipIds(c, t);
    ZipIds(c, Node(t.left, y, t.red, t.right));
  }

  lemma ReplaceFlat(c: Ctx, t: Tree, y: Id, tree: Tree, i: nat)
    requires t.Node? && Zip(c, t) == tree && i == |Lead(c)| + |Flat(t.left)|
    ensures i < |Flat(tree)| && Flat(tree)[i] == t.id
    ensures Flat(Zip(c, Node(t.left, y, t.red, t.right))) == Flat(tree)[i := y]
  {
    hide Zip, Lead, Trail, Flat;
    var u := Node(t.left, y, t.red, t.right);
    ZipFlat(c, t);
    ZipFlat(c, u);
    FlatNode(t);
    FlatNode(u);
    SwapMiddle(Lead(c), Flat(t.left), t.id, Flat(t.right), Trail(c), y);
  }

  lemma FlatNode(t: Tree)
    requires t.Node?
    ensures Flat(t) == Flat(t.left) + [t.id] + Flat(t.right)
  {
  }

  lemma SwapMiddle(a: seq<Id>, l: seq<Id>, x: Id, r: seq<Id>, d: seq<Id>, y: Id)
    ensures var s := a + (l + [x] + r) + d; var i := |a| + |l|;
      i < |s| && s[i] == x && s[i := y] == a + (l + [y] + r) + d
  {
  }

  lemma RenamedAlso(h: Heap, h1: Heap, h2: Heap, root: Id, c: Ctx, t: Tree, x: Id, y: Id)
    requires Zipped(h, root, c, t, x) && t.Node? && x != y && Renamed(h, h1, c, t, x, y) && Unlinked(h1, x)
      && h2 == h1[x := h1[x].(red := false)]
    ensures Renamed(h, h2, c, t, x, y) && Unlinked(h2, x)
      && (SENTINEL in h1 && x != SENTINEL ==> SENTINEL in h2 && h2[SENTINEL] == h1[SENTINEL])
  {
    hide Zipped, Ids, CtxIds;
    TnFacts(h, root, c, t, x);
    OwnCtx(c);
  }

  lemma GoodSame(c: Ctx, t: Tree, u: Tree, n: int)
    requires Good(c, t, n) && t.Node? && u.Node? && u.left == t.left && u.right == t.right && u.red == t.red
    ensures Good(c, u, n)
  {
  }

  lemma SwapSorted(key: Id -> int, s: seq<Id>, i: nat, y: Id)
    requires Sorted(key, s) && i < |s| && key(s[i]) == key(y)
    ensures Sorted(key, s[i := y])
  {
  }
}
