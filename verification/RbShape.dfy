/** Black heights and colours: what makes a tree a red-black tree, and what the fixup steps do to it. */
module RbShape {
  import opened Powers
  import opened RbModel

  /** Every path down to a leaf meets n black nodes. */
  predicate Bal(t: Tree, n: int) {
    if t.Leaf? then n == 0 else Bal(t.left, Below(t.red, n)) && Bal(t.right, Below(t.red, n))
  }

  function Below(red: bool, n: int): int {
    if red then n else n - 1
  }

  function Above(red: bool, n: int): int {
    if red then n else n + 1
  }

  /** No red node has a red child. */
  predicate Calm(t: Tree) {
    t.Node? ==> (t.red ==> !IsRed(t.left) && !IsRed(t.right)) && Calm(t.left) && Calm(t.right)
  }

  /** The path fits a subtree of black height n. */
  predicate CtxBal(c: Ctx, n: int)
    decreases c
  {
    c.In? ==> Bal(c.sib, n) && CtxBal(c.up, Above(c.red, n))
  }

  /** The path is calm and ends in a black root. */
  predicate CtxCalm(c: Ctx) {
    c.In? ==> Calm(c.sib) && (c.red ==> !IsRed(c.sib) && c.up.In? && !c.up.red) && CtxCalm(c.up)
  }

  /** A red-black tree, seen from one of its subtrees. */
  predicate Good(c: Ctx, t: Tree, n: int) {
    && Bal(t, n) && CtxBal(c, n) && Calm(t) && CtxCalm(c)
    && (IsRed(t) ==> c.In? && !c.red)
  }

  /** Red-black: equal black heights, no red node under a red one, a black root. */
  predicate RedBlack(t: Tree) {
    !IsRed(t) && Calm(t) && Bal(t, Height(t))
  }

  /** Black height along the left edge. */
  function Height(t: Tree): int {
    if t.Leaf? then 0 else Above(t.red, Height(t.left))
  }

  lemma BalHeight(t: Tree, n: int)
    requires Bal(t, n)
    ensures n == Height(t) >= 0
  {
  }

  lemma BalMk(s: Side, near: Tree, id: Id, red: bool, far: Tree, n: int)
    ensures Bal(Mk(s, near, id, red, far), n) <==> Bal(near, Below(red, n)) && Bal(far, Below(red, n))
  {
  }

  lemma CalmMk(s: Side, near: Tree, id: Id, red: bool, far: Tree)
    ensures Calm(Mk(s, near, id, red, far)) <==> (red ==> !IsRed(near) && !IsRed(far)) && Calm(near) && Calm(far)
  {
  }

  lemma BalKid(t: Tree, s: Side, n: int)
    requires t.Node? && Bal(t, n)
    ensures Bal(Kid(t, s), Below(t.red, n)) && Bal(Kid(t, Opp(s)), Below(t.red, n))
  {
  }

  lemma CalmKid(t: Tree, s: Side)
    requires t.Node? && Calm(t)
    ensures Calm(Kid(t, s)) && Calm(Kid(t, Opp(s))) && (t.red ==> !IsRed(Kid(t, s)) && !IsRed(Kid(t, Opp(s))))
  {
  }

  // ----- moving the hole -----

  lemma GoodDown(c: Ctx, t: Tree, n: int, s: Side)
    requires Good(c, t, n) && t.Node?
    ensures Good(In(s, t.id, t.red, Kid(t, Opp(s)), c), Kid(t, s), Below(t.red, n))
  {
  }

  lemma GoodUp(c: Ctx, t: Tree, n: int)
    requires Good(c, t, n) && c.In?
    ensures Good(c.up, Mk(c.side, t, c.id, c.red, c.sib), Above(c.red, n))
  {
    BalMk(c.side, t, c.id, c.red, c.sib, Above(c.red, n));
    CalmMk(c.side, t, c.id, c.red, c.sib);
  }

  lemma {:induction false} GoodZip(c: Ctx, t: Tree, n: int)
    requires Good(c, t, n)
    ensures RedBlack(Zip(c, t))
    decreases c
  {
    hide Good;
    if c.In? {
      GoodUp(c, t, n);
      GoodZip(c.up, Mk(c.side, t, c.id, c.red, c.sib), Above(c.red, n));
    } else {
      GoodTop(c, t, n);
    }
  }

  lemma GoodTop(c: Ctx, t: Tree, n: int)
    requires Good(c, t, n) && c.Top?
    ensures RedBlack(t)
  {
    BalHeight(t, n);
  }

  lemma RedBlackGood(t: Tree)
    requires RedBlack(t)
    ensures Good(Top, t, Height(t))
  {
  }

  // ----- insertion -----

  /** The subtree is red and fits; only it and its parent may both be red. */
  predicate Rising(c: Ctx, t: Tree, n: int) {
    IsRed(t) && Calm(t) && Bal(t, n) && CtxBal(c, n) && CtxCalm(c)
  }

  lemma RisingStart(c: Ctx, id: Id)
    requires Good(c, Leaf, 0)
    ensures Rising(c, Node(Leaf, id, true, Leaf), 0)
  {
  }

  /** Parent and uncle red: they turn black, the grandparent red. */
  function Lifted(c: Ctx, t: Tree): Tree
    requires c.In? && c.up.In? && c.up.sib.Node?
  {
    var g := c.up;
    Mk(g.side, Mk(c.side, t, c.id, false, c.sib), g.id, true, Paint(g.sib, false))
  }

  lemma RisingLift(c: Ctx, t: Tree, n: int)
    requires Rising(c, t, n) && c.In? && c.red && c.up.In? && IsRed(c.up.sib)
    ensures Rising(c.up.up, Lifted(c, t), n + 1)
  {
    hide Mk;
    var g := c.up;
    assert CtxBal(g, n) && CtxCalm(g);
    assert Bal(Paint(g.sib, false), n + 1) && Calm(Paint(g.sib, false));
    BalMk(c.side, t, c.id, false, c.sib, n + 1);
    CalmMk(c.side, t, c.id, false, c.sib);
    BalMk(g.side, Mk(c.side, t, c.id, false, c.sib), g.id, true, Paint(g.sib, false), n + 1);
    CalmMk(g.side, Mk(c.side, t, c.id, false, c.sib), g.id, true, Paint(g.sib, false));
    MkRed(g.side, Mk(c.side, t, c.id, false, c.sib), g.id, true, Paint(g.sib, false));
    MkRed(c.side, t, c.id, false, c.sib);
  }

  lemma MkRed(s: Side, near: Tree, id: Id, red: bool, far: Tree)
    ensures IsRed(Mk(s, near, id, red, far)) == red
  {
  }

  /** A node on the inner side of its red parent changes places with it. */
  function TurnedCtx(c: Ctx, t: Tree): Ctx
    requires c.In? && c.up.In? && t.Node?
  {
    In(c.up.side, t.id, t.red, Kid(t, Opp(c.up.side)), c.up)
  }

  function Turned(c: Ctx, t: Tree): Tree
    requires c.In? && c.up.In? && t.Node?
  {
    Mk(c.up.side, c.sib, c.id, c.red, Kid(t, c.up.side))
  }

  lemma RisingTurn(c: Ctx, t: Tree, n: int)
    requires Rising(c, t, n) && c.In? && c.red && c.up.In? && c.side == Opp(c.up.side)
    ensures Rising(TurnedCtx(c, t), Turned(c, t), n) && TurnedCtx(c, t).red && TurnedCtx(c, t).up == c.up
      && TurnedCtx(c, t).side == c.up.side
  {
    hide Mk;
    var s := c.up.side;
    BalKid(t, s, n);
    CalmKid(t, s);
    BalMk(s, c.sib, c.id, true, Kid(t, s), n);
    CalmMk(s, c.sib, c.id, true, Kid(t, s));
    MkRed(s, c.sib, c.id, true, Kid(t, s));
  }

  /** The parent takes the grandparent's place. */
  function HoistedCtx(c: Ctx): Ctx
    requires c.In? && c.up.In?
  {
    var g := c.up;
    In(c.side, c.id, false, Mk(c.side, c.sib, g.id, true, g.sib), g.up)
  }

  lemma RisingHoist(c: Ctx, t: Tree, n: int)
    requires Rising(c, t, n) && c.In? && c.red && c.up.In? && c.side == c.up.side && !IsRed(c.up.sib)
    ensures Rising(HoistedCtx(c), t, n)
  {
    var g := c.up;
    assert CtxBal(g, n) && CtxCalm(g);
    BalMk(c.side, c.sib, g.id, true, g.sib, n);
    CalmMk(c.side, c.sib, g.id, true, g.sib);
  }

  lemma RisingEnd(c: Ctx, t: Tree, n: int)
    requires Rising(c, t, n)
    ensures c.In? && !c.red ==> Good(c, t, n)
    ensures c.Top? ==> Good(c, Paint(t, false), n + 1)
  {
  }

  // ----- the order of nodes is kept -----

  lemma SameFlat(c: Ctx, a: Tree, b: Tree)
    requires Flat(a) == Flat(b)
    ensures Flat(Zip(c, a)) == Flat(Zip(c, b))
  {
    hide Flat, Zip;
    ZipFlat(c, a);
    ZipFlat(c, b);
  }

  lemma PaintFlat(t: Tree, red: bool)
    requires t.Node?
    ensures Flat(Paint(t, red)) == Flat(t)
  {
  }

  lemma LiftFlat(c: Ctx, t: Tree)
    requires c.In? && c.up.In? && c.up.sib.Node?
    ensures Flat(Zip(c.up.up, Lifted(c, t))) == Flat(Zip(c, t))
  {
    var g := c.up;
    var p := Mk(c.side, t, c.id, c.red, c.sib);
    var tg := Mk(g.side, p, g.id, g.red, g.sib);
    assert Zip(c, t) == Zip(g.up, tg) by { assert Zip(g, p) == Zip(g.up, tg); }
    LiftFlatHere(c, t);
    SameFlat(g.up, Lifted(c, t), tg);
  }

  lemma LiftFlatHere(c: Ctx, t: Tree)
    requires c.In? && c.up.In? && c.up.sib.Node?
    ensures Flat(Lifted(c, t)) == Flat(Mk(c.up.side, Mk(c.side, t, c.id, c.red, c.sib), c.up.id, c.up.red, c.up.sib))
  {
    hide Flat, Mk;
    var g := c.up;
    MkFlat(c.side, t, c.id, c.red, c.sib);
    MkFlat(c.side, t, c.id, false, c.sib);
    MkFlat(g.side, Mk(c.side, t, c.id, c.red, c.sib), g.id, g.red, g.sib);
    MkFlat(g.side, Mk(c.side, t, c.id, false, c.sib), g.id, true, Paint(g.sib, false));
    PaintFlat(g.sib, false);
  }

  lemma TurnFlat(c: Ctx, t: Tree)
    requires c.In? && c.up.In? && t.Node? && c.side == Opp(c.up.side)
    ensures Flat(Zip(TurnedCtx(c, t), Turned(c, t))) == Flat(Zip(c, t))
  {
    var s := c.up.side;
    var p := Mk(c.side, t, c.id, c.red, c.sib);
    RotFlat(s, p);
    SameFlat(c.up, Rot(s, p), p);
    assert Mk(s, Turned(c, t), t.id, t.red, Kid(t, Opp(s))) == Rot(s, p);
  }

  lemma HoistFlat(c: Ctx, t: Tree)
    requires c.In? && c.up.In? && c.side == c.up.side
    ensures Flat(Zip(HoistedCtx(c), t)) == Flat(Zip(c, t))
  {
    var g, s := c.up, c.side;
    var p := Mk(s, t, c.id, c.red, c.sib);
    var tg := Mk(s, p, g.id, g.red, g.sib);
    assert Zip(c, t) == Zip(g.up, tg) by { assert Zip(g, p) == Zip(g.up, tg); }
    var up := Mk(s, t, c.id, false, Mk(s, c.sib, g.id, true, g.sib));
    assert Zip(HoistedCtx(c), t) == Zip(g.up, up);
    HoistFlatHere(c, t);
    SameFlat(g.up, up, tg);
  }

  lemma HoistFlatHere(c: Ctx, t: Tree)
    requires c.In? && c.up.In?
    ensures var g, s := c.up, c.side;
      Flat(Mk(s, t, c.id, false, Mk(s, c.sib, g.id, true, g.sib))) ==
        Flat(Mk(s, Mk(s, t, c.id, c.red, c.sib), g.id, g.red, g.sib))
  {
    hide Flat, Mk;
    var g, s := c.up, c.side;
    MkFlat(s, c.sib, g.id, true, g.sib);
    MkFlat(s, t, c.id, false, Mk(s, c.sib, g.id, true, g.sib));
    MkFlat(s, t, c.id, c.red, c.sib);
    MkFlat(s, Mk(s, t, c.id, c.red, c.sib), g.id, g.red, g.sib);
  }

  // ----- deletion -----

  /** The subtree lacks one black node; painting it black must not break anything. */
  predicate Short(c: Ctx, t: Tree, n: int) {
    && Bal(t, n) && CtxBal(c, n + 1) && CtxCalm(c)
    && Calm(if t.Node? then Paint(t, false) else t)
  }

  lemma ShortSibling(c: Ctx, t: Tree, n: int)
    requires Short(c, t, n) && c.In?
    ensures c.sib.Node? && n >= 0
  {
    BalHeight(t, n);
  }

  /** Red brother: it turns black and takes the parent's place. */
  function SwungCtx(c: Ctx): Ctx
    requires c.In? && c.sib.Node?
  {
    var w := c.sib;
    In(c.side, c.id, true, Kid(w, c.side), In(c.side, w.id, false, Kid(w, Opp(c.side)), c.up))
  }

  lemma ShortSwing(c: Ctx, t: Tree, n: int)
    requires Short(c, t, n) && c.In? && IsRed(c.sib)
    ensures Short(SwungCtx(c), t, n) && !IsRed(SwungCtx(c).sib)
  {
    BalKid(c.sib, c.side, n + 1);
    CalmKid(c.sib, c.side);
  }

  /** Black brother with black children: it turns red, and the parent is short. */
  function Sunk(c: Ctx, t: Tree): Tree
    requires c.In? && c.sib.Node?
  {
    Mk(c.side, t, c.id, c.red, Paint(c.sib, true))
  }

  lemma ShortSink(c: Ctx, t: Tree, n: int)
    requires Short(c, t, n) && c.In? && c.sib.Node? && !c.sib.red && !IsRed(t)
    requires !IsRed(c.sib.left) && !IsRed(c.sib.right)
    ensures Short(c.up, Sunk(c, t), Above(c.red, n))
  {
    var w := Paint(c.sib, true);
    BalMk(c.side, t, c.id, c.red, w, Above(c.red, n));
    CalmMk(c.side, t, c.id, false, w);
    assert Paint(Sunk(c, t), false) == Mk(c.side, t, c.id, false, w);
  }

  /** Black brother, only its near child red: the child takes its place. */
  function Bent(c: Ctx): Tree
    requires c.In? && c.sib.Node? && Kid(c.sib, c.side).Node?
  {
    var s, w := c.side, c.sib;
    var near := Kid(w, s);
    Mk(s, Kid(near, s), near.id, false, Mk(s, Kid(near, Opp(s)), w.id, true, Kid(w, Opp(s))))
  }

  lemma ShortBend(c: Ctx, t: Tree, n: int)
    requires Short(c, t, n) && c.In? && c.sib.Node? && !c.sib.red
    requires IsRed(Kid(c.sib, c.side)) && !IsRed(Kid(c.sib, Opp(c.side)))
    ensures Short(c.(sib := Bent(c)), t, n) && !Bent(c).red && Bent(c).Node? && IsRed(Kid(Bent(c), Opp(c.side)))
  {
    var s, w := c.side, c.sib;
    var near := Kid(w, s);
    BalKid(w, s, n + 1);
    CalmKid(w, s);
    BalKid(near, s, n);
    CalmKid(near, s);
    var low := Mk(s, Kid(near, Opp(s)), w.id, true, Kid(w, Opp(s)));
    BalMk(s, Kid(near, Opp(s)), w.id, true, Kid(w, Opp(s)), n);
    CalmMk(s, Kid(near, Opp(s)), w.id, true, Kid(w, Opp(s)));
    BalMk(s, Kid(near, s), near.id, false, low, n + 1);
    CalmMk(s, Kid(near, s), near.id, false, low);
  }

  /** Black brother, far child red: the brother takes the parent's place and colour, and nothing is short any more. */
  function Settled(c: Ctx, t: Tree): Tree
    requires c.In? && c.sib.Node? && Kid(c.sib, Opp(c.side)).Node?
  {
    var s, w := c.side, c.sib;
    Mk(s, Mk(s, t, c.id, false, Kid(w, s)), w.id, c.red, Paint(Kid(w, Opp(s)), false))
  }

  lemma ShortSettle(c: Ctx, t: Tree, n: int)
    requires Short(c, t, n) && c.In? && c.sib.Node? && !c.sib.red && !IsRed(t) && IsRed(Kid(c.sib, Opp(c.side)))
    ensures Good(c.up, Settled(c, t), Above(c.red, n + 1))
  {
    var s, w := c.side, c.sib;
    var near, far := Kid(w, s), Kid(w, Opp(s));
    BalKid(w, s, n + 1);
    CalmKid(w, s);
    BalMk(s, t, c.id, false, near, n + 1);
    CalmMk(s, t, c.id, false, near);
    MkRed(s, t, c.id, false, near);
    BalMk(s, Mk(s, t, c.id, false, near), w.id, c.red, Paint(far, false), Above(c.red, n + 1));
    CalmMk(s, Mk(s, t, c.id, false, near), w.id, c.red, Paint(far, false));
    MkRed(s, Mk(s, t, c.id, false, near), w.id, c.red, Paint(far, false));
  }

  lemma ShortEnd(c: Ctx, t: Tree, n: int)
    requires Short(c, t, n)
    ensures IsRed(t) ==> Good(c, Paint(t, false), n + 1)
    ensures c.Top? && t.Leaf? ==> Good(c, t, n)
    ensures c.Top? && t.Node? && !t.red ==> Good(c, t, n)
    ensures t.Node? && !t.red ==> Paint(t, false) == t
  {
  }

  /** Taking out a node with at most one child. */
  lemma SpliceShape(c: Ctx, t: Tree, n: int, child: Tree)
    requires Good(c, t, n) && t.Node? && ((t.left.Leaf? && child == t.right) || (t.right.Leaf? && child == t.left))
    ensures t.red ==> Good(c, child, n)
    ensures !t.red ==> Short(c, child, n - 1)
  {
    assert child.Node? && Calm(child) ==> Calm(Paint(child, false));
    if t.left.Leaf? { LeafHeight(t.right, Below(t.red, n)); } else { LeafHeight(t.left, Below(t.red, n)); }
  }

  lemma {:induction false} LeafHeight(t: Tree, n: int)
    requires Bal(t, n)
    ensures n == 0 && t.Node? ==> t.red
    ensures n == 0 && t.Node? && Calm(t) ==> t.left.Leaf? && t.right.Leaf?
  {
    if t.Node? {
      BalHeight(t.left, Below(t.red, n));
      if n == 0 && Calm(t) { LeafHeight(t.left, n); LeafHeight(t.right, n); }
    }
  }

  lemma SwingFlat(c: Ctx, t: Tree)
    requires c.In? && c.sib.Node?
    ensures Flat(Zip(SwungCtx(c), t)) == Flat(Zip(c, t))
  {
    var s, w := c.side, c.sib;
    var low := Mk(s, t, c.id, true, Kid(w, s));
    assert Zip(SwungCtx(c), t) == Zip(c.up, Mk(s, low, w.id, false, Kid(w, Opp(s)))) by {
      assert SwungCtx(c).up == In(s, w.id, false, Kid(w, Opp(s)), c.up);
      assert Zip(SwungCtx(c).up, low) == Zip(c.up, Mk(s, low, w.id, false, Kid(w, Opp(s))));
    }
    FlatAround(s, t, c.id, true, c.red, w, false);
    SameFlat(c.up, Mk(s, low, w.id, false, Kid(w, Opp(s))), Mk(s, t, c.id, c.red, w));
  }

  /** Turning a node over its far child keeps the order, whatever the colours. */
  lemma FlatAround(s: Side, t: Tree, id: Id, red: bool, red': bool, w: Tree, redw: bool)
    requires w.Node?
    ensures Flat(Mk(s, Mk(s, t, id, red, Kid(w, s)), w.id, redw, Kid(w, Opp(s)))) == Flat(Mk(s, t, id, red', w))
  {
    hide Flat, Mk, Kid;
    MkFlat(s, t, id, red, Kid(w, s));
    MkFlat(s, Mk(s, t, id, red, Kid(w, s)), w.id, redw, Kid(w, Opp(s)));
    MkFlat(s, t, id, red', w);
    KidMk(w, s);
    MkFlat(s, Kid(w, s), w.id, w.red, Kid(w, Opp(s)));
  }

  lemma SinkFlat(c: Ctx, t: Tree)
    requires c.In? && c.sib.Node?
    ensures Flat(Zip(c.up, Sunk(c, t))) == Flat(Zip(c, t))
  {
    MkFlat(c.side, t, c.id, c.red, c.sib);
    MkFlat(c.side, t, c.id, c.red, Paint(c.sib, true));
    PaintFlat(c.sib, true);
    SameFlat(c.up, Sunk(c, t), Mk(c.side, t, c.id, c.red, c.sib));
  }

  lemma BendFlat(c: Ctx, t: Tree)
    requires c.In? && c.sib.Node? && Kid(c.sib, c.side).Node?
    ensures Flat(Zip(c.(sib := Bent(c)), t)) == Flat(Zip(c, t))
  {
    hide Flat;
    var s, w := c.side, c.sib;
    var near := Kid(w, s);
    FlatAround(Opp(s), Kid(w, Opp(s)), w.id, true, w.red, near, false);
    assert Bent(c) == Mk(Opp(s), Mk(Opp(s), Kid(w, Opp(s)), w.id, true, Kid(near, Opp(s))), near.id, false,
      Kid(near, s));
    assert w == Mk(Opp(s), Kid(w, Opp(s)), w.id, w.red, near);
    MkFlat(s, t, c.id, c.red, w);
    MkFlat(s, t, c.id, c.red, Bent(c));
    SameFlat(c.up, Mk(s, t, c.id, c.red, Bent(c)), Mk(s, t, c.id, c.red, w));
  }

  lemma SettleFlat(c: Ctx, t: Tree)
    requires c.In? && c.sib.Node? && Kid(c.sib, Opp(c.side)).Node?
    ensures Flat(Zip(c.up, Settled(c, t))) == Flat(Zip(c, t))
  {
    hide Flat;
    var s, w := c.side, c.sib;
    var low, far := Mk(s, t, c.id, false, Kid(w, s)), Kid(w, Opp(s));
    FlatAround(s, t, c.id, false, c.red, w, c.red);
    PaintFlat(far, false);
    MkFlat(s, low, w.id, c.red, far);
    MkFlat(s, low, w.id, c.red, Paint(far, false));
    SameFlat(c.up, Settled(c, t), Mk(s, t, c.id, c.red, w));
  }

  // ----- height -----

  function Size(t: Tree): nat {
    if t.Leaf? then 0 else Size(t.left) + 1 + Size(t.right)
  }

  /** Nodes on the longest path. */
  function Levels(t: Tree): nat {
    if t.Leaf? then 0 else 1 + if Levels(t.left) > Levels(t.right) then Levels(t.left) else Levels(t.right)
  }

  lemma {:induction false} ManyNodes(t: Tree, n: nat)
    requires Bal(t, n)
    ensures Size(t) + 1 >= Pow2(n)
    decreases t
  {
    if t.Node? {
      BalHeight(t.left, Below(t.red, n));
      ManyNodes(t.left, Below(t.red, n));
      ManyNodes(t.right, Below(t.red, n));
    }
  }

  lemma {:induction false} FewLevels(t: Tree, n: nat)
    requires Bal(t, n) && Calm(t)
    ensures Levels(t) <= 2 * n + if IsRed(t) then 1 else 0
    decreases t
  {
    if t.Node? {
      BalHeight(t.left, Below(t.red, n));
      FewLevels(t.left, Below(t.red, n));
      FewLevels(t.right, Below(t.red, n));
    }
  }

  lemma {:induction false} Pow2Double(n: nat)
    ensures Pow2(2 * n) == Pow2(n) * Pow2(n)
  {
    if n > 0 {
      Pow2Double(n - 1);
      assert Pow2(2 * n) == 4 * Pow2(2 * (n - 1));
      Quadruple(Pow2(n - 1));
    }
  }

  lemma Quadruple(a: nat)
    ensures (2 * a) * (2 * a) == 4 * (a * a)
  {
  }

  lemma Squares(a: nat, b: nat)
    requires a <= b
    ensures a * a <= b * b
  {
  }

  /** n nodes have at most 2 log2(n + 1) levels. */
  lemma LevelsBound(t: Tree)
    requires RedBlack(t)
    ensures Pow2(Levels(t)) <= (Size(t) + 1) * (Size(t) + 1)
  {
    BalHeight(t, Height(t));
    var n := Height(t);
    ManyNodes(t, n);
    FewLevels(t, n);
    Pow2Mono(Levels(t), 2 * n);
    Pow2Double(n);
    Squares(Pow2(n), Size(t) + 1);
  }
}
