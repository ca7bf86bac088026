/**
  Red-black trees as values: a tree, a tree with a hole (the path from the root to a node), and the heap of linked cells
  that represents them.  Sides are symmetric: every definition is given once, for the side it works on.
 */
module RbModel {

  type Id = nat

  const NULL: Id := 0
  const SENTINEL: Id := 1

  datatype Side = L | R

  function Opp(s: Side): Side {
    if s == L then R else L
  }

  datatype Tree = Leaf | Node(left: Tree, id: Id, red: bool, right: Tree)

  /** The path from a hole up to the root: on which side of its parent the hole is, the parent, and the sibling. */
  datatype Ctx = Top | In(side: Side, id: Id, red: bool, sib: Tree, up: Ctx)

  function Kid(t: Tree, s: Side): Tree
    requires t.Node?
  {
    if s == L then t.left else t.right
  }

  /** A node with `near` on side s. */
  function Mk(s: Side, near: Tree, id: Id, red: bool, far: Tree): Tree {
    if s == L then Node(near, id, red, far) else Node(far, id, red, near)
  }

  function Zip(c: Ctx, t: Tree): Tree
    decreases c
  {
    if c.Top? then t else Zip(c.up, Mk(c.side, t, c.id, c.red, c.sib))
  }

  function Depth(c: Ctx): nat {
    if c.Top? then 0 else 1 + Depth(c.up)
  }

  function Rot(s: Side, t: Tree): Tree
    requires t.Node? && Kid(t, Opp(s)).Node?
  {
    var u := Kid(t, Opp(s));
    Mk(s, Mk(s, Kid(t, s), t.id, t.red, Kid(u, s)), u.id, u.red, Kid(u, Opp(s)))
  }

  function Paint(t: Tree, red: bool): Tree
    requires t.Node?
  {
    Node(t.left, t.id, red, t.right)
  }

  predicate IsRed(t: Tree) {
    t.Node? && t.red
  }

  // ----- the in-order sequence of nodes -----

  function Flat(t: Tree): seq<Id> {
    if t.Leaf? then [] else Flat(t.left) + [t.id] + Flat(t.right)
  }

  function Lead(c: Ctx): seq<Id> {
    if c.Top? then [] else if c.side == L then Lead(c.up) else Lead(c.up) + Flat(c.sib) + [c.id]
  }

  function Trail(c: Ctx): seq<Id> {
    if c.Top? then [] else if c.side == R then Trail(c.up) else [c.id] + Flat(c.sib) + Trail(c.up)
  }

  lemma {:induction false} ZipFlat(c: Ctx, t: Tree)
    ensures Flat(Zip(c, t)) == Lead(c) + Flat(t) + Trail(c)
    decreases c
  {
    hide Flat, Mk;
    if c.In? {
      ZipFlat(c.up, Mk(c.side, t, c.id, c.red, c.sib));
      MkFlat(c.side, t, c.id, c.red, c.sib);
      Regroup(Lead(c.up), Flat(t), [c.id], Flat(c.sib), Trail(c.up));
    }
  }

  lemma Regroup(a: seq<Id>, t: seq<Id>, x: seq<Id>, b: seq<Id>, d: seq<Id>)
    ensures a + (t + x + b) + d == a + t + (x + b + d)
    ensures a + (b + x + t) + d == (a + b + x) + t + d
  {
  }

  lemma MkFlat(s: Side, near: Tree, id: Id, red: bool, far: Tree)
    ensures Flat(Mk(s, near, id, red, far)) == if s == L then Flat(near) + [id] + Flat(far)
      else Flat(far) + [id] + Flat(near)
  {
  }

  lemma RotFlat(s: Side, t: Tree)
    requires t.Node? && Kid(t, Opp(s)).Node?
    ensures Flat(Rot(s, t)) == Flat(t)
  {
    var u := Kid(t, Opp(s));
    if s == L {
      assert Flat(t) == Flat(t.left) + [t.id] + (Flat(u.left) + [u.id] + Flat(u.right));
    } else {
      assert Flat(t) == (Flat(u.left) + [u.id] + Flat(u.right)) + [t.id] + Flat(t.right);
    }
  }

  // ----- the nodes, and that no node occurs twice -----

  function Ids(t: Tree): set<Id> {
    if t.Leaf? then {} else Ids(t.left) + {t.id} + Ids(t.right)
  }

  function CtxIds(c: Ctx): set<Id> {
    if c.Top? then {} else {c.id} + Ids(c.sib) + CtxIds(c.up)
  }

  ghost predicate Distinct(t: Tree) {
    t.Node? ==>
      && t.id !in Ids(t.left) && t.id !in Ids(t.right) && Ids(t.left) !! Ids(t.right)
      && Distinct(t.left) && Distinct(t.right)
  }

  ghost predicate CtxDistinct(c: Ctx) {
    c.In? ==>
      && c.id !in Ids(c.sib) && c.id !in CtxIds(c.up) && Ids(c.sib) !! CtxIds(c.up)
      && Distinct(c.sib) && CtxDistinct(c.up)
  }

  lemma KidIds(t: Tree, s: Side)
    requires t.Node?
    ensures Ids(t) == Ids(Kid(t, s)) + {t.id} + Ids(Kid(t, Opp(s)))
  {
  }

  lemma KidDistinct(t: Tree, s: Side)
    requires t.Node?
    ensures Distinct(t) <==>
      var a, b := Kid(t, s), Kid(t, Opp(s));
      t.id !in Ids(a) && t.id !in Ids(b) && Ids(a) !! Ids(b) && Distinct(a) && Distinct(b)
  {
  }

  lemma MkIds(s: Side, near: Tree, id: Id, red: bool, far: Tree)
    ensures Ids(Mk(s, near, id, red, far)) == Ids(near) + {id} + Ids(far)
  {
  }

  lemma MkDistinct(s: Side, near: Tree, id: Id, red: bool, far: Tree)
    ensures Distinct(Mk(s, near, id, red, far)) <==>
      id !in Ids(near) && id !in Ids(far) && Ids(near) !! Ids(far) && Distinct(near) && Distinct(far)
  {
  }

  lemma OwnId(t: Tree)
    ensures t.Node? ==> t.id in Ids(t)
  {
  }

  // ----- the linked cells -----

  datatype Cell = Cell(left: Id, right: Id, parent: Id, red: bool)

  type Heap = map<Id, Cell>

  function Get(c: Cell, s: Side): Id {
    if s == L then c.left else c.right
  }

  function Set(c: Cell, s: Side, x: Id): Cell {
    if s == L then c.(left := x) else c.(right := x)
  }

  /** The child links back to its parent. */
  ghost predicate Linked(h: Heap, t: Tree, p: Id) {
    t.Node? ==> t.id in h && h[t.id].parent == p
  }

  /** The cells reachable from x form the tree t, with parent links inside it. */
  ghost predicate Rep(h: Heap, x: Id, t: Tree)
    decreases t
  {
    if t.Leaf? then x == SENTINEL
    else
      && x == t.id && x > SENTINEL && x in h && h[x].red == t.red
      && Linked(h, t.left, x) && Linked(h, t.right, x)
      && Rep(h, h[x].left, t.left) && Rep(h, h[x].right, t.right)
  }

  /** The cells above x form the path c up to the root; the parent of the root is left open. */
  ghost predicate RepCtx(h: Heap, root: Id, c: Ctx, x: Id)
    decreases c
  {
    if c.Top? then root == x
    else
      && c.id > SENTINEL && c.id in h && h[c.id].red == c.red && Get(h[c.id], c.side) == x
      && Linked(h, c.sib, c.id) && Rep(h, Get(h[c.id], Opp(c.side)), c.sib)
      && (c.up.In? ==> h[c.id].parent == c.up.id) && RepCtx(h, root, c.up, c.id)
  }

  ghost predicate Zipped(h: Heap, root: Id, c: Ctx, t: Tree, x: Id) {
    && Rep(h, x, t) && RepCtx(h, root, c, x) && (c.In? ==> Linked(h, t, c.id))
    && Distinct(t) && CtxDistinct(c) && Ids(t) !! CtxIds(c)
  }

  /** The sentinel is always black; its parent is scratch space. */
  ghost predicate Nil(h: Heap) {
    SENTINEL in h && !h[SENTINEL].red
  }

  // ----- moving the hole -----

  lemma KidMk(t: Tree, s: Side)
    requires t.Node?
    ensures Mk(s, Kid(t, s), t.id, t.red, Kid(t, Opp(s))) == t
  {
  }

  lemma MoveUp(h: Heap, root: Id, c: Ctx, t: Tree, x: Id)
    requires c.In? && Zipped(h, root, c, t, x)
    ensures Zipped(h, root, c.up, Mk(c.side, t, c.id, c.red, c.sib), c.id)
  {
    hide Rep, RepCtx, Distinct, CtxDistinct, Linked;
    UnfoldCtx(h, root, c, x);
    FoldRep(h, c.id, Mk(c.side, t, c.id, c.red, c.sib));
    FoldDistinct(c, t);
  }

  lemma UnfoldCtx(h: Heap, root: Id, c: Ctx, x: Id)
    requires c.In? && RepCtx(h, root, c, x)
    ensures c.id > SENTINEL && c.id in h && h[c.id].red == c.red && Get(h[c.id], c.side) == x
    ensures Linked(h, c.sib, c.id) && Rep(h, Get(h[c.id], Opp(c.side)), c.sib)
    ensures (c.up.In? ==> h[c.id].parent == c.up.id && Linked(h, Mk(c.side, Leaf, c.id, c.red, c.sib), c.up.id))
      && RepCtx(h, root, c.up, c.id)
    ensures c.up.In? ==> forall t :: Linked(h, Mk(c.side, t, c.id, c.red, c.sib), c.up.id)
  {
  }

  lemma FoldRep(h: Heap, x: Id, t: Tree)
    requires t.Node? && x == t.id && x > SENTINEL && x in h && h[x].red == t.red
    requires Linked(h, t.left, x) && Linked(h, t.right, x) && Rep(h, h[x].left, t.left) && Rep(h, h[x].right, t.right)
    ensures Rep(h, x, t)
  {
  }

  lemma FoldDistinct(c: Ctx, t: Tree)
    requires c.In? && Distinct(t) && CtxDistinct(c) && Ids(t) !! CtxIds(c)
    ensures var u := Mk(c.side, t, c.id, c.red, c.sib);
      && Distinct(u) && CtxDistinct(c.up) && Ids(u) !! CtxIds(c.up) && Ids(u) == Ids(t) + {c.id} + Ids(c.sib)
  {
  }

  lemma MoveDown(h: Heap, root: Id, c: Ctx, t: Tree, x: Id, s: Side)
    requires t.Node? && Zipped(h, root, c, t, x)
    ensures x in h && Zipped(h, root, In(s, t.id, t.red, Kid(t, Opp(s)), c), Kid(t, s), Get(h[x], s))
  {
  }

  /** The whole tree, seen from the root. */
  lemma {:induction false} ZipUp(h: Heap, root: Id, c: Ctx, t: Tree, x: Id)
    requires Zipped(h, root, c, t, x)
    ensures Zipped(h, root, Top, Zip(c, t), root)
    decreases c
  {
    hide Zipped;
    if c.In? {
      MoveUp(h, root, c, t, x);
      ZipUp(h, root, c.up, Mk(c.side, t, c.id, c.red, c.sib), c.id);
    } else {
      TopRoot(h, root, t, x);
    }
  }

  lemma TopRoot(h: Heap, root: Id, t: Tree, x: Id)
    requires Zipped(h, root, Top, t, x)
    ensures root == x
  {
  }
}
