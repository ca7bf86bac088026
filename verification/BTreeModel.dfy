/**
  The B-tree: nodes hold entries in order of key, then value, and one more child than entries above the
  leaves.  The minimum degree t is a parameter; the library uses t = 8.
 */
module BTreeModel {

  type U64 = x: nat | x < 0x1_0000_0000_0000_0000

  /** A search value that stands for any value. */
  const ANY: U64 := 0xffff_ffff_ffff_ffff

  datatype Entry = Entry(k: U64, v: U64)

  datatype Node = Node(es: seq<Entry>, kids: seq<Node>)

  datatype Flag = First | Last

  /** What is looked for: a key and a value, ANY if values are not compared. */
  datatype Query = Query(k: U64, v: U64)

  datatype Outcome = Found(e: Entry) | Missing

  function Max(t: nat): int { 2 * t - 1 }
  function Min(t: nat): int { t - 1 }

  // ----- order -----

  /** e comes before everything that matches q. */
  predicate Below(e: Entry, q: Query) {
    q.k > e.k || (q.k == e.k && q.v != ANY && q.v > e.v)
  }

  /** e comes after everything that matches q. */
  predicate Above(e: Entry, q: Query) {
    q.k < e.k || (q.k == e.k && q.v != ANY && q.v < e.v)
  }

  predicate Matches(e: Entry, q: Query) {
    e.k == q.k && (q.v == ANY || e.v == q.v)
  }

  predicate Le(a: Entry, b: Entry) {
    a.k < b.k || (a.k == b.k && a.v <= b.v)
  }

  predicate Sorted(s: seq<Entry>) {
    forall i, j :: 0 <= i < j < |s| ==> Le(s[i], s[j])
  }

  // ----- the tree as a sequence, and its shape -----

  /** The in-order sequence of a node at the given level. */
  function Flat(n: Node, level: nat): seq<Entry>
    decreases level, 0, 0
  {
    if level == 0 || |n.kids| == 0 then n.es else Flat(n.kids[0], level - 1) + Trail(n.es, n.kids[1..], level - 1)
  }

  /** Entries, each followed by the subtree to its right. */
  function Trail(es: seq<Entry>, kids: seq<Node>, level: nat): seq<Entry>
    decreases level, 1, |es|
  {
    if es == [] || kids == [] then [] else [es[0]] + Flat(kids[0], level) + Trail(es[1..], kids[1..], level)
  }

  /** Subtrees, each followed by the entry to its right. */
  function Lead(es: seq<Entry>, kids: seq<Node>, level: nat): seq<Entry>
    decreases level, 1, |es|
  {
    if es == [] || kids == [] then [] else Flat(kids[0], level) + [es[0]] + Lead(es[1..], kids[1..], level)
  }

  /** n has one child more than entries, if it has children at all. */
  predicate Fits(n: Node, level: nat) {
    if level == 0 then n.kids == [] else |n.kids| == |n.es| + 1
  }

  /** All leaves at the same depth; key bounds everywhere, with no lower bound on n itself. */
  predicate Shape(t: nat, n: Node, level: nat): (ok: bool)
    ensures ok ==> Fits(n, level) && |n.es| <= Max(t)
    decreases level
  {
    && |n.es| <= Max(t)
    && if level == 0 then n.kids == []
       else |n.kids| == |n.es| + 1 && forall i :: 0 <= i < |n.kids| ==>
         Shape(t, n.kids[i], level - 1) && |n.kids[i].es| >= Min(t)
  }

  // ----- node operations -----

  function Insert<T>(s: seq<T>, i: nat, x: T): seq<T>
    requires i <= |s|
  {
    s[..i] + [x] + s[i..]
  }

  function Remove<T>(s: seq<T>, i: nat): seq<T>
    requires i < |s|
  {
    s[..i] + s[i + 1..]
  }

  /** The part of a node left of entry m, and the part right of it. */
  function LeftPart(n: Node, m: nat, level: nat): Node
    requires m <= |n.es| && (level > 0 ==> m < |n.kids|)
  {
    Node(n.es[..m], if level > 0 then n.kids[..m + 1] else [])
  }

  function RightPart(n: Node, m: nat, level: nat): Node
    requires m < |n.es| && (level > 0 ==> m < |n.kids|)
  {
    Node(n.es[m + 1..], if level > 0 then n.kids[m + 1..] else [])
  }

  function Join(l: Node, e: Entry, r: Node): Node {
    Node(l.es + [e] + r.es, l.kids + r.kids)
  }

  /** Splits the full child i around its middle entry, which moves up. */
  function SplitChild(t: nat, n: Node, i: nat, level: nat): Node
    requires t >= 2 && level > 0 && i < |n.kids| && i <= |n.es| && |n.kids[i].es| == Max(t)
      && Fits(n.kids[i], level - 1)
  {
    var c, mid := n.kids[i], Min(t);
    Node(Insert(n.es, i, c.es[mid]),
      Insert(n.kids[i := LeftPart(c, mid, level - 1)], i + 1, RightPart(c, mid, level - 1)))
  }

  predicate CanMerge(t: nat, n: Node, i: int) {
    0 <= i < |n.es| && i + 1 < |n.kids| && |n.kids[i].es| == Min(t) && |n.kids[i + 1].es| == Min(t)
  }

  /** Children i and i + 1 and the entry between them become one child. */
  function Merge(n: Node, i: nat): Node
    requires i < |n.es| && i + 1 < |n.kids|
  {
    Node(Remove(n.es, i), Remove(n.kids, i + 1)[i := Join(n.kids[i], n.es[i], n.kids[i + 1])])
  }

  predicate CanRotateLeft(t: nat, n: Node, i: int) {
    0 <= i < |n.es| && i + 1 < |n.kids| && |n.kids[i].es| < Max(t) && |n.kids[i + 1].es| > Min(t)
  }

  /** Entry i goes down to the left child's end, the right child's first entry comes up. */
  function RotateLeft(n: Node, i: nat, level: nat): Node
    requires level > 0 && i < |n.es| && i + 1 < |n.kids| && |n.kids[i + 1].es| > 0 && Fits(n.kids[i + 1], level - 1)
  {
    var l, r := n.kids[i], n.kids[i + 1];
    var l' := Node(l.es + [n.es[i]], if level > 1 then l.kids + [r.kids[0]] else []);
    var r' := Node(r.es[1..], if level > 1 then r.kids[1..] else []);
    Node(n.es[i := r.es[0]], n.kids[i := l'][i + 1 := r'])
  }

  predicate CanRotateRight(t: nat, n: Node, i: int) {
    0 <= i < |n.es| && i + 1 < |n.kids| && |n.kids[i].es| > Min(t) && |n.kids[i + 1].es| < Max(t)
  }

  function RotateRight(n: Node, i: nat, level: nat): Node
    requires level > 0 && i < |n.es| && i + 1 < |n.kids| && |n.kids[i].es| > 0 && Fits(n.kids[i], level - 1)
  {
    var l, r := n.kids[i], n.kids[i + 1];
    var l' := Node(l.es[..|l.es| - 1], if level > 1 then l.kids[..|l.kids| - 1] else []);
    var r' := Node([n.es[i]] + r.es, if level > 1 then [l.kids[|l.kids| - 1]] + r.kids else []);
    Node(n.es[i := l.es[|l.es| - 1]], n.kids[i := l'][i + 1 := r'])
  }
}
