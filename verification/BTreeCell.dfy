/**
  B-tree nodes in memory: arrays of entries and of child pointers with a count.  The loops that shift, split, merge and
  rotate do on the arrays what the functions of the model do on sequences.
 */
module BTreeCells {
  import opened BTreeModel

  /** Moves the elements from lo up to hi one place right, the last one first. */
  method MoveRight<T>(a: array<T>, lo: nat, hi: nat)
    requires lo <= hi < a.Length
    modifies a
    ensures forall j :: 0 <= j < a.Length ==> a[j] == if lo < j <= hi then old(a[j - 1]) else old(a[j])
  {
    var i: int := hi - 1;
    while i >= lo
      invariant lo - 1 <= i < hi
      invariant forall j :: 0 <= j < a.Length ==> a[j] == if i + 1 < j <= hi then old(a[j - 1]) else old(a[j])
    {
      a[i + 1] := a[i];
      i := i - 1;
    }
  }

  /** Moves the elements behind lo up to hi one place left, over element lo. */
  method MoveLeft<T>(a: array<T>, lo: nat, hi: nat)
    requires lo < hi <= a.Length
    modifies a
    ensures forall j :: 0 <= j < a.Length ==> a[j] == if lo <= j < hi - 1 then old(a[j + 1]) else old(a[j])
  {
    var i := lo;
    while i < hi - 1
      invariant lo <= i <= hi - 1
      invariant forall j :: 0 <= j < a.Length ==> a[j] == if lo <= j < i then old(a[j + 1]) else old(a[j])
    {
      a[i] := a[i + 1];
      i := i + 1;
    }
  }

  /** Copies cnt elements of b from `from` on to a from `to` on. */
  method Copy<T>(a: array<T>, to: nat, b: array<T>, from: nat, cnt: nat)
    requires a != b && to + cnt <= a.Length && from + cnt <= b.Length
    modifies a
    ensures forall j :: 0 <= j < a.Length ==> a[j] == if to <= j < to + cnt then b[from + j - to] else old(a[j])
  {
    var i := 0;
    while i < cnt
      invariant 0 <= i <= cnt && b[..] == old(b[..])
      invariant forall j :: 0 <= j < a.Length ==> a[j] == if to <= j < to + i then b[from + j - to] else old(a[j])
    {
      a[to + i] := b[from + i];
      i := i + 1;
    }
  }

  lemma LeftMoved<T>(a: seq<T>, b: seq<T>, lo: nat, hi: nat)
    requires lo < hi <= |a| && |a| == |b|
    requires (forall j :: 0 <= j < lo ==> b[j] == a[j]) && (forall j :: lo <= j < hi - 1 ==> b[j] == a[j + 1])
    ensures b[..hi - 1] == Remove(a[..hi], lo)
  {
    var x, y := b[..hi - 1], Remove(a[..hi], lo);
    forall j | 0 <= j < hi - 1 ensures x[j] == y[j] {
      assert x[j] == b[j];
      if j < lo { assert y[j] == a[j]; } else { assert y[j] == a[j + 1]; }
    }
  }

  lemma RightMoved<T>(a: seq<T>, b: seq<T>, lo: nat, hi: nat, x: T)
    requires lo <= hi < |a| && |a| == |b| && b[lo] == x
    requires (forall j :: 0 <= j < lo ==> b[j] == a[j]) && (forall j :: lo < j <= hi ==> b[j] == a[j - 1])
    ensures b[..hi + 1] == Insert(a[..hi], lo, x)
  {
    var y, z := b[..hi + 1], Insert(a[..hi], lo, x);
    forall j | 0 <= j <= hi ensures y[j] == z[j] {
      assert y[j] == b[j];
      if j < lo { assert z[j] == a[j]; } else if j > lo { assert z[j] == a[j - 1]; }
    }
  }

  class Cell {
    var n: nat
    const es: array<Entry>
    const kids: array<Cell?>

    /** The count fits the arrays. */
    predicate Ok(t: nat)
      reads this
    {
      t >= 2 && es.Length == Max(t) && kids.Length == Max(t) + 1 && n <= Max(t)
    }

    ghost function Entries(): seq<Entry>
      requires n <= es.Length
      reads this, es
    {
      es[..n]
    }

    ghost function Refs(): seq<Cell?>
      requires n < kids.Length
      reads this, kids
    {
      kids[..n + 1]
    }

    constructor (t: nat, fill: Entry)
      requires t >= 2
      ensures Ok(t) && n == 0 && fresh(es) && fresh(kids)
    {
      n := 0;
      es := new Entry[Max(t)](_ => fill);
      kids := new Cell?[Max(t) + 1](_ => null);
    }

    /** Moves the entries from `from` on, and the children right of them, one place right. */
    method ShiftRight(t: nat, from: nat, level: nat)
      requires Ok(t) && n < Max(t) && from <= n
      modifies this`n, es, kids
      ensures Ok(t) && n == old(n) + 1
      ensures forall j :: 0 <= j < es.Length ==> es[j] == if from < j < n then old(es[j - 1]) else old(es[j])
      ensures forall j :: 0 <= j < kids.Length ==>
        kids[j] == if level > 0 && from + 1 < j <= n then old(kids[j - 1]) else old(kids[j])
    {
      MoveRight(es, from, n);
      if level > 0 {
        MoveRight(kids, from + 1, n + 1);
      }
      n := n + 1;
    }

    /** Removes entry `from` and the child right of it. */
    method ShiftLeft(t: nat, from: nat, level: nat)
      requires Ok(t) && from < n
      modifies this`n, es, kids
      ensures Ok(t) && n == old(n) - 1 && Entries() == Remove(old(Entries()), from)
      ensures level > 0 ==> Refs() == Remove(old(Refs()), from + 1)
    {
      hide Remove;
      MoveLeft(es, from, n);
      LeftMoved(old(es[..]), es[..], from, n);
      if level > 0 {
        MoveLeft(kids, from + 1, n + 1);
        kids[n] := null;
        LeftMoved(old(kids[..]), kids[..], from + 1, n + 1);
      }
      n := n - 1;
    }

    /** Adds an entry at `at` and the child right of it. */
    method AddToNode(t: nat, at: nat, e: Entry, child: Cell?, level: nat)
      requires Ok(t) && n < Max(t) && at <= n
      modifies this`n, es, kids
      ensures Ok(t) && n == old(n) + 1 && Entries() == Insert(old(Entries()), at, e)
      ensures level > 0 ==> Refs() == Insert(old(Refs()), at + 1, child)
    {
      hide Insert;
      ShiftRight(t, at, level);
      es[at] := e;
      RightMoved(old(es[..]), es[..], at, old(n), e);
      if level > 0 {
        kids[at + 1] := child;
        RightMoved(old(kids[..]), kids[..], at + 1, old(n) + 1, child);
      }
    }
  }

  /** Different cells with arrays of their own. */
  predicate Separate(a: Cell, b: Cell) {
    a != b && a.es != b.es && a.kids != b.kids
  }

  /** Splits the full child i around its middle entry, which moves up. */
  method SplitChild(t: nat, p: Cell, i: nat, c: Cell, level: nat) returns (nd: Cell)
    requires level >= 1 && p.Ok(t) && p.n < Max(t) && i <= p.n && p.kids[i] == c
    requires c.Ok(t) && c.n == Max(t) && Separate(p, c)
    modifies p`n, p.es, p.kids, c`n
    ensures fresh(nd) && fresh(nd.es) && fresh(nd.kids) && nd.Ok(t) && p.Ok(t) && c.Ok(t)
    ensures c.Entries() == old(c.Entries())[..Min(t)] && nd.Entries() == old(c.Entries())[Min(t) + 1..]
    ensures level > 1 ==> c.Refs() == old(c.Refs())[..Min(t) + 1] && nd.Refs() == old(c.Refs())[Min(t) + 1..]
    ensures p.Entries() == Insert(old(p.Entries()), i, old(c.Entries())[Min(t)])
    ensures p.Refs() == Insert(old(p.Refs()), i + 1, nd)
  {
    hide Insert;
    var mid := Min(t);
    nd := RightHalf(t, c, level);
    p.AddToNode(t, i, c.es[mid], nd, level);
    c.n := mid;
  }

  /** A new cell with what lies right of the middle entry of a full one. */
  method RightHalf(t: nat, c: Cell, level: nat) returns (nd: Cell)
    requires c.Ok(t) && c.n == Max(t)
    ensures fresh(nd) && fresh(nd.es) && fresh(nd.kids) && nd.Ok(t)
    ensures nd.Entries() == c.Entries()[Min(t) + 1..] && (level > 1 ==> nd.Refs() == c.Refs()[Min(t) + 1..])
  {
    var mid := Min(t);
    nd := new Cell(t, c.es[mid]);
    nd.n := c.n - mid - 1;
    Copy(nd.es, 0, c.es, mid + 1, nd.n);
    if level > 1 {
      Copy(nd.kids, 0, c.kids, mid + 1, nd.n + 1);
    }
  }

  /** Appends an entry and all of another cell. */
  method Append(t: nat, l: Cell, e: Entry, r: Cell, level: nat)
    requires l.Ok(t) && r.Ok(t) && l.n == Min(t) && r.n == Min(t) && Separate(l, r)
    modifies l`n, l.es, l.kids
    ensures l.Ok(t) && l.Entries() == old(l.Entries()) + [e] + r.Entries()
    ensures level > 1 ==> l.Refs() == old(l.Refs()) + r.Refs()
  {
    l.es[l.n] := e;
    l.n := l.n + 1;
    Copy(l.es, l.n, r.es, 0, r.n);
    if level > 1 {
      Copy(l.kids, l.n, r.kids, 0, r.n + 1);
    }
    l.n := l.n + r.n;
  }

  /** The left child takes over the entry between the two children and the right child. */
  method Merge(t: nat, p: Cell, at: nat, l: Cell, r: Cell, level: nat)
    requires level >= 1 && p.Ok(t) && at < p.n && p.kids[at] == l && p.kids[at + 1] == r
    requires l.Ok(t) && r.Ok(t) && l.n == Min(t) && r.n == Min(t) && Separate(p, l) && Separate(p, r) && Separate(l, r)
    modifies p`n, p.es, p.kids, l`n, l.es, l.kids, r`n
    ensures p.Ok(t) && l.Ok(t) && r.n == 0
    ensures l.Entries() == old(l.Entries()) + [old(p.es[at])] + old(r.Entries())
    ensures level > 1 ==> l.Refs() == old(l.Refs()) + old(r.Refs())
    ensures p.Entries() == Remove(old(p.Entries()), at) && p.Refs() == Remove(old(p.Refs()), at + 1)
  {
    hide Remove;
    Append(t, l, p.es[at], r, level);
    r.n := 0;
    p.ShiftLeft(t, at, level);
  }

  /** Takes the first entry, and the child left of it, off a cell. */
  method PopFront(t: nat, r: Cell, level: nat)
    requires level > 0 && r.Ok(t) && r.n > 0
    modifies r`n, r.es, r.kids
    ensures r.Ok(t) && r.n == old(r.n) - 1 && r.Entries() == old(r.Entries())[1..]
    ensures level > 1 ==> r.Refs() == old(r.Refs())[1..]
  {
    if level > 1 {
      r.kids[0] := r.kids[1];
    }
    r.ShiftLeft(t, 0, level - 1);
  }

  /** Entry i goes down to the end of the left child, and the first entry of the right child comes up. */
  method RotateLeft(t: nat, p: Cell, i: int, l: Cell, r: Cell, level: nat) returns (ok: bool)
    requires level > 0 && p.Ok(t) && (0 <= i < p.n ==> p.kids[i] == l && p.kids[i + 1] == r)
    requires l.Ok(t) && r.Ok(t) && Separate(p, l) && Separate(p, r) && Separate(l, r)
    modifies p.es, l`n, l.es, l.kids, r`n, r.es, r.kids
    ensures ok <==> 0 <= i < p.n && old(l.n) < Max(t) && old(r.n) > Min(t)
    ensures !ok ==> l.n == old(l.n) && r.n == old(r.n) && p.es[..] == old(p.es[..])
    ensures ok ==> p.Ok(t) && l.Ok(t) && r.Ok(t)
    ensures ok ==> l.Entries() == old(l.Entries()) + [old(p.es[i])] && r.Entries() == old(r.Entries())[1..]
    ensures ok ==> p.Entries() == old(p.Entries())[i := old(r.es[0])]
    ensures ok && level > 1 ==> l.Refs() == old(l.Refs()) + [old(r.kids[0])] && r.Refs() == old(r.Refs())[1..]
  {
    if i < 0 || i >= p.n || !(l.n < Max(t) && r.n > Min(t)) {
      return false;
    }
    l.AddToNode(t, l.n, p.es[i], if level > 1 then r.kids[0] else null, level - 1);
    p.es[i] := r.es[0];
    PopFront(t, r, level);
    return true;
  }

  /** Puts an entry, and a child left of it, in front of a cell. */
  method PushFront(t: nat, r: Cell, e: Entry, child: Cell?, level: nat)
    requires level > 0 && r.Ok(t) && r.n < Max(t)
    modifies r`n, r.es, r.kids
    ensures r.Ok(t) && r.n == old(r.n) + 1 && r.Entries() == [e] + old(r.Entries())
    ensures level > 1 ==> r.Refs() == [child] + old(r.Refs())
  {
    hide Insert;
    r.ShiftRight(t, 0, level - 1);
    r.es[0] := e;
    RightMoved(old(r.es[..]), r.es[..], 0, old(r.n), e);
    InsertFront(old(r.Entries()), e);
    if level > 1 {
      r.kids[1] := r.kids[0];
      r.kids[0] := child;
      RightMoved(old(r.kids[..]), r.kids[..], 0, old(r.n) + 1, child);
      InsertFront(old(r.Refs()), child);
    }
  }

  lemma InsertFront<T>(s: seq<T>, x: T)
    ensures Insert(s, 0, x) == [x] + s
  {
  }

  /** Entry i goes down to the front of the right child, and the last entry of the left child comes up. */
  method RotateRight(t: nat, p: Cell, i: int, l: Cell, r: Cell, level: nat) returns (ok: bool)
    requires level > 0 && p.Ok(t) && (0 <= i < p.n ==> p.kids[i] == l && p.kids[i + 1] == r)
    requires l.Ok(t) && r.Ok(t) && Separate(p, l) && Separate(p, r) && Separate(l, r)
    modifies p.es, l`n, r`n, r.es, r.kids
    ensures ok <==> 0 <= i < p.n && old(l.n) > Min(t) && old(r.n) < Max(t)
    ensures !ok ==> l.n == old(l.n) && r.n == old(r.n) && p.es[..] == old(p.es[..])
    ensures ok ==> p.Ok(t) && l.Ok(t) && r.Ok(t)
    ensures ok ==> l.Entries() == old(l.Entries())[..old(l.n) - 1] && r.Entries() == [old(p.es[i])] + old(r.Entries())
    ensures ok ==> p.Entries() == old(p.Entries())[i := old(l.es[l.n - 1])]
    ensures ok && level > 1 ==>
      l.Refs() == old(l.Refs())[..old(l.n)] && r.Refs() == [old(l.kids[l.n])] + old(r.Refs())
  {
    if i < 0 || i >= p.n || !(l.n > Min(t) && r.n < Max(t)) {
      return false;
    }
    PushFront(t, r, p.es[i], l.kids[l.n], level);
    p.es[i] := l.es[l.n - 1];
    l.n := l.n - 1;
    return true;
  }

  // ----- what this is on nodes -----

  /** The node that entries and child pointers stand for, when `val` gives the nodes behind the pointers. */
  ghost function Value(es: seq<Entry>, refs: seq<Cell?>, val: Cell? -> Node): Node {
    Node(es, seq(|refs|, j requires 0 <= j < |refs| => val(refs[j])))
  }

  /** Pointer k is in the sequence at position i only. */
  ghost predicate OnlyAt(refs: seq<Cell?>, i: nat, k: Cell?) {
    i < |refs| && refs[i] == k && forall j :: 0 <= j < |refs| && j != i ==> refs[j] != k
  }

  /** Splitting on the arrays is splitting the node. */
  lemma SplitMeans(t: nat, es: seq<Entry>, refs: seq<Cell?>, i: nat, level: nat, c: Cell, nd: Cell, val: Cell? -> Node,
                   val': Cell? -> Node)
    requires t >= 2 && level > 0 && i <= |es| && OnlyAt(refs, i, c) && nd !in refs && nd != c
    requires |val(c).es| == Max(t) && Fits(val(c), level - 1)
    requires val'(c) == LeftPart(val(c), Min(t), level - 1) && val'(nd) == RightPart(val(c), Min(t), level - 1)
    requires forall k :: k in refs && k != c ==> val'(k) == val(k)
    ensures Value(Insert(es, i, val(c).es[Min(t)]), Insert(refs, i + 1, nd), val')
      == BTreeModel.SplitChild(t, Value(es, refs, val), i, level)
  {
  }

  /** Merging on the arrays is merging in the node. */
  lemma MergeMeans(es: seq<Entry>, refs: seq<Cell?>, i: nat, l: Cell, r: Cell, val: Cell? -> Node, val': Cell? -> Node)
    requires i < |es| && OnlyAt(refs, i, l) && OnlyAt(refs, i + 1, r)
    requires val'(l) == Join(val(l), es[i], val(r)) && forall k :: k in refs && k != l && k != r ==> val'(k) == val(k)
    ensures Value(Remove(es, i), Remove(refs, i + 1), val') == BTreeModel.Merge(Value(es, refs, val), i)
  {
  }

  /** Rotating left on the arrays is rotating left in the node. */
  lemma RotateLeftMeans(es: seq<Entry>, refs: seq<Cell?>, i: nat, level: nat, l: Cell, r: Cell, val: Cell? -> Node,
                        val': Cell? -> Node)
    requires level > 0 && i < |es| && OnlyAt(refs, i, l) && OnlyAt(refs, i + 1, r)
    requires |val(r).es| > 0 && Fits(val(r), level - 1) && forall k :: k in refs && k != l && k != r ==>
      val'(k) == val(k)
    requires val'(l) == Node(val(l).es + [es[i]], if level > 1 then val(l).kids + [val(r).kids[0]] else [])
    requires val'(r) == Node(val(r).es[1..], if level > 1 then val(r).kids[1..] else [])
    ensures Value(es[i := val(r).es[0]], refs, val') == BTreeModel.RotateLeft(Value(es, refs, val), i, level)
  {
  }

  /** Rotating right on the arrays is rotating right in the node. */
  lemma RotateRightMeans(es: seq<Entry>, refs: seq<Cell?>, i: nat, level: nat, l: Cell, r: Cell, val: Cell? -> Node,
                         val': Cell? -> Node)
    requires level > 0 && i < |es| && OnlyAt(refs, i, l) && OnlyAt(refs, i + 1, r)
    requires |val(l).es| > 0 && Fits(val(l), level - 1) && forall k :: k in refs && k != l && k != r ==>
      val'(k) == val(k)
    requires var es', kids := val(l).es, val(l).kids;
      && val'(l) == Node(es'[..|es'| - 1], if level > 1 then kids[..|kids| - 1] else [])
      && val'(r) == Node([es[i]] + val(r).es, if level > 1 then [kids[|kids| - 1]] + val(r).kids else [])
    ensures Value(es[i := val(l).es[|val(l).es| - 1]], refs, val')
      == BTreeModel.RotateRight(Value(es, refs, val), i, level)
  {
  }

  /** What joining and cutting entries and pointers of a child is on the child's node. */
  lemma ChildMeans(es: seq<Entry>, refs: seq<Cell?>, e: Entry, es': seq<Entry>, refs': seq<Cell?>, m: nat,
                   val: Cell? -> Node)
    ensures Value(es + [e] + es', refs + refs', val) == Join(Value(es, refs, val), e, Value(es', refs', val))
    ensures m < |es| && m < |refs| ==> Value(es[..m], refs[..m + 1], val) == LeftPart(Value(es, refs, val), m, 1)
    ensures m < |es| && m < |refs| ==> Value(es[m + 1..], refs[m + 1..], val) == RightPart(Value(es, refs, val), m, 1)
  {
  }
}
