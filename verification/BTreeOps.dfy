/** Search, add and delete as single passes from the root, one recursion per level. */
module BTreeOps {
  import opened BTreeModel
  import opened BTreeFlat

  // ----- positions in a node -----

  /** e lies before the place looked for: before the first match, or not after the last one. */
  predicate Before(e: Entry, q: Query, flag: Flag) {
    match flag
    case First => Below(e, q)
    case Last => !Above(e, q)
  }

  /** How many entries lie before the place; the binary searches return one less. */
  function Count(s: seq<Entry>, q: Query, flag: Flag): (c: nat)
    ensures c <= |s|
    ensures forall i :: 0 <= i < c ==> Before(s[i], q, flag)
    ensures c < |s| ==> !Before(s[c], q, flag)
  {
    if s == [] || !Before(s[0], q, flag) then 0 else 1 + Count(s[1..], q, flag)
  }

  /** The index of a match in a node, or -1. */
  function Find(es: seq<Entry>, q: Query, flag: Flag): (i: int)
    ensures -1 <= i < |es| && (i != -1 ==> Matches(es[i], q))
  {
    var c := Count(es, q, flag);
    var i := if flag == First then c else c - 1;
    if 0 <= i < |es| && Matches(es[i], q) then i else -1
  }

  // ----- shapes of restructured nodes -----

  lemma LeftPartShape(t: nat, n: Node, m: nat, level: nat)
    requires Shape(t, n, level) && m < |n.es|
    ensures Shape(t, LeftPart(n, m, level), level) && Shape(t, RightPart(n, m, level), level)
  {
  }

  lemma JoinShape(t: nat, l: Node, e: Entry, r: Node, level: nat)
    requires Shape(t, l, level) && Shape(t, r, level) && |l.es| + 1 + |r.es| <= Max(t)
    ensures Shape(t, Join(l, e, r), level)
  {
  }

  lemma SplitShape(t: nat, n: Node, i: nat, level: nat)
    requires t >= 2 && level > 0 && Shape(t, n, level) && i < |n.kids| && |n.kids[i].es| == Max(t) && |n.es| < Max(t)
    ensures var n' := SplitChild(t, n, i, level);
      && Shape(t, n', level) && |n'.es| == |n.es| + 1
      && |n'.kids[i].es| == Min(t) && |n'.kids[i + 1].es| == Min(t)
  {
    hide Shape;
    KidShape(t, n, level, i);
    var c, n', l, r := n.kids[i], SplitChild(t, n, i, level), LeftPart(n.kids[i], Min(t), level - 1),
      RightPart(n.kids[i], Min(t), level - 1);
    LeftPartShape(t, c, Min(t), level - 1);
    forall j | 0 <= j < |n'.kids|
      ensures Shape(t, n'.kids[j], level - 1) && |n'.kids[j].es| >= Min(t)
    {
      if j < i {
        KidShape(t, n, level, j);
      } else if j > i + 1 {
        KidShape(t, n, level, j - 1);
      }
    }
    FoldShape(t, n', level);
  }

  lemma FoldShape(t: nat, n: Node, level: nat)
    requires level > 0 && |n.es| <= Max(t) && |n.kids| == |n.es| + 1
    requires forall j :: 0 <= j < |n.kids| ==> Shape(t, n.kids[j], level - 1) && |n.kids[j].es| >= Min(t)
    ensures Shape(t, n, level)
  {
  }

  lemma MergeShape(t: nat, n: Node, i: nat, level: nat)
    requires t >= 2 && level > 0 && Shape(t, n, level) && CanMerge(t, n, i)
    ensures var n' := Merge(n, i); Shape(t, n', level) && |n'.es| == |n.es| - 1 && |n'.kids[i].es| > Min(t)
  {
    JoinShape(t, n.kids[i], n.es[i], n.kids[i + 1], level - 1);
  }

  lemma PairShape(t: nat, n: Node, i: nat, e: Entry, l: Node, r: Node, level: nat)
    requires level > 0 && Shape(t, n, level) && i < |n.es|
    requires Shape(t, l, level - 1) && Shape(t, r, level - 1) && |l.es| >= Min(t) && |r.es| >= Min(t)
    ensures Shape(t, Node(n.es[i := e], n.kids[i := l][i + 1 := r]), level)
  {
  }

  lemma EndsShape(t: nat, l: Node, e: Entry, r: Node, level: nat)
    requires Shape(t, l, level) && Shape(t, r, level)
    ensures |l.es| < Max(t) && |r.es| > 0 ==>
      Shape(t, Node(l.es + [e], if level > 0 then l.kids + [r.kids[0]] else []), level)
      && Shape(t, Node(r.es[1..], if level > 0 then r.kids[1..] else []), level)
    ensures |r.es| < Max(t) && |l.es| > 0 ==>
      Shape(t, Node(l.es[..|l.es| - 1], if level > 0 then l.kids[..|l.kids| - 1] else []), level)
      && Shape(t, Node([e] + r.es, if level > 0 then [l.kids[|l.kids| - 1]] + r.kids else []), level)
  {
  }

  lemma KidShape(t: nat, n: Node, level: nat, d: nat)
    requires level > 0 && Shape(t, n, level) && d < |n.kids|
    ensures Shape(t, n.kids[d], level - 1) && |n.kids[d].es| >= Min(t)
  {
  }

  lemma RotateLeftShape(t: nat, n: Node, i: nat, level: nat)
    requires t >= 2 && level > 0 && Shape(t, n, level) && CanRotateLeft(t, n, i)
    ensures var n' := RotateLeft(n, i, level);
      Shape(t, n', level) && |n'.es| == |n.es| && |n'.kids[i].es| == |n.kids[i].es| + 1
  {
    hide Shape;
    KidShape(t, n, level, i);
    KidShape(t, n, level, i + 1);
    var n' := RotateLeft(n, i, level);
    EndsShape(t, n.kids[i], n.es[i], n.kids[i + 1], level - 1);
    PairShape(t, n, i, n'.es[i], n'.kids[i], n'.kids[i + 1], level);
  }

  lemma RotateRightShape(t: nat, n: Node, i: nat, level: nat)
    requires t >= 2 && level > 0 && Shape(t, n, level) && CanRotateRight(t, n, i)
    ensures var n' := RotateRight(n, i, level);
      Shape(t, n', level) && |n'.es| == |n.es| && |n'.kids[i + 1].es| == |n.kids[i + 1].es| + 1
  {
    hide Shape;
    KidShape(t, n, level, i);
    KidShape(t, n, level, i + 1);
    var n' := RotateRight(n, i, level);
    EndsShape(t, n.kids[i], n.es[i], n.kids[i + 1], level - 1);
    PairShape(t, n, i, n'.es[i], n'.kids[i], n'.kids[i + 1], level);
  }

  lemma SetKidShape(t: nat, n: Node, level: nat, c: nat, x: Node)
    requires level > 0 && Shape(t, n, level) && c < |n.kids| && Shape(t, x, level - 1) && |x.es| >= Min(t)
    ensures Shape(t, Node(n.es, n.kids[c := x]), level)
  {
  }

  // ----- sorted sequences around a place -----

  lemma SortedParts(a: seq<Entry>, b: seq<Entry>)
    requires Sorted(a + b)
    ensures Sorted(a) && Sorted(b)
    ensures forall x, y :: x in a && y in b ==> Le(x, y)
  {
    forall i, j | 0 <= i < j < |a| ensures Le(a[i], a[j]) { assert Le((a + b)[i], (a + b)[j]); }
    forall i, j | 0 <= i < j < |b| ensures Le(b[i], b[j]) { assert Le((a + b)[|a| + i], (a + b)[|a| + j]); }
    forall x, y | x in a && y in b
      ensures Le(x, y)
    {
      var i :| 0 <= i < |a| && a[i] == x;
      var j :| 0 <= j < |b| && b[j] == y;
      assert Le((a + b)[i], (a + b)[|a| + j]);
    }
  }

  lemma BeforeDown(x: Entry, y: Entry, q: Query, flag: Flag)
    requires Le(x, y) && Before(y, q, flag)
    ensures Before(x, q, flag)
  {
  }

  lemma CountIs(s: seq<Entry>, q: Query, flag: Flag, c: nat)
    requires c <= |s| && (forall i :: 0 <= i < c ==> Before(s[i], q, flag)) && (c < |s| ==> !Before(s[c], q, flag))
    ensures Count(s, q, flag) == c
  {
    hide Count, Before;
  }

  /** Counting skips what lies before the place and stops at what does not. */
  lemma CountAround(a: seq<Entry>, x: seq<Entry>, b: seq<Entry>, q: Query, flag: Flag)
    requires forall e :: e in a ==> Before(e, q, flag)
    requires b != [] ==> !Before(b[0], q, flag)
    ensures Count(a + x + b, q, flag) == |a| + Count(x, q, flag)
  {
    hide Before, Count;
    var s, c := a + x + b, |a| + Count(x, q, flag);
    forall i | 0 <= i < c
      ensures Before(s[i], q, flag)
    {
      if i < |a| { assert s[i] == a[i] && a[i] in a; } else { assert s[i] == x[i - |a|]; }
    }
    if c < |a| + |x| { assert s[c] == x[c - |a|]; } else if b != [] { assert s[c] == b[0]; }
    CountIs(s, q, flag, c);
  }

  /** The place in a sorted node's sequence lies at child d if it lies there among the node's own entries. */
  lemma Descend(n: Node, level: nat, d: nat, q: Query, flag: Flag)
    requires level > 0 && Fits(n, level) && d <= |n.es| && Sorted(Flat(n, level))
    requires d > 0 ==> Before(n.es[d - 1], q, flag)
    requires d < |n.es| ==> !Before(n.es[d], q, flag)
    ensures var a := Lead(n.es[..d], n.kids[..d], level - 1);
      && (forall e :: e in a ==> Before(e, q, flag))
      && Count(Flat(n, level), q, flag) == |a| + Count(Flat(n.kids[d], level - 1), q, flag)
  {
    hide Flat, Lead, Trail, Before, Count, Sorted;
    var a, x, b := Lead(n.es[..d], n.kids[..d], level - 1), Flat(n.kids[d], level - 1),
      Trail(n.es[d..], n.kids[d + 1..], level - 1);
    FlatAt(n, level, d);
    TrailHead(n, level, d);
    LeadBefore(n, level, d, q, flag);
    CountAround(a, x, b, q, flag);
  }

  lemma TrailHead(n: Node, level: nat, d: nat)
    requires level > 0 && Fits(n, level) && d <= |n.es|
    ensures var b := Trail(n.es[d..], n.kids[d + 1..], level - 1);
      if d == |n.es| then b == [] else b != [] && b[0] == n.es[d]
  {
    hide Flat;
    if d < |n.es| { TrailAt(n.es, n.kids, d, level - 1); }
  }

  /** Everything left of child d lies before the place if the entry just left of it does. */
  lemma LeadBefore(n: Node, level: nat, d: nat, q: Query, flag: Flag)
    requires level > 0 && Fits(n, level) && d <= |n.es| && Sorted(Flat(n, level))
    requires d > 0 ==> Before(n.es[d - 1], q, flag)
    ensures forall e :: e in Lead(n.es[..d], n.kids[..d], level - 1) ==> Before(e, q, flag)
  {
    hide Flat, Trail, Before, Sorted, Le;
    var a := Lead(n.es[..d], n.kids[..d], level - 1);
    if d > 0 {
      FlatAt(n, level, d);
      LeadAt(n.es, n.kids, d - 1, level - 1);
      hide Lead;
      var a0 := a[..|a| - 1];
      assert a == a0 + [n.es[d - 1]];
      SortedParts(a, Flat(n.kids[d], level - 1) + Trail(n.es[d..], n.kids[d + 1..], level - 1)) by {
        assert Flat(n, level) == a + (Flat(n.kids[d], level - 1) + Trail(n.es[d..], n.kids[d + 1..], level - 1));
      }
      SortedParts(a0, [n.es[d - 1]]);
      forall e | e in a
        ensures Before(e, q, flag)
      {
        if e in a0 { assert n.es[d - 1] in [n.es[d - 1]]; BeforeDown(e, n.es[d - 1], q, flag); }
      }
    }
  }
}
