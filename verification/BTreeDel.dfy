/**
  Deleting an entry in one pass: on the way down every child entered holds more than the minimum, by merging
  or rotating; an entry found above the leaves is pushed down, or replaced by its successor.
 */
module BTreeDel {
  import opened BTreeModel
  import opened BTreeFlat
  import opened BTreeOps
  import opened BTreeAdd

  // ----- making room for the descent -----

  /** n' has the same sequence as n, and a child at c' that holds more than the minimum. */
  ghost predicate Ready(t: nat, n: Node, level: nat, n': Node, c': nat)
    requires level > 0 && Fits(n, level)
  {
    && Shape(t, n', level) && c' <= |n'.es| && |n'.kids[c'].es| > Min(t)
    && |n'.es| >= |n.es| - 1
    && Flat(n', level) == Flat(n, level)
  }

  lemma MergeReady(t: nat, n: Node, level: nat, i: nat)
    requires t >= 2 && level > 0 && Shape(t, n, level) && CanMerge(t, n, i)
    ensures Ready(t, n, level, Merge(n, i), i)
  {
    hide Shape, Flat;
    KidShape(t, n, level, i);
    KidShape(t, n, level, i + 1);
    MergeShape(t, n, i, level);
    FlatMerge(n, i, level);
  }

  lemma RotateLeftReady(t: nat, n: Node, level: nat, i: nat)
    requires t >= 2 && level > 0 && Shape(t, n, level) && CanRotateLeft(t, n, i)
    ensures Fits(n.kids[i + 1], level - 1) && Ready(t, n, level, RotateLeft(n, i, level), i)
  {
    hide Shape, Flat;
    KidShape(t, n, level, i);
    KidShape(t, n, level, i + 1);
    RotateLeftShape(t, n, i, level);
    FlatRotateLeft(n, i, level);
  }

  lemma RotateRightReady(t: nat, n: Node, level: nat, i: nat)
    requires t >= 2 && level > 0 && Shape(t, n, level) && CanRotateRight(t, n, i)
    ensures Fits(n.kids[i], level - 1) && Ready(t, n, level, RotateRight(n, i, level), i + 1)
  {
    hide Shape, Flat;
    KidShape(t, n, level, i);
    KidShape(t, n, level, i + 1);
    RotateRightShape(t, n, i, level);
    FlatRotateRight(n, i, level);
  }

  /** The way down to child c when nothing was found in n: merge left, merge right, rotate left or rotate right. */
  function Refill(t: nat, n: Node, level: nat, c: nat): (r: (Node, nat))
    requires t >= 2 && level > 0 && Shape(t, n, level) && |n.es| >= 1 && c <= |n.es|
  {
    if |n.kids[c].es| > Min(t) then (n, c)
    else if CanMerge(t, n, c - 1) then (Merge(n, c - 1), c - 1)
    else if CanMerge(t, n, c) then (Merge(n, c), c)
    else if CanRotateLeft(t, n, c) then
      RotateLeftReady(t, n, level, c);
      (RotateLeft(n, c, level), c)
    else
      NeighbourRich(t, n, level, c);
      RotateRightReady(t, n, level, c - 1);
      (RotateRight(n, c - 1, level), c)
  }

  /** The last branch of Refill has a left neighbour to take from: the source asserts that this rotation succeeds. */
  lemma NeighbourRich(t: nat, n: Node, level: nat, c: nat)
    requires t >= 2 && level > 0 && Shape(t, n, level) && |n.es| >= 1 && c <= |n.es| && |n.kids[c].es| <= Min(t)
    requires !CanMerge(t, n, c - 1) && !CanMerge(t, n, c) && !CanRotateLeft(t, n, c)
    ensures c >= 1 && CanRotateRight(t, n, c - 1)
  {
    hide Shape;
    KidShape(t, n, level, c);
    if c > 0 { KidShape(t, n, level, c - 1); }
    if c < |n.es| { KidShape(t, n, level, c + 1); }
  }

  /** Around child c nothing was lost on either side: the parts outside it only got shorter. */
  ghost predicate Tighter(n: Node, c: nat, n': Node, c': nat, level: nat)
    requires level > 0 && Fits(n, level) && c <= |n.es| && Fits(n', level) && c' <= |n'.es|
  {
    && |Lead(n'.es[..c'], n'.kids[..c'], level - 1)| <= |Lead(n.es[..c], n.kids[..c], level - 1)|
    && |Trail(n'.es[c'..], n'.kids[c' + 1..], level - 1)| <= |Trail(n.es[c..], n.kids[c + 1..], level - 1)|
  }

  lemma RefillReady(t: nat, n: Node, level: nat, c: nat)
    requires t >= 2 && level > 0 && Shape(t, n, level) && |n.es| >= 1 && c <= |n.es|
    ensures var (n', c') := Refill(t, n, level, c); Ready(t, n, level, n', c')
  {
    hide Shape, Flat, Merge, RotateLeft, RotateRight;
    KidShape(t, n, level, c);
    if |n.kids[c].es| > Min(t) {
    } else if CanMerge(t, n, c - 1) {
      MergeReady(t, n, level, c - 1);
    } else if CanMerge(t, n, c) {
      MergeReady(t, n, level, c);
    } else if CanRotateLeft(t, n, c) {
      RotateLeftReady(t, n, level, c);
    } else {
      NeighbourRich(t, n, level, c);
      RotateRightReady(t, n, level, c - 1);
    }
  }

  /** The neighbours' parts around i stay as they are when only entry i and children i and i + 1 change. */
  lemma OuterParts(n: Node, n': Node, i: nat, level: nat)
    requires level > 0 && Fits(n, level) && Fits(n', level) && i < |n.es| && i <= |n'.es|
    requires n'.es[..i] == n.es[..i] && n'.kids[..i] == n.kids[..i]
    ensures Lead(n'.es[..i], n'.kids[..i], level - 1) == Lead(n.es[..i], n.kids[..i], level - 1)
    ensures |Lead(n.es[..i], n.kids[..i], level - 1)| <= |Lead(n.es[..i + 1], n.kids[..i + 1], level - 1)|
    ensures |Trail(n.es[i + 1..], n.kids[i + 2..], level - 1)| <= |Trail(n.es[i..], n.kids[i + 1..], level - 1)|
  {
    hide Flat, Lead, Trail;
    LeadAt(n.es, n.kids, i, level - 1);
    TrailAt(n.es, n.kids, i, level - 1);
  }

  lemma MergeTighter(n: Node, i: nat, level: nat)
    requires level > 0 && Fits(n, level) && i < |n.es|
    ensures var n' := Merge(n, i);
      Fits(n', level) && i <= |n'.es| && Tighter(n, i, n', i, level) && Tighter(n, i + 1, n', i, level)
  {
    hide Flat, Lead, Trail;
    var n' := Merge(n, i);
    assert n'.es[i..] == n.es[i + 1..] && n'.kids[i + 1..] == n.kids[i + 2..];
    OuterParts(n, n', i, level);
  }

  lemma RotateLeftTighter(n: Node, i: nat, level: nat)
    requires level > 0 && Fits(n, level) && i < |n.es| && Fits(n.kids[i + 1], level - 1) && Fits(n.kids[i], level - 1)
      && |n.kids[i + 1].es| > 0
    ensures var n' := RotateLeft(n, i, level); Fits(n', level) && i <= |n'.es| && Tighter(n, i, n', i, level)
  {
    hide Lead, Trail, Flat;
    var n' := RotateLeft(n, i, level);
    OuterParts(n, n', i, level);
    FlatAt(n, level, i);
    FlatAt(n', level, i);
    FlatRotateLeft(n, i, level);
    GrownLeft(n.kids[i], n.es[i], n.kids[i + 1], level - 1);
  }

  /** The left child's sequence grows when it takes an entry. */
  lemma GrownLeft(l: Node, e: Entry, r: Node, level: nat)
    requires Fits(l, level) && Fits(r, level) && |r.es| > 0
    ensures |Flat(Node(l.es + [e], if level > 0 then l.kids + [r.kids[0]] else []), level)| > |Flat(l, level)|
  {
    hide Lead, Trail;
    var l' := Node(l.es + [e], if level > 0 then l.kids + [r.kids[0]] else []);
    FlatCut(l', level, |l.es|);
    assert LeftPart(l', |l.es|, level) == l;
  }

  lemma GrownRight(l: Node, e: Entry, r: Node, level: nat)
    requires Fits(l, level) && Fits(r, level) && |l.es| > 0
    ensures |Flat(Node([e] + r.es, if level > 0 then [l.kids[|l.kids| - 1]] + r.kids else []), level)| > |Flat(r,
      level)|
  {
    hide Lead, Trail;
    var r' := Node([e] + r.es, if level > 0 then [l.kids[|l.kids| - 1]] + r.kids else []);
    FlatCut(r', level, 0);
    assert RightPart(r', 0, level) == r;
  }

  lemma RotateRightTighter(n: Node, i: nat, level: nat)
    requires level > 0 && Fits(n, level) && i < |n.es| && Fits(n.kids[i], level - 1) && Fits(n.kids[i + 1], level - 1)
      && |n.kids[i].es| > 0
    ensures var n' := RotateRight(n, i, level);
      Fits(n', level) && i + 1 <= |n'.es| && Tighter(n, i + 1, n', i + 1, level)
  {
    hide Lead, Trail, Flat;
    var n' := RotateRight(n, i, level);
    assert n'.es[i + 1..] == n.es[i + 1..] && n'.kids[i + 2..] == n.kids[i + 2..];
    FlatAt(n, level, i + 1);
    FlatAt(n', level, i + 1);
    FlatRotateRight(n, i, level);
    GrownRight(n.kids[i], n.es[i], n.kids[i + 1], level - 1);
  }

  lemma SameTighter(n: Node, c: nat, level: nat)
    requires level > 0 && Fits(n, level) && c <= |n.es|
    ensures Tighter(n, c, n, c, level)
  {
    hide Lead, Trail;
  }

  lemma RefillTighter(t: nat, n: Node, level: nat, c: nat)
    requires t >= 2 && level > 0 && Shape(t, n, level) && |n.es| >= 1 && c <= |n.es|
    ensures var (n', c') := Refill(t, n, level, c); Fits(n', level) && c' <= |n'.es| && Tighter(n, c, n', c', level)
  {
    hide Shape, Flat, Merge, RotateLeft, RotateRight, Lead, Trail, Tighter;
    KidShape(t, n, level, c);
    if |n.kids[c].es| > Min(t) {
      SameTighter(n, c, level);
    } else if CanMerge(t, n, c - 1) {
      MergeTighter(n, c - 1, level);
    } else if CanMerge(t, n, c) {
      MergeTighter(n, c, level);
    } else if CanRotateLeft(t, n, c) {
      KidShape(t, n, level, c + 1);
      RotateLeftTighter(n, c, level);
    } else {
      NeighbourRich(t, n, level, c);
      KidShape(t, n, level, c - 1);
      RotateRightTighter(n, c - 1, level);
    }
  }

  // ----- removing the smallest entry below a node -----

  /** The way down to the left-most child. */
  function RefillFirst(t: nat, n: Node, level: nat): (n': Node)
    requires t >= 2 && level > 0 && Shape(t, n, level) && |n.es| >= 1
  {
    if |n.kids[0].es| > Min(t) then n
    else if CanMerge(t, n, 0) then Merge(n, 0)
    else
      FirstNeighbourRich(t, n, level);
      RotateLeftReady(t, n, level, 0);
      RotateLeft(n, 0, level)
  }

  lemma FirstNeighbourRich(t: nat, n: Node, level: nat)
    requires t >= 2 && level > 0 && Shape(t, n, level) && |n.es| >= 1 && |n.kids[0].es| <= Min(t) && !CanMerge(t, n, 0)
    ensures CanRotateLeft(t, n, 0)
  {
    hide Shape;
    KidShape(t, n, level, 0);
    KidShape(t, n, level, 1);
  }

  lemma RefillFirstReady(t: nat, n: Node, level: nat)
    requires t >= 2 && level > 0 && Shape(t, n, level) && |n.es| >= 1
    ensures Ready(t, n, level, RefillFirst(t, n, level), 0)
  {
    hide Shape, Flat, Merge, RotateLeft;
    if |n.kids[0].es| > Min(t) {
    } else if CanMerge(t, n, 0) {
      MergeReady(t, n, level, 0);
    } else {
      FirstNeighbourRich(t, n, level);
      RotateLeftReady(t, n, level, 0);
    }
  }

  function DelMin(t: nat, n: Node, level: nat): (Node, Entry)
    requires t >= 2 && Shape(t, n, level) && |n.es| > Min(t)
    decreases level
  {
    if level == 0 then (Node(n.es[1..], []), n.es[0])
    else
      var n1 := RefillFirst(t, n, level);
      RefillFirstReady(t, n, level);
      KidShape(t, n1, level, 0);
      var (k, e) := DelMin(t, n1.kids[0], level - 1);
      (Node(n1.es, n1.kids[0 := k]), e)
  }

  lemma DelMinBelow(t: nat, n: Node, level: nat)
    requires t >= 2 && level > 0 && Shape(t, n, level) && |n.es| > Min(t)
    ensures var n1 := RefillFirst(t, n, level);
      && Ready(t, n, level, n1, 0) && Shape(t, n1.kids[0], level - 1) && |n1.kids[0].es| > Min(t)
      && var (k, e) := DelMin(t, n1.kids[0], level - 1);
         DelMin(t, n, level) == (Node(n1.es, n1.kids[0 := k]), e)
  {
    hide Shape, Flat, RefillFirst;
    RefillFirstReady(t, n, level);
    KidShape(t, RefillFirst(t, n, level), level, 0);
  }

  lemma DelMinLeaf(t: nat, n: Node)
    requires t >= 2 && Shape(t, n, 0) && |n.es| > Min(t)
    ensures var (n', e) := DelMin(t, n, 0);
      Shape(t, n', 0) && |n'.es| >= |n.es| - 1 && Flat(n, 0) == [e] + Flat(n', 0)
  {
  }

  /** The first entry of the sequence goes, and the shape stays. */
  lemma {:induction false} DelMinCorrect(t: nat, n: Node, level: nat)
    requires t >= 2 && Shape(t, n, level) && |n.es| > Min(t)
    ensures var (n', e) := DelMin(t, n, level);
      Shape(t, n', level) && |n'.es| >= |n.es| - 1 && Flat(n, level) == [e] + Flat(n', level)
    decreases level
  {
    hide Shape, Flat, RefillFirst, DelMin, Lead, Trail;
    if level == 0 {
      DelMinLeaf(t, n);
    } else {
      DelMinBelow(t, n, level);
      var n1 := RefillFirst(t, n, level);
      DelMinCorrect(t, n1.kids[0], level - 1);
      var (k, e) := DelMin(t, n1.kids[0], level - 1);
      SetKidShape(t, n1, level, 0, k);
      FlatAt(n1, level, 0);
      FlatSetKid(n1, level, 0, k);
      NoLead(n1, level);
    }
  }

  lemma NoLead(n: Node, level: nat)
    requires level > 0
    ensures Lead(n.es[..0], n.kids[..0], level - 1) == []
  {
  }

  // ----- deleting a matching entry -----

  /** An entry found above the leaves goes one level down, if a merge or rotation can take it there. */
  datatype Pushed = Pushed(n: Node, c: nat, i: nat) | Stuck

  function PushDown(t: nat, n: Node, level: nat, f: nat): Pushed
    requires t >= 2 && level > 0 && Shape(t, n, level) && f < |n.es|
  {
    if CanMerge(t, n, f) then Pushed(Merge(n, f), f, |n.kids[f].es|)
    else if CanRotateLeft(t, n, f) then
      RotateLeftReady(t, n, level, f);
      var n' := RotateLeft(n, f, level);
      Pushed(n', f, |n'.kids[f].es| - 1)
    else if CanRotateRight(t, n, f) then
      RotateRightReady(t, n, level, f);
      Pushed(RotateRight(n, f, level), f + 1, 0)
    else Stuck
  }

  lemma PushDownReady(t: nat, n: Node, level: nat, f: nat)
    requires t >= 2 && level > 0 && Shape(t, n, level) && f < |n.es|
    ensures var p := PushDown(t, n, level, f);
      if p.Pushed? then Ready(t, n, level, p.n, p.c) && p.i < |p.n.kids[p.c].es| && p.n.kids[p.c].es[p.i] == n.es[f]
      else |n.kids[f].es| == Max(t) && |n.kids[f + 1].es| == Max(t)
  {
    hide Shape, Flat;
    KidShape(t, n, level, f);
    KidShape(t, n, level, f + 1);
    if CanMerge(t, n, f) {
      MergeReady(t, n, level, f);
    } else if CanRotateLeft(t, n, f) {
      RotateLeftReady(t, n, level, f);
    } else if CanRotateRight(t, n, f) {
      RotateRightReady(t, n, level, f);
    }
  }

  /** found is the index of a matching entry that a level above pushed down into n, or -1. */
  function DelRec(t: nat, n: Node, level: nat, q: Query, flag: Flag, found: int): (Node, Outcome)
    requires t >= 2 && Shape(t, n, level) && -1 <= found < |n.es| && (level > 0 ==> |n.es| >= 1)
    decreases level
  {
    var i := if found == -1 then Find(n.es, q, flag) else found;
    if level == 0 then
      if i == -1 then (n, Missing) else (Node(Remove(n.es, i), []), Found(n.es[i]))
    else if i == -1 then
      var (n1, c) := Refill(t, n, level, Count(n.es, q, flag));
      RefillReady(t, n, level, Count(n.es, q, flag));
      KidShape(t, n1, level, c);
      var (k, out) := DelRec(t, n1.kids[c], level - 1, q, flag, -1);
      (Node(n1.es, n1.kids[c := k]), out)
    else
      PushDownReady(t, n, level, i);
      match PushDown(t, n, level, i)
      case Pushed(n1, c, j) =>
        KidShape(t, n1, level, c);
        var (k, out) := DelRec(t, n1.kids[c], level - 1, q, flag, j);
        (Node(n1.es, n1.kids[c := k]), out)
      case Stuck =>
        KidShape(t, n, level, i + 1);
        var (k, e) := DelMin(t, n.kids[i + 1], level - 1);
        (Node(n.es[i := e], n.kids[i + 1 := k]), Found(n.es[i]))
  }

  predicate NoMatch(s: seq<Entry>, q: Query) {
    forall e :: e in s ==> !Matches(e, q)
  }

  /** One matching entry went and was reported; or none matches and nothing changed. */
  ghost predicate Removed(s: seq<Entry>, s': seq<Entry>, q: Query, out: Outcome) {
    match out
    case Missing => s' == s && NoMatch(s, q)
    case Found(e) => exists i :: 0 <= i < |s| && s[i] == e && Matches(e, q) && s' == Remove(s, i)
  }

  lemma RemovedInside(a: seq<Entry>, x: seq<Entry>, b: seq<Entry>, x': seq<Entry>, q: Query, out: Outcome)
    requires Removed(x, x', q, out) && (out.Missing? ==> NoMatch(a, q) && NoMatch(b, q))
    ensures Removed(a + x + b, a + x' + b, q, out)
  {
    if out.Found? {
      var i :| 0 <= i < |x| && x[i] == out.e && Matches(out.e, q) && x' == Remove(x, i);
      assert a + Remove(x, i) + b == Remove(a + x + b, |a| + i);
    }
  }

  /** When a node holds no match, nothing outside the child at the place matches either. */
  lemma OutsideMisses(n: Node, level: nat, q: Query, flag: Flag)
    requires level > 0 && Fits(n, level) && Sorted(Flat(n, level)) && Find(n.es, q, flag) == -1
    ensures var c := Count(n.es, q, flag);
      NoMatch(Lead(n.es[..c], n.kids[..c], level - 1), q) && NoMatch(Trail(n.es[c..], n.kids[c + 1..], level - 1), q)
  {
    hide Flat, Lead, Trail, Sorted;
    var c := Count(n.es, q, flag);
    LeadBefore(n, level, c, q, First);
    TrailAbove(n, level, c, q);
    forall e | Below(e, q) || Above(e, q) ensures !Matches(e, q) { }
    assert forall e :: Before(e, q, First) <==> Below(e, q);
  }

  lemma TrailAbove(n: Node, level: nat, c: nat, q: Query)
    requires level > 0 && Fits(n, level) && c <= |n.es| && Sorted(Flat(n, level)) && (c < |n.es| ==> Above(n.es[c], q))
    ensures forall e :: e in Trail(n.es[c..], n.kids[c + 1..], level - 1) ==> Above(e, q)
  {
    hide Flat, Lead, Trail, Sorted;
    var b := Trail(n.es[c..], n.kids[c + 1..], level - 1);
    TrailHead(n, level, c);
    if c < |n.es| {
      FlatAt(n, level, c);
      SortedParts(Lead(n.es[..c], n.kids[..c], level - 1) + Flat(n.kids[c], level - 1), b);
      assert b == [b[0]] + b[1..];
      SortedParts([b[0]], b[1..]);
      forall e | e in b
        ensures Above(e, q)
      {
        if e in b[1..] { assert b[0] in [b[0]] && Le(b[0], e); }
      }
    }
  }

  lemma ShorterParts(a: seq<Entry>, x: seq<Entry>, b: seq<Entry>, a': seq<Entry>, x': seq<Entry>, b': seq<Entry>,
      q: Query)
    requires a + x + b == a' + x' + b' && |a'| <= |a| && |b'| <= |b| && NoMatch(a, q) && NoMatch(b, q)
    ensures NoMatch(a', q) && NoMatch(b', q)
  {
    var s := a + x + b;
    assert a' == s[..|a'|] && a == s[..|a|];
    assert b' == s[|s| - |b'|..] && b == s[|s| - |b|..];
    forall e | e in a' ensures !Matches(e, q) {
      var i :| 0 <= i < |a'| && a'[i] == e;
      assert a[i] == s[i] && a[i] in a;
    }
    forall e | e in b'
      ensures !Matches(e, q)
    {
      var i :| 0 <= i < |b'| && b'[i] == e;
      assert b'[i] == s[|s| - |b'| + i] && b[|b| - |b'| + i] == s[|s| - |b'| + i] && b[|b| - |b'| + i] in b;
    }
  }

  /** What a delete in child c of a prepared node means for the node it came from. */
  lemma DelInside(t: nat, n: Node, level: nat, n1: Node, c: nat, k: Node, q: Query, out: Outcome)
    requires level > 0 && Fits(n, level) && Ready(t, n, level, n1, c)
    requires Shape(t, k, level - 1) && |k.es| >= Min(t)
      && Removed(Flat(n1.kids[c], level - 1), Flat(k, level - 1), q, out)
    requires out.Missing? ==>
      && NoMatch(Lead(n1.es[..c], n1.kids[..c], level - 1), q)
      && NoMatch(Trail(n1.es[c..], n1.kids[c + 1..], level - 1), q)
    ensures var n' := Node(n1.es, n1.kids[c := k]);
      Shape(t, n', level) && |n'.es| >= |n.es| - 1 && Removed(Flat(n, level), Flat(n', level), q, out)
  {
    hide Shape, Flat, Lead, Trail, Removed, NoMatch;
    SetKidShape(t, n1, level, c, k);
    FlatAt(n1, level, c);
    FlatSetKid(n1, level, c, k);
    RemovedInside(Lead(n1.es[..c], n1.kids[..c], level - 1), Flat(n1.kids[c], level - 1),
                  Trail(n1.es[c..], n1.kids[c + 1..], level - 1), Flat(k, level - 1), q, out);
  }

  lemma ReadySorted(t: nat, n: Node, level: nat, n1: Node, c: nat)
    requires level > 0 && Fits(n, level) && Ready(t, n, level, n1, c) && Sorted(Flat(n, level))
    ensures Shape(t, n1.kids[c], level - 1) && |n1.kids[c].es| > Min(t) && Sorted(Flat(n1.kids[c], level - 1))
  {
    hide Shape, Flat, Sorted;
    KidShape(t, n1, level, c);
    SortedKid(n1, level, c);
  }

  /** What deletion promises of a subtree. */
  ghost predicate Deleted(t: nat, n: Node, level: nat, q: Query, n': Node, out: Outcome) {
    && Shape(t, n', level) && |n'.es| >= |n.es| - 1
    && Removed(Flat(n, level), Flat(n', level), q, out)
  }

  lemma DelLeaf(t: nat, n: Node, q: Query, flag: Flag, found: int)
    requires t >= 2 && Shape(t, n, 0) && Sorted(n.es) && -1 <= found < |n.es|
      && (found != -1 ==> Matches(n.es[found], q))
    ensures var (n', out) := DelRec(t, n, 0, q, flag, found);
      Deleted(t, n, 0, q, n', out) && (found != -1 ==> out.Found?)
  {
    var i := if found == -1 then Find(n.es, q, flag) else found;
    if i == -1 { LeafMisses(n.es, q, flag); }
  }

  lemma LeafMisses(es: seq<Entry>, q: Query, flag: Flag)
    requires Sorted(es) && Find(es, q, flag) == -1
    ensures NoMatch(es, q)
  {
    var c := Count(es, q, flag);
    hide Count;
    forall i | 0 <= i < |es|
      ensures !Matches(es[i], q)
    {
      if i + 1 < c { assert Le(es[i], es[c - 1]); }
      if i > c { assert Le(es[c], es[i]); }
    }
  }

  lemma DelMissing(t: nat, n: Node, level: nat, q: Query, flag: Flag)
    requires t >= 2 && level > 0 && Shape(t, n, level) && |n.es| >= 1 && Find(n.es, q, flag) == -1
    ensures var (n1, c) := Refill(t, n, level, Count(n.es, q, flag));
      && Ready(t, n, level, n1, c) && Shape(t, n1.kids[c], level - 1) && |n1.kids[c].es| > Min(t)
      && var (k, out) := DelRec(t, n1.kids[c], level - 1, q, flag, -1);
         DelRec(t, n, level, q, flag, -1) == (Node(n1.es, n1.kids[c := k]), out)
  {
    hide Shape, Flat, Refill, Count;
    var (n1, c) := Refill(t, n, level, Count(n.es, q, flag));
    RefillReady(t, n, level, Count(n.es, q, flag));
    KidShape(t, n1, level, c);
  }

  lemma RefillMisses(t: nat, n: Node, level: nat, q: Query, flag: Flag)
    requires t >= 2 && level > 0 && Shape(t, n, level) && |n.es| >= 1 && Sorted(Flat(n, level))
      && Find(n.es, q, flag) == -1
    ensures var (n1, c) := Refill(t, n, level, Count(n.es, q, flag));
      && Fits(n1, level) && c <= |n1.es|
      && NoMatch(Lead(n1.es[..c], n1.kids[..c], level - 1), q)
      && NoMatch(Trail(n1.es[c..], n1.kids[c + 1..], level - 1), q)
  {
    hide Shape, Flat, Refill, Lead, Trail, Sorted, NoMatch, Count, Find;
    var d := Count(n.es, q, flag);
    var (n1, c) := Refill(t, n, level, d);
    RefillReady(t, n, level, d);
    RefillTighter(t, n, level, d);
    OutsideMisses(n, level, q, flag);
    FlatAt(n, level, d);
    FlatAt(n1, level, c);
    ShorterParts(Lead(n.es[..d], n.kids[..d], level - 1), Flat(n.kids[d], level - 1),
      Trail(n.es[d..], n.kids[d + 1..], level - 1),
                 Lead(n1.es[..c], n1.kids[..c], level - 1), Flat(n1.kids[c], level - 1),
                   Trail(n1.es[c..], n1.kids[c + 1..], level - 1), q);
  }

  lemma DelFound(t: nat, n: Node, level: nat, q: Query, flag: Flag, found: int)
    requires t >= 2 && level > 0 && Shape(t, n, level) && -1 <= found < |n.es|
    requires found != -1 || Find(n.es, q, flag) != -1
    ensures var i := if found == -1 then Find(n.es, q, flag) else found; var p := PushDown(t, n, level, i);
      if p.Pushed? then
        && Ready(t, n, level, p.n, p.c) && Shape(t, p.n.kids[p.c], level - 1) && |p.n.kids[p.c].es| > Min(t)
          && p.i < |p.n.kids[p.c].es|
        && p.n.kids[p.c].es[p.i] == n.es[i]
        && var (k, out) := DelRec(t, p.n.kids[p.c], level - 1, q, flag, p.i);
           DelRec(t, n, level, q, flag, found) == (Node(p.n.es, p.n.kids[p.c := k]), out)
      else
        && Shape(t, n.kids[i + 1], level - 1) && |n.kids[i + 1].es| > Min(t)
        && var (k, e) := DelMin(t, n.kids[i + 1], level - 1);
           DelRec(t, n, level, q, flag, found) == (Node(n.es[i := e], n.kids[i + 1 := k]), Found(n.es[i]))
  {
    hide Shape, Flat, PushDown, Find, DelMin;
    var i := if found == -1 then Find(n.es, q, flag) else found;
    PushDownReady(t, n, level, i);
    KidShape(t, n, level, i + 1);
    var p := PushDown(t, n, level, i);
    if p.Pushed? { KidShape(t, p.n, level, p.c); }
  }

  /** The entry between two full children is replaced by its successor. */
  lemma DelReplace(t: nat, n: Node, level: nat, q: Query, i: nat)
    requires t >= 2 && level > 0 && Shape(t, n, level) && i < |n.es| && Matches(n.es[i], q)
    requires Shape(t, n.kids[i + 1], level - 1) && |n.kids[i + 1].es| > Min(t)
    ensures var (k, e) := DelMin(t, n.kids[i + 1], level - 1);
      Deleted(t, n, level, q, Node(n.es[i := e], n.kids[i + 1 := k]), Found(n.es[i]))
  {
    hide Shape, Flat, Lead, Trail, DelMin, Removed;
    var (k, e) := DelMin(t, n.kids[i + 1], level - 1);
    DelMinCorrect(t, n.kids[i + 1], level - 1);
    KidShape(t, n, level, i);
    var n' := Node(n.es[i := e], n.kids[i + 1 := k]);
    assert n' == Node(n.es[i := e], n.kids[i := n.kids[i]][i + 1 := k]);
    PairShape(t, n, i, e, n.kids[i], k, level);
    FlatPair(n, level, i);
    FlatPair(n', level, i);
    assert n'.es[..i] == n.es[..i] && n'.kids[..i] == n.kids[..i];
    assert n'.es[i + 1..] == n.es[i + 1..] && n'.kids[i + 2..] == n.kids[i + 2..];
    var x, y := Flat(n.kids[i], level - 1), Flat(k, level - 1);
    MiddleGone(x, n.es[i], [e] + y, q);
    assert x + ([e] + y) == x + [e] + y;
    RemovedInside(Lead(n.es[..i], n.kids[..i], level - 1), x + [n.es[i]] + ([e] + y),
                  Trail(n.es[i + 1..], n.kids[i + 2..], level - 1), x + ([e] + y), q, Found(n.es[i]));
  }

  lemma MiddleGone(x: seq<Entry>, e: Entry, y: seq<Entry>, q: Query)
    requires Matches(e, q)
    ensures Removed(x + [e] + y, x + y, q, Found(e))
  {
    assert Remove(x + [e] + y, |x|) == x + y;
  }

  /**
    Delete refines removing one matching entry: exactly one goes and is reported, or none matches and the sequence
    stays;
    order, uniform depth and the key bounds stay too.
   */
  lemma {:induction false} DelCorrect(t: nat, n: Node, level: nat, q: Query, flag: Flag, found: int)
    requires t >= 2 && Shape(t, n, level) && Sorted(Flat(n, level)) && (level > 0 ==> |n.es| >= 1)
    requires -1 <= found < |n.es| && (found != -1 ==> Matches(n.es[found], q))
    ensures var (n', out) := DelRec(t, n, level, q, flag, found);
      Deleted(t, n, level, q, n', out) && (found != -1 ==> out.Found?)
    decreases level
  {
    hide Shape, Flat, Lead, Trail, DelRec, DelMin, Refill, PushDown, Count, Removed, NoMatch, Sorted, Find;
    var i := if found == -1 then Find(n.es, q, flag) else found;
    if level == 0 {
      LeafFlat(n);
      DelLeaf(t, n, q, flag, found);
    } else if i == -1 {
      DelMissing(t, n, level, q, flag);
      RefillMisses(t, n, level, q, flag);
      var (n1, c) := Refill(t, n, level, Count(n.es, q, flag));
      ReadySorted(t, n, level, n1, c);
      DelCorrect(t, n1.kids[c], level - 1, q, flag, -1);
      var (k, out) := DelRec(t, n1.kids[c], level - 1, q, flag, -1);
      DelInside(t, n, level, n1, c, k, q, out);
    } else {
      DelFound(t, n, level, q, flag, found);
      var p := PushDown(t, n, level, i);
      if p.Pushed? {
        ReadySorted(t, n, level, p.n, p.c);
        DelCorrect(t, p.n.kids[p.c], level - 1, q, flag, p.i);
        var (k, out) := DelRec(t, p.n.kids[p.c], level - 1, q, flag, p.i);
        DelInside(t, n, level, p.n, p.c, k, q, out);
      } else {
        DelReplace(t, n, level, q, i);
      }
    }
  }
}
