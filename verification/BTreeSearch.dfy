/** Searching, and how high a tree of a given size can be. */
module BTreeSearch {
  import opened BTreeModel
  import opened BTreeFlat
  import opened BTreeOps
  import opened BTreeAdd

  /** A place in the tree, named by its index in the in-order sequence. */
  datatype Place = At(pos: nat) | Nowhere

  /** The index in the in-order sequence of entry i of a node above the leaves. */
  function EntryPos(n: Node, level: nat, i: nat): nat
    requires level > 0 && i < |n.es| && i < |n.kids|
  {
    |Lead(n.es[..i], n.kids[..i], level - 1)| + |Flat(n.kids[i], level - 1)|
  }

  /** Goes down to the leaf at the place, and keeps the deepest match. */
  function Search(n: Node, level: nat, q: Query, flag: Flag): Place
    requires FitsAll(n, level)
    decreases level
  {
    var i := Find(n.es, q, flag);
    if level == 0 then if i == -1 then Nowhere else At(i)
    else
      var c := Count(n.es, q, flag);
      match Search(n.kids[c], level - 1, q, flag)
      case At(p) => At(|Lead(n.es[..c], n.kids[..c], level - 1)| + p)
      case Nowhere => if i == -1 then Nowhere else At(EntryPos(n, level, i))
  }

  /** One more child than entries in every node above the leaves. */
  predicate FitsAll(n: Node, level: nat): (ok: bool)
    ensures ok ==> Fits(n, level)
    decreases level
  {
    Fits(n, level) && (level > 0 ==> forall i :: 0 <= i < |n.kids| ==> FitsAll(n.kids[i], level - 1))
  }

  lemma {:induction false} ShapeFitsAll(t: nat, n: Node, level: nat)
    requires Shape(t, n, level)
    ensures FitsAll(n, level)
    decreases level
  {
    if level > 0 {
      forall i | 0 <= i < |n.kids| ensures FitsAll(n.kids[i], level - 1) { ShapeFitsAll(t, n.kids[i], level - 1); }
    }
  }

  /** What a linear scan would answer: the first or the last match. */
  predicate Scanned(s: seq<Entry>, q: Query, flag: Flag, r: Place) {
    match r
    case Nowhere => forall i :: 0 <= i < |s| ==> !Matches(s[i], q)
    case At(p) =>
      && p < |s| && Matches(s[p], q)
      && forall i :: 0 <= i < |s| && Matches(s[i], q) ==> if flag == First then p <= i else i <= p
  }

  /** In a sorted sequence the count names the first match, or one past the last. */
  function Target(s: seq<Entry>, q: Query, flag: Flag): int {
    if flag == First then Count(s, q, flag) else Count(s, q, flag) - 1
  }

  lemma TargetScanned(s: seq<Entry>, q: Query, flag: Flag)
    requires Sorted(s)
    ensures var i := Target(s, q, flag);
      if 0 <= i < |s| && Matches(s[i], q) then Scanned(s, q, flag, At(i)) else Scanned(s, q, flag, Nowhere)
  {
    var c := Count(s, q, flag);
    hide Count;
    forall i | c < i < |s| ensures Le(s[c], s[i]) { }
    forall i | 0 <= i < c - 1 ensures Le(s[i], s[c - 1]) { }
  }

  /** The search answers with its target in the whole sequence, if that matches. */
  ghost predicate Answers(s: seq<Entry>, q: Query, flag: Flag, r: Place) {
    var i := Target(s, q, flag);
    r == if 0 <= i < |s| && Matches(s[i], q) then At(i) else Nowhere
  }

  /** How the answer in child c and the entry beside it make the answer for the whole. */
  lemma AnswerAround(a: seq<Entry>, x: seq<Entry>, b: seq<Entry>, q: Query, flag: Flag, inner: Place, found: bool)
    requires Sorted(a + x + b) && Answers(x, q, flag, inner)
    requires Count(a + x + b, q, flag) == |a| + Count(x, q, flag)
    requires flag == First ==> (found <==> b != [] && Matches(b[0], q))
    requires flag == Last ==> (found <==> a != [] && Matches(a[|a| - 1], q))
    requires forall e :: e in a ==> Before(e, q, flag)
    requires b != [] ==> !Before(b[0], q, flag)
    ensures Answers(a + x + b, q, flag,
      if inner.At? then At(|a| + inner.pos)
      else if found then At(if flag == First then |a| + |x| else |a| - 1)
      else Nowhere)
  {
    hide Count, Sorted, Answers, Before;
    if flag == First { FirstAround(a, x, b, q, inner, found); } else { LastAround(a, x, b, q, inner, found); }
  }

  lemma FirstAround(a: seq<Entry>, x: seq<Entry>, b: seq<Entry>, q: Query, inner: Place, found: bool)
    requires Sorted(a + x + b) && Answers(x, q, First, inner)
    requires Count(a + x + b, q, First) == |a| + Count(x, q, First)
    requires found <==> b != [] && Matches(b[0], q)
    ensures Answers(a + x + b, q, First, if inner.At? then At(|a| + inner.pos) else if found then At(|a| + |x|)
      else Nowhere)
  {
    hide Count, Sorted;
    var s, c := a + x + b, Count(x, q, First);
    if c < |x| {
      assert s[|a| + c] == x[c];
      if b != [] { SortedParts(a + x, b); assert x[c] in a + x && b[0] in b; }
    } else if b != [] {
      assert s[|a| + c] == b[0];
    }
  }

  lemma LastAround(a: seq<Entry>, x: seq<Entry>, b: seq<Entry>, q: Query, inner: Place, found: bool)
    requires Sorted(a + x + b) && Answers(x, q, Last, inner)
    requires Count(a + x + b, q, Last) == |a| + Count(x, q, Last)
    requires found <==> a != [] && Matches(a[|a| - 1], q)
    ensures Answers(a + x + b, q, Last, if inner.At? then At(|a| + inner.pos) else if found then At(|a| - 1)
      else Nowhere)
  {
    hide Count, Sorted;
    var s, c := a + x + b, Count(x, q, Last);
    if c > 0 {
      assert s[|a| + c - 1] == x[c - 1];
      if a != [] {
        assert s == a + (x + b);
        SortedParts(a, x + b);
        assert a[|a| - 1] in a && x[c - 1] in x + b;
      }
    } else if a != [] {
      assert s[|a| - 1] == a[|a| - 1];
    }
  }

  lemma LeafAnswers(n: Node, q: Query, flag: Flag)
    requires FitsAll(n, 0)
    ensures Answers(n.es, q, flag, Search(n, 0, q, flag))
  {
  }

  lemma SearchBelow(n: Node, level: nat, q: Query, flag: Flag)
    requires level > 0 && FitsAll(n, level)
    ensures var c, i := Count(n.es, q, flag), Find(n.es, q, flag);
      && FitsAll(n.kids[c], level - 1)
      && Search(n, level, q, flag) ==
         match Search(n.kids[c], level - 1, q, flag)
         case At(p) => At(|Lead(n.es[..c], n.kids[..c], level - 1)| + p)
         case Nowhere => if i == -1 then Nowhere else At(EntryPos(n, level, i))
  {
    hide Lead, Flat, Count, Find, EntryPos;
  }

  lemma LeadLast(n: Node, level: nat, c: nat)
    requires level > 0 && Fits(n, level) && 0 < c <= |n.es|
    ensures var a := Lead(n.es[..c], n.kids[..c], level - 1);
      a != [] && a[|a| - 1] == n.es[c - 1] && EntryPos(n, level, c - 1) == |a| - 1
  {
    hide Lead, Flat;
    LeadAt(n.es, n.kids, c - 1, level - 1);
  }

  lemma {:induction false} SearchAnswers(n: Node, level: nat, q: Query, flag: Flag)
    requires FitsAll(n, level) && Sorted(Flat(n, level))
    ensures Answers(Flat(n, level), q, flag, Search(n, level, q, flag))
    decreases level
  {
    hide Flat, Lead, Trail, Search, Count, Sorted, FitsAll, Answers, EntryPos, Before;
    if level == 0 {
      LeafAnswers(n, q, flag);
      LeafFlat(n);
    } else {
      SearchBelow(n, level, q, flag);
      var c := Count(n.es, q, flag);
      var a, x, b := Lead(n.es[..c], n.kids[..c], level - 1), Flat(n.kids[c], level - 1),
        Trail(n.es[c..], n.kids[c + 1..], level - 1);
      SortedKid(n, level, c);
      SearchAnswers(n.kids[c], level - 1, q, flag);
      Descend(n, level, c, q, flag);
      FlatAt(n, level, c);
      TrailHead(n, level, c);
      if c > 0 { LeadLast(n, level, c); } else { EmptyLead(n, level); }
      EntryPosIs(n, level, c);
      AnswerAround(a, x, b, q, flag, Search(n.kids[c], level - 1, q, flag), Find(n.es, q, flag) != -1);
    }
  }

  lemma EmptyLead(n: Node, level: nat)
    requires level > 0
    ensures Lead(n.es[..0], n.kids[..0], level - 1) == []
  {
  }

  lemma EntryPosIs(n: Node, level: nat, c: nat)
    requires level > 0 && Fits(n, level) && c <= |n.es|
    ensures c < |n.es| ==>
      EntryPos(n, level, c) == |Lead(n.es[..c], n.kids[..c], level - 1)| + |Flat(n.kids[c], level - 1)|
  {
  }

  /** Searching for the first or last match agrees with a scan of the whole sorted sequence. */
  lemma SearchScans(n: Node, level: nat, q: Query, flag: Flag)
    requires FitsAll(n, level) && Sorted(Flat(n, level))
    ensures Scanned(Flat(n, level), q, flag, Search(n, level, q, flag))
  {
    hide Flat, Search, Sorted, Scanned, Count, FitsAll;
    SearchAnswers(n, level, q, flag);
    TargetScanned(Flat(n, level), q, flag);
  }

  // ----- height -----

  function Pow(b: nat, e: nat): nat {
    if e == 0 then 1 else b * Pow(b, e - 1)
  }

  lemma {:induction false} TrailSize(es: seq<Entry>, kids: seq<Node>, level: nat, w: nat)
    requires |es| == |kids|
    requires forall i :: 0 <= i < |kids| ==> |Flat(kids[i], level)| + 1 >= w
    ensures |Trail(es, kids, level)| >= |es| * w
  {
    hide Flat;
    if es != [] {
      TrailSize(es[1..], kids[1..], level, w);
      assert |es| * w == w + (|es| - 1) * w;
    }
  }

  /** A node with k entries at some level has at least (k + 1) * t^level - 1 entries below it. */
  lemma {:induction false} NodeSize(t: nat, n: Node, level: nat)
    requires t >= 2 && Shape(t, n, level)
    ensures |Flat(n, level)| + 1 >= (|n.es| + 1) * Pow(t, level)
    decreases level
  {
    if level > 0 {
      forall i | 0 <= i < |n.kids|
        ensures |Flat(n.kids[i], level - 1)| + 1 >= Pow(t, level)
      {
        NodeSize(t, n.kids[i], level - 1);
        WideEnough(|n.kids[i].es| + 1, t, Pow(t, level - 1));
      }
      hide Shape, Pow;
      TrailSize(n.es, n.kids[1..], level - 1, Pow(t, level));
      Widen(|n.es|, Pow(t, level));
    }
  }

  lemma WideEnough(a: nat, t: nat, p: nat)
    requires a >= t
    ensures a * p >= t * p
  {
  }

  lemma Widen(a: nat, p: nat)
    ensures (a + 1) * p == a * p + p
  {
  }

  /** The height bound, also for a root that deletions left without entries. */
  lemma HeightBound(t: nat, root: Node, level: nat)
    requires t >= 2 && Shape(t, root, level)
    ensures |Flat(root, level)| + 1 >= Pow(t, level)
  {
    hide Shape, Flat, Pow;
    NodeSize(t, root, level);
    WideEnough(|root.es| + 1, 1, Pow(t, level));
  }

  lemma {:induction false} PowGrows(b: nat, m: nat, n: nat)
    requires b >= 1 && m <= n
    ensures Pow(b, m) <= Pow(b, n)
  {
    if m < n {
      PowGrows(b, m, n - 1);
      WideEnough(b, 1, Pow(b, n - 1));
    }
  }

  /** With the library's degree 8, a tree of fewer than 2^30 entries fits the iterator's 32 levels. */
  lemma LevelFits(root: Node, level: nat)
    requires Shape(8, root, level) && |Flat(root, level)| < 0x4000_0000
    ensures level < 32
  {
    HeightBound(8, root, level);
    hide Shape, Flat;
    if level >= 11 {
      PowGrows(8, 11, level);
      EightToEleven();
    }
  }

  lemma EightToEleven()
    ensures Pow(8, 11) == 0x2_0000_0000
  {
    assert Pow(8, 2) == 64;
    assert Pow(8, 4) == 4096;
    assert Pow(8, 6) == 0x4_0000;
    assert Pow(8, 8) == 0x100_0000;
    assert Pow(8, 10) == 0x4000_0000;
  }
}
