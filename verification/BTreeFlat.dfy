/** How node operations act on the in-order sequence. */
module BTreeFlat {
  import opened BTreeModel

  lemma {:induction false} TrailConcat(a: seq<Entry>, ka: seq<Node>, b: seq<Entry>, kb: seq<Node>, level: nat)
    requires |a| == |ka|
    ensures Trail(a + b, ka + kb, level) == Trail(a, ka, level) + Trail(b, kb, level)
  {
    if a == [] {
      assert a + b == b && ka + kb == kb;
    } else {
      assert (a + b)[1..] == a[1..] + b && (ka + kb)[1..] == ka[1..] + kb;
      TrailConcat(a[1..], ka[1..], b, kb, level);
    }
  }

  lemma {:induction false} LeadConcat(a: seq<Entry>, ka: seq<Node>, b: seq<Entry>, kb: seq<Node>, level: nat)
    requires |a| == |ka|
    ensures Lead(a + b, ka + kb, level) == Lead(a, ka, level) + Lead(b, kb, level)
  {
    if a == [] {
      assert a + b == b && ka + kb == kb;
    } else {
      assert (a + b)[1..] == a[1..] + b && (ka + kb)[1..] == ka[1..] + kb;
      LeadConcat(a[1..], ka[1..], b, kb, level);
    }
  }

  lemma LeadOne(e: Entry, k: Node, level: nat)
    ensures Lead([e], [k], level) == Flat(k, level) + [e]
    ensures Trail([e], [k], level) == [e] + Flat(k, level)
  {
    assert [e][1..] == [] && [k][1..] == [];
    assert Lead([], [], level) == [] && Trail([], [], level) == [];
  }

  lemma Regroup(a: seq<Entry>, x: seq<Entry>, e: Entry, y: seq<Entry>, b: seq<Entry>)
    ensures a + x + ([e] + y + b) == (a + (x + [e])) + y + b == a + (x + [e] + y) + b
  {
  }

  lemma LeafFlat(n: Node)
    ensures Flat(n, 0) == n.es
  {
  }

  lemma TrailAt(es: seq<Entry>, kids: seq<Node>, i: nat, level: nat)
    requires i < |es| && i + 1 < |kids|
    ensures Trail(es[i..], kids[i + 1..], level) == [es[i]] + Flat(kids[i + 1], level)
      + Trail(es[i + 1..], kids[i + 2..], level)
  {
    hide Flat;
    assert es[i..][1..] == es[i + 1..] && kids[i + 1..][1..] == kids[i + 2..];
  }

  lemma LeadAt(es: seq<Entry>, kids: seq<Node>, i: nat, level: nat)
    requires i < |es| && i < |kids|
    ensures Lead(es[..i + 1], kids[..i + 1], level) == Lead(es[..i], kids[..i], level)
      + (Flat(kids[i], level) + [es[i]])
  {
    hide Flat, Lead;
    assert es[..i + 1] == es[..i] + [es[i]] && kids[..i + 1] == kids[..i] + [kids[i]];
    LeadConcat(es[..i], kids[..i], [es[i]], [kids[i]], level);
    LeadOne(es[i], kids[i], level);
  }

  /** The in-order sequence around child c. */
  lemma {:induction false} FlatAt(n: Node, level: nat, c: nat)
    requires level > 0 && |n.kids| == |n.es| + 1 && c <= |n.es|
    ensures Flat(n, level) ==
      Lead(n.es[..c], n.kids[..c], level - 1) + Flat(n.kids[c], level - 1)
        + Trail(n.es[c..], n.kids[c + 1..], level - 1)
  {
    if c == 0 {
      assert n.es[0..] == n.es;
      assert Lead(n.es[..0], n.kids[..0], level - 1) == [];
    } else {
      hide Flat, Lead, Trail;
      var d := c - 1;
      FlatAt(n, level, d);
      LeadAt(n.es, n.kids, d, level - 1);
      TrailAt(n.es, n.kids, d, level - 1);
      Regroup(Lead(n.es[..d], n.kids[..d], level - 1), Flat(n.kids[d], level - 1), n.es[d], Flat(n.kids[c], level - 1),
              Trail(n.es[c..], n.kids[c + 1..], level - 1));
    }
  }

  lemma EmptyTrail(level: nat)
    ensures Trail([], [], level) == [] && Lead([], [], level) == []
  {
  }

  /** Cutting a node at entry m cuts its sequence there. */
  lemma FlatCut(n: Node, level: nat, m: nat)
    requires Fits(n, level) && m < |n.es|
    ensures Flat(n, level) == Flat(LeftPart(n, m, level), level) + [n.es[m]] + Flat(RightPart(n, m, level), level)
  {
    hide Flat, LeftPart, RightPart;
    if level == 0 { LeafCut(n, m); } else { InnerCut(n, level, m); }
  }

  lemma LeafCut(n: Node, m: nat)
    requires Fits(n, 0) && m < |n.es|
    ensures Flat(n, 0) == Flat(LeftPart(n, m, 0), 0) + [n.es[m]] + Flat(RightPart(n, m, 0), 0)
  {
    assert n.es == n.es[..m] + [n.es[m]] + n.es[m + 1..];
  }

  lemma CutParts(n: Node, level: nat, m: nat)
    requires level > 0 && Fits(n, level) && m < |n.es|
    ensures var l, r := LeftPart(n, m, level), RightPart(n, m, level);
      && |l.kids| == |l.es| + 1 && |l.es| == m && |r.kids| == |r.es| + 1
      && l.es[..m] == n.es[..m] && l.kids[..m] == n.kids[..m] && l.kids[m + 1..] == [] && l.es[m..] == []
        && l.kids[m] == n.kids[m]
      && r.es[0..] == n.es[m + 1..] && r.kids[0 + 1..] == n.kids[m + 2..] && r.es[..0] == [] && r.kids[..0] == []
        && r.kids[0] == n.kids[m + 1]
  {
  }

  lemma InnerCut(n: Node, level: nat, m: nat)
    requires level > 0 && Fits(n, level) && m < |n.es|
    ensures Flat(n, level) == Flat(LeftPart(n, m, level), level) + [n.es[m]] + Flat(RightPart(n, m, level), level)
  {
    hide Flat, Lead, Trail, LeftPart, RightPart;
    var l, r := LeftPart(n, m, level), RightPart(n, m, level);
    CutParts(n, level, m);
    FlatPair(n, level, m);
    FlatAt(l, level, m);
    FlatAt(r, level, 0);
    EmptyTrail(level - 1);
    Glue(Lead(n.es[..m], n.kids[..m], level - 1), Flat(n.kids[m], level - 1), n.es[m], Flat(n.kids[m + 1], level - 1),
         Trail(n.es[m + 1..], n.kids[m + 2..], level - 1));
  }

  lemma Glue(a: seq<Entry>, x: seq<Entry>, e: Entry, y: seq<Entry>, b: seq<Entry>)
    ensures a + (x + [e] + y) + b == (a + x + []) + [e] + ([] + y + b)
  {
  }

  lemma FlatJoin(l: Node, e: Entry, r: Node, level: nat)
    requires Fits(l, level) && Fits(r, level)
    ensures Fits(Join(l, e, r), level)
    ensures Flat(Join(l, e, r), level) == Flat(l, level) + [e] + Flat(r, level)
  {
    var j := Join(l, e, r);
    FlatCut(j, level, |l.es|);
    assert LeftPart(j, |l.es|, level) == l && RightPart(j, |l.es|, level) == r;
  }

  /** The in-order sequence around entry i. */
  lemma FlatPair(n: Node, level: nat, i: nat)
    requires level > 0 && |n.kids| == |n.es| + 1 && i < |n.es|
    ensures Flat(n, level) ==
      Lead(n.es[..i], n.kids[..i], level - 1)
      + (Flat(n.kids[i], level - 1) + [n.es[i]] + Flat(n.kids[i + 1], level - 1))
      + Trail(n.es[i + 1..], n.kids[i + 2..], level - 1)
  {
    hide Flat, Lead, Trail;
    FlatAt(n, level, i);
    TrailAt(n.es, n.kids, i, level - 1);
    Regroup(Lead(n.es[..i], n.kids[..i], level - 1), Flat(n.kids[i], level - 1), n.es[i],
      Flat(n.kids[i + 1], level - 1),
            Trail(n.es[i + 1..], n.kids[i + 2..], level - 1));
  }

  // ----- restructuring keeps the sequence -----

  lemma FlatMerge(n: Node, i: nat, level: nat)
    requires level > 0 && |n.kids| == |n.es| + 1 && i < |n.es| && Fits(n.kids[i], level - 1)
      && Fits(n.kids[i + 1], level - 1)
    ensures Flat(Merge(n, i), level) == Flat(n, level)
  {
    var n' := Merge(n, i);
    FlatPair(n, level, i);
    FlatAt(n', level, i);
    FlatJoin(n.kids[i], n.es[i], n.kids[i + 1], level - 1);
    hide Flat;
    assert n'.es[..i] == n.es[..i] && n'.kids[..i] == n.kids[..i];
    assert n'.es[i..] == n.es[i + 1..] && n'.kids[i + 1..] == n.kids[i + 2..];
  }

  lemma FlatReplacePair(n: Node, n': Node, i: nat, level: nat)
    requires level > 0 && |n.kids| == |n.es| + 1 && i < |n.es|
    requires |n'.kids| == |n.kids| && |n'.es| == |n.es|
    requires n' == Node(n.es[i := n'.es[i]], n.kids[i := n'.kids[i]][i + 1 := n'.kids[i + 1]])
    requires Flat(n'.kids[i], level - 1) + [n'.es[i]] + Flat(n'.kids[i + 1], level - 1)
      == Flat(n.kids[i], level - 1) + [n.es[i]] + Flat(n.kids[i + 1], level - 1)
    ensures Flat(n', level) == Flat(n, level)
  {
    FlatPair(n, level, i);
    FlatPair(n', level, i);
    hide Flat;
    assert n'.es[..i] == n.es[..i] && n'.kids[..i] == n.kids[..i];
    assert n'.es[i + 1..] == n.es[i + 1..] && n'.kids[i + 2..] == n.kids[i + 2..];
  }

  lemma FlatRotateLeft(n: Node, i: nat, level: nat)
    requires level > 0 && |n.kids| == |n.es| + 1 && i < |n.es| && Fits(n.kids[i], level - 1)
      && Fits(n.kids[i + 1], level - 1)
    requires |n.kids[i + 1].es| > 0
    ensures Flat(RotateLeft(n, i, level), level) == Flat(n, level)
  {
    hide Flat, Lead, Trail, LeftPart, RightPart;
    var l, r, n' := n.kids[i], n.kids[i + 1], RotateLeft(n, i, level);
    var j := Join(l, n.es[i], r);
    FlatJoin(l, n.es[i], r, level - 1);
    RotatedLeftParts(l, n.es[i], r, level - 1);
    FlatCut(j, level - 1, |l.es| + 1);
    FlatReplacePair(n, n', i, level);
  }

  lemma RotatedLeftParts(l: Node, e: Entry, r: Node, level: nat)
    requires Fits(l, level) && Fits(r, level) && |r.es| > 0
    ensures var j := Join(l, e, r);
      && Fits(j, level)
      && LeftPart(j, |l.es| + 1, level) == Node(l.es + [e], if level > 0 then l.kids + [r.kids[0]] else [])
      && RightPart(j, |l.es| + 1, level) == Node(r.es[1..], if level > 0 then r.kids[1..] else [])
      && j.es[|l.es| + 1] == r.es[0]
  {
  }

  lemma FlatRotateRight(n: Node, i: nat, level: nat)
    requires level > 0 && |n.kids| == |n.es| + 1 && i < |n.es| && Fits(n.kids[i], level - 1)
      && Fits(n.kids[i + 1], level - 1)
    requires |n.kids[i].es| > 0
    ensures Flat(RotateRight(n, i, level), level) == Flat(n, level)
  {
    hide Flat, Lead, Trail, LeftPart, RightPart;
    var l, r, n' := n.kids[i], n.kids[i + 1], RotateRight(n, i, level);
    var j := Join(l, n.es[i], r);
    FlatJoin(l, n.es[i], r, level - 1);
    RotatedRightParts(l, n.es[i], r, level - 1);
    FlatCut(j, level - 1, |l.es| - 1);
    FlatReplacePair(n, n', i, level);
  }

  lemma RotatedRightParts(l: Node, e: Entry, r: Node, level: nat)
    requires Fits(l, level) && Fits(r, level) && |l.es| > 0
    ensures var j := Join(l, e, r);
      && Fits(j, level)
      && LeftPart(j, |l.es| - 1, level) == Node(l.es[..|l.es| - 1], if level > 0 then l.kids[..|l.kids| - 1] else [])
      && RightPart(j, |l.es| - 1, level) == Node([e] + r.es, if level > 0 then [l.kids[|l.kids| - 1]] + r.kids else [])
      && j.es[|l.es| - 1] == l.es[|l.es| - 1]
  {
  }

  lemma FlatSplit(t: nat, n: Node, i: nat, level: nat)
    requires t >= 2 && level > 0 && |n.kids| == |n.es| + 1 && i < |n.kids| && |n.kids[i].es| == Max(t)
      && Fits(n.kids[i], level - 1)
    ensures Flat(SplitChild(t, n, i, level), level) == Flat(n, level)
  {
    hide Flat, Lead, Trail, LeftPart, RightPart;
    var n', c := SplitChild(t, n, i, level), n.kids[i];
    FlatAt(n, level, i);
    FlatPair(n', level, i);
    FlatCut(c, level - 1, Min(t));
    assert n'.es[..i] == n.es[..i] && n'.kids[..i] == n.kids[..i];
    assert n'.es[i + 1..] == n.es[i..] && n'.kids[i + 2..] == n.kids[i + 1..];
  }

  /** Replacing child c replaces its part of the sequence. */
  lemma FlatSetKid(n: Node, level: nat, c: nat, x: Node)
    requires level > 0 && |n.kids| == |n.es| + 1 && c <= |n.es|
    ensures Flat(Node(n.es, n.kids[c := x]), level) ==
      Lead(n.es[..c], n.kids[..c], level - 1) + Flat(x, level - 1) + Trail(n.es[c..], n.kids[c + 1..], level - 1)
  {
    FlatAt(Node(n.es, n.kids[c := x]), level, c);
    hide Flat;
    assert n.kids[c := x][..c] == n.kids[..c] && n.kids[c := x][c + 1..] == n.kids[c + 1..];
  }
}
