/**
  The page pool: regions tiled by runs, and an index of the free runs by length, each length with its ring of runs.
  Allocation takes a smallest sufficient run; freeing merges a run with its free neighbours.
 */
module PagePool {
  import opened Queues
  import opened PageRuns
  import opened PageCount
  import PageAddr
  import Regions

  type Region = nat

  datatype Spot = Spot(region: Region, start: nat)

  datatype Ret = Ok | ArgInvalid | OutOfMemory

  type Index = map<nat, seq<Spot>>

  // ----- the index: a tree of lengths, each with a ring of runs -----

  predicate Indexed(ix: Index, len: nat, s: Spot) {
    len in ix && s in ix[len]
  }

  /** Every length in the tree has a ring with at least one run, none twice. */
  predicate RingsOk(ix: Index) {
    forall len :: len in ix ==> ix[len] != [] && NoDup(ix[len])
  }

  function AddSpot(ix: Index, len: nat, s: Spot): Index {
    ix[len := if len in ix then ix[len] + [s] else [s]]
  }

  function RemoveSpot(ix: Index, len: nat, s: Spot): Index {
    if len !in ix then ix
    else
      var ring := Without(ix[len], s);
      if ring == [] then ix - {len} else ix[len := ring]
  }

  lemma AddSpotOk(ix: Index, len: nat, s: Spot)
    requires RingsOk(ix) && !Indexed(ix, len, s)
    ensures RingsOk(AddSpot(ix, len, s))
    ensures forall l, x :: Indexed(AddSpot(ix, len, s), l, x) <==> Indexed(ix, l, x) || (l == len && x == s)
  {
    hide NoDup;
    if len in ix { NoDupAppend(ix[len], s); }
    NoDupSingle(s);
  }

  lemma RemoveSpotOk(ix: Index, len: nat, s: Spot)
    requires RingsOk(ix)
    ensures RingsOk(RemoveSpot(ix, len, s))
    ensures forall l, x :: Indexed(RemoveSpot(ix, len, s), l, x) <==> Indexed(ix, l, x) && !(l == len && x == s)
  {
    hide NoDup, Without;
    if len in ix { WithoutOk(ix[len], s); }
  }

  // ----- what the pool keeps -----

  ghost predicate RegionOk(n: nat, pages: seq<Page>, rs: seq<Run>) {
    && Positive(rs) && Coalesced(rs) && Total(rs) == n && pages == Tile(rs)
    && |pages| == n && !FreeAt(rs, 0, n)
  }

  /** The index holds exactly the free runs, each under its length. */
  ghost predicate IndexOk(ix: Index, runs: map<Region, seq<Run>>) {
    && RingsOk(ix)
    && forall len, s :: Indexed(ix, len, s) <==> s.region in runs && FreeAt(runs[s.region], s.start, len)
  }

  ghost predicate PoolOk(n: nat, pages: map<Region, seq<Page>>, ix: Index, runs: map<Region, seq<Run>>) {
    && n > 0 && pages.Keys == runs.Keys
    && (forall r :: r in runs ==> RegionOk(n, pages[r], runs[r]))
    && IndexOk(ix, runs)
  }

  // ----- replacing a stretch of runs -----

  /** Replacing runs by others of the same total length moves nothing outside the stretch. */
  lemma RunReplaced(a: seq<Run>, x: seq<Run>, y: seq<Run>, b: seq<Run>, start: int, r: Run)
    requires Positive(a) && Positive(x) && Positive(y) && Total(x) == Total(y)
    ensures RunAt(a + y + b, start, r) <==>
      if Total(a) <= start < Total(a) + Total(x) then RunAt(y, start - Total(a), r) else RunAt(a + x + b, start, r)
    ensures Total(a) <= start < Total(a) + Total(x) ==> (RunAt(a + x + b, start, r) <==> RunAt(x, start - Total(a), r))
    ensures Total(a + y + b) == Total(a + x + b)
  {
    hide RunAt, Total;
    TotalConcat(a, x);
    TotalConcat(a, y);
    TotalConcat(a + x, b);
    TotalConcat(a + y, b);
    RunAtConcat(a, x, start, r);
    RunAtConcat(a, y, start, r);
    RunAtConcat(a + x, b, start, r);
    RunAtConcat(a + y, b, start, r);
  }

  lemma Replaced(a: seq<Run>, x: seq<Run>, y: seq<Run>, b: seq<Run>, start: int, len: nat)
    requires Positive(a) && Positive(x) && Positive(y) && Total(x) == Total(y)
    ensures FreeAt(a + y + b, start, len) <==>
      if Total(a) <= start < Total(a) + Total(x) then FreeAt(y, start - Total(a), len)
        else FreeAt(a + x + b, start, len)
    ensures Total(a) <= start < Total(a) + Total(x) ==>
      (FreeAt(a + x + b, start, len) <==> FreeAt(x, start - Total(a), len))
    ensures Total(a + y + b) == Total(a + x + b)
  {
    hide RunAt, Total;
    RunReplaced(a, x, y, b, start, Run(true, len));
  }

  lemma FreeAtOne(r: Run, start: int, len: nat)
    requires r.len > 0
    ensures FreeAt([r], start, len) <==> start == 0 && r == Run(true, len)
  {
    RunAtOne(r, start, Run(true, len));
  }

  lemma FreeAtTwo(r: Run, r': Run, start: int, len: nat)
    requires r.len > 0 && r'.len > 0
    ensures FreeAt([r, r'], start, len) <==>
      (start == 0 && r == Run(true, len)) || (start == r.len && r' == Run(true, len))
  {
    assert [r, r'][1..] == [r'];
    FreeAtOne(r', start - r.len, len);
  }

  lemma FreeAtThree(r: Run, r': Run, r'': Run, start: int, len: nat)
    requires r.len > 0 && r'.len > 0 && r''.len > 0
    ensures FreeAt([r, r', r''], start, len) <==>
      (start == 0 && r == Run(true, len)) || (start == r.len && r' == Run(true, len))
        || (start == r.len + r'.len && r'' == Run(true, len))
  {
    assert [r, r', r''][1..] == [r', r''];
    FreeAtTwo(r', r'', start - r.len, len);
  }

  // ----- taking pages from a free run -----

  /** What a free run of `len` pages becomes when its first `use` pages are taken. */
  function Taken(use: nat, len: nat): seq<Run>
    requires use <= len
  {
    if len == use then [Run(false, use)] else [Run(false, use), Run(true, len - use)]
  }

  lemma TakenTotal(use: nat, len: nat)
    requires 0 < use <= len
    ensures Total(Taken(use, len)) == len && Positive(Taken(use, len))
    ensures Tile(Taken(use, len)) == Block(Run(false, use)) + (if len == use then [] else Block(Run(true, len - use)))
  {
    if len != use {
      assert Taken(use, len) == [Run(false, use)] + [Run(true, len - use)];
      TotalConcat([Run(false, use)], [Run(true, len - use)]);
      TileConcat([Run(false, use)], [Run(true, len - use)]);
      TileOne(Run(true, len - use));
    }
    TileOne(Run(false, use));
  }

  /** A region with a used run is not one free run. */
  lemma NotAllFree(rs: seq<Run>, i: nat)
    requires Positive(rs) && i < |rs| && !rs[i].free
    ensures !FreeAt(rs, 0, Total(rs))
  {
    if |rs| > 1 { assert rs[1..][0].len > 0; }
  }

  function Replace(rs: seq<Run>, k: nat, m: nat, y: seq<Run>): seq<Run>
    requires k <= m <= |rs|
  {
    rs[..k] + y + rs[m..]
  }

  lemma TakeRegion(rs: seq<Run>, k: nat, use: nat)
    requires Positive(rs) && Coalesced(rs) && k < |rs| && rs[k].free && 0 < use <= rs[k].len
    ensures var rs' := Replace(rs, k, k + 1, Taken(use, rs[k].len));
      && Positive(rs') && Coalesced(rs') && Total(rs') == Total(rs) && !FreeAt(rs', 0, Total(rs))
  {
    hide FreeAt, Total;
    var y := Taken(use, rs[k].len);
    var rs' := Replace(rs, k, k + 1, y);
    SplitAtRun(rs, k);
    TakenTotal(use, rs[k].len);
    TotalConcat(rs[..k], y);
    TotalConcat(rs[..k] + y, rs[k + 1..]);
    assert rs'[k] == Run(false, use);
    NotAllFree(rs', k);
  }

  /** Taking pages replaces the run in the index by what is left of it. */
  lemma TakeIndex(rs: seq<Run>, k: nat, use: nat, start: int, len: nat)
    requires Positive(rs) && k < |rs| && rs[k].free && 0 < use <= rs[k].len
    ensures var l, at := rs[k].len, Total(rs[..k]);
      FreeAt(Replace(rs, k, k + 1, Taken(use, l)), start, len) <==>
        (FreeAt(rs, start, len) && !(start == at && len == l)) || (l > use && start == at + use && len == l - use)
  {
    hide FreeAt, Total;
    var l, at := rs[k].len, Total(rs[..k]);
    var y := Taken(use, l);
    SplitAtRun(rs, k);
    TakenTotal(use, l);
    TileOne(rs[k]);
    Replaced(rs[..k], [rs[k]], y, rs[k + 1..], start, len);
    FreeAtOne(rs[k], start - at, len);
    if l == use { FreeAtOne(Run(false, use), start - at, len); }
      else { FreeAtTwo(Run(false, use), Run(true, l - use), start - at, len); }
  }

  lemma TileReplace(rs: seq<Run>, k: nat, m: nat, y: seq<Run>)
    requires k <= m <= |rs|
    ensures Tile(Replace(rs, k, m, y)) == Tile(rs[..k]) + Tile(y) + Tile(rs[m..])
    ensures Tile(rs) == Tile(rs[..k]) + Tile(rs[k..m]) + Tile(rs[m..])
  {
    TileConcat(rs[..k], y);
    TileConcat(rs[..k] + y, rs[m..]);
    Three(rs, k, m);
    TileConcat(rs[..k], rs[k..m]);
    TileConcat(rs[..k] + rs[k..m], rs[m..]);
  }

  // ----- the loops over page tags -----

  method InitRegion(n: nat) returns (pg: seq<Page>)
    requires n > 0
    ensures pg == Block(Run(true, n))
  {
    pg := [];
    while |pg| < n
      invariant |pg| <= n && forall j :: 0 <= j < |pg| ==> pg[j] == Page(true, false, n)
    {
      pg := pg + [Page(true, false, n)];
    }
    pg := pg[0 := pg[0].(master := true)];
  }

  /** Marks the first `use` pages of the free run at `start` as used and the others as a run of their own. */
  method SplitPages(pg: seq<Page>, start: nat, use: nat) returns (out: seq<Page>)
    requires start < |pg|
    requires var len := pg[start].cnt;
      0 < use <= len && start + len <= |pg| && pg[start..start + len] == Block(Run(true, len))
    ensures var len := pg[start].cnt; out == pg[..start] + Tile(Taken(use, len)) + pg[start + len..]
  {
    hide Tile, Taken;
    var len := pg[start].cnt;
    assert forall j :: start <= j < start + len ==> pg[j] == pg[start..start + len][j - start];
    out := pg;
    var i := 0;
    while i < use
      invariant 0 <= i <= use && |out| == |pg|
      invariant forall j :: 0 <= j < |pg| ==> out[j] == if start <= j < start + i then Page(false, j == start, use)
        else pg[j]
    {
      out := out[start + i := out[start + i].(cnt := use, free := false)];
      i := i + 1;
    }
    ghost var mid := out;
    if len > use {
      i := 0;
      while i < len - use
        invariant 0 <= i <= len - use && |out| == |pg|
        invariant forall j :: 0 <= j < |pg| ==>
          out[j] == if start + use <= j < start + use + i then Page(true, false, len - use) else mid[j]
      {
        out := out[start + use + i := out[start + use + i].(cnt := len - use)];
        i := i + 1;
      }
      out := out[start + use := out[start + use].(master := true)];
    }
    SplitTags(use, len);
    SplitIs(pg, out, start, use, len);
  }

  /** The tags of a used run followed by what is left of a free run. */
  lemma SplitTags(use: nat, len: nat)
    requires 0 < use <= len
    ensures var y := Tile(Taken(use, len));
      |y| == len && forall j :: 0 <= j < len ==>
        y[j] == if j < use then Page(false, j == 0, use) else Page(true, j == use, len - use)
  {
    hide Tile, Taken;
    TakenTotal(use, len);
    if len == use { assert Block(Run(false, use)) + [] == Block(Run(false, use)); }
  }

  lemma SplitIs(pg: seq<Page>, out: seq<Page>, start: nat, use: nat, len: nat)
    requires 0 < use <= len && start + len <= |pg| && |out| == |pg| && |Tile(Taken(use, len))| == len
    requires forall j :: 0 <= j < len ==> Tile(Taken(use, len))[j] == out[start + j]
    requires forall j :: 0 <= j < |pg| && !(start <= j < start + len) ==> out[j] == pg[j]
    ensures out == pg[..start] + Tile(Taken(use, len)) + pg[start + len..]
  {
    hide Tile, Taken;
  }

  /** Gives all pages of a merged run the tags of one free run. */
  method MergePages(pg: seq<Page>, start: nat, total: nat) returns (out: seq<Page>)
    requires 0 < total && start + total <= |pg|
    ensures out == pg[..start] + Block(Run(true, total)) + pg[start + total..]
  {
    out := pg;
    var i := 0;
    while i < total
      invariant 0 <= i <= total && |out| == |pg|
      invariant forall j :: 0 <= j < |pg| ==> out[j] == if start <= j < start + i then Page(true, false, total)
        else pg[j]
    {
      out := out[start + i := Page(true, false, total)];
      i := i + 1;
    }
    out := out[start := out[start].(master := true)];
  }

  /** The smallest length in the tree that is at least cnt. */
  method SmallestFit(sizes: set<nat>, cnt: nat) returns (found: bool, len: nat)
    ensures !found ==> forall x :: x in sizes ==> x < cnt
    ensures found ==> len in sizes && len >= cnt && forall x :: x in sizes && x >= cnt ==> len <= x
  {
    found, len := false, 0;
    var todo := sizes;
    while todo != {}
      invariant todo <= sizes
      invariant !found ==> forall x :: x in sizes && x !in todo ==> x < cnt
      invariant found ==> len in sizes && len >= cnt && forall x :: x in sizes && x !in todo && x >= cnt ==> len <= x
      decreases |todo|
    {
      var x :| x in todo;
      if x >= cnt && (!found || x < len) {
        found, len := true, x;
      }
      todo := todo - {x};
    }
  }

  // ----- whole-pool effects -----

  /** Region r changes from the runs `was` to `now`, and the index follows. */
  lemma RegionChanged(n: nat, pages: map<Region, seq<Page>>, ix: Index, runs: map<Region, seq<Run>>, r: Region,
                      pg': seq<Page>, rs': seq<Run>, ix': Index)
    requires PoolOk(n, pages, ix, runs) && RegionOk(n, pg', rs') && RingsOk(ix')
    requires forall len, s: Spot :: s.region != r ==> (Indexed(ix', len, s) <==> Indexed(ix, len, s))
    requires forall len, start: nat :: Indexed(ix', len, Spot(r, start)) <==> FreeAt(rs', start, len)
    ensures PoolOk(n, pages[r := pg'], ix', runs[r := rs'])
  {
    hide RegionOk, RingsOk, Indexed, FreeAt;
    forall len, s
      ensures Indexed(ix', len, s) <==> s.region in runs[r := rs'] && FreeAt(runs[r := rs'][s.region], s.start, len)
    {
      if s.region == r { assert s == Spot(r, s.start); }
    }
  }

  lemma RegionDropped(n: nat, pages: map<Region, seq<Page>>, ix: Index, runs: map<Region, seq<Run>>, r: Region,
      ix': Index)
    requires PoolOk(n, pages, ix, runs) && RingsOk(ix')
    requires forall len, s: Spot :: s.region != r ==> (Indexed(ix', len, s) <==> Indexed(ix, len, s))
    requires forall len, start: nat :: !Indexed(ix', len, Spot(r, start))
    ensures PoolOk(n, pages - {r}, ix', runs - {r})
  {
    hide RegionOk, RingsOk, Indexed, FreeAt;
    forall len, s
      ensures Indexed(ix', len, s) <==> s.region in runs - {r} && FreeAt((runs - {r})[s.region], s.start, len)
    {
      if s.region == r { assert s == Spot(r, s.start); }
    }
  }

  /** The index after taking pages from a run. */
  function TakenIndex(ix: Index, s: Spot, len: nat, use: nat): Index
    requires use <= len
  {
    var ix1 := RemoveSpot(ix, len, s);
    if len == use then ix1 else AddSpot(ix1, len - use, Spot(s.region, s.start + use))
  }

  lemma TakenIndexOk(ix: Index, runs: map<Region, seq<Run>>, r: Region, k: nat, use: nat)
    requires IndexOk(ix, runs) && r in runs && Positive(runs[r]) && k < |runs[r]| && runs[r][k].free
      && 0 < use <= runs[r][k].len
    ensures var rs := runs[r]; var s, len := Spot(r, Total(rs[..k])), rs[k].len; var ix' := TakenIndex(ix, s, len, use);
      && RingsOk(ix')
      && (forall l, x: Spot :: x.region != r ==> (Indexed(ix', l, x) <==> Indexed(ix, l, x)))
      && (forall l, start: nat :: Indexed(ix', l, Spot(r, start)) <==>
        FreeAt(Replace(rs, k, k + 1, Taken(use, len)), start, l))
  {
    hide RingsOk, Indexed, FreeAt, AddSpot, RemoveSpot, Total;
    var rs := runs[r];
    var s, len := Spot(r, Total(rs[..k])), rs[k].len;
    RemoveSpotOk(ix, len, s);
    var left := Spot(r, s.start + use);
    if len > use {
      assert !Indexed(ix, len - use, left) by { TakeGap(rs, k, use); }
      AddSpotOk(RemoveSpot(ix, len, s), len - use, left);
    }
    forall l, start: nat
      ensures Indexed(TakenIndex(ix, s, len, use), l, Spot(r, start)) <==>
        FreeAt(Replace(rs, k, k + 1, Taken(use, len)), start, l)
    {
      TakeIndex(rs, k, use, start, l);
    }
  }

  /** Inside a run no other run starts. */
  lemma TakeGap(rs: seq<Run>, k: nat, use: nat)
    requires Positive(rs) && k < |rs| && 0 < use < rs[k].len
    ensures !FreeAt(rs, Total(rs[..k]) + use, rs[k].len - use)
  {
    hide FreeAt, Total;
    SplitAtRun(rs, k);
    TileOne(rs[k]);
    Replaced(rs[..k], [rs[k]], [rs[k]], rs[k + 1..], Total(rs[..k]) + use, rs[k].len - use);
    FreeAtOne(rs[k], use, rs[k].len - use);
  }

  lemma BlockTags(r: Run)
    requires r.len > 0
    ensures |Block(r)| == r.len && Block(r)[0] == Page(r.free, true, r.len) && Block(r)[0..r.len] == Block(r)
  {
  }

  /** The tags of the pages of run k. */
  lemma RunTags(rs: seq<Run>, k: nat)
    requires Positive(rs) && k < |rs|
    ensures var pg, at, len := Tile(rs), Total(rs[..k]), rs[k].len;
      && at + len <= |pg| && pg[at..at + len] == Block(rs[k]) && pg[at] == Page(rs[k].free, true, len)
      && pg[at + len - 1].cnt == len
      && pg[..at] == Tile(rs[..k]) && pg[at + len..] == Tile(rs[k + 1..])
  {
    hide Tile, Total;
    SplitAtRun(rs, k);
    TileSize(rs[..k]);
    TileSize(rs);
    var pg, at, len := Tile(rs), Total(rs[..k]), rs[k].len;
    assert pg[at] == Block(rs[k])[0] && pg[at + len - 1] == Block(rs[k])[len - 1];
  }

  // ----- merging a freed run with its free neighbours -----

  /** The stretch of runs that a freed run k merges with. */
  function MergeLo(rs: seq<Run>, k: nat): nat
    requires k < |rs|
  {
    if k > 0 && rs[k - 1].free then k - 1 else k
  }

  function MergeHi(rs: seq<Run>, k: nat): nat
    requires k < |rs|
  {
    if k + 1 < |rs| && rs[k + 1].free then k + 2 else k + 1
  }

  function MergeLen(rs: seq<Run>, k: nat): nat
    requires k < |rs|
  {
    (if k > 0 && rs[k - 1].free then rs[k - 1].len else 0) + rs[k].len
      + (if k + 1 < |rs| && rs[k + 1].free then rs[k + 1].len else 0)
  }

  function Freed(rs: seq<Run>, k: nat): seq<Run>
    requires k < |rs|
  {
    Replace(rs, MergeLo(rs, k), MergeHi(rs, k), [Run(true, MergeLen(rs, k))])
  }

  /** The merged stretch, as the runs it is made of. */
  lemma Stretch(rs: seq<Run>, k: nat)
    requires Positive(rs) && k < |rs|
    ensures var lo, hi := MergeLo(rs, k), MergeHi(rs, k);
      && Total(rs[lo..hi]) == MergeLen(rs, k) && Positive(rs[lo..hi])
      && rs[lo..hi] == (if lo < k then [rs[k - 1]] else []) + [rs[k]] + (if hi > k + 1 then [rs[k + 1]] else [])
      && Total(rs[..lo]) == Total(rs[..k]) - (if lo < k then rs[k - 1].len else 0)
  {
    hide Total;
    var lo, hi := MergeLo(rs, k), MergeHi(rs, k);
    var x := (if lo < k then [rs[k - 1]] else []) + [rs[k]] + (if hi > k + 1 then [rs[k + 1]] else []);
    assert rs[lo..hi] == x;
    TileOne(rs[k]);
    TotalConcat(if lo < k then [rs[k - 1]] else [], [rs[k]]);
    TotalConcat((if lo < k then [rs[k - 1]] else []) + [rs[k]], if hi > k + 1 then [rs[k + 1]] else []);
    NoTotal();
    if lo < k {
      TileOne(rs[k - 1]);
      assert rs[..k] == rs[..lo] + [rs[k - 1]];
      TotalConcat(rs[..lo], [rs[k - 1]]);
    }
    if hi > k + 1 { TileOne(rs[k + 1]); }
  }

  lemma NoTotal()
    ensures Total([]) == 0
  {
  }

  lemma FreedRegion(rs: seq<Run>, k: nat)
    requires Positive(rs) && Coalesced(rs) && k < |rs|
    ensures var rs' := Freed(rs, k); Positive(rs') && Coalesced(rs') && Total(rs') == Total(rs)
    ensures MergeLen(rs, k) <= Total(rs)
    ensures MergeLen(rs, k) == Total(rs) <==> MergeLo(rs, k) == 0 && MergeHi(rs, k) == |rs|
    ensures FreeAt(Freed(rs, k), 0, Total(rs)) ==> MergeLen(rs, k) == Total(rs)
  {
    hide Total, FreeAt, Freed, MergeLen, Coalesced;
    FreedTotal(rs, k);
    FreedCoalesced(rs, k);
    FirstIsAll(Freed(rs, k), MergeLo(rs, k));
  }

  lemma FreedCoalesced(rs: seq<Run>, k: nat)
    requires Positive(rs) && Coalesced(rs) && k < |rs|
    ensures var rs' := Freed(rs, k); Positive(rs') && Coalesced(rs')
    ensures |Freed(rs, k)| == MergeLo(rs, k) + 1 + |rs| - MergeHi(rs, k) && Freed(rs, k)[MergeLo(rs, k)].len ==
      MergeLen(rs, k)
  {
    var lo, hi, rs' := MergeLo(rs, k), MergeHi(rs, k), Freed(rs, k);
    forall i | 0 <= i < |rs'| - 1
      ensures !(rs'[i].free && rs'[i + 1].free)
    {
      if i + 1 < lo {
        assert rs'[i] == rs[i] && rs'[i + 1] == rs[i + 1];
      } else if i > lo {
        var d := i - lo - 1 + hi;
        assert rs'[i] == rs[d] && rs'[i + 1] == rs[d + 1];
      } else if i + 1 == lo {
        assert rs'[i] == rs[lo - 1];
      } else {
        assert rs'[i + 1] == rs[hi];
      }
    }
  }

  lemma FreedTotal(rs: seq<Run>, k: nat)
    requires Positive(rs) && k < |rs|
    ensures Total(Freed(rs, k)) == Total(rs) && MergeLen(rs, k) <= Total(rs)
    ensures MergeLen(rs, k) == Total(rs) <==> MergeLo(rs, k) == 0 && MergeHi(rs, k) == |rs|
    ensures MergeLo(rs, k) <= k < MergeHi(rs, k) <= |rs|
  {
    hide Total, Tile, MergeLen, MergeLo, MergeHi;
    var lo, hi, y := MergeLo(rs, k), MergeHi(rs, k), [Run(true, MergeLen(rs, k))];
    StretchTotal(rs, k);
    Three(rs, lo, hi);
    TotalThree(rs[..lo], rs[lo..hi], rs[hi..]);
    Around(rs[..lo], y[0], rs[hi..]);
    SomeTotal(rs[..lo]);
    SomeTotal(rs[hi..]);
  }

  lemma StretchTotal(rs: seq<Run>, k: nat)
    requires Positive(rs) && k < |rs|
    ensures MergeLo(rs, k) <= k < MergeHi(rs, k) <= |rs| && Total(rs[MergeLo(rs, k)..MergeHi(rs, k)]) == MergeLen(rs, k)
  {
    hide Total, MergeLen;
    Stretch(rs, k);
  }

  lemma TotalThree(a: seq<Run>, x: seq<Run>, b: seq<Run>)
    ensures Total(a + x + b) == Total(a) + Total(x) + Total(b)
  {
    hide Total;
    TotalConcat(a, x);
    TotalConcat(a + x, b);
  }

  lemma SomeTotal(rs: seq<Run>)
    requires Positive(rs)
    ensures Total(rs) == 0 <==> rs == []
  {
  }

  /** If all pages are in one free run, it is the only run. */
  lemma FirstIsAll(rs: seq<Run>, lo: nat)
    requires Positive(rs) && lo < |rs|
    ensures FreeAt(rs, 0, Total(rs)) ==> |rs| == 1 && lo == 0 && rs[0].len == Total(rs)
  {
    SomeTotal(rs[1..]);
  }

  /** The free runs after freeing run k. */
  lemma FreedIndex(rs: seq<Run>, k: nat, start: int, len: nat)
    requires Positive(rs) && k < |rs| && !rs[k].free
    ensures var lo, hi, at := MergeLo(rs, k), MergeHi(rs, k), Total(rs[..k]);
      FreeAt(Freed(rs, k), start, len) <==>
        || (start == Total(rs[..lo]) && len == MergeLen(rs, k))
        || (&& FreeAt(rs, start, len)
            && !(lo < k && start == Total(rs[..lo]) && len == rs[k - 1].len)
            && !(hi > k + 1 && start == at + rs[k].len && len == rs[k + 1].len))
  {
    hide Total, FreeAt;
    var lo, hi, y := MergeLo(rs, k), MergeHi(rs, k), [Run(true, MergeLen(rs, k))];
    Stretch(rs, k);
    TileOne(y[0]);
    StretchFree(rs, k, start - Total(rs[..lo]), len);
    var x, d := rs[lo..hi], start - Total(rs[..lo]);
    Three(rs, lo, hi);
    Replaced(rs[..lo], x, y, rs[hi..], start, len);
    FreeAtOne(y[0], d, len);
  }

  /** The free runs inside the merged stretch are the neighbours. */
  lemma StretchFree(rs: seq<Run>, k: nat, d: int, len: nat)
    requires Positive(rs) && k < |rs| && !rs[k].free
    ensures var lo, hi := MergeLo(rs, k), MergeHi(rs, k);
      FreeAt(rs[lo..hi], d, len) <==>
        || (lo < k && d == 0 && len == rs[k - 1].len)
        || (hi > k + 1 && d == (if lo < k then rs[k - 1].len else 0) + rs[k].len && len == rs[k + 1].len)
    ensures k <= MergeHi(rs, k) <= |rs| && MergeLo(rs, k) <= k && MergeLen(rs, k) > 0
  {
    hide Total, FreeAt;
    var lo, hi := MergeLo(rs, k), MergeHi(rs, k);
    var x := rs[lo..hi];
    if lo < k && hi > k + 1 {
      assert x == [rs[k - 1], rs[k], rs[k + 1]];
      FreeAtThree(rs[k - 1], rs[k], rs[k + 1], d, len);
    } else if lo < k {
      assert x == [rs[k - 1], rs[k]];
      FreeAtTwo(rs[k - 1], rs[k], d, len);
    } else if hi > k + 1 {
      assert x == [rs[k], rs[k + 1]];
      FreeAtTwo(rs[k], rs[k + 1], d, len);
    } else {
      assert x == [rs[k]];
      FreeAtOne(rs[k], d, len);
    }
  }

  /** The runs beside a used run, found from the tags of the pages around it. */
  method Neighbours(pg: seq<Page>, start: nat, ghost rs: seq<Run>, ghost k: nat)
    returns (prev: bool, prevAt: nat, prevLen: nat, next: bool, nextAt: nat, nextLen: nat)
    requires Positive(rs) && pg == Tile(rs) && k < |rs| && start == Total(rs[..k]) && start < |pg|
    ensures prev <==> MergeLo(rs, k) < k
    ensures prev ==> prevLen == rs[k - 1].len && prevAt == start - prevLen
    ensures next <==> MergeHi(rs, k) > k + 1
    ensures next ==> nextLen == rs[k + 1].len && nextAt == start + rs[k].len
    ensures pg[start].cnt == rs[k].len
  {
    hide Tile, Total;
    NextTags(rs, k);
    SomeTotal(rs[..k]);
    if k > 0 { PrevTags(rs, k); }
    prev, prevAt, prevLen := false, 0, 0;
    if start > 0 {
      prevLen := pg[start - 1].cnt;
      prevAt := start - prevLen;
      prev := pg[prevAt].free;
    }
    next, nextAt, nextLen := false, 0, 0;
    if start + pg[start].cnt < |pg| {
      nextAt := start + pg[start].cnt;
      nextLen := pg[nextAt].cnt;
      next := pg[nextAt].free;
    }
  }

  /** The index with the free neighbours of a freed run taken out. */
  function NeighboursOut(ix: Index, r: Region, prev: bool, prevAt: nat, prevLen: nat, next: bool, nextAt: nat,
      nextLen: nat): Index {
    var ix1 := if prev then RemoveSpot(ix, prevLen, Spot(r, prevAt)) else ix;
    if next then RemoveSpot(ix1, nextLen, Spot(r, nextAt)) else ix1
  }

  lemma NeighboursOutOk(ix: Index, r: Region, rs: seq<Run>, k: nat,
                        prev: bool, prevAt: nat, prevLen: nat, next: bool, nextAt: nat, nextLen: nat)
    requires RingsOk(ix) && k < |rs|
    requires prev <==> MergeLo(rs, k) < k
    requires prev ==> prevLen == rs[k - 1].len && prevAt == Total(rs[..k]) - prevLen
    requires next <==> MergeHi(rs, k) > k + 1
    requires next ==> nextLen == rs[k + 1].len && nextAt == Total(rs[..k]) + rs[k].len
    ensures var ix' := NeighboursOut(ix, r, prev, prevAt, prevLen, next, nextAt, nextLen);
      RingsOk(ix') && Out(ix, ix', r, rs, k)
  {
    hide RingsOk, Indexed, RemoveSpot, Total, MergeLo, MergeHi;
    if prev { RemoveSpotOk(ix, prevLen, Spot(r, prevAt)); }
    if next { RemoveSpotOk(if prev then RemoveSpot(ix, prevLen, Spot(r, prevAt)) else ix, nextLen, Spot(r, nextAt)); }
  }

  lemma RingsOf(n: nat, pages: map<Region, seq<Page>>, ix: Index, runs: map<Region, seq<Run>>)
    requires PoolOk(n, pages, ix, runs)
    ensures RingsOk(ix)
  {
  }

  // ----- a new region, a merged run and a region given back -----

  /** A region just taken, with its first cnt pages in use. */
  lemma FreshRegion(n: nat, pg: seq<Page>, out: seq<Page>, cnt: nat, ix: Index,
                    pages: map<Region, seq<Page>>, runs: map<Region, seq<Run>>, id: Region)
    requires PoolOk(n, pages, ix, runs) && id !in runs && 0 < cnt <= n
    requires pg == Block(Run(true, n)) && out == pg[..0] + Tile(Taken(cnt, n)) + pg[n..]
    ensures PoolOk(n, pages[id := out], if n == cnt then ix else AddSpot(ix, n - cnt, Spot(id, cnt)),
      runs[id := Taken(cnt, n)])
  {
    hide Tile, Total, FreeAt, RingsOk, Indexed, AddSpot;
    var y := Taken(cnt, n);
    var ix' := if n == cnt then ix else AddSpot(ix, n - cnt, Spot(id, cnt));
    TakenTotal(cnt, n);
    assert out == Tile(y);
    NotAllFree(y, 0);
    if cnt < n { AddSpotOk(ix, n - cnt, Spot(id, cnt)); }
    forall len, start: nat
      ensures Indexed(ix', len, Spot(id, start)) <==> FreeAt(y, start, len)
    {
      if cnt == n { FreeAtOne(Run(false, cnt), start, len); }
        else { FreeAtTwo(Run(false, cnt), Run(true, n - cnt), start, len); }
    }
    RegionChanged(n, pages, ix, runs, id, out, y, ix');
  }

  /** The page before run k carries the length of the run before it. */
  lemma PrevTags(rs: seq<Run>, k: nat)
    requires Positive(rs) && 0 < k < |rs|
    ensures var pg, at, len := Tile(rs), Total(rs[..k]), rs[k - 1].len;
      0 < len <= at <= |pg| && pg[at - 1].cnt == len && pg[at - len].free == rs[k - 1].free
  {
    hide Tile, Total, Block;
    RunTags(rs, k - 1);
    StartAfter(rs, k - 1);
  }

  /** Run k ends where the next one starts, if there is a next one. */
  lemma NextTags(rs: seq<Run>, k: nat)
    requires Positive(rs) && k < |rs|
    ensures var pg, at, len := Tile(rs), Total(rs[..k]), rs[k].len;
      && at + len <= |pg| && len > 0 && pg[at].cnt == len && (at + len < |pg| <==> k + 1 < |rs|)
      && (k + 1 < |rs| ==> pg[at + len].cnt == rs[k + 1].len && pg[at + len].free == rs[k + 1].free)
  {
    hide Tile, Total, Block;
    TileSize(rs);
    RunTags(rs, k);
    SplitAtRun(rs, k);
    SomeTotal(rs[k + 1..]);
    if k + 1 < |rs| {
      RunTags(rs, k + 1);
      StartAfter(rs, k);
    }
  }

  lemma StartAfter(rs: seq<Run>, k: nat)
    requires k < |rs|
    ensures Total(rs[..k + 1]) == Total(rs[..k]) + rs[k].len
  {
    hide Total, Tile, Block;
    SplitAtRun(rs[..k + 1], k);
    assert rs[..k + 1][..k] == rs[..k];
    LastEmpty(rs[..k + 1]);
  }

  lemma LastEmpty(rs: seq<Run>)
    ensures Total(rs[|rs|..]) == 0
  {
  }

  /** The pool after run k of region r is freed and merged, while other runs of the region are in use. */
  lemma FreedPool(n: nat, pages: map<Region, seq<Page>>, ix: Index, runs: map<Region, seq<Run>>, r: Region, k: nat,
                  out: seq<Page>, ix': Index)
    requires PoolOk(n, pages, ix, runs) && r in runs && k < |runs[r]| && !runs[r][k].free && MergeLen(runs[r], k) < n
    requires var rs := runs[r]; var lo, len := Total(rs[..MergeLo(rs, k)]), MergeLen(rs, k);
      lo + len <= |pages[r]| && out == pages[r][..lo] + Block(Run(true, len)) + pages[r][lo + len..]
    requires RingsOk(ix') && Out(ix, ix', r, runs[r], k)
    ensures var rs := runs[r]; var lo, len := Total(rs[..MergeLo(rs, k)]), MergeLen(rs, k);
      PoolOk(n, pages[r := out], AddSpot(ix', len, Spot(r, lo)), runs[r := Freed(rs, k)])
  {
    hide Tile, Total, FreeAt, RingsOk, Indexed, AddSpot, Block, Freed, MergeLen;
    var rs := runs[r];
    TileSize(Freed(rs, k));
    var lo, len := Total(rs[..MergeLo(rs, k)]), MergeLen(rs, k);
    assert RegionOk(n, pages[r], rs);
    FreedTile(rs, k);
    FreedRegion(rs, k);
    FreedSpot(ix, ix', r, runs, k);
    AddSpotOk(ix', len, Spot(r, lo));
    var ix2 := AddSpot(ix', len, Spot(r, lo));
    forall l, start: nat
      ensures Indexed(ix2, l, Spot(r, start)) <==> FreeAt(Freed(rs, k), start, l)
    {
      OutAt(ix, ix', r, runs, k, start, l);
    }
    OutElsewhere(ix, ix', r, rs, k);
    RegionChanged(n, pages, ix, runs, r, out, Freed(rs, k), ix2);
  }

  /** ix' is ix without the free neighbours of run k of region r. */
  ghost predicate Out(ix: Index, ix': Index, r: Region, rs: seq<Run>, k: nat)
    requires k < |rs|
  {
    var lo, hi, at := MergeLo(rs, k), MergeHi(rs, k), Total(rs[..k]);
    forall l, x: Spot ::
      Indexed(ix', l, x) <==>
        (&& Indexed(ix, l, x)
         && !(lo < k && l == rs[k - 1].len && x.region == r && x.start == at - rs[k - 1].len)
         && !(hi > k + 1 && l == rs[k + 1].len && x.region == r && x.start == at + rs[k].len))
  }

  lemma OutElsewhere(ix: Index, ix': Index, r: Region, rs: seq<Run>, k: nat)
    requires k < |rs| && Out(ix, ix', r, rs, k)
    ensures forall l, x: Spot :: x.region != r ==> (Indexed(ix', l, x) <==> Indexed(ix, l, x))
  {
    hide Indexed, Total;
  }

  lemma OutAt(ix: Index, ix': Index, r: Region, runs: map<Region, seq<Run>>, k: nat, start: nat, l: nat)
    requires IndexOk(ix, runs) && r in runs && Positive(runs[r]) && k < |runs[r]| && !runs[r][k].free
      && Out(ix, ix', r, runs[r], k)
    ensures var rs := runs[r];
      FreeAt(Freed(rs, k), start, l) <==>
        Indexed(ix', l, Spot(r, start)) || (start == Total(rs[..MergeLo(rs, k)]) && l == MergeLen(rs, k))
  {
    hide Indexed, Total, FreeAt, Freed;
    FreedIndex(runs[r], k, start, l);
    Stretch(runs[r], k);
  }

  /** The merged run was not in the index before. */
  lemma FreedSpot(ix: Index, ix': Index, r: Region, runs: map<Region, seq<Run>>, k: nat)
    requires IndexOk(ix, runs) && r in runs && Positive(runs[r]) && k < |runs[r]| && !runs[r][k].free
      && Out(ix, ix', r, runs[r], k)
    ensures var rs := runs[r]; !Indexed(ix', MergeLen(rs, k), Spot(r, Total(rs[..MergeLo(rs, k)])))
  {
    hide Indexed, Total, FreeAt;
    var rs := runs[r];
    var lo := MergeLo(rs, k);
    if Indexed(ix', MergeLen(rs, k), Spot(r, Total(rs[..lo]))) {
      var j := FreeAtIndex(rs, Total(rs[..lo]), MergeLen(rs, k));
      SameStart(rs, j, lo);
      assert false;
    }
  }

  /** Runs have different starts. */
  lemma SameStart(rs: seq<Run>, j: nat, k: nat)
    requires Positive(rs) && j < |rs| && k < |rs| && Total(rs[..j]) == Total(rs[..k])
    ensures j == k
  {
    if j < k { StartBelow(rs, j, k); }
    if k < j { StartBelow(rs, k, j); }
  }

  lemma StartBelow(rs: seq<Run>, j: nat, k: nat)
    requires Positive(rs) && j < k <= |rs|
    ensures Total(rs[..j]) < Total(rs[..k])
  {
    assert rs[..k][..j] == rs[..j];
    SplitAtRun(rs[..k], j);
  }

  lemma FreedTile(rs: seq<Run>, k: nat)
    requires Positive(rs) && k < |rs|
    ensures var lo, len, pg := Total(rs[..MergeLo(rs, k)]), MergeLen(rs, k), Tile(rs);
      && lo + len <= |pg| && Tile(Freed(rs, k)) == pg[..lo] + Block(Run(true, len)) + pg[lo + len..]
  {
    hide Tile, Total, Block, MergeLen;
    var a, b := MergeLo(rs, k), MergeHi(rs, k);
    var y := [Run(true, MergeLen(rs, k))];
    Stretch(rs, k);
    TileReplace(rs, a, b, y);
    TileOne(y[0]);
    TileSize(rs[..a]);
    TileSize(rs[a..b]);
    var lo, len, pg := Total(rs[..a]), MergeLen(rs, k), Tile(rs);
    assert pg[..lo] == Tile(rs[..a]) && pg[lo + len..] == Tile(rs[b..]);
  }

  /** The pool after the last used run of region r is freed: the region is given back. */
  lemma FreedAll(n: nat, pages: map<Region, seq<Page>>, ix: Index, runs: map<Region, seq<Run>>, r: Region, k: nat,
      ix': Index)
    requires PoolOk(n, pages, ix, runs) && r in runs && k < |runs[r]| && !runs[r][k].free && MergeLen(runs[r], k) == n
    requires RingsOk(ix') && Out(ix, ix', r, runs[r], k)
    ensures PoolOk(n, pages - {r}, ix', runs - {r})
  {
    hide Tile, Total, FreeAt, RingsOk, Indexed, Block, Freed, MergeLen, MergeLo, MergeHi;
    var rs := runs[r];
    assert RegionOk(n, pages[r], rs);
    FreedRegion(rs, k);
    forall l, start: nat
      ensures !Indexed(ix', l, Spot(r, start))
    {
      if Indexed(ix', l, Spot(r, start)) { OnlyMerged(ix, ix', r, runs, k, start, l); assert false; }
    }
    OutElsewhere(ix, ix', r, rs, k);
    RegionDropped(n, pages, ix, runs, r, ix');
  }

  /** If the merged run is the whole region, no other free run of the region is in the index. */
  lemma OnlyMerged(ix: Index, ix': Index, r: Region, runs: map<Region, seq<Run>>, k: nat, start: nat, l: nat)
    requires IndexOk(ix, runs) && r in runs && Positive(runs[r]) && Coalesced(runs[r]) && k < |runs[r]|
      && !runs[r][k].free
    requires Out(ix, ix', r, runs[r], k) && MergeLen(runs[r], k) == Total(runs[r])
    ensures !Indexed(ix', l, Spot(r, start))
  {
    hide Indexed, Total, FreeAt, Freed;
    var rs := runs[r];
    FreedRegion(rs, k);
    Stretch(rs, k);
    if Indexed(ix', l, Spot(r, start)) {
      var j := FreeAtIndex(rs, start, l);
      assert j == k - 1 || j == k + 1;
      if j == k + 1 {
        SplitAtRun(rs[..k + 1], k);
        assert rs[..k + 1][..k] == rs[..k];
        LastEmpty(rs[..k + 1]);
      }
    }
  }

  /** Taking cnt pages of a free run makes exactly those pages used. */
  lemma TakenCount(rs: seq<Run>, k: nat, use: nat)
    requires k < |rs| && rs[k].free && use <= rs[k].len
    ensures Amount(Replace(rs, k, k + 1, Taken(use, rs[k].len)), false) == Amount(rs, false) + use
  {
    hide Amount, Total, Tile;
    var len := rs[k].len;
    SplitAtRun(rs, k);
    AmountReplaced(rs[..k], [rs[k]], Taken(use, len), rs[k + 1..], false);
    AmountOne(rs[k], false);
    TakenUsed(use, len);
  }

  lemma TakenUsed(use: nat, len: nat)
    requires use <= len
    ensures Amount(Taken(use, len), false) == use
  {
    AmountOne(Run(false, use), false);
    if use < len {
      assert Taken(use, len)[1..] == [Run(true, len - use)];
      AmountOne(Run(true, len - use), false);
    }
  }

  /** Freeing run k makes exactly its pages free. */
  lemma FreedCount(rs: seq<Run>, k: nat)
    requires Positive(rs) && k < |rs| && !rs[k].free
    ensures Amount(Freed(rs, k), false) == Amount(rs, false) - rs[k].len
  {
    hide Amount, Total, Tile, MergeLen, MergeLo, MergeHi;
    var lo, hi, y := MergeLo(rs, k), MergeHi(rs, k), [Run(true, MergeLen(rs, k))];
    StretchTotal(rs, k);
    StretchAmount(rs, k);
    Three(rs, lo, hi);
    AmountReplaced(rs[..lo], rs[lo..hi], y, rs[hi..], false);
    AmountOne(y[0], false);
  }

  lemma Three(rs: seq<Run>, lo: nat, hi: nat)
    requires lo <= hi <= |rs|
    ensures rs == rs[..lo] + rs[lo..hi] + rs[hi..]
  {
  }

  lemma StretchAmount(rs: seq<Run>, k: nat)
    requires Positive(rs) && k < |rs| && !rs[k].free
    ensures Amount(rs[MergeLo(rs, k)..MergeHi(rs, k)], false) == rs[k].len
  {
    hide Amount, Total, MergeLen;
    var lo, hi := MergeLo(rs, k), MergeHi(rs, k);
    Stretch(rs, k);
    var p, q := if lo < k then [rs[k - 1]] else [], if hi > k + 1 then [rs[k + 1]] else [];
    AmountConcat(p, [rs[k]], false);
    AmountConcat(p + [rs[k]], q, false);
    AmountOne(rs[k], false);
    NoAmount();
    if lo < k { AmountOne(rs[k - 1], false); }
    if hi > k + 1 { AmountOne(rs[k + 1], false); }
  }

  lemma NoAmount()
    ensures Amount([], false) == 0
  {
  }

  /** A region freed as a whole had no used pages but those of the freed run. */
  lemma LastCount(rs: seq<Run>, k: nat)
    requires Positive(rs) && k < |rs| && !rs[k].free && MergeLen(rs, k) == Total(rs)
    ensures Amount(rs, false) == rs[k].len
  {
    hide Amount, Total, Freed;
    FreedTotal(rs, k);
    FreedCount(rs, k);
    assert Freed(rs, k) == [Run(true, MergeLen(rs, k))] by { WholeFreed(rs, k); }
    AmountOne(Run(true, MergeLen(rs, k)), false);
  }

  lemma WholeFreed(rs: seq<Run>, k: nat)
    requires k < |rs| && MergeLo(rs, k) == 0 && MergeHi(rs, k) == |rs|
    ensures Freed(rs, k) == [Run(true, MergeLen(rs, k))]
  {
  }

  /** Free plus used pages always equal regions times pages per region. */
  lemma PoolConserves(n: nat, pages: map<Region, seq<Page>>, ix: Index, runs: map<Region, seq<Run>>)
    requires PoolOk(n, pages, ix, runs)
    ensures Count(runs, true) + Count(runs, false) == |pages| * n
  {
    hide Count, IndexOk;
    Conservation(runs, n);
    assert |pages| == |pages.Keys| && |runs| == |runs.Keys|;
  }

  // ----- used runs -----

  /** A used run of len pages starts at s. */
  ghost predicate Used(runs: map<Region, seq<Run>>, s: Spot, len: nat) {
    s.region in runs && UsedAt(runs[s.region], s.start, len)
  }

  /** One more used run. */
  ghost predicate UsedMore(runs: map<Region, seq<Run>>, runs': map<Region, seq<Run>>, s: Spot, cnt: nat) {
    && (forall x, len: nat :: Used(runs', x, len) <==> Used(runs, x, len) || (x == s && len == cnt))
    && (forall len: nat :: !Used(runs, s, len))
  }

  /** One used run less. */
  ghost predicate UsedLess(runs: map<Region, seq<Run>>, runs': map<Region, seq<Run>>, s: Spot) {
    forall x, len: nat :: Used(runs', x, len) <==> Used(runs, x, len) && x != s
  }

  lemma TakenAt(use: nat, len: nat, start: int, u: nat)
    requires 0 < use <= len
    ensures UsedAt(Taken(use, len), start, u) <==> start == 0 && u == use
  {
    var y := Taken(use, len);
    RunAtOne(Run(false, use), start, Run(false, u));
    if len != use {
      assert y[1..] == [Run(true, len - use)];
      RunAtOne(Run(true, len - use), start - use, Run(false, u));
    }
  }

  /** Taking pages adds the used run and touches no other. */
  lemma TakeUsed(rs: seq<Run>, k: nat, use: nat, start: int, u: nat)
    requires Positive(rs) && k < |rs| && rs[k].free && 0 < use <= rs[k].len
    ensures UsedAt(Replace(rs, k, k + 1, Taken(use, rs[k].len)), start, u) <==>
      UsedAt(rs, start, u) || (start == Total(rs[..k]) && u == use)
    ensures !UsedAt(rs, Total(rs[..k]), u)
  {
    hide RunAt, Total, Tile, Taken;
    var l, at := rs[k].len, Total(rs[..k]);
    SplitAtRun(rs, k);
    TakenTotal(use, l);
    TileOne(rs[k]);
    RunReplaced(rs[..k], [rs[k]], Taken(use, l), rs[k + 1..], start, Run(false, u));
    RunReplaced(rs[..k], [rs[k]], [rs[k]], rs[k + 1..], at, Run(false, u));
    RunAtOne(rs[k], start - at, Run(false, u));
    RunAtOne(rs[k], 0, Run(false, u));
    TakenAt(use, l, start - at, u);
  }

  /** Of a freed run and its free neighbours only the run itself was used. */
  lemma StretchUsed(rs: seq<Run>, k: nat, start: int, u: nat)
    requires Positive(rs) && k < |rs| && !rs[k].free
    ensures MergeLo(rs, k) <= k < MergeHi(rs, k) <= |rs|
    ensures UsedAt(rs[MergeLo(rs, k)..MergeHi(rs, k)], start, u) ==>
      start == Total(rs[..k]) - Total(rs[..MergeLo(rs, k)])
  {
    hide RunAt, Total, Tile;
    var lo, hi := MergeLo(rs, k), MergeHi(rs, k);
    Stretch(rs, k);
    var p, q := if lo < k then [rs[k - 1]] else [], if hi > k + 1 then [rs[k + 1]] else [];
    NoTotal();
    NoRun(start, Run(false, u));
    if lo < k { TileOne(rs[k - 1]); RunAtOne(rs[k - 1], start, Run(false, u)); }
    RunAtConcat(p, [rs[k]] + q, start, Run(false, u));
    RunAtConcat([rs[k]], q, start - Total(p), Run(false, u));
    TileOne(rs[k]);
    RunAtOne(rs[k], start - Total(p), Run(false, u));
    NoRun(start - Total(p) - rs[k].len, Run(false, u));
    if hi > k + 1 { RunAtOne(rs[k + 1], start - Total(p) - rs[k].len, Run(false, u)); }
    assert rs[lo..hi] == p + ([rs[k]] + q);
  }

  lemma NoRun(start: int, r: Run)
    ensures !RunAt([], start, r)
  {
  }

  /** Freeing a run removes it from the used runs and touches no other. */
  lemma FreeUsed(rs: seq<Run>, k: nat, start: int, u: nat)
    requires Positive(rs) && k < |rs| && !rs[k].free
    ensures UsedAt(Freed(rs, k), start, u) <==> UsedAt(rs, start, u) && start != Total(rs[..k])
  {
    hide RunAt, Total, Tile, MergeLen, MergeLo, MergeHi;
    var lo, hi := MergeLo(rs, k), MergeHi(rs, k);
    StretchTotal(rs, k);
    var x, y := rs[lo..hi], [Run(true, MergeLen(rs, k))];
    StretchUsed(rs, k, start - Total(rs[..lo]), u);
    StretchInside(rs, k);
    TileOne(y[0]);
    Three(rs, lo, hi);
    RunReplaced(rs[..lo], x, y, rs[hi..], start, Run(false, u));
    RunAtOne(y[0], start - Total(rs[..lo]), Run(false, u));
  }

  lemma StretchInside(rs: seq<Run>, k: nat)
    requires Positive(rs) && k < |rs|
    ensures MergeLo(rs, k) <= k && Total(rs[..MergeLo(rs, k)]) <= Total(rs[..k]) < Total(rs[..MergeLo(rs, k)])
      + MergeLen(rs, k)
  {
    hide Total;
    Stretch(rs, k);
  }

  lemma TakenMore(runs: map<Region, seq<Run>>, r: Region, k: nat, use: nat)
    requires r in runs && Positive(runs[r]) && k < |runs[r]| && runs[r][k].free && 0 < use <= runs[r][k].len
    ensures var rs := runs[r];
      UsedMore(runs, runs[r := Replace(rs, k, k + 1, Taken(use, rs[k].len))], Spot(r, Total(rs[..k])), use)
  {
    hide UsedAt, Total, Replace, Taken;
    var rs := runs[r];
    var runs' := runs[r := Replace(rs, k, k + 1, Taken(use, rs[k].len))];
    forall x: Spot, u: nat ensures Used(runs', x, u) <==>
      Used(runs, x, u) || (x == Spot(r, Total(rs[..k])) && u == use) {
      TakeUsed(rs, k, use, x.start, u);
    }
    forall u: nat ensures !Used(runs, Spot(r, Total(rs[..k])), u) { TakeUsed(rs, k, use, 0, u); }
  }

  lemma NewMore(runs: map<Region, seq<Run>>, r: Region, use: nat, n: nat)
    requires r !in runs && 0 < use <= n
    ensures UsedMore(runs, runs[r := Taken(use, n)], Spot(r, 0), use)
  {
    hide UsedAt, Taken;
    var runs' := runs[r := Taken(use, n)];
    forall x: Spot, u: nat ensures Used(runs', x, u) <==> Used(runs, x, u) || (x == Spot(r, 0) && u == use) {
      TakenAt(use, n, x.start, u);
    }
  }

  lemma FreedLess(runs: map<Region, seq<Run>>, r: Region, k: nat)
    requires r in runs && Positive(runs[r]) && k < |runs[r]| && !runs[r][k].free
    ensures var rs := runs[r]; var s := Spot(r, Total(rs[..k]));
      && UsedLess(runs, runs[r := Freed(rs, k)], s)
      && (MergeLen(rs, k) == Total(rs) ==> UsedLess(runs, runs - {r}, s))
  {
    hide UsedAt, Total, Freed, MergeLen, MergeLo, MergeHi;
    var rs := runs[r];
    var s := Spot(r, Total(rs[..k]));
    forall x: Spot, u: nat
      ensures Used(runs[r := Freed(rs, k)], x, u) <==> Used(runs, x, u) && x != s
      ensures MergeLen(rs, k) == Total(rs) ==> (Used(runs - {r}, x, u) <==> Used(runs, x, u) && x != s)
    {
      FreeUsed(rs, k, x.start, u);
      FreedTotal(rs, k);
      if MergeLen(rs, k) == Total(rs) {
        WholeFreed(rs, k);
        OneFreeRun(MergeLen(rs, k), x.start, u);
      }
    }
  }

  lemma OneFreeRun(len: nat, start: int, u: nat)
    ensures !UsedAt([Run(true, len)], start, u)
  {
    RunAtOne(Run(true, len), start, Run(false, u));
  }

  /** The first page of a used run carries the tags that freeing asks for. */
  lemma UsedTags(n: nat, pages: map<Region, seq<Page>>, ix: Index, runs: map<Region, seq<Run>>, s: Spot, len: nat)
    requires PoolOk(n, pages, ix, runs) && Used(runs, s, len)
    ensures s.start < n && |pages[s.region]| == n && pages[s.region][s.start] == Page(false, true, len) && s.start
      + len <= n && len > 0
  {
    hide Total, Tile, RunAt, Coalesced, IndexOk, FreeAt;
    var rs := runs[s.region];
    assert RegionOk(n, pages[s.region], rs);
    var k := RunAtIndex(rs, s.start, Run(false, len));
    RunAtBounds(rs, s.start, Run(false, len));
    RunTags(rs, k);
  }

  lemma RegionFacts(n: nat, pages: map<Region, seq<Page>>, ix: Index, runs: map<Region, seq<Run>>, r: Region)
    requires PoolOk(n, pages, ix, runs) && r in runs
    ensures r in pages && Positive(runs[r]) && Total(runs[r]) == n && |pages[r]| == n && pages[r] == Tile(runs[r])
    ensures pages.Keys == runs.Keys
  {
    assert RegionOk(n, pages[r], runs[r]);
  }

  // ----- the array of registered regions -----

  /** The array holds exactly these regions, in address order and without overlap. */
  ghost predicate RegionsOk(regions: seq<Region>, size: nat, all: set<Region>) {
    PageAddr.Apart(regions, size) && forall r :: r in regions <==> r in all
  }

  function Inserted(regions: seq<Region>, i: nat, r: Region): seq<Region>
    requires i <= |regions|
  {
    regions[..i] + [r] + regions[i..]
  }

  lemma InsertedApart(regions: seq<Region>, size: nat, i: nat, r: Region)
    requires PageAddr.Apart(regions, size) && i <= |regions|
    requires forall j :: 0 <= j < i ==> regions[j] + size <= r
    requires forall j :: i <= j < |regions| ==> r + size <= regions[j]
    ensures PageAddr.Apart(Inserted(regions, i, r), size) && forall x :: x in Inserted(regions, i, r) <==>
      x in regions || x == r
  {
    var q := Inserted(regions, i, r);
    assert forall x :: x in regions ==> x in regions[..i] || x in regions[i..];
  }

  lemma DeletedApart(regions: seq<Region>, size: nat, i: nat)
    requires size > 0 && PageAddr.Apart(regions, size) && i < |regions|
    ensures var q := regions[..i] + regions[i + 1..];
      PageAddr.Apart(q, size) && forall x :: x in q <==> x in regions && x != regions[i]
  {
    var q := regions[..i] + regions[i + 1..];
    Deleted(regions, i);
    forall x | x in regions && x != regions[i]
      ensures x in q
    {
      var j :| 0 <= j < |regions| && regions[j] == x;
      assert x == q[if j < i then j else j - 1];
    }
  }

  lemma Deleted(regions: seq<Region>, i: nat)
    requires i < |regions|
    ensures var q := regions[..i] + regions[i + 1..];
      |q| == |regions| - 1 && forall j :: 0 <= j < |q| ==> q[j] == regions[if j < i then j else j + 1]
  {
  }

  lemma ArrayOrder(regions: seq<Region>, size: nat, all: set<Region>)
    requires size > 0 && RegionsOk(regions, size, all)
    ensures forall i, j :: 0 <= i < j < |regions| ==> regions[i] < regions[j]
  {
  }

  lemma RegionsRoom(base: nat, size: nat, busy: seq<bool>, regions: seq<Region>)
    requires size > 0 && RegionsOk(regions, size, Regions.Held(base, size, busy))
    ensures |regions| <= |busy|
  {
    Regions.RegionsBound(base, size, busy, regions);
  }

  /** At its place a new region is clear of the others. */
  lemma ArrayPlace(base: nat, size: nat, busy: seq<bool>, regions: seq<Region>, i: nat, r: Region)
    requires size > 0 && i <= |regions| && r in Regions.Held(base, size, busy) && r !in regions
    requires forall x :: x in regions ==> x in Regions.Held(base, size, busy)
    requires (forall j :: 0 <= j < i ==> regions[j] < r) && (forall j :: i <= j < |regions| ==> regions[j] >= r)
    ensures forall j :: 0 <= j < i ==> regions[j] + size <= r
    ensures forall j :: i <= j < |regions| ==> r + size <= regions[j]
  {
    hide Regions.Held;
    forall j | 0 <= j < |regions|
      ensures j < i ==> regions[j] + size <= r
      ensures j >= i ==> r + size <= regions[j]
    {
      assert regions[j] in regions;
      if j < i {
        Regions.HeldApart(base, size, busy, regions[j], r);
      } else {
        Regions.HeldApart(base, size, busy, r, regions[j]);
      }
    }
  }

  class Pool {
    const n: nat
    const store: Regions.RegionPool
    var regions: seq<Region>
    var pages: map<Region, seq<Page>>
    var index: Index
    ghost var runs: map<Region, seq<Run>>

    ghost predicate Valid()
      reads this, store
    {
      PoolOk(n, pages, index, runs) && store.Valid() && store.Out() == runs.Keys
        && RegionsOk(regions, store.size, runs.Keys)
    }

    constructor (n: nat, store: Regions.RegionPool)
      requires n > 0 && store.Valid() && store.Out() == {}
      ensures Valid() && runs == map[] && this.n == n && this.store == store
    {
      this.n, this.store := n, store;
      regions, pages, index, runs := [], map[], map[], map[];
    }

    /** A region from the store takes its place in the array, which always has room for it. */
    method AddRegion() returns (a: Regions.Answer)
      requires store.Valid() && RegionsOk(regions, store.size, store.Out())
      modifies store, this`regions
      ensures store.Valid() && RegionsOk(regions, store.size, store.Out()) && |regions| <= Regions.MAX_REGIONS
      ensures a.Region? <==> Regions.Spare(old(store.busy))
      ensures store.Out() == old(store.Out()) + if a.Region? then {a.addr} else {}
      ensures a.Region? ==> a.addr !in old(store.Out())
    {
      hide Regions.Held, PageAddr.Apart, Inserted;
      RegionsRoom(store.base, store.size, store.busy, regions);
      a := store.Alloc();
      if a.Region? {
        ArrayOrder(regions, store.size, old(store.Out()));
        var i := PageAddr.SearchLeft(regions, a.addr);
        ArrayPlace(store.base, store.size, store.busy, regions, i, a.addr);
        InsertedApart(regions, store.size, i, a.addr);
        regions := Inserted(regions, i, a.addr);
        RegionsRoom(store.base, store.size, store.busy, regions);
      }
    }

    /** A region leaves the array and goes back to the store. */
    method RemoveRegion(r: Region)
      requires store.Valid() && RegionsOk(regions, store.size, store.Out()) && r in store.Out()
      modifies store, this`regions
      ensures store.Valid() && RegionsOk(regions, store.size, store.Out()) && store.Out() == old(store.Out()) - {r}
    {
      hide Regions.Held, PageAddr.Apart;
      ArrayOrder(regions, store.size, store.Out());
      var i := PageAddr.SearchLeft(regions, r);
      assert r in regions;
      DeletedApart(regions, store.size, i);
      regions := regions[..i] + regions[i + 1..];
      var f := store.Free(r);
    }

    /** Takes pages from run k of region r. */
    method Take(s: Spot, len: nat, cnt: nat, ghost k: nat)
      requires Valid() && s.region in runs && k < |runs[s.region]|
      requires runs[s.region][k] == Run(true, len) && s.start == Total(runs[s.region][..k]) && 0 < cnt <= len
      modifies this`pages, this`index, this`runs
      ensures Valid() && runs == old(runs)[s.region := Replace(old(runs)[s.region], k, k + 1, Taken(cnt, len))]
      ensures Count(runs, false) == Count(old(runs), false) + cnt && UsedMore(old(runs), runs, s, cnt)
    {
      hide Tile, Total, FreeAt, RingsOk, Indexed, Block, TakenIndex, Replace, Taken, Coalesced, RegionsOk, Regions.Held;
      hide Amount, Count, UsedMore, IndexOk;
      ghost var rs := runs[s.region];
      assert RegionOk(n, pages[s.region], rs);
      TakenCount(rs, k, cnt);
      CountChange(runs, s.region, Replace(rs, k, k + 1, Taken(cnt, len)), false);
      TakenMore(runs, s.region, k, cnt);
      RunTags(rs, k);
      var pg := SplitPages(pages[s.region], s.start, cnt);
      TileReplace(rs, k, k + 1, Taken(cnt, len));
      TileSize(Replace(rs, k, k + 1, Taken(cnt, len)));
      TakeRegion(rs, k, cnt);
      TakenIndexOk(index, runs, s.region, k, cnt);
      RegionChanged(n, pages, index, runs, s.region, pg, Replace(rs, k, k + 1, Taken(cnt, len)),
        TakenIndex(index, s, len, cnt));
      pages := pages[s.region := pg];
      index := TakenIndex(index, s, len, cnt);
      runs := runs[s.region := Replace(rs, k, k + 1, Taken(cnt, len))];
      assert runs.Keys == old(runs).Keys;
    }

    /**
      Best fit: the pages come from a smallest sufficient free run; a new region is taken only when no free run
      suffices,
      and memory is out only when no region is left either.
     */
    method Alloc(cnt: nat) returns (r: Ret, s: Spot, ghost k: nat)
      requires Valid()
      modifies this, store
      ensures Valid()
      ensures !(0 < cnt <= n) ==> r == ArgInvalid && runs == old(runs)
      ensures 0 < cnt <= n && Fits(old(runs), cnt) ==>
        && r == Ok && s.region in old(runs) && k < |old(runs)[s.region]|
        && var rs := old(runs)[s.region];
           && rs[k].free && rs[k].len >= cnt && s.start == Total(rs[..k])
           && (forall len: nat :: HasRun(old(runs), len) && len >= cnt ==> rs[k].len <= len)
           && rs[k].len in old(index) && old(index)[rs[k].len] != []
           && s == old(index)[rs[k].len][|old(index)[rs[k].len]| - 1]
           && runs == old(runs)[s.region := Replace(rs, k, k + 1, Taken(cnt, rs[k].len))]
      ensures 0 < cnt <= n && !Fits(old(runs), cnt) ==>
        if Regions.Spare(old(store.busy))
        then r == Ok && s.region !in old(runs) && s.start == 0 && runs == old(runs)[s.region := Taken(cnt, n)]
        else r == OutOfMemory && runs == old(runs)
      ensures Count(runs, false) == Count(old(runs), false) + if r == Ok then cnt else 0
      ensures r == Ok ==> UsedMore(old(runs), runs, s, cnt)
    {
      hide Amount, Count, Tile, Total, FreeAt, RegionOk, Block, Replace, Taken, NoDup, HasRun, RegionsOk, Regions.Held,
        Regions.Spare;
      hide UsedMore;
      s, k := Spot(0, 0), 0;
      if !(0 < cnt <= n) {
        return ArgInvalid, s, k;
      }
      var found, len := SmallestFit(index.Keys, cnt);
      SizesAreFree(index, runs);
      if found {
        var ring := index[len];
        s := ring[|ring| - 1];
        assert Indexed(index, len, s);
        k := FreeAtIndex(runs[s.region], s.start, len);
        Take(s, len, cnt, k);
        return Ok, s, k;
      }
      r, s := TakeNew(cnt);
      return r, s, k;
    }

    /** Takes pages from a new region. */
    method TakeNew(cnt: nat) returns (r: Ret, s: Spot)
      requires Valid() && 0 < cnt <= n
      modifies this, store
      ensures Valid() && r == (if Regions.Spare(old(store.busy)) then Ok else OutOfMemory)
      ensures r == Ok ==> s.region !in old(runs) && s.start == 0 && runs == old(runs)[s.region := Taken(cnt, n)]
      ensures r == Ok ==> Count(runs, false) == Count(old(runs), false) + cnt && UsedMore(old(runs), runs, s, cnt)
      ensures r != Ok ==> runs == old(runs)
    {
      hide Amount, Count, Tile, Total, FreeAt, RegionOk, Block, Taken, IndexOk, RegionsOk, Regions.Held, Regions.Spare,
        UsedMore;
      s := Spot(0, 0);
      var reg := AddRegion();
      if reg.NoRegion? {
        assert store.Out() == runs.Keys;
        return OutOfMemory, s;
      }
      var pg := InitRegion(n);
      s := Spot(reg.addr, 0);
      BlockTags(Run(true, n));
      var out := SplitPages(pg, 0, cnt);
      FreshRegion(n, pg, out, cnt, index, pages, runs, reg.addr);
      TakenUsed(cnt, n);
      NewMore(runs, reg.addr, cnt, n);
      CountAdd(runs, reg.addr, Taken(cnt, n), false);
      pages := pages[reg.addr := out];
      index := if n == cnt then index else AddSpot(index, n - cnt, Spot(reg.addr, cnt));
      runs := runs[reg.addr := Taken(cnt, n)];
      assert runs.Keys == old(runs).Keys + {reg.addr};
      return Ok, s;
    }

    /** Merges used run k of region s.region with its free neighbours, which leave the index. */
    method Merge(s: Spot, ghost k: nat) returns (out: seq<Page>, ix: Index, lo: nat, total: nat)
      requires Valid() && s.region in runs && k < |runs[s.region]| && !runs[s.region][k].free
      requires s.start == Total(runs[s.region][..k]) && s.start < n
      ensures var rs, pg := runs[s.region], pages[s.region];
        && lo == Total(rs[..MergeLo(rs, k)]) && total == MergeLen(rs, k)
        && lo + total <= |pg| && out == pg[..lo] + Block(Run(true, total)) + pg[lo + total..]
        && RingsOk(ix) && Out(index, ix, s.region, rs, k)
    {
      hide Tile, Total, FreeAt, RingsOk, Indexed, Block, Replace, NeighboursOut, Freed, Coalesced, IndexOk, Out;
      ghost var rs := runs[s.region];
      assert RegionOk(n, pages[s.region], rs);
      var pg := pages[s.region];
      Stretch(rs, k);
      FreedTile(rs, k);
      var prev, prevAt, prevLen, next, nextAt, nextLen := Neighbours(pg, s.start, rs, k);
      total, lo := pg[s.start].cnt, s.start;
      if prev {
        total, lo := total + prevLen, prevAt;
      }
      if next {
        total := total + nextLen;
      }
      out := MergePages(pg, lo, total);
      RingsOf(n, pages, index, runs);
      NeighboursOutOk(index, s.region, rs, k, prev, prevAt, prevLen, next, nextAt, nextLen);
      ix := NeighboursOut(index, s.region, prev, prevAt, prevLen, next, nextAt, nextLen);
    }

    /**
      Frees the run that starts at s and merges it with its free neighbours; a region whose last run is freed is given
      back.  Anything but the first page of a used run is refused.
     */
    method Free(s: Spot) returns (r: Ret, ghost k: nat)
      requires Valid() && s.region in runs && s.start < n
      modifies this, store
      ensures Valid()
      ensures r == if old(pages)[s.region][s.start].master && !old(pages)[s.region][s.start].free then Ok
        else ArgInvalid
      ensures r != Ok ==> runs == old(runs)
      ensures r == Ok ==>
        && k < |old(runs)[s.region]|
        && var rs := old(runs)[s.region];
           && !rs[k].free && Total(rs[..k]) == s.start
           && runs == (if MergeLen(rs, k) == n then old(runs) - {s.region} else old(runs)[s.region := Freed(rs, k)])
           && Count(runs, false) == Count(old(runs), false) - rs[k].len
           && UsedLess(old(runs), runs, s)
    {
      hide Amount, Count, Tile, Total, FreeAt, RingsOk, Indexed, Block, Replace, AddSpot, Freed, Coalesced, IndexOk,
        Out, MergeLen;
      hide RegionsOk, Regions.Held, UsedLess, PoolOk;
      k := 0;
      ghost var rs := runs[s.region];
      RegionFacts(n, pages, index, runs, s.region);
      var pg := pages[s.region];
      if !(pg[s.start].master && !pg[s.start].free) {
        return ArgInvalid, k;
      }
      k := MasterStartsRun(rs, s.start);
      var out, ix, lo, total := Merge(s, k);
      FreedTotal(rs, k);
      FreedLess(runs, s.region, k);
      if total < n {
        FreedCount(rs, k);
        CountChange(runs, s.region, Freed(rs, k), false);
        FreedPool(n, pages, index, runs, s.region, k, out, ix);
        pages := pages[s.region := out];
        index := AddSpot(ix, total, Spot(s.region, lo));
        runs := runs[s.region := Freed(rs, k)];
        assert runs.Keys == old(runs).Keys;
      } else {
        LastCount(rs, k);
        CountDrop(runs, s.region, false);
        FreedAll(n, pages, index, runs, s.region, k, ix);
        RemoveRegion(s.region);
        pages := pages - {s.region};
        index := ix;
        runs := runs - {s.region};
        assert runs.Keys == old(runs).Keys - {s.region};
      }
      return Ok, k;
    }
  }

  /** Some free run of the pool has exactly len pages. */
  ghost predicate HasRun(runs: map<Region, seq<Run>>, len: nat) {
    exists x: Region, at: nat :: x in runs && FreeAt(runs[x], at, len)
  }

  /** Some free run has at least cnt pages. */
  ghost predicate Fits(runs: map<Region, seq<Run>>, cnt: nat) {
    exists len: nat :: len >= cnt && HasRun(runs, len)
  }

  /** The lengths in the tree are exactly the lengths of free runs. */
  lemma SizesAreFree(ix: Index, runs: map<Region, seq<Run>>)
    requires IndexOk(ix, runs)
    ensures forall len: nat :: len in ix <==> HasRun(runs, len)
  {
    hide FreeAt;
    forall len: nat | len in ix
      ensures HasRun(runs, len)
    {
      var s := ix[len][0];
      assert Indexed(ix, len, s);
      assert s.region in runs && FreeAt(runs[s.region], s.start, len);
    }
    forall len: nat | HasRun(runs, len)
      ensures len in ix
    {
      var x: Region, at: nat :| x in runs && FreeAt(runs[x], at, len);
      assert Indexed(ix, len, Spot(x, at));
    }
  }
}
