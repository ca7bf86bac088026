/** The memory behind the runs of the page pool: region names are taken as their addresses. */
module PageMemory {
  import opened PageRuns
  import opened PageAddr
  import PagePool

  ghost predicate RegionsApart(runs: map<nat, seq<Run>>, size: nat) {
    forall r, r' :: r in runs && r' in runs && r < r' ==> r + size <= r'
  }

  /** First address of run k of region r. */
  ghost function From(l: Layout, runs: map<nat, seq<Run>>, r: nat, k: nat): nat
    requires Sizes(l) && r in runs && k < |runs[r]|
  {
    Data(l, r, Total(runs[r][..k]))
  }

  /** First address behind run k of region r. */
  ghost function To(l: Layout, runs: map<nat, seq<Run>>, r: nat, k: nat): nat
    requires Sizes(l) && r in runs && k < |runs[r]|
  {
    Data(l, r, Total(runs[r][..k]) + runs[r][k].len)
  }

  lemma RunInRegion(l: Layout, n: nat, rs: seq<Run>, r: nat, k: nat)
    requires Sizes(l) && Fits(l) && n == PagesPerRegion(l) && Positive(rs) && Total(rs) == n && k < |rs|
    ensures r <= Data(l, r, Total(rs[..k])) && Data(l, r, Total(rs[..k]) + rs[k].len) <= r + l.regionSize
  {
    hide Total, Tile, BaseOffset, PagesPerRegion, Block;
    SplitAtRun(rs, k);
    MulMono(Total(rs[..k]) + rs[k].len, n, l.pageSize);
  }

  lemma EndsBefore(rs: seq<Run>, j: nat, k: nat)
    requires Positive(rs) && j < k < |rs|
    ensures Total(rs[..j]) + rs[j].len <= Total(rs[..k])
  {
    hide Total, Tile, Block;
    assert rs[..k][..j] == rs[..j];
    SplitAtRun(rs[..k], j);
  }

  lemma InOrder(l: Layout, rs: seq<Run>, r: nat, j: nat, k: nat)
    requires Sizes(l) && Positive(rs) && j < k < |rs|
    ensures Data(l, r, Total(rs[..j]) + rs[j].len) <= Data(l, r, Total(rs[..k]))
  {
    hide Total, BaseOffset;
    EndsBefore(rs, j, k);
    MulMono(Total(rs[..j]) + rs[j].len, Total(rs[..k]), l.pageSize);
  }

  /** Two runs of a valid pool never share memory, and each lies inside its region. */
  lemma RunsApart(l: Layout, pages: map<nat, seq<Page>>, ix: PagePool.Index, runs: map<nat, seq<Run>>, r: nat, j: nat,
      r': nat, k: nat)
    requires Sizes(l) && Fits(l) && PagePool.PoolOk(PagesPerRegion(l), pages, ix, runs)
      && RegionsApart(runs, l.regionSize)
    requires r in runs && j < |runs[r]| && r' in runs && k < |runs[r']| && (r, j) != (r', k)
    ensures r <= From(l, runs, r, j) && To(l, runs, r, j) <= r + l.regionSize
    ensures To(l, runs, r, j) <= From(l, runs, r', k) || To(l, runs, r', k) <= From(l, runs, r, j)
  {
    hide Total, Tile, BaseOffset, PagesPerRegion, Fits, FreeAt, PagePool.IndexOk, Coalesced;
    var n := PagesPerRegion(l);
    assert PagePool.RegionOk(n, pages[r], runs[r]) && PagePool.RegionOk(n, pages[r'], runs[r']);
    RunInRegion(l, n, runs[r], r, j);
    RunInRegion(l, n, runs[r'], r', k);
    if r == r' {
      if j < k { InOrder(l, runs[r], r, j, k); } else { InOrder(l, runs[r], r, k, j); }
    }
  }

  /** The registered regions do not overlap. */
  lemma ArrayApart(regions: seq<nat>, size: nat, runs: map<nat, seq<Run>>)
    requires size > 0 && PagePool.RegionsOk(regions, size, runs.Keys)
    ensures RegionsApart(runs, size)
  {
    forall r, r' | r in runs && r' in runs && r < r'
      ensures r + size <= r'
    {
      var i :| 0 <= i < |regions| && regions[i] == r;
      var j :| 0 <= j < |regions| && regions[j] == r';
      assert i < j || j < i;
    }
  }

  /** First address of the page at a spot, and the number of bytes from there to a later page. */
  function Start(l: Layout, s: PagePool.Spot): nat
    requires Sizes(l)
  {
    Data(l, s.region, s.start)
  }

  lemma StartPlus(l: Layout, s: PagePool.Spot, i: nat)
    requires Sizes(l)
    ensures Data(l, s.region, s.start + i) == Start(l, s) + i * l.pageSize
  {
    hide BaseOffset;
    Distribute(l.pageSize, s.start, i);
  }

  /** The pages of two used runs share no memory, and each run lies inside its region. */
  lemma UsedApart(l: Layout, pages: map<nat, seq<Page>>, ix: PagePool.Index, runs: map<nat, seq<Run>>,
                  s: PagePool.Spot, len: nat, s': PagePool.Spot, len': nat)
    requires Sizes(l) && Fits(l) && PagePool.PoolOk(PagesPerRegion(l), pages, ix, runs)
      && RegionsApart(runs, l.regionSize)
    requires PagePool.Used(runs, s, len) && PagePool.Used(runs, s', len') && s != s'
    ensures Start(l, s) + len * l.pageSize <= Start(l, s') || Start(l, s') + len' * l.pageSize <= Start(l, s)
  {
    hide RunAt, PagePool.PoolOk, Fits, PagesPerRegion, BaseOffset, Total, Data;
    var k := RunAtIndex(runs[s.region], s.start, Run(false, len));
    var k' := RunAtIndex(runs[s'.region], s'.start, Run(false, len'));
    RunsApart(l, pages, ix, runs, s.region, k, s'.region, k');
    StartPlus(l, s, len);
    StartPlus(l, s', len');
  }

  /** A used run lies inside its region. */
  lemma UsedInside(l: Layout, pages: map<nat, seq<Page>>, ix: PagePool.Index, runs: map<nat, seq<Run>>,
      s: PagePool.Spot, len: nat)
    requires Sizes(l) && Fits(l) && PagePool.PoolOk(PagesPerRegion(l), pages, ix, runs) && PagePool.Used(runs, s, len)
    ensures s.region <= Start(l, s) && Start(l, s) + len * l.pageSize <= s.region + l.regionSize
    ensures 0 < len && s.start + len <= PagesPerRegion(l)
  {
    hide RunAt, PagePool.PoolOk, Fits, PagesPerRegion, BaseOffset, Total, Data;
    PagePool.RegionFacts(PagesPerRegion(l), pages, ix, runs, s.region);
    PagePool.UsedTags(PagesPerRegion(l), pages, ix, runs, s, len);
    var k := RunAtIndex(runs[s.region], s.start, Run(false, len));
    RunInRegion(l, PagesPerRegion(l), runs[s.region], s.region, k);
    StartPlus(l, s, len);
  }
}
