/**
  The pages behind the slabs: every slab lies on a used run of the page pool, and its pages refer to its first page.
 */
module SlabMemory {
  import opened SlabModel
  import PageAddr
  import PageRuns
  import PagePool
  import PageMemory

  type Spot = PagePool.Spot

  type Runs = map<PagePool.Region, seq<PageRuns.Run>>

  /** Number of pages of the run behind a slab. */
  function PagesOf(s: Slab, page: nat): nat
    requires page > 0
  {
    PageAddr.Div(s.objSize * Slots(s.group) + page - 1, page)
  }

  lemma RunSizeIs(s: Slab, page: nat)
    requires page > 0
    ensures RunSize(s, page) == PagesOf(s, page) * page
  {
  }

  /** Each slab starts at the first page of a used run of its size. */
  ghost predicate Backed(l: PageAddr.Layout, runs: Runs, slabs: map<Addr, Slab>, spots: map<Addr, Spot>)
    requires PageAddr.Sizes(l)
  {
    && spots.Keys == slabs.Keys
    && forall b :: b in slabs ==>
         PagePool.Used(runs, spots[b], PagesOf(slabs[b], l.pageSize)) && b == PageMemory.Start(l, spots[b])
  }

  /** What the pool of pages keeps, for the layout. */
  ghost predicate Paged(l: PageAddr.Layout, pages: map<nat, seq<PageRuns.Page>>, ix: PagePool.Index, runs: Runs) {
    && PageAddr.Sizes(l) && PageAddr.Fits(l)
    && PagePool.PoolOk(PageAddr.PagesPerRegion(l), pages, ix, runs) && PageMemory.RegionsApart(runs, l.regionSize)
  }

  /** Slabs on different used runs share no memory. */
  lemma SpotsApart(l: PageAddr.Layout, pages: map<nat, seq<PageRuns.Page>>, ix: PagePool.Index, runs: Runs,
                   s: Slab, sp: Spot, s': Slab, sp': Spot)
    requires Paged(l, pages, ix, runs) && sp != sp'
    requires PagePool.Used(runs, sp, PagesOf(s, l.pageSize)) && PagePool.Used(runs, sp', PagesOf(s', l.pageSize))
    ensures Disjoint(PageMemory.Start(l, sp), s, PageMemory.Start(l, sp'), s', l.pageSize)
  {
    hide PagesOf, RunSize, PagePool.Used, PagePool.PoolOk, PageMemory.Start, PageAddr.Fits;
    PageMemory.UsedApart(l, pages, ix, runs, sp, PagesOf(s, l.pageSize), sp', PagesOf(s', l.pageSize));
    RunSizeIs(s, l.pageSize);
    RunSizeIs(s', l.pageSize);
  }

  /** The runs of slabs never overlap, because the runs of the page pool do not. */
  lemma BackedApart(l: PageAddr.Layout, pages: map<nat, seq<PageRuns.Page>>, ix: PagePool.Index, runs: Runs,
                    slabs: map<Addr, Slab>, spots: map<Addr, Spot>)
    requires Paged(l, pages, ix, runs) && Backed(l, runs, slabs, spots)
    ensures Apart(slabs, l.pageSize)
  {
    hide PagesOf, RunSize, PagePool.Used, PagePool.PoolOk, PageMemory.Start, PageAddr.Fits, Disjoint,
      PageMemory.RegionsApart;
    forall b, b' | b in slabs && b' in slabs && b != b'
      ensures Disjoint(b, slabs[b], b', slabs[b'], l.pageSize)
    {
      SpotsApart(l, pages, ix, runs, slabs[b], spots[b], slabs[b'], spots[b']);
    }
  }

  /** A slab on a newly used run meets no other slab. */
  lemma NewBacked(l: PageAddr.Layout, pages: map<nat, seq<PageRuns.Page>>, ix: PagePool.Index, runs: Runs, runs': Runs,
                  slabs: map<Addr, Slab>, spots: map<Addr, Spot>, sp: Spot, s: Slab)
    requires Paged(l, pages, ix, runs') && Backed(l, runs, slabs, spots)
    requires PagePool.UsedMore(runs, runs', sp, PagesOf(s, l.pageSize))
    ensures var base := PageMemory.Start(l, sp);
      FreshRun(slabs, l.pageSize, base, s) && Backed(l, runs', slabs[base := s], spots[base := sp])
  {
    hide RunSize, PagesOf, PagePool.Used, PagePool.PoolOk, PageMemory.Start, PageAddr.Fits, Disjoint,
      PageMemory.RegionsApart;
    var base := PageMemory.Start(l, sp);
    forall b | b in slabs
      ensures b != base && Disjoint(base, s, b, slabs[b], l.pageSize)
    {
      assert spots[b] != sp;
      SpotsApart(l, pages, ix, runs', s, sp, slabs[b], spots[b]);
      Occupied(l, pages, ix, runs', s, sp);
      Occupied(l, pages, ix, runs', slabs[b], spots[b]);
      ApartStarts(base, s, b, slabs[b], l.pageSize);
    }
  }

  lemma ApartStarts(b: Addr, s: Slab, b': Addr, s': Slab, page: nat)
    requires page > 0 && Disjoint(b, s, b', s', page) && RunSize(s, page) > 0 && RunSize(s', page) > 0
    ensures b != b'
  {
  }

  lemma Occupied(l: PageAddr.Layout, pages: map<nat, seq<PageRuns.Page>>, ix: PagePool.Index, runs: Runs, s: Slab,
      sp: Spot)
    requires Paged(l, pages, ix, runs) && PagePool.Used(runs, sp, PagesOf(s, l.pageSize))
    ensures RunSize(s, l.pageSize) > 0
  {
    hide PagesOf, PagePool.Used, PagePool.PoolOk, PageMemory.RegionsApart, PageAddr.Fits;
    PageMemory.UsedInside(l, pages, ix, runs, sp, PagesOf(s, l.pageSize));
    RunSizeIs(s, l.pageSize);
    PageAddr.MulMono(1, PagesOf(s, l.pageSize), l.pageSize);
  }

  /** Slabs that keep their sizes stay backed. */
  lemma SameBacked(l: PageAddr.Layout, runs: Runs, slabs: map<Addr, Slab>, slabs': map<Addr, Slab>, spots: map<Addr,
      Spot>)
    requires PageAddr.Sizes(l) && Backed(l, runs, slabs, spots) && slabs'.Keys == slabs.Keys && SameSizes(slabs, slabs')
    ensures Backed(l, runs, slabs', spots)
  {
    hide PagePool.Used, PageMemory.Start, PageAddr.Div;
  }

  /** A slab goes, and its run with it. */
  lemma LessBacked(l: PageAddr.Layout, runs: Runs, runs': Runs, slabs: map<Addr, Slab>, slabs': map<Addr, Slab>,
                   spots: map<Addr, Spot>, b: Addr)
    requires PageAddr.Sizes(l) && Backed(l, runs, slabs, spots) && b in slabs
      && PagePool.UsedLess(runs, runs', spots[b])
    requires slabs'.Keys == slabs.Keys - {b} && SameSizes(slabs, slabs')
    ensures Backed(l, runs', slabs', spots - {b})
  {
    hide PagePool.Used, PageMemory.Start, PageAddr.Div;
  }

  // ----- from a page to the first page of its slab -----

  /** Page p is one of the cnt pages from m on. */
  predicate InRun(m: Spot, cnt: nat, p: Spot) {
    p.region == m.region && m.start <= p.start < m.start + cnt
  }

  ghost predicate Covers(slabs: map<Addr, Slab>, spots: map<Addr, Spot>, page: nat, b: Addr, p: Spot)
    requires page > 0
  {
    b in slabs && b in spots && InRun(spots[b], PagesOf(slabs[b], page), p)
  }

  /** The pages of slabs, and no others, refer to the first page of their slab. */
  ghost predicate LinksOk(links: map<Spot, Spot>, slabs: map<Addr, Slab>, spots: map<Addr, Spot>, page: nat)
    requires page > 0
  {
    && (forall p :: p in links ==> exists b :: Covers(slabs, spots, page, b, p))
    && (forall b, p :: Covers(slabs, spots, page, b, p) ==> p in links && links[p] == spots[b])
  }

  lemma SameLinks(links: map<Spot, Spot>, slabs: map<Addr, Slab>, slabs': map<Addr, Slab>, spots: map<Addr, Spot>,
      page: nat)
    requires page > 0 && LinksOk(links, slabs, spots, page) && slabs'.Keys == slabs.Keys && SameSizes(slabs, slabs')
    ensures LinksOk(links, slabs', spots, page)
  {
    hide InRun, PageAddr.Div;
    assert forall b, p :: Covers(slabs', spots, page, b, p) <==> Covers(slabs, spots, page, b, p);
  }

  /** The pages of a new slab are linked. */
  ghost predicate Linked(links: map<Spot, Spot>, links': map<Spot, Spot>, m: Spot, cnt: nat) {
    && (forall p :: p in links' <==> p in links || InRun(m, cnt, p))
    && (forall p :: p in links' ==> links'[p] == if InRun(m, cnt, p) then m else links[p])
  }

  ghost predicate Unlinked(links: map<Spot, Spot>, links': map<Spot, Spot>, m: Spot, cnt: nat) {
    && (forall p :: p in links' <==> p in links && !InRun(m, cnt, p))
    && (forall p :: p in links' ==> links'[p] == links[p])
  }

  /** A page belongs to one slab only. */
  lemma OneCover(l: PageAddr.Layout, pages: map<nat, seq<PageRuns.Page>>, ix: PagePool.Index, runs: Runs,
                 slabs: map<Addr, Slab>, spots: map<Addr, Spot>, b: Addr, b': Addr, p: Spot)
    requires Paged(l, pages, ix, runs) && Backed(l, runs, slabs, spots)
    requires Covers(slabs, spots, l.pageSize, b, p) && Covers(slabs, spots, l.pageSize, b', p)
    ensures b == b'
  {
    hide PagesOf, RunSize, PagePool.PoolOk, PageAddr.Fits, PageMemory.RegionsApart, PagePool.Used, PageAddr.BaseOffset;
    if b != b' {
      SpotsApart(l, pages, ix, runs, slabs[b], spots[b], slabs[b'], spots[b']);
      PageInside(l, slabs[b], spots[b], p);
      PageInside(l, slabs[b'], spots[b'], p);
    }
  }

  /** The pages of a slab lie in its run. */
  lemma PageInside(l: PageAddr.Layout, s: Slab, sp: Spot, p: Spot)
    requires PageAddr.Sizes(l) && InRun(sp, PagesOf(s, l.pageSize), p)
    ensures PageMemory.Start(l, sp) <= PageMemory.Start(l, p)
    ensures PageMemory.Start(l, p) + l.pageSize <= PageMemory.Start(l, sp) + RunSize(s, l.pageSize)
  {
    hide PagesOf, RunSize, PageAddr.BaseOffset;
    var i := p.start - sp.start;
    PageMemory.StartPlus(l, sp, i);
    PageMemory.StartPlus(l, sp, PagesOf(s, l.pageSize));
    RunSizeIs(s, l.pageSize);
    PageAddr.MulMono(i + 1, PagesOf(s, l.pageSize), l.pageSize);
    PageAddr.OneMore(i, l.pageSize);
  }

  lemma MoreLinks(l: PageAddr.Layout, pages: map<nat, seq<PageRuns.Page>>, ix: PagePool.Index, runs: Runs,
                  links: map<Spot, Spot>, links': map<Spot, Spot>, slabs: map<Addr, Slab>, spots: map<Addr, Spot>,
                  base: Addr, s: Slab, sp: Spot)
    requires Paged(l, pages, ix, runs) && Backed(l, runs, slabs[base := s], spots[base := sp]) && base !in slabs
      && base !in spots
    requires LinksOk(links, slabs, spots, l.pageSize) && Linked(links, links', sp, PagesOf(s, l.pageSize))
    ensures LinksOk(links', slabs[base := s], spots[base := sp], l.pageSize)
  {
    hide InRun, PagesOf, Backed, Paged;
    var slabs', spots' := slabs[base := s], spots[base := sp];
    SizesOf(l, pages, ix, runs);
    forall p | p in links'
      ensures exists b :: Covers(slabs', spots', l.pageSize, b, p)
    {
      if InRun(sp, PagesOf(s, l.pageSize), p) {
        assert Covers(slabs', spots', l.pageSize, base, p);
      } else {
        var b :| Covers(slabs, spots, l.pageSize, b, p);
        assert Covers(slabs', spots', l.pageSize, b, p);
      }
    }
    forall b, p | Covers(slabs', spots', l.pageSize, b, p)
      ensures p in links' && links'[p] == spots'[b]
    {
      if b != base {
        assert Covers(slabs, spots, l.pageSize, b, p);
        if InRun(sp, PagesOf(s, l.pageSize), p) { OneCover(l, pages, ix, runs, slabs', spots', b, base, p); }
      }
    }
  }

  lemma SizesOf(l: PageAddr.Layout, pages: map<nat, seq<PageRuns.Page>>, ix: PagePool.Index, runs: Runs)
    requires Paged(l, pages, ix, runs)
    ensures PageAddr.Sizes(l)
  {
  }

  lemma LessLinks(l: PageAddr.Layout, pages: map<nat, seq<PageRuns.Page>>, ix: PagePool.Index, runs: Runs,
                  links: map<Spot, Spot>, links': map<Spot, Spot>, slabs: map<Addr, Slab>, slabs': map<Addr, Slab>,
                  spots: map<Addr, Spot>, b0: Addr)
    requires Paged(l, pages, ix, runs) && Backed(l, runs, slabs, spots) && b0 in slabs && b0 in spots
    requires LinksOk(links, slabs, spots, l.pageSize)
      && Unlinked(links, links', spots[b0], PagesOf(slabs[b0], l.pageSize))
    requires slabs'.Keys == slabs.Keys - {b0} && SameSizes(slabs, slabs')
    ensures LinksOk(links', slabs', spots - {b0}, l.pageSize)
  {
    hide InRun, Backed, Paged, PageAddr.Div;
    var spots' := spots - {b0};
    SizesOf(l, pages, ix, runs);
    assert forall b, p :: Covers(slabs', spots', l.pageSize, b, p) <==>
      Covers(slabs, spots, l.pageSize, b, p) && b != b0;
    forall p | p in links'
      ensures exists b :: Covers(slabs', spots', l.pageSize, b, p)
    {
      var b :| Covers(slabs, spots, l.pageSize, b, p);
      assert Covers(slabs', spots', l.pageSize, b, p);
    }
    forall b, p | Covers(slabs', spots', l.pageSize, b, p)
      ensures p in links' && links'[p] == spots'[b]
    {
      if InRun(spots[b0], PagesOf(slabs[b0], l.pageSize), p) {
        assert Covers(slabs, spots, l.pageSize, b0, p);
        OneCover(l, pages, ix, runs, slabs, spots, b, b0, p);
      }
    }
  }

  // ----- from an address to its slab -----

  /** The address with its offset into the page masked out. */
  function PageBase(addr: Addr, page: nat): Addr
    requires page > 0
  {
    PageAddr.Div(addr, page) * page
  }

  lemma PageBaseIs(addr: Addr, page: nat)
    requires page > 0
    ensures PageBase(addr, page) <= addr < PageBase(addr, page) + page && PageBase(addr, page) % page == 0
  {
    hide PageAddr.Div;
    PageAddr.Quotient(addr, page);
    ModTimes(PageAddr.Div(addr, page), page);
  }

  lemma ModTimes(q: nat, m: nat)
    requires m > 0
    ensures (q * m) % m == 0
  {
    hide PageAddr.Div;
    PageAddr.Times(q, m);
    PageAddr.Quotient(q * m, m);
  }

  lemma {:induction false} ModShift(a: nat, q: nat, m: nat)
    requires m > 0
    ensures (a + q * m) % m == a % m
  {
    if q > 0 {
      ModShift(a, q - 1, m);
      PageAddr.OneMore(q - 1, m);
      ModNext(a + (q - 1) * m, m);
    }
  }

  lemma ModNext(x: nat, m: nat)
    requires m > 0
    ensures (x + m) % m == x % m
  {
    hide PageAddr.Div;
    var d := PageAddr.Div(x, m);
    PageAddr.Quotient(x, m);
    PageAddr.Quotient(x + m, m);
    PageAddr.OneMore(d, m);
    PageAddr.OneMore(d + 1, m);
    PageAddr.QuotientIs(x + m, m, d + 1);
    PageAddr.QuotientIs(x + m, m, d + 2);
  }

  /** The page found for an address leads to the slab whose run holds the address. */
  lemma FoundSlab(l: PageAddr.Layout, runs: Runs, regions: seq<nat>, links: map<Spot, Spot>, slabs: map<Addr, Slab>,
                  spots: map<Addr, Spot>, addr: Addr, p: Spot)
    requires PageAddr.Sizes(l) && Backed(l, runs, slabs, spots) && LinksOk(links, slabs, spots, l.pageSize)
      && p in links
    requires PageAddr.StartsPage(l, regions, PageBase(addr, l.pageSize), p.region, p.start)
    ensures var b := PageMemory.Start(l, links[p]);
      b in slabs && spots[b] == links[p] && Holds(slabs, l.pageSize, b, addr) && b % l.pageSize == 0
  {
    hide PagesOf, RunSize, PageAddr.BaseOffset, PageBase, PagePool.Used;
    var b :| Covers(slabs, spots, l.pageSize, b, p);
    PageInside(l, slabs[b], spots[b], p);
    PageBaseIs(addr, l.pageSize);
    PageMemory.StartPlus(l, spots[b], p.start - spots[b].start);
    ModShift(b, p.start - spots[b].start, l.pageSize);
  }

  /** An address in the run of a slab on a page boundary is found, and leads to that slab. */
  lemma SlabFound(l: PageAddr.Layout, pages: map<nat, seq<PageRuns.Page>>, ix: PagePool.Index, runs: Runs,
      regions: seq<nat>,
                  links: map<Spot, Spot>, slabs: map<Addr, Slab>, spots: map<Addr, Spot>, b: Addr, addr: Addr)
                    returns (p: Spot)
    requires Paged(l, pages, ix, runs) && Backed(l, runs, slabs, spots) && LinksOk(links, slabs, spots, l.pageSize)
    requires (forall r :: r in runs ==> r in regions) && b in slabs && Holds(slabs, l.pageSize, b, addr)
      && b % l.pageSize == 0
    ensures PageAddr.StartsPage(l, regions, PageBase(addr, l.pageSize), p.region, p.start) && p in links
      && links[p] == spots[b]
  {
    hide PagesOf, PageAddr.BaseOffset, PagePool.PoolOk, PageMemory.RegionsApart, PageAddr.Fits, PageAddr.Div;
    hide PageRuns.UsedAt, RunSize;
    var page, sp, cnt := l.pageSize, spots[b], PagesOf(slabs[b], l.pageSize);
    RunSizeIs(slabs[b], page);
    var q := PageAddr.Div(addr - b, page);
    PageAddr.Quotient(addr - b, page);
    PageAddr.QuotientIs(addr - b, page, cnt);
    p := PagePool.Spot(sp.region, sp.start + q);
    assert Covers(slabs, spots, page, b, p);
    PageMemory.StartPlus(l, sp, q);
    PageMemory.UsedInside(l, pages, ix, runs, sp, cnt);
    PageInside(l, slabs[b], sp, p);
    BaseOf(b, q, page, addr);
  }

  lemma BaseOf(b: Addr, q: nat, page: nat, addr: Addr)
    requires page > 0 && b % page == 0 && b + q * page <= addr < b + q * page + page
    ensures PageBase(addr, page) == b + q * page
  {
    hide PageAddr.Div;
    PageAddr.Quotient(b, page);
    var d := PageAddr.Div(b, page);
    PageAddr.Distribute(page, d, q);
    PageAddr.QuotientIs(addr, page, d + q);
    PageAddr.OneMore(d + q, page);
    PageAddr.QuotientIs(addr, page, d + q + 1);
  }

  // ----- all of it together -----

  /** Slabs lie on used runs, and their pages refer to them. */
  ghost predicate MemoryOk(l: PageAddr.Layout, runs: Runs, slabs: map<Addr, Slab>, spots: map<Addr, Spot>,
      links: map<Spot, Spot>) {
    PageAddr.Sizes(l) && Backed(l, runs, slabs, spots) && LinksOk(links, slabs, spots, l.pageSize)
  }

  lemma SameMemory(l: PageAddr.Layout, runs: Runs, slabs: map<Addr, Slab>, slabs': map<Addr, Slab>, spots: map<Addr,
      Spot>,
                   links: map<Spot, Spot>)
    requires MemoryOk(l, runs, slabs, spots, links) && slabs'.Keys == slabs.Keys && SameSizes(slabs, slabs')
    ensures MemoryOk(l, runs, slabs', spots, links)
  {
    hide Backed, LinksOk, SameSizes;
    SameBacked(l, runs, slabs, slabs', spots);
    SameLinks(links, slabs, slabs', spots, l.pageSize);
  }

  lemma MoreMemory(l: PageAddr.Layout, pages: map<nat, seq<PageRuns.Page>>, ix: PagePool.Index, runs: Runs, runs': Runs,
                   slabs: map<Addr, Slab>, spots: map<Addr, Spot>, links: map<Spot, Spot>, links': map<Spot, Spot>,
                     sp: Spot, s: Slab)
    requires Paged(l, pages, ix, runs') && MemoryOk(l, runs, slabs, spots, links)
    requires PagePool.UsedMore(runs, runs', sp, PagesOf(s, l.pageSize))
      && Linked(links, links', sp, PagesOf(s, l.pageSize))
    ensures var base := PageMemory.Start(l, sp);
      FreshRun(slabs, l.pageSize, base, s) && MemoryOk(l, runs', slabs[base := s], spots[base := sp], links')
  {
    hide PagesOf, LinksOk, Linked, Paged, PagePool.UsedMore, Disjoint;
    NewBacked(l, pages, ix, runs, runs', slabs, spots, sp, s);
    MoreLinks(l, pages, ix, runs', links, links', slabs, spots, PageMemory.Start(l, sp), s, sp);
  }

  lemma LessMemory(l: PageAddr.Layout, pages: map<nat, seq<PageRuns.Page>>, ix: PagePool.Index, runs: Runs, runs': Runs,
                   slabs: map<Addr, Slab>, slabs': map<Addr, Slab>, spots: map<Addr, Spot>, links: map<Spot, Spot>,
                   links': map<Spot, Spot>, b: Addr)
    requires Paged(l, pages, ix, runs) && MemoryOk(l, runs, slabs, spots, links) && b in slabs && b in spots
    requires PagePool.UsedLess(runs, runs', spots[b])
      && Unlinked(links, links', spots[b], PagesOf(slabs[b], l.pageSize))
    requires slabs'.Keys == slabs.Keys - {b} && SameSizes(slabs, slabs')
    ensures MemoryOk(l, runs', slabs', spots - {b}, links')
  {
    hide PagesOf, Backed, LinksOk, Unlinked, Paged, PagePool.UsedLess, SameSizes;
    LessBacked(l, runs, runs', slabs, slabs', spots, b);
    LessLinks(l, pages, ix, runs, links, links', slabs, slabs', spots, b);
  }

  /**
    Objects in use never overlap, whatever their slabs, groups and regions, and lie inside a region handed out to the
    page pool.
   */
  lemma ObjectsApart(l: PageAddr.Layout, pages: map<nat, seq<PageRuns.Page>>, ix: PagePool.Index, runs: Runs,
                     slabs: map<Addr, Slab>, spots: map<Addr, Spot>, links: map<Spot, Spot>, b: Addr, i: nat, b': Addr,
                       i': nat)
    requires Paged(l, pages, ix, runs) && MemoryOk(l, runs, slabs, spots, links)
    requires Live(slabs, b, i) && Live(slabs, b', i') && (b, i) != (b', i')
    ensures var s, s' := slabs[b], slabs[b'];
      && (exists r :: r in runs && r <= ObjAddr(b, s, i) && ObjAddr(b, s, i) + s.objSize <= r + l.regionSize)
      && (ObjAddr(b, s, i) + s.objSize <= ObjAddr(b', s', i') || ObjAddr(b', s', i') + s'.objSize <= ObjAddr(b, s, i))
  {
    hide PagesOf, PagePool.PoolOk, PageMemory.RegionsApart, PageAddr.Fits, PageRuns.UsedAt, RunSize, ObjAddr, InUse,
      SlabOk, Apart;
    BackedApart(l, pages, ix, runs, slabs, spots);
    LiveApart(slabs, l.pageSize, b, i, b', i');
    PageMemory.UsedInside(l, pages, ix, runs, spots[b], PagesOf(slabs[b], l.pageSize));
    RunSizeIs(slabs[b], l.pageSize);
  }
}
