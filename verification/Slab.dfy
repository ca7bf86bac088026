/**
  The slab pool on top of the page pool: objects are taken from partial slabs, a new slab takes pages, and a slab
  without
  objects gives its pages back.
 */
module Slabs {
  import opened Powers
  import opened Queues
  import opened Bitmaps
  import opened SlabModel
  import opened SlabMemory
  import PageAddr
  import PagePool
  import PageMemory
  import PageRuns
  import Regions

  datatype Ret = Ok | ArgInvalid | OutOfMemory | OutOfRange | NotFound | Again

  // ----- one slab changes -----

  ghost function Used(slabs: map<Addr, Slab>, g: nat): nat
    requires SlabsOk(slabs)
  {
    Sum(UsedMap(slabs, g))
  }

  ghost function Room(slabs: map<Addr, Slab>, g: nat): nat {
    Sum(RoomMap(slabs, g))
  }

  ghost function Weight(s: Slab, g: nat): nat
    requires SlabOk(s)
  {
    if s.group == g then UsedOf(s, Slots(g)) else 0
  }

  lemma UsedPut(slabs: map<Addr, Slab>, b: Addr, s: Slab, g: nat)
    requires SlabsOk(slabs) && SlabOk(s)
    ensures SlabsOk(slabs[b := s])
    ensures Used(slabs[b := s], g) == Used(slabs, g) - (if b in slabs then Weight(slabs[b], g) else 0) + Weight(s, g)
  {
    hide Sum, UsedOf, SlabOk;
    SumPut(UsedMap(slabs, g), b, Weight(s, g));
    assert UsedMap(slabs[b := s], g) == UsedMap(slabs, g)[b := Weight(s, g)];
  }

  lemma RoomPut(slabs: map<Addr, Slab>, b: Addr, s: Slab, g: nat)
    ensures Room(slabs[b := s], g) ==
      Room(slabs, g) - (if b in slabs && slabs[b].group == g then Slots(g) else 0)
        + (if s.group == g then Slots(g) else 0)
  {
    hide Sum;
    var room := if s.group == g then Slots(g) else 0;
    SumPut(RoomMap(slabs, g), b, room);
    assert RoomMap(slabs[b := s], g) == RoomMap(slabs, g)[b := room];
  }

  lemma UsedDrop(slabs: map<Addr, Slab>, b: Addr, g: nat)
    requires SlabsOk(slabs) && b in slabs
    ensures SlabsOk(slabs - {b})
    ensures Used(slabs - {b}, g) == Used(slabs, g) - Weight(slabs[b], g)
    ensures Room(slabs - {b}, g) == Room(slabs, g) - (if slabs[b].group == g then Slots(g) else 0)
  {
    hide Sum, UsedOf, SlabOk;
    SumDrop(UsedMap(slabs, g), b);
    assert UsedMap(slabs - {b}, g) == UsedMap(slabs, g) - {b};
    SumDrop(RoomMap(slabs, g), b);
    assert RoomMap(slabs - {b}, g) == RoomMap(slabs, g) - {b};
  }

  /** Slab b becomes s; the group it belongs to follows. */
  lemma Changed(groups: map<nat, Group>, slabs: map<Addr, Slab>, page: nat, b: Addr, s: Slab, gr: Group)
    requires PoolOk(groups, slabs, page) && SlabOk(s)
    requires if b in slabs then slabs[b].group == s.group && slabs[b].objSize == s.objSize
      else FreshRun(slabs, page, b, s)
    requires SlabsOk(slabs[b := s]) && ListsOk(gr, slabs[b := s], s.group) && CountersOk(gr, slabs[b := s], s.group)
    ensures PoolOk(groups[s.group := gr], slabs[b := s], page)
  {
    hide Sum, UsedOf, SlabOk, Full, NoDup, UsedMap, RoomMap, RunSize;
    var slabs' := slabs[b := s];
    if b in slabs { SameRun(slabs, b, s, page); }
    forall g | g in groups && g != s.group
      ensures ListsOk(groups[g], slabs', g) && CountersOk(groups[g], slabs', g)
    {
      UsedPut(slabs, b, s, g);
      RoomPut(slabs, b, s, g);
    }
    GroupRange(s);
  }

  lemma GroupRange(s: Slab)
    requires SlabOk(s)
    ensures MIN_SHIFT <= s.group <= HUGE
  {
  }

  lemma SameRun(slabs: map<Addr, Slab>, b: Addr, s: Slab, page: nat)
    requires page > 0 && b in slabs && slabs[b].group == s.group && slabs[b].objSize == s.objSize
    ensures RunSize(slabs[b], page) == RunSize(s, page)
  {
  }

  lemma Dropped(groups: map<nat, Group>, slabs: map<Addr, Slab>, page: nat, b: Addr, gr: Group)
    requires PoolOk(groups, slabs, page) && b in slabs
    requires SlabsOk(slabs - {b}) && ListsOk(gr, slabs - {b}, slabs[b].group)
      && CountersOk(gr, slabs - {b}, slabs[b].group)
    ensures PoolOk(groups[slabs[b].group := gr], slabs - {b}, page)
  {
    hide Sum, UsedOf, SlabOk, Full, NoDup, UsedMap, RoomMap, RunSize;
    forall g | g in groups && g != slabs[b].group
      ensures ListsOk(groups[g], slabs - {b}, g) && CountersOk(groups[g], slabs - {b}, g)
    {
      UsedDrop(slabs, b, g);
    }
    GroupRange(slabs[b]);
  }

  // ----- a new slab, a slot taken, a slot freed -----

  function Added(gr: Group, base: Addr, g: nat): Group {
    gr.(partial := gr.partial + [base], free := gr.free + Slots(g))
  }

  lemma AddKeeps(groups: map<nat, Group>, slabs: map<Addr, Slab>, page: nat, base: Addr, g: nat, objSize: nat)
    requires PoolOk(groups, slabs, page) && SlabOk(Fresh(g, objSize)) && FreshRun(slabs, page, base, Fresh(g, objSize))
    ensures g in groups && PoolOk(groups[g := Added(groups[g], base, g)], slabs[base := Fresh(g, objSize)], page)
  {
    hide Sum, UsedOf, SlabOk, Full, NoDup, UsedMap, RoomMap, RunSize, Fresh, Slots;
    var s := Fresh(g, objSize);
    FreshGroup(g, objSize);
    GroupRange(s);
    FreshUnused(g, objSize, Slots(g));
    UsedPut(slabs, base, s, g);
    RoomPut(slabs, base, s, g);
    NoDupAppend(groups[g].partial, base);
    Changed(groups, slabs, page, base, s, Added(groups[g], base, g));
  }

  lemma FreshGroup(g: nat, objSize: nat)
    ensures Fresh(g, objSize).group == g && Fresh(g, objSize).objSize == objSize
  {
  }

  /** The group after a slot of slab b was taken; `full` tells whether it was the last one. */
  function Took(gr: Group, b: Addr, full: bool): Group {
    var gr1 := gr.(alloc := gr.alloc + 1, free := gr.free - 1);
    if full then gr1.(partial := Without(gr.partial, b), full := gr.full + [b]) else gr1
  }

  lemma TakeKeeps(groups: map<nat, Group>, slabs: map<Addr, Slab>, page: nat, b: Addr, i: nat)
    requires PoolOk(groups, slabs, page) && b in slabs && i < Slots(slabs[b].group) && SlabOk(slabs[b])
      && !InUse(slabs[b], i)
    ensures SlabOk(Mark(slabs[b], i, true)) && slabs[b].group in groups
    ensures var g, s := slabs[b].group, Mark(slabs[b], i, true);
      PoolOk(groups[g := Took(groups[g], b, Full(s))], slabs[b := s], page)
  {
    hide Sum, UsedOf, SlabOk, Full, NoDup, UsedMap, RoomMap, RunSize, InUse, Mark, Without;
    var g, s := slabs[b].group, Mark(slabs[b], i, true);
    MarkIs(slabs[b], i, true, i);
    GroupRange(s);
    MarkCount(slabs[b], i, true, Slots(g));
    UsedPut(slabs, b, s, g);
    RoomPut(slabs, b, s, g);
    NotFull(slabs[b], i);
    NoDupAppend(groups[g].full, b);
    WithoutOk(groups[g].partial, b);
    Changed(groups, slabs, page, b, s, Took(groups[g], b, Full(s)));
  }

  lemma NotFull(s: Slab, i: nat)
    requires SlabOk(s) && i < Slots(s.group)
    ensures !InUse(s, i) ==> !Full(s)
    ensures InUse(s, i) ==> !Unused(s)
  {
  }

  /** The group after a slot of slab b was freed. */
  function Gave(gr: Group, b: Addr, g: nat, wasFull: bool, unused: bool): Group {
    var gr1 := gr.(alloc := gr.alloc - 1, free := gr.free + 1);
    if unused then gr1.(full := Without(gr.full, b), partial := Without(gr.partial, b), free := gr1.free - Slots(g))
    else if wasFull then gr1.(full := Without(gr.full, b), partial := gr.partial + [b])
    else gr1
  }

  lemma GiveKeeps(groups: map<nat, Group>, slabs: map<Addr, Slab>, page: nat, b: Addr, i: nat)
    requires PoolOk(groups, slabs, page) && b in slabs && i < Slots(slabs[b].group) && SlabOk(slabs[b])
      && InUse(slabs[b], i)
    ensures SlabOk(Mark(slabs[b], i, false)) && slabs[b].group in groups
    ensures var g, s := slabs[b].group, Mark(slabs[b], i, false);
      PoolOk(groups[g := Gave(groups[g], b, g, Full(slabs[b]), Unused(s))], if Unused(s) then slabs - {b}
        else slabs[b := s], page)
  {
    hide PoolOk, UsedOf, SlabOk, Full, InUse, Mark, Without, Unused, Slots, Gave;
    var g, s := slabs[b].group, Mark(slabs[b], i, false);
    MarkIs(slabs[b], i, false, i);
    GroupKnown(groups, slabs, page, b);
    MarkCount(slabs[b], i, false, Slots(g));
    NotFull(s, i);
    if Unused(s) {
      UnusedCount(s, Slots(g));
      GiveLast(groups, slabs, page, b, s);
    } else {
      GiveOne(groups, slabs, page, b, s);
    }
  }

  lemma GroupKnown(groups: map<nat, Group>, slabs: map<Addr, Slab>, page: nat, b: Addr)
    requires PoolOk(groups, slabs, page) && b in slabs
    ensures slabs[b].group in groups
  {
    GroupRange(slabs[b]);
  }

  /** The last object of slab b goes, and the slab with it. */
  lemma GiveLast(groups: map<nat, Group>, slabs: map<Addr, Slab>, page: nat, b: Addr, s: Slab)
    requires PoolOk(groups, slabs, page) && b in slabs && SlabOk(slabs[b]) && SlabOk(s) && s.group == slabs[b].group
    requires slabs[b].group in groups && UsedOf(slabs[b], Slots(slabs[b].group)) == 1
    ensures var g := slabs[b].group;
      PoolOk(groups[g := Gave(groups[g], b, g, Full(slabs[b]), true)], slabs - {b}, page)
  {
    hide Sum, UsedOf, SlabOk, Full, NoDup, UsedMap, RoomMap, RunSize, Without, Slots;
    var g := slabs[b].group;
    UsedDrop(slabs, b, g);
    WithoutOk(groups[g].full, b);
    WithoutOk(groups[g].partial, b);
    Dropped(groups, slabs, page, b, Gave(groups[g], b, g, Full(slabs[b]), true));
  }

  /** Slab b has an object less, but not its last one. */
  lemma GiveOne(groups: map<nat, Group>, slabs: map<Addr, Slab>, page: nat, b: Addr, s: Slab)
    requires PoolOk(groups, slabs, page) && b in slabs && SlabOk(slabs[b]) && SlabOk(s) && !Full(s)
    requires s.group == slabs[b].group && s.objSize == slabs[b].objSize
    requires slabs[b].group in groups && UsedOf(slabs[b], Slots(s.group)) == UsedOf(s, Slots(s.group)) + 1
    ensures var g := slabs[b].group;
      PoolOk(groups[g := Gave(groups[g], b, g, Full(slabs[b]), false)], slabs[b := s], page)
  {
    hide Sum, UsedOf, SlabOk, Full, NoDup, UsedMap, RoomMap, RunSize, Without, Slots;
    var g := slabs[b].group;
    WithoutOk(groups[g].full, b);
    UsedPut(slabs, b, s, g);
    RoomPut(slabs, b, s, g);
    if Full(slabs[b]) { NoDupAppend(groups[g].partial, b); }
    Changed(groups, slabs, page, b, s, Gave(groups[g], b, g, Full(slabs[b]), false));
  }

  lemma {:induction false} UnusedCount(s: Slab, n: nat)
    requires SlabOk(s) && n <= Slots(s.group) && Unused(s)
    ensures UsedOf(s, n) == 0
    decreases n
  {
    if n > 0 { UnusedCount(s, n - 1); }
  }

  // ----- scans of the bitmap -----

  /** The bits that the scans look at. */
  function ScanBits(s: Slab): nat {
    if s.objSize > 2048 then 1 else OBJ_CNT
  }

  lemma ScanBitsAre(s: Slab)
    requires SlabOk(s)
    ensures ScanBits(s) == Slots(s.group) && Slots(s.group) <= BITS * |s.bitmap|
  {
    if s.group != HUGE {
      Pow2Mono(s.group, MAX_SHIFT);
      Pow2Values();
    }
  }

  lemma ScansMean(s: Slab)
    requires SlabOk(s)
    ensures ScanBits(s) == Slots(s.group) && Slots(s.group) <= BITS * |s.bitmap|
    ensures AllAre(s.bitmap, 0, Slots(s.group), true) <==> Full(s)
    ensures AllAre(s.bitmap, 0, Slots(s.group), false) <==> Unused(s)
  {
    hide Bit;
    ScanBitsAre(s);
    assert forall i: nat :: i < Slots(s.group) ==> (InUse(s, i) <==> Bit(s.bitmap, i));
  }

  method Load(s: Slab) returns (bm: array<Word>)
    requires SlabOk(s)
    ensures fresh(bm) && bm[..] == s.bitmap
  {
    bm := new Word[8](k requires 0 <= k < 8 => s.bitmap[k]);
  }

  method IsFull(s: Slab) returns (r: bool)
    requires SlabOk(s)
    ensures r <==> Full(s)
  {
    hide Bit, Full;
    ScansMean(s);
    var bm := Load(s);
    r := AreAll(bm, ScanBits(s), true);
  }

  method IsAllFree(s: Slab) returns (r: bool)
    requires SlabOk(s)
    ensures r <==> Unused(s)
  {
    hide Bit, Unused;
    ScansMean(s);
    var bm := Load(s);
    r := AreAll(bm, ScanBits(s), false);
  }

  /** The first slot not in use. */
  method FindFree(s: Slab, cnt: nat) returns (idx: nat)
    requires SlabOk(s) && !Full(s) && cnt == Slots(s.group)
    ensures idx < cnt && !InUse(s, idx) && forall j: nat :: j < idx ==> InUse(s, j)
  {
    hide Bit, Full;
    ScansMean(s);
    var bm := Load(s);
    var scan := FindNextBit(bm, 0, cnt, false);
    idx := scan.idx;
  }

  method SetSlot(s: Slab, i: nat) returns (s': Slab)
    requires SlabOk(s) && i < Slots(s.group)
    ensures s' == Mark(s, i, true)
  {
    hide Bit;
    ScanBitsAre(s);
    var bm := Load(s);
    var was := Bitmaps.Set(bm, i);
    s' := s.(bitmap := bm[..]);
  }

  method ClearSlot(s: Slab, i: nat) returns (was: bool, s': Slab)
    requires SlabOk(s) && i < Slots(s.group)
    ensures was == InUse(s, i) && s' == Mark(s, i, false)
  {
    hide Bit;
    ScanBitsAre(s);
    var bm := Load(s);
    was := Bitmaps.Clear(bm, i);
    s' := s.(bitmap := bm[..]);
  }

  // ----- the references from pages to the first page of their slab -----

  method SetLinks(links: map<Spot, Spot>, m: Spot, cnt: nat) returns (out: map<Spot, Spot>)
    ensures Linked(links, out, m, cnt)
  {
    out := links;
    var i := 0;
    while i < cnt
      invariant 0 <= i <= cnt && Linked(links, out, m, i)
    {
      out := out[PagePool.Spot(m.region, m.start + i) := m];
      i := i + 1;
    }
  }

  method ClearLinks(links: map<Spot, Spot>, m: Spot, cnt: nat) returns (out: map<Spot, Spot>)
    ensures Unlinked(links, out, m, cnt)
  {
    out := links;
    var i := 0;
    while i < cnt
      invariant 0 <= i <= cnt && Unlinked(links, out, m, i)
    {
      out := out - {PagePool.Spot(m.region, m.start + i)};
      i := i + 1;
    }
  }

  // ----- addresses -----

  /** Only the slab whose run holds the address can have an object there. */
  lemma SlotOwner(groups: map<nat, Group>, slabs: map<Addr, Slab>, page: nat, b: Addr, i: nat)
    requires PoolOk(groups, slabs, page) && b in slabs && SlabOk(slabs[b]) && i < Slots(slabs[b].group)
    ensures Holds(slabs, page, b, ObjAddr(b, slabs[b], i))
  {
    hide RunSize, ObjAddr, ListsOk, CountersOk, InUse;
    ObjInside(b, slabs[b], i, i, page);
    Positive(slabs[b]);
  }

  lemma Positive(s: Slab)
    requires SlabOk(s)
    ensures s.objSize > 0
  {
  }

  lemma OneHolder(groups: map<nat, Group>, slabs: map<Addr, Slab>, page: nat, b: Addr, b': Addr, addr: Addr)
    requires PoolOk(groups, slabs, page) && b in slabs && b' in slabs && Holds(slabs, page, b, addr)
      && Holds(slabs, page, b', addr)
    ensures b == b'
  {
    hide RunSize, ListsOk, CountersOk;
  }

  lemma SlotNumber(s: Slab, i: nat)
    requires SlabOk(s) && i < Slots(s.group)
    ensures var size, off := Pow2(s.group), i * s.objSize; off % size == 0 && off / size == i && i < OBJ_CNT
  {
    var size := Pow2(s.group);
    assert i * s.objSize == i * size;
    PageAddr.Quotient(i * size, size);
    PageAddr.Times(i, size);
  }

  class SlabPool {
    const layout: PageAddr.Layout
    const pool: PagePool.Pool
    var groups: map<nat, Group>
    var slabs: map<Addr, Slab>
    var links: map<Spot, Spot>
    // The first page of each slab.
    ghost var spots: map<Addr, Spot>

    /** The page pool fits the layout, and the slabs lie on its used runs. */
    ghost predicate Consistent()
      reads this, pool, pool.store
    {
      && PageAddr.Sizes(layout) && PageAddr.Fits(layout)
      && pool.Valid() && pool.n == PageAddr.PagesPerRegion(layout) && pool.store.size == layout.regionSize
      && PoolOk(groups, slabs, layout.pageSize) && MemoryOk(layout, pool.runs, slabs, spots, links)
    }

    ghost predicate Valid()
      reads this, pool, pool.store
    {
      Consistent() && forall b :: b in slabs ==> !Unused(slabs[b])
    }

    constructor (layout: PageAddr.Layout, pool: PagePool.Pool)
      requires PageAddr.Sizes(layout) && PageAddr.Fits(layout)
      requires pool.Valid() && pool.n == PageAddr.PagesPerRegion(layout) && pool.store.size == layout.regionSize
      ensures Valid() && this.layout == layout && this.pool == pool && slabs == map[]
    {
      this.layout, this.pool := layout, pool;
      slabs, groups, links, spots := map[], map[], map[], map[];
      new;
      var g := MIN_SHIFT;
      while g <= HUGE
        invariant MIN_SHIFT <= g <= HUGE + 1 && slabs == map[] && links == map[] && spots == map[]
        invariant forall k :: k in groups <==> MIN_SHIFT <= k < g
        invariant forall k :: k in groups ==> groups[k] == Group([], [], 0, 0)
      {
        groups := groups[g := Group([], [], 0, 0)];
        g := g + 1;
      }
      NoSlabs(groups, layout.pageSize);
    }

    /** Takes the first free slot of a partial slab; a slab that becomes full changes lists. */
    method Take(g: nat, master: Addr) returns (idx: nat)
      requires PoolOk(groups, slabs, layout.pageSize) && g in groups && master in groups[g].partial
      modifies this`groups, this`slabs
      ensures PoolOk(groups, slabs, layout.pageSize) && !Live(old(slabs), master, idx)
        && Gained(old(slabs), slabs, master, idx)
      ensures master in old(slabs) && master in slabs && slabs[master].objSize == old(slabs)[master].objSize
      ensures slabs.Keys == old(slabs).Keys && forall b :: b in slabs && b != master ==> slabs[b] == old(slabs)[b]
      ensures Busy(slabs, master) && SameSizes(old(slabs), slabs)
      ensures forall j: nat :: j < idx ==> Live(old(slabs), master, j)
    {
      hide PoolOk, SlabOk, Unused, InUse, Mark, Full, Slots;
      PartialFacts(groups, slabs, layout.pageSize, g, master);
      idx := FindFree(slabs[master], Slots(g));
      var s := SetSlot(slabs[master], idx);
      TakeKeeps(groups, slabs, layout.pageSize, master, idx);
      MarkLive(slabs, master, idx, true);
      MarkIs(slabs[master], idx, true, idx);
      NotFull(s, idx);
      var gr := groups[g];
      gr := gr.(alloc := gr.alloc + 1, free := gr.free - 1);
      var full := IsFull(s);
      if full {
        gr := gr.(partial := Without(gr.partial, master), full := gr.full + [master]);
      }
      groups := groups[g := gr];
      slabs := slabs[master := s];
    }

    /** A slab on new pages, at the end of its group's partial list. */
    method AddSlab(g: nat, objSize: nat, base: Addr)
      requires PoolOk(groups, slabs, layout.pageSize)
      requires SlabOk(Fresh(g, objSize)) && FreshRun(slabs, layout.pageSize, base, Fresh(g, objSize))
      modifies this`groups, this`slabs
      ensures PoolOk(groups, slabs, layout.pageSize) && slabs == old(slabs)[base := Fresh(g, objSize)]
      ensures g in old(groups) && g in groups && groups[g].partial == old(groups)[g].partial + [base]
      ensures SameLive(old(slabs), slabs)
    {
      hide PoolOk, SlabOk, Fresh;
      AddKeeps(groups, slabs, layout.pageSize, base, g, objSize);
      var gr := groups[g];
      groups := groups[g := gr.(partial := gr.partial + [base], free := gr.free + Slots(g))];
      slabs := slabs[base := Fresh(g, objSize)];
      FreshFacts(old(slabs), slabs, base, g, objSize);
    }

    /** Asks the page pool for pages. */
    method GetPages(cnt: nat) returns (r: Ret, s: Spot)
      requires pool.Valid() && cnt > 0
      modifies pool, pool.store
      ensures pool.Valid() && r == PagesRet(old(pool.runs), pool.n, cnt, Regions.Spare(old(pool.store.busy)))
      ensures r == Ok ==> PagePool.UsedMore(old(pool.runs), pool.runs, s, cnt)
      ensures r != Ok ==> pool.runs == old(pool.runs)
    {
      hide PagePool.PoolOk, PagePool.RegionsOk, PagePool.UsedMore, PagePool.Fits, Regions.Held, Regions.Spare;
      hide PagePool.Taken, PagePool.Replace, PagePool.HasRun;
      var answer, spot, k := pool.Alloc(cnt);
      r := if answer == PagePool.Ok then Ok else if answer == PagePool.ArgInvalid then ArgInvalid else OutOfMemory;
      s := spot;
    }

    /** The objects in use share no memory. */
    lemma ObjectsApart(b: Addr, i: nat, b': Addr, i': nat)
      requires Valid() && Live(slabs, b, i) && Live(slabs, b', i') && (b, i) != (b', i')
      ensures var s, s' := slabs[b], slabs[b'];
        && (ObjAddr(b, s, i) + s.objSize <= ObjAddr(b', s', i') || ObjAddr(b', s', i') + s'.objSize <= ObjAddr(b, s, i))
        && exists r :: r in pool.store.Out() && r <= ObjAddr(b, s, i)
                       && ObjAddr(b, s, i) + s.objSize <= r + pool.store.size
    {
      hide PoolOk, MemoryOk, PagePool.PoolOk, PagePool.RegionsOk, PageAddr.Fits, PageAddr.PagesPerRegion, Paged, Unused;
      hide ObjAddr, InUse, SlabOk, Regions.Held;
      PagedNow(layout, pool);
      SlabMemory.ObjectsApart(layout, pool.pages, pool.index, pool.runs, slabs, spots, links, b, i, b', i');
    }

    /** Takes pages for a new slab from the page pool, whose refusals it passes on. */
    method AllocPages(g: nat, objSize: nat) returns (r: Ret, ghost base: Addr)
      requires Consistent() && SlabOk(Fresh(g, objSize))
      modifies this, pool, pool.store
      ensures Consistent()
      ensures r == PagesRet(old(pool.runs), pool.n, PagesOf(Fresh(g, objSize), layout.pageSize),
        Regions.Spare(old(pool.store.busy)))
      ensures r != Ok ==> groups == old(groups) && slabs == old(slabs)
      ensures r == Ok ==>
        base !in old(slabs) && slabs == old(slabs)[base := Fresh(g, objSize)] && SameLive(old(slabs), slabs)
      ensures r == Ok ==> g in old(groups) && g in groups && groups[g].partial == old(groups)[g].partial + [base]
      ensures r != Ok ==> pool.runs == old(pool.runs)
      ensures r == Ok ==>
        && base in spots
        && PagePool.UsedMore(old(pool.runs), pool.runs, spots[base], PagesOf(Fresh(g, objSize), layout.pageSize))
    {
      hide PoolOk, SlabOk, Fresh, MemoryOk, PagePool.PoolOk, PagePool.RegionsOk, PagePool.UsedMore, Regions.Held;
      hide Regions.Spare, Linked, PageAddr.Fits, PageAddr.PagesPerRegion, PagesRet, SameLive;
      base := 0;
      FreshGroup(g, objSize);
      ghost var runs := pool.runs;
      var cnt := PageAddr.Align(objSize * Slots(g), layout.pageSize) / layout.pageSize;
      PageCountIs(Fresh(g, objSize), layout.pageSize, cnt);
      var s;
      r, s := GetPages(cnt);
      if r != Ok {
        return r, base;
      }
      var addr := PageMemory.Start(layout, s);
      var linked := SetLinks(links, s, cnt);
      PagedNow(layout, pool);
      MoreMemory(layout, pool.pages, pool.index, runs, pool.runs, slabs, spots, links, linked, s, Fresh(g, objSize));
      AddSlab(g, objSize, addr);
      links := linked;
      spots := spots[addr := s];
      return Ok, addr;
    }

    /** Takes a slot of the last partial slab of a group. */
    method TakeLast(g: nat) returns (master: Addr, idx: nat)
      requires Consistent() && g in groups && groups[g].partial != []
      modifies this`groups, this`slabs
      ensures Consistent() && !Live(old(slabs), master, idx) && Gained(old(slabs), slabs, master, idx)
      ensures LastOf(old(groups)[g].partial, master) && master in old(slabs) && master in slabs
        && SameSizes(old(slabs), slabs)
      ensures old(slabs)[master].group == g && (g != HUGE ==> old(slabs)[master].objSize == Pow2(g))
      ensures slabs.Keys == old(slabs).Keys && forall b :: b in slabs && b != master ==> slabs[b] == old(slabs)[b]
      ensures Busy(slabs, master) && forall j: nat :: j < idx ==> Live(old(slabs), master, j)
    {
      hide PoolOk, SlabOk, Live, Pow2, MemoryOk, PagePool.PoolOk, PagePool.RegionsOk, Regions.Held;
      hide PageAddr.Fits, PageAddr.PagesPerRegion, Gained, Busy;
      var list := groups[g].partial;
      master := list[|list| - 1];
      PartialFacts(groups, slabs, layout.pageSize, g, master);
      idx := Take(g, master);
      SameMemory(layout, pool.runs, old(slabs), slabs, spots, links);
    }

    /**
      Allocates an object: the first free slot of the last partial slab of its size group, or of a new slab when the
      group has no partial one.
     */
    method Alloc(size: nat) returns (r: Ret, addr: Addr, ghost b: Addr, ghost i: nat)
      requires Valid()
      modifies this, pool, pool.store
      ensures Valid()
      ensures size == 0 ==> r == ArgInvalid
      ensures size > 0 && HasPartial(old(groups), size) ==> r == Ok
      ensures size > 0 && !HasPartial(old(groups), size) ==>
        r == PagesRet(old(pool.runs), pool.n, PagesOf(ForSize(size), layout.pageSize),
          Regions.Spare(old(pool.store.busy)))
      ensures r != Ok ==> groups == old(groups) && slabs == old(slabs)
      ensures r == Ok ==> !Live(old(slabs), b, i) && Gained(old(slabs), slabs, b, i) && SameSizes(old(slabs), slabs)
      ensures r == Ok ==> (b in old(slabs) <==> HasPartial(old(groups), size)) && slabs.Keys == old(slabs).Keys + {b}
      ensures r == Ok && b in old(slabs) ==> LastOf(old(groups)[SizeToIndex(size)].partial, b)
      ensures r == Ok ==> forall j: nat :: j < i ==> Live(old(slabs), b, j)
      ensures r == Ok ==> b in slabs && addr == ObjAddr(b, slabs[b], i) && size <= slabs[b].objSize
      ensures r != Ok || b in old(slabs) ==> pool.runs == old(pool.runs)
      ensures r == Ok && b !in old(slabs) ==>
        && b in spots
        && PagePool.UsedMore(old(pool.runs), pool.runs, spots[b], PagesOf(ForSize(size), layout.pageSize))
    {
      hide PoolOk, SlabOk, Unused, Fresh, SizeToIndex, Live, Pow2, MemoryOk, PagePool.PoolOk, PagePool.RegionsOk,
        Regions.Held;
      hide PageAddr.Fits, PageAddr.PagesPerRegion, PagePool.Fits, Regions.Spare, PagesOf, PagesRet, PageAddr.Sizes;
      hide Gained, SameLive, SameSizes, Busy, Grown, PagePool.UsedMore;
      addr, b, i := 0, 0, 0;
      if size == 0 {
        return ArgInvalid, addr, b, i;
      }
      SizeClass(size);
      PoolFacts(groups, slabs, layout.pageSize);
      var g := SizeToIndex(size);
      var objSize := if g == HUGE then size else Pow2(g);
      FreshOk(g, objSize);
      FreshGroup(g, objSize);
      HugePartial(groups, slabs, layout.pageSize);
      r := Grow(g, objSize);
      if r != Ok {
        return r, addr, b, i;
      }
      ghost var slabs1, list := slabs, groups[g].partial;
      var master, idx := TakeLast(g);
      addr := master + idx * objSize;
      b, i := master, idx;
      PoolFacts(groups, slabs, layout.pageSize);
      AllocDone(old(groups), old(slabs), slabs1, slabs, g, objSize, list, layout.pageSize, master, idx);
    }

    /** Sees to it that a group has a partial slab. */
    method Grow(g: nat, objSize: nat) returns (r: Ret)
      requires Consistent() && g in groups && SlabOk(Fresh(g, objSize))
      modifies this, pool, pool.store
      ensures Consistent() && r == (if old(groups)[g].partial != [] then Ok else
        PagesRet(old(pool.runs), pool.n, PagesOf(Fresh(g, objSize), layout.pageSize),
          Regions.Spare(old(pool.store.busy))))
      ensures r != Ok ==> groups == old(groups) && slabs == old(slabs)
      ensures r == Ok ==> g in groups && groups[g].partial != []
      ensures r == Ok ==> Grown(old(slabs), slabs, old(groups)[g].partial, groups[g].partial, Fresh(g, objSize))
      ensures r != Ok || old(groups)[g].partial != [] ==> pool.runs == old(pool.runs)
      ensures r == Ok && old(groups)[g].partial == [] ==> var b := groups[g].partial[0];
        && b in spots
        && PagePool.UsedMore(old(pool.runs), pool.runs, spots[b], PagesOf(Fresh(g, objSize), layout.pageSize))
    {
      hide PoolOk, SlabOk, Fresh, MemoryOk, PagePool.PoolOk, PagePool.RegionsOk, Regions.Held, Live, PagePool.UsedMore;
      hide PageAddr.Fits, PageAddr.PagesPerRegion, PagePool.Fits, Regions.Spare, PagesOf, PagesRet;
      r := Ok;
      if groups[g].partial == [] {
        ghost var base;
        r, base := AllocPages(g, objSize);
      }
    }

    /** Frees a slot in use; a slab without objects leaves the pool, a slab that was full becomes partial. */
    method Give(master: Addr, index: nat) returns (ok: bool)
      requires PoolOk(groups, slabs, layout.pageSize) && master in slabs && SlabOk(slabs[master])
        && index < Slots(slabs[master].group)
      modifies this`groups, this`slabs
      ensures ok <==> Live(old(slabs), master, index)
      ensures !ok ==> groups == old(groups) && slabs == old(slabs)
      ensures ok ==> PoolOk(groups, slabs, layout.pageSize) && Lost(old(slabs), slabs, master, index)
      ensures ok ==>
        slabs.Keys == old(slabs).Keys || (slabs.Keys == old(slabs).Keys - {master} && Alone(old(slabs), master, index))
      ensures ok && slabs.Keys == old(slabs).Keys ==> Busy(slabs, master)
      ensures SameSizes(old(slabs), slabs) && forall b :: b in slabs && b != master ==> slabs[b] == old(slabs)[b]
    {
      hide PoolOk, SlabOk, Unused, InUse, Mark, Full, Slots;
      var s := slabs[master];
      var g := s.group;
      var wasFull := IsFull(s);
      var s';
      ok, s' := ClearSlot(s, index);
      if !ok {
        return;
      }
      GiveKeeps(groups, slabs, layout.pageSize, master, index);
      MarkLive(slabs, master, index, false);
      MarkIs(s, index, false, index);
      AloneIs(slabs, master, index, s');
      var unused := IsAllFree(s');
      groups := groups[g := Gave(groups[g], master, g, wasFull, unused)];
      if unused {
        DropLive(slabs, master, s', slabs[master := s']);
        slabs := slabs - {master};
      } else {
        slabs := slabs[master := s'];
      }
    }

    /** The pages of a slab that left the pool go back to the page pool. */
    method FreePages(master: Addr, m: Spot, ghost was: map<Addr, Slab>)
      requires PageAddr.Sizes(layout) && PageAddr.Fits(layout)
      requires pool.Valid() && pool.n == PageAddr.PagesPerRegion(layout) && pool.store.size == layout.regionSize
      requires MemoryOk(layout, pool.runs, was, spots, links) && master in was && m == spots[master]
      requires slabs.Keys == was.Keys - {master} && SameSizes(was, slabs)
      modifies this`links, this`spots, pool, pool.store
      ensures pool.Valid() && MemoryOk(layout, pool.runs, slabs, spots, links)
      ensures PagePool.UsedLess(old(pool.runs), pool.runs, m)
    {
      hide PagePool.PoolOk, PagePool.RegionsOk, Regions.Held, PageAddr.Fits, PageAddr.PagesPerRegion, SameSizes,
        Unlinked;
      hide PagePool.UsedLess, PagesOf, Paged, PagePool.Freed, PagePool.MergeLen, LinksOk, PagePool.Used;
      ghost var runs, pages, ix := pool.runs, pool.pages, pool.index;
      PagedNow(layout, pool);
      ghost var cnt := PagesOf(was[master], layout.pageSize);
      UsedSpot(layout, pool.n, pool.pages, pool.index, pool.runs, spots[master], cnt);
      var unlinked := ClearLinks(links, m, pool.pages[m.region][m.start].cnt);
      var answer, k := pool.Free(m);
      LessMemory(layout, pages, ix, runs, pool.runs, was, slabs, spots, links, unlinked, master);
      links := unlinked;
      spots := spots - {master};
    }

    /** Frees slot `index` of a slab, and the pages of the slab with its last object. */
    method FreeSlot(master: Addr, m: Spot, index: nat) returns (ok: bool)
      requires Valid() && master in slabs && master in spots && m == spots[master] && index < Slots(slabs[master].group)
      modifies this, pool, pool.store
      ensures Valid() && (ok <==> Live(old(slabs), master, index))
      ensures !ok ==> groups == old(groups) && slabs == old(slabs)
      ensures ok ==> Lost(old(slabs), slabs, master, index) && SameSizes(old(slabs), slabs)
      ensures ok ==> slabs.Keys == if Alone(old(slabs), master, index) then old(slabs).Keys - {master}
        else old(slabs).Keys
      ensures if ok && master !in slabs then PagePool.UsedLess(old(pool.runs), pool.runs, m)
        else pool.runs == old(pool.runs)
    {
      hide PoolOk, SlabOk, Unused, InUse, Live, Busy, Lost, Alone, MemoryOk, PagePool.PoolOk, PagePool.RegionsOk,
        Regions.Held;
      hide PageAddr.Fits, PageAddr.PagesPerRegion, SameSizes, PagePool.UsedLess;
      PoolFacts(groups, slabs, layout.pageSize);
      ok := Give(master, index);
      if !ok {
        return;
      }
      PoolFacts(groups, slabs, layout.pageSize);
      BusyRest(old(slabs), slabs, master, index);
      if master in slabs {
        SameMemory(layout, pool.runs, old(slabs), slabs, spots, links);
      } else {
        FreePages(master, m, old(slabs));
      }
    }

    /**
      Finds the slot at an address: the page, its slab, the number of the object.  It succeeds exactly for the slots,
      in use or not, of slabs that lie on a page boundary.
     */
    method Locate(addr: Addr) returns (r: Ret, master: Addr, m: Spot, index: nat)
      requires Valid()
      ensures r == Ok <==> AlignedSlot(slabs, layout.pageSize, addr)
      ensures r == Ok ==> Slot(slabs, master, index, addr) && master % layout.pageSize == 0
      ensures r == Ok ==> master in spots && m == spots[master]
      ensures r != Again && Refused(layout, pool.regions, slabs, addr, r)
    {
      hide PoolOk, Unused, AlignedSlot, AlignedHeld, Slot, AtSlot, Pow2, Holds;
      hide MemoryOk, PagePool.PoolOk, PagePool.RegionsOk, Regions.Held, PageAddr.Fits, PageAddr.PagesPerRegion,
        PageAddr.StartsPage;
      hide PageBase, PageAddr.Data, Paged, PageAddr.Owner, PageAddr.InsidePage;
      master, m, index := 0, PagePool.Spot(0, 0), 0;
      PoolFacts(groups, slabs, layout.pageSize);
      PagedNow(layout, pool);
      ArrayIs(pool.regions, layout.regionSize, pool.runs.Keys);
      SlotsHeld(groups, slabs, layout.pageSize, addr);
      HeldNotNull(layout, pool.pages, pool.index, pool.runs, slabs, spots, links, addr);
      if PageBase(addr, layout.pageSize) == 0 {
        return ArgInvalid, master, m, index;
      }
      var found, reg, page := PageAddr.AddrToPage(layout, pool.regions, PageBase(addr, layout.pageSize));
      var p := PagePool.Spot(reg, page);
      LookUp(layout, pool.pages, pool.index, pool.runs, pool.regions, slabs, spots, links, addr, found.Ok?, p);
      if !found.Ok? {
        return RetOf(found), master, m, index;
      }
      if p !in links {
        return Ret.OutOfRange, master, m, index;
      }
      m := links[p];
      master := PageMemory.Start(layout, m);
      var offset := addr - master;
      SlotOf(groups, slabs, layout.pageSize, master, addr, offset);
      r, index := IndexOf(slabs[master], offset);
    }

    /**
      Frees the object at an address.  It succeeds exactly for the addresses of objects in use whose slab lies on a page
      boundary, and asks to try again exactly for those not in use; a slab leaves the pool exactly when its last object
      is freed.
     */
    method Free(addr: Addr) returns (r: Ret, ghost b: Addr, ghost i: nat)
      requires Valid()
      modifies this, pool, pool.store
      ensures Valid()
      ensures r == Ok <==> AlignedLive(old(slabs), layout.pageSize, addr)
      ensures r == Ok || r == Again <==> AlignedSlot(old(slabs), layout.pageSize, addr)
      ensures Refused(layout, old(pool.regions), old(slabs), addr, r)
      ensures r != Ok ==> groups == old(groups) && slabs == old(slabs)
      ensures r == Ok ==>
        Live(old(slabs), b, i) && addr == ObjAddr(b, old(slabs)[b], i) && Lost(old(slabs), slabs, b, i)
      ensures SameSizes(old(slabs), slabs)
      ensures r == Ok ==> slabs.Keys == if Alone(old(slabs), b, i) then old(slabs).Keys - {b} else old(slabs).Keys
      ensures if r == Ok && b !in slabs
        then b in old(spots) && PagePool.UsedLess(old(pool.runs), pool.runs, old(spots)[b])
        else pool.runs == old(pool.runs)
    {
      hide PoolOk, SlabOk, Unused, InUse, AlignedLive, AlignedSlot, AlignedHeld, RunSize, Pow2, Live, Busy, Lost, Alone;
      hide MemoryOk, PagePool.PoolOk, PagePool.RegionsOk, Regions.Held, PageAddr.Fits, PageAddr.PagesPerRegion;
      hide PageBase, PageAddr.Data, PageAddr.Owner, PageAddr.InsidePage, Holds, PagePool.UsedLess;
      var master, m, index;
      r, master, m, index := Locate(addr);
      b, i := master, index;
      PoolFacts(groups, slabs, layout.pageSize);
      LiveSlot(groups, slabs, layout.pageSize, addr, r == Ok, b, i);
      if r == Ok {
        var ok := FreeSlot(master, m, index);
        r := if ok then Ok else Again;
      }
    }
  }

  // ----- what the operations promise -----

  /** Nothing changed, or an empty group got one new slab. */
  ghost predicate Grown(slabs: map<Addr, Slab>, slabs': map<Addr, Slab>, list: seq<Addr>, list': seq<Addr>, s: Slab) {
    if list != [] then slabs' == slabs && list' == list
    else |list'| == 1 && list'[0] !in slabs && slabs' == slabs[list'[0] := s] && SameLive(slabs, slabs')
  }

  /** Growing and then taking a slot, as one step. */
  lemma AllocDone(groups: map<nat, Group>, slabs: map<Addr, Slab>, slabs1: map<Addr, Slab>, slabs2: map<Addr, Slab>,
      g: nat,
                  objSize: nat, list: seq<Addr>, page: nat, b: Addr, i: nat)
    requires PoolOk(groups, slabs, page) && (forall x :: x in slabs ==> SlabOk(slabs[x]) && !Unused(slabs[x]))
      && SlabsOk(slabs2)
    requires g in groups && Grown(slabs, slabs1, groups[g].partial, list, Fresh(g, objSize)) && LastOf(list, b)
    requires !Live(slabs1, b, i) && Gained(slabs1, slabs2, b, i) && b in slabs1 && SameSizes(slabs1, slabs2)
      && Busy(slabs2, b)
    requires slabs2.Keys == slabs1.Keys && forall x :: x in slabs2 && x != b ==> slabs2[x] == slabs1[x]
    ensures !Live(slabs, b, i) && Gained(slabs, slabs2, b, i) && SameSizes(slabs, slabs2)
    ensures (b in slabs <==> groups[g].partial != []) && slabs2.Keys == slabs.Keys + {b} && slabs2[b].objSize ==
      slabs1[b].objSize
    ensures b in slabs ==> slabs1 == slabs && LastOf(groups[g].partial, b)
    ensures forall j: nat :: Live(slabs1, b, j) <==> Live(slabs, b, j)
    ensures b !in slabs ==> slabs1[b] == Fresh(g, objSize) && b == list[0]
    ensures forall x :: x in slabs2 ==> !Unused(slabs2[x])
  {
    hide PoolOk, SlabOk, Live, Unused, Gained, Busy, Fresh, SameLive;
    GainedAfter(slabs, slabs1, slabs2, b, i);
    AliveAlike(slabs, slabs1, b);
    SizesAfter(slabs, slabs1, slabs2);
    if groups[g].partial != [] { PartialFacts(groups, slabs, page, g, b); }
    BusyAll(slabs, slabs2, b);
  }


  /** The first page of a used run is tagged with its length, and is what the page pool takes back. */
  lemma UsedSpot(l: PageAddr.Layout, n: nat, pages: map<nat, seq<PageRuns.Page>>, ix: PagePool.Index, runs: Runs,
      s: Spot, cnt: nat)
    requires PagePool.PoolOk(n, pages, ix, runs) && PagePool.Used(runs, s, cnt)
    ensures s.region in runs && s.region in pages && s.start < n && |pages[s.region]| == n
    ensures pages[s.region][s.start] == PageRuns.Page(false, true, cnt)
  {
    hide PagePool.PoolOk, PageRuns.UsedAt;
    PagePool.RegionFacts(n, pages, ix, runs, s.region);
    PagePool.UsedTags(n, pages, ix, runs, s, cnt);
  }


  /** The slab that would be made for a request. */
  function ForSize(size: nat): Slab {
    if size == 0 then Fresh(0, 0) else Fresh(SizeToIndex(size), if size > 2048 then size else Pow2(SizeToIndex(size)))
  }

  /** The code of a look-up that found no page. */
  function RetOf(found: PageAddr.Result): Ret {
    match found
    case Ok(_) => Ok
    case NotFound => Ret.NotFound
    case OutOfRange => Ret.OutOfRange
    case ArgInvalid => ArgInvalid
  }

  /** What the page pool answers to a request for cnt pages; `spare` tells whether a region is left. */
  ghost function PagesRet(runs: Runs, n: nat, cnt: nat, spare: bool): Ret {
    if cnt > n then ArgInvalid else if PagePool.Fits(runs, cnt) || spare then Ok else OutOfMemory
  }

  lemma PageCountIs(s: Slab, page: nat, cnt: nat)
    requires page > 0 && SlabOk(s) && cnt == PageAddr.Align(s.objSize * Slots(s.group), page) / page
    ensures cnt == PagesOf(s, page) && cnt > 0
  {
    hide PageAddr.Div;
    var c := PagesOf(s, page);
    PageAddr.Times(c, page);
    DivIs(c * page, page);
    Positive(s);
    PageAddr.CeilIs(s.objSize * Slots(s.group), page, 0);
    PageAddr.MulMono(1, Slots(s.group), s.objSize);
  }

  lemma DivIs(x: nat, m: nat)
    requires m > 0
    ensures x / m == PageAddr.Div(x, m)
  {
  }

  lemma PagedNow(l: PageAddr.Layout, pool: PagePool.Pool)
    requires PageAddr.Sizes(l) && PageAddr.Fits(l)
    requires pool.Valid() && pool.n == PageAddr.PagesPerRegion(l) && pool.store.size == l.regionSize
    ensures Paged(l, pool.pages, pool.index, pool.runs)
  {
    hide PageAddr.Fits, PageAddr.PagesPerRegion, PagePool.PoolOk, PagePool.RegionsOk, Regions.Held,
      PageMemory.RegionsApart;
    PageMemory.ArrayApart(pool.regions, l.regionSize, pool.runs);
  }

  /** The size group of the request has a partial slab. */
  ghost predicate HasPartial(groups: map<nat, Group>, size: nat) {
    size > 0 && SizeToIndex(size) in groups && groups[SizeToIndex(size)].partial != []
  }

  ghost predicate LastOf(list: seq<Addr>, b: Addr) {
    list != [] && b == list[|list| - 1]
  }

  /** One more object is in use. */
  ghost predicate Gained(slabs: map<Addr, Slab>, slabs': map<Addr, Slab>, b: Addr, i: nat) {
    forall b': Addr, i': nat :: Live(slabs', b', i') <==> Live(slabs, b', i') || (b' == b && i' == i)
  }

  /** One object less is in use. */
  ghost predicate Lost(slabs: map<Addr, Slab>, slabs': map<Addr, Slab>, b: Addr, i: nat) {
    forall b': Addr, i': nat :: Live(slabs', b', i') <==> Live(slabs, b', i') && !(b' == b && i' == i)
  }

  ghost predicate SameLive(slabs: map<Addr, Slab>, slabs': map<Addr, Slab>) {
    forall b': Addr, i': nat :: Live(slabs', b', i') <==> Live(slabs, b', i')
  }

  /** The slab has an object in use. */
  ghost predicate Busy(slabs: map<Addr, Slab>, b: Addr) {
    exists i: nat :: Live(slabs, b, i)
  }

  /** Object i is the only one of its slab in use. */
  ghost predicate Alone(slabs: map<Addr, Slab>, b: Addr, i: nat) {
    forall j: nat :: Live(slabs, b, j) ==> j == i
  }

  lemma NoSlabs(groups: map<nat, Group>, page: nat)
    requires page > 0 && (forall k :: k in groups <==> MIN_SHIFT <= k < HUGE + 1) && forall k :: k in groups ==>
      groups[k] == Group([], [], 0, 0)
    ensures PoolOk(groups, map[], page)
  {
    forall g | g in groups
      ensures CountersOk(groups[g], map[], g)
    {
      assert UsedMap(map[], g) == map[] && RoomMap(map[], g) == map[];
    }
  }

  lemma GainedAfter(slabs: map<Addr, Slab>, slabs1: map<Addr, Slab>, slabs2: map<Addr, Slab>, b: Addr, i: nat)
    requires (slabs1 == slabs || SameLive(slabs, slabs1)) && Gained(slabs1, slabs2, b, i) && !Live(slabs1, b, i)
    ensures Gained(slabs, slabs2, b, i) && !Live(slabs, b, i) && SameLive(slabs, slabs1)
  {
    hide Live;
  }

  lemma AliveAlike(slabs: map<Addr, Slab>, slabs1: map<Addr, Slab>, b: Addr)
    requires SameLive(slabs, slabs1)
    ensures forall j: nat :: Live(slabs1, b, j) <==> Live(slabs, b, j)
  {
    hide Live;
  }

  lemma SizesAfter(slabs: map<Addr, Slab>, slabs1: map<Addr, Slab>, slabs2: map<Addr, Slab>)
    requires (forall b :: b in slabs ==> b in slabs1 && slabs1[b] == slabs[b]) && SameSizes(slabs1, slabs2)
    ensures SameSizes(slabs, slabs2)
    ensures forall b :: b in slabs1 && b in slabs2 ==> slabs2[b].objSize == slabs1[b].objSize
  {
  }

  lemma UnusedIs(slabs: map<Addr, Slab>, b: Addr)
    requires b in slabs && SlabOk(slabs[b])
    ensures Unused(slabs[b]) <==> !Busy(slabs, b)
  {
    if !Unused(slabs[b]) {
      var i: nat :| i < Slots(slabs[b].group) && InUse(slabs[b], i);
      assert Live(slabs, b, i);
    }
  }

  /** Slabs other than b keep their objects, and b has one. */
  lemma BusyAll(slabs: map<Addr, Slab>, slabs': map<Addr, Slab>, b: Addr)
    requires SlabsOk(slabs) && SlabsOk(slabs') && (forall x :: x in slabs ==> !Unused(slabs[x])) && Busy(slabs', b)
    requires forall x :: x in slabs' && x != b ==> x in slabs && slabs'[x] == slabs[x]
    ensures forall x :: x in slabs' ==> !Unused(slabs'[x])
  {
    hide Unused, SlabOk, Busy;
    forall x | x in slabs'
      ensures !Unused(slabs'[x])
    {
      if x == b { UnusedIs(slabs', b); }
    }
  }


  lemma PoolFacts(groups: map<nat, Group>, slabs: map<Addr, Slab>, page: nat)
    requires PoolOk(groups, slabs, page)
    ensures page > 0 && SlabsOk(slabs) && forall g :: g in groups <==> MIN_SHIFT <= g <= HUGE
  {
  }

  lemma FreshOk(g: nat, objSize: nat)
    requires MIN_SHIFT <= g <= HUGE && if g == HUGE then objSize > 2048 else objSize == Pow2(g)
    ensures SlabOk(Fresh(g, objSize))
  {
  }

  /** A huge slab has one object, so without unused slabs none of them is partial. */
  lemma HugePartial(groups: map<nat, Group>, slabs: map<Addr, Slab>, page: nat)
    requires PoolOk(groups, slabs, page) && (forall b :: b in slabs ==> SlabOk(slabs[b]) && !Unused(slabs[b]))
    ensures HUGE in groups && groups[HUGE].partial == []
  {
    hide SlabOk, CountersOk, NoDup;
    assert forall b :: b in groups[HUGE].partial ==> b in slabs && slabs[b].group == HUGE && !Full(slabs[b]);
    forall b | b in slabs && slabs[b].group == HUGE
      ensures Full(slabs[b])
    {
      OneSlot(slabs[b]);
    }
    HeadIn(groups[HUGE].partial);
  }

  lemma OneSlot(s: Slab)
    requires SlabOk(s) && s.group == HUGE && !Unused(s)
    ensures Full(s)
  {
  }

  lemma HeadIn(q: seq<Addr>)
    ensures q == [] || q[0] in q
  {
  }

  lemma FreshFacts(slabs: map<Addr, Slab>, slabs': map<Addr, Slab>, base: Addr, g: nat, objSize: nat)
    requires base !in slabs && slabs' == slabs[base := Fresh(g, objSize)] && SlabOk(Fresh(g, objSize))
    ensures forall b, i: nat :: Live(slabs', b, i) <==> Live(slabs, b, i)
  {
    FreshUnused(g, objSize, 0);
  }

  lemma PartialFacts(groups: map<nat, Group>, slabs: map<Addr, Slab>, page: nat, g: nat, b: Addr)
    requires PoolOk(groups, slabs, page) && g in groups && b in groups[g].partial
    ensures b in slabs && SlabOk(slabs[b]) && slabs[b].group == g && !Full(slabs[b])
    ensures g != HUGE ==> slabs[b].objSize == Pow2(g)
  {
  }

  /** Marking slot i changes whether that object is live and nothing else. */
  lemma MarkLive(slabs: map<Addr, Slab>, b: Addr, i: nat, v: bool)
    requires b in slabs && SlabOk(slabs[b]) && i < Slots(slabs[b].group)
    ensures forall b': Addr, i': nat :: Live(slabs[b := Mark(slabs[b], i, v)], b', i') <==> if (b', i') == (b, i)
      then v else Live(slabs, b', i')
  {
    hide InUse, SlabOk, Mark;
    var slabs' := slabs[b := Mark(slabs[b], i, v)];
    forall b': Addr, i': nat
      ensures Live(slabs', b', i') <==> if (b', i') == (b, i) then v else Live(slabs, b', i')
    {
      MarkIs(slabs[b], i, v, i);
      if b' == b && i' < Slots(slabs[b].group) { MarkIs(slabs[b], i, v, i'); }
    }
  }

  lemma DropLive(slabs: map<Addr, Slab>, b: Addr, s: Slab, slabs': map<Addr, Slab>)
    requires slabs' == slabs[b := s] && SlabOk(s) && Unused(s)
    ensures forall b', i': nat :: Live(slabs - {b}, b', i') <==> Live(slabs', b', i')
  {
  }

  lemma AloneIs(slabs: map<Addr, Slab>, b: Addr, i: nat, s: Slab)
    requires Live(slabs, b, i) && s == Mark(slabs[b], i, false) && SlabOk(s)
    ensures Unused(s) <==> Alone(slabs, b, i)
    ensures !Unused(s) ==> Busy(slabs[b := s], b)
  {
    hide InUse, SlabOk, Mark;
    MarkLive(slabs, b, i, false);
    var slabs' := slabs[b := s];
    UnusedIs(slabs', b);
    assert forall j: nat :: Live(slabs', b, j) <==> Live(slabs, b, j) && j != i;
    if Unused(s) {
      forall j: nat | Live(slabs, b, j) ensures j == i { assert !Live(slabs', b, j); }
    }
  }

  lemma BusyRest(slabs: map<Addr, Slab>, slabs': map<Addr, Slab>, b: Addr, i: nat)
    requires SlabsOk(slabs) && SlabsOk(slabs') && (forall x :: x in slabs ==> !Unused(slabs[x])) && Live(slabs, b, i)
      && Lost(slabs, slabs', b, i)
    requires slabs'.Keys == slabs.Keys || (slabs'.Keys == slabs.Keys - {b} && Alone(slabs, b, i))
    requires slabs'.Keys == slabs.Keys ==> Busy(slabs', b)
    requires forall x :: x in slabs' && x != b ==> slabs'[x] == slabs[x]
    ensures forall x :: x in slabs' ==> !Unused(slabs'[x])
    ensures slabs'.Keys == if Alone(slabs, b, i) then slabs.Keys - {b} else slabs.Keys
  {
    hide Unused, SlabOk;
    forall x | x in slabs'
      ensures !Unused(slabs'[x])
    {
      if x == b { UnusedIs(slabs', b); }
    }
    assert b in slabs;
  }

  /** The address of an object in use whose slab lies on a page boundary. */
  ghost predicate AlignedLive(slabs: map<Addr, Slab>, page: nat, addr: Addr)
    requires page > 0
  {
    exists b: Addr, i: nat :: Live(slabs, b, i) && addr == ObjAddr(b, slabs[b], i) && b % page == 0
  }

  /** The address of an object, in use or not, whose slab lies on a page boundary. */
  ghost predicate AlignedSlot(slabs: map<Addr, Slab>, page: nat, addr: Addr)
    requires page > 0
  {
    exists b: Addr, i: nat :: Slot(slabs, b, i, addr) && b % page == 0
  }

  ghost predicate Slot(slabs: map<Addr, Slab>, b: Addr, i: nat, addr: Addr) {
    b in slabs && SlabOk(slabs[b]) && i < Slots(slabs[b].group) && addr == ObjAddr(b, slabs[b], i)
  }

  /** An address in the run of a slab that lies on a page boundary. */
  ghost predicate AlignedHeld(slabs: map<Addr, Slab>, page: nat, addr: Addr)
    requires page > 0
  {
    exists b :: b in slabs && Holds(slabs, page, b, addr) && b % page == 0
  }

  /**
    Which code refuses an address: ST_ARG_INVALID for a null page, ST_NOT_FOUND without a region, and ST_OUT_OF_RANGE in
    a region but among the page records or on a page of no slab.
   */
  ghost predicate Refused(l: PageAddr.Layout, regions: seq<nat>, slabs: map<Addr, Slab>, addr: Addr, r: Ret)
    requires PageAddr.Sizes(l)
  {
    var base := PageBase(addr, l.pageSize);
    && (base == 0 ==> r == ArgInvalid)
    && (r == Ret.NotFound <==> base != 0 && forall x :: !PageAddr.Owner(regions, l.regionSize, base, x))
    && (r == Ret.OutOfRange <==>
          && base != 0 && r != Ret.NotFound && !AlignedHeld(slabs, l.pageSize, addr)
          && forall x: nat, k: nat :: !PageAddr.InsidePage(l, regions, base, x, k))
    && (r == Ok || r == Again || r == ArgInvalid || r == Ret.OutOfRange || r == Ret.NotFound)
  }

  /** No slab lies on the null page. */
  lemma HeldNotNull(l: PageAddr.Layout, pages: map<nat, seq<PageRuns.Page>>, ix: PagePool.Index, runs: Runs,
                    slabs: map<Addr, Slab>, spots: map<Addr, Spot>, links: map<Spot, Spot>, addr: Addr)
    requires Paged(l, pages, ix, runs) && MemoryOk(l, runs, slabs, spots, links)
    ensures AlignedHeld(slabs, l.pageSize, addr) ==> PageBase(addr, l.pageSize) != 0
  {
    hide PagePool.PoolOk, PageMemory.RegionsApart, PageAddr.Fits, PageAddr.BaseOffset, PageBase, LinksOk, PagesOf,
      RunSize, PagePool.Used, PageAddr.PagesPerRegion;
    PageBaseIs(addr, l.pageSize);
    if AlignedHeld(slabs, l.pageSize, addr) {
      var b :| b in slabs && Holds(slabs, l.pageSize, b, addr) && b % l.pageSize == 0;
      PageMemory.UsedInside(l, pages, ix, runs, spots[b], PagesOf(slabs[b], l.pageSize));
      RecordsFirst(l);
      PageAddr.MulMono(0, spots[b].start, l.pageSize);
      WholePage(b, l.pageSize);
    }
  }

  /** The records come before the data, so no data page starts at the start of its region. */
  lemma RecordsFirst(l: PageAddr.Layout)
    requires PageAddr.Sizes(l) && PageAddr.PagesPerRegion(l) > 0
    ensures PageAddr.BaseOffset(l) > 0
  {
    hide PageAddr.PagesPerRegion, PageAddr.Align;
    var n := PageAddr.PagesPerRegion(l);
    PageAddr.AlignUp(l.recordSize * n, l.pageSize);
    Commutes(l.recordSize, n);
    PageAddr.MulMono(1, n, l.recordSize);
  }

  lemma WholePage(b: nat, page: nat)
    requires page > 0 && b % page == 0 && b > 0
    ensures b >= page
  {
  }

  /** What the look-up of an address tells: it leads to a slab on a page boundary exactly if one holds the address. */
  lemma LookUp(l: PageAddr.Layout, pages: map<nat, seq<PageRuns.Page>>, ix: PagePool.Index, runs: Runs,
               regions: seq<nat>, slabs: map<Addr, Slab>, spots: map<Addr, Spot>, links: map<Spot, Spot>,
               addr: Addr, found: bool, p: Spot)
    requires Paged(l, pages, ix, runs) && MemoryOk(l, runs, slabs, spots, links)
    requires forall r :: r in runs ==> r in regions
    requires found <==> PageAddr.StartsPage(l, regions, PageBase(addr, l.pageSize), p.region, p.start)
    requires forall x: nat, k: nat :: PageAddr.StartsPage(l, regions, PageBase(addr, l.pageSize), x, k) ==>
      x == p.region && k == p.start
    ensures AlignedHeld(slabs, l.pageSize, addr) <==> found && p in links
    ensures found && p in links ==> var b := PageMemory.Start(l, links[p]);
      && b in slabs && b in spots && spots[b] == links[p] && Holds(slabs, l.pageSize, b, addr)
      && b % l.pageSize == 0 && b <= addr
  {
    hide Paged, PageAddr.StartsPage, PageBase, SlabOk, RunSize, Backed, LinksOk, PageMemory.Start;
    if found && p in links {
      FoundSlab(l, runs, regions, links, slabs, spots, addr, p);
      SpotKnown(l, runs, slabs, spots, PageMemory.Start(l, links[p]));
    }
    if AlignedHeld(slabs, l.pageSize, addr) {
      var b :| b in slabs && Holds(slabs, l.pageSize, b, addr) && b % l.pageSize == 0;
      var p' := SlabFound(l, pages, ix, runs, regions, links, slabs, spots, b, addr);
    }
  }

  /** Inside the run of a slab on a page boundary, only that slab can have an object at the address. */
  lemma SlotOf(groups: map<nat, Group>, slabs: map<Addr, Slab>, page: nat, b: Addr, addr: Addr,
               offset: nat)
    requires PoolOk(groups, slabs, page) && b in slabs && Holds(slabs, page, b, addr) && b % page == 0
    requires addr == b + offset
    ensures AlignedSlot(slabs, page, addr) <==> exists i: nat :: AtSlot(slabs[b], i, offset)
    ensures forall i: nat :: AtSlot(slabs[b], i, offset) <==> Slot(slabs, b, i, addr)
  {
    hide RunSize, ListsOk, CountersOk, Pow2;
    assert forall i: nat :: AtSlot(slabs[b], i, offset) <==> Slot(slabs, b, i, addr);
    if AlignedSlot(slabs, page, addr) {
      var b': Addr, i: nat :| Slot(slabs, b', i, addr) && b' % page == 0;
      SlotOwner(groups, slabs, page, b', i);
      OneHolder(groups, slabs, page, b, b', addr);
    }
  }

  /** Object i of the slab starts at the offset. */
  ghost predicate AtSlot(s: Slab, i: nat, offset: nat) {
    i < Slots(s.group) && offset == i * s.objSize
  }

  /** The number of the object at an offset of a slab, if there is one. */
  method IndexOf(s: Slab, offset: nat) returns (r: Ret, index: nat)
    requires SlabOk(s)
    ensures r == Ok || r == ArgInvalid
    ensures r == Ok <==> exists i: nat :: AtSlot(s, i, offset)
    ensures r == Ok ==> AtSlot(s, index, offset)
  {
    hide Pow2, AtSlot;
    index := 0;
    SlotsNumbered(s, offset);
    if offset % Pow2(s.group) != 0 {
      return ArgInvalid, index;
    }
    index := offset / Pow2(s.group);
    if index >= OBJ_CNT || (s.group == HUGE && index != 0) {
      return ArgInvalid, index;
    }
    NumberedSlot(s, index, offset);
    r := Ok;
  }

  lemma SlotsNumbered(s: Slab, offset: nat)
    requires SlabOk(s)
    ensures var size := Pow2(s.group);
      (exists i: nat :: AtSlot(s, i, offset)) ==>
        offset % size == 0 && offset / size < OBJ_CNT && (s.group == HUGE ==> offset / size == 0)
  {
    hide Pow2;
    if i: nat :| AtSlot(s, i, offset) { SlotNumber(s, i); }
  }

  lemma NumberedSlot(s: Slab, i: nat, offset: nat)
    requires SlabOk(s) && offset % Pow2(s.group) == 0 && i == offset / Pow2(s.group)
    requires i < OBJ_CNT && (s.group == HUGE ==> i == 0)
    ensures AtSlot(s, i, offset)
  {
    hide Pow2;
    PageAddr.Quotient(offset, Pow2(s.group));
  }

  /** The object in use at an address is the one of the slot found there. */
  lemma LiveSlot(groups: map<nat, Group>, slabs: map<Addr, Slab>, page: nat, addr: Addr, found: bool, b: Addr, i: nat)
    requires page > 0 && PoolOk(groups, slabs, page) && (found <==> AlignedSlot(slabs, page, addr))
    requires found ==> Slot(slabs, b, i, addr) && b % page == 0
    ensures AlignedLive(slabs, page, addr) <==> found && Live(slabs, b, i)
  {
    hide PoolOk, InUse, ObjAddr, SlabOk;
    if AlignedLive(slabs, page, addr) {
      var b': Addr, i': nat :| Live(slabs, b', i') && addr == ObjAddr(b', slabs[b'], i') && b' % page == 0;
      assert Slot(slabs, b', i', addr);
      SameSlot(groups, slabs, page, b, i, b', i', addr);
    }
  }

  lemma SameSlot(groups: map<nat, Group>, slabs: map<Addr, Slab>, page: nat, b: Addr, i: nat, b': Addr, i': nat,
                 addr: Addr)
    requires PoolOk(groups, slabs, page) && Slot(slabs, b, i, addr) && Slot(slabs, b', i', addr)
    ensures b' == b && i' == i
  {
    hide PoolOk, SlabOk, RunSize, Pow2;
    SlotOwner(groups, slabs, page, b, i);
    SlotOwner(groups, slabs, page, b', i');
    OneHolder(groups, slabs, page, b, b', addr);
    SlotNumber(slabs[b], i);
    SlotNumber(slabs[b], i');
  }

  lemma SlotsHeld(groups: map<nat, Group>, slabs: map<Addr, Slab>, page: nat, addr: Addr)
    requires PoolOk(groups, slabs, page)
    ensures AlignedSlot(slabs, page, addr) ==> AlignedHeld(slabs, page, addr)
  {
    hide RunSize, ListsOk, CountersOk, ObjAddr;
    if AlignedSlot(slabs, page, addr) {
      var b: Addr, i: nat :| Slot(slabs, b, i, addr) && b % page == 0;
      SlotOwner(groups, slabs, page, b, i);
    }
  }

  lemma ArrayIs(regions: seq<nat>, size: nat, all: set<nat>)
    requires PagePool.RegionsOk(regions, size, all)
    ensures PageAddr.Apart(regions, size) && forall r :: r in all ==> r in regions
  {
  }

  lemma SpotKnown(l: PageAddr.Layout, runs: Runs, slabs: map<Addr, Slab>, spots: map<Addr, Spot>, b: Addr)
    requires PageAddr.Sizes(l) && Backed(l, runs, slabs, spots) && b in slabs
    ensures b in spots
  {
  }

  // ----- slabs on page boundaries -----

  /** A slab lies on a page boundary if and only if its region does. */
  lemma AlignedExactly(l: PageAddr.Layout, runs: Runs, slabs: map<Addr, Slab>, spots: map<Addr, Spot>, b: Addr)
    requires PageAddr.Sizes(l) && Backed(l, runs, slabs, spots) && b in slabs
    ensures b % l.pageSize == 0 <==> spots[b].region % l.pageSize == 0
  {
    hide PageAddr.Div, PagesOf, PageRuns.UsedAt, PageAddr.PagesPerRegion;
    var sp, ps := spots[b], l.pageSize;
    var c := PageAddr.Div(l.recordSize * PageAddr.PagesPerRegion(l) + ps - 1, ps);
    ModShift(sp.region, c, ps);
    ModShift(sp.region + c * ps, sp.start, ps);
  }

  /**
    All regions lie on page boundaries if and only if the first one does and, with more than one, they are whole pages.
   */
  lemma RegionsAligned(base: nat, size: nat, cnt: nat, page: nat)
    requires page > 0
    ensures (forall i: nat :: i < cnt ==> Regions.RegionAddr(base, size, i) % page == 0)
      <==> (cnt > 0 ==> base % page == 0) && (cnt > 1 ==> size % page == 0)
  {
    hide PageAddr.Div;
    if (cnt > 0 ==> base % page == 0) && (cnt > 1 ==> size % page == 0) {
      forall i: nat | i < cnt ensures Regions.RegionAddr(base, size, i) % page == 0 {
        if i > 0 {
          var q := PageAddr.Div(size, page);
          PageAddr.Quotient(size, page);
          Regroup(i, q, page);
          ModShift(base, i * q, page);
        }
      }
    }
    if forall i: nat :: i < cnt ==> Regions.RegionAddr(base, size, i) % page == 0 {
      assert Regions.RegionAddr(base, size, 0) == base && Regions.RegionAddr(base, size, 1) == base + size;
      if cnt > 1 {
        var q := PageAddr.Div(base, page);
        PageAddr.Quotient(base, page);
        ModShift(size, q, page);
      }
    }
  }

  /** When the memory block and the regions are whole pages, every slab lies on a page boundary. */
  lemma AllAligned(l: PageAddr.Layout, runs: Runs, base: nat, busy: seq<bool>, slabs: map<Addr, Slab>,
                   spots: map<Addr, Spot>, b: Addr)
    requires PageAddr.Sizes(l) && Backed(l, runs, slabs, spots) && runs.Keys == Regions.Held(base, l.regionSize, busy)
      && b in slabs
    requires base % l.pageSize == 0 && (|busy| > 1 ==> l.regionSize % l.pageSize == 0)
    ensures b % l.pageSize == 0
  {
    hide PagesOf, PageRuns.UsedAt, Regions.RegionAddr, PageMemory.Start;
    var i: nat :| i < |busy| && busy[i] && spots[b].region == Regions.RegionAddr(base, l.regionSize, i);
    RegionsAligned(base, l.regionSize, |busy|, l.pageSize);
    AlignedExactly(l, runs, slabs, spots, b);
  }

  lemma Regroup(i: nat, q: nat, m: nat)
    ensures i * (q * m) == (i * q) * m
  {
  }

  /** Pages of 8192 bytes on a block of one region that starts at a system page of 4096. */
  method Oblique() returns (p: SlabPool)
    ensures p.Valid() && fresh(p) && fresh(p.pool) && fresh(p.pool.store)
    ensures p.layout == PageAddr.Layout(8192, 81920, 144) && p.pool.store.base == 4096 && p.pool.n == 9
    ensures !HasPartial(p.groups, 8) && Regions.Spare(p.pool.store.busy)
  {
    hide PoolOk, MemoryOk, PagePool.PoolOk, PagePool.RegionsOk, SizeToIndex;
    var l := PageAddr.Layout(8192, 81920, 144);
    ObliqueFits(l);
    hide PageAddr.Fits, PageAddr.PagesPerRegion;
    var store := new Regions.RegionPool(4096, 81920, 1);
    assert !store.busy[0] by { Regions.HeldPut(4096, 81920, store.busy, 0, true); }
    var pool := new PagePool.Pool(9, store);
    p := new SlabPool(l, pool);
    NoPartial(p.groups, p.slabs, 8192);
  }

  lemma ObliqueFits(l: PageAddr.Layout)
    requires l == PageAddr.Layout(8192, 81920, 144)
    ensures PageAddr.Sizes(l) && PageAddr.PagesPerRegion(l) == 9 && PageAddr.Fits(l)
  {
  }

  /** There, an object that was just allocated cannot be freed. */
  method Misaligned() returns (given: Ret, taken: Ret)
    ensures given == Ok && taken != Ok
  {
    hide PoolOk, MemoryOk, PagePool.PoolOk, PagePool.RegionsOk, PagePool.Fits, PageAddr.Fits, PageAddr.PagesPerRegion;
    hide Live, Gained, Lost, Alone, AlignedLive, SameSizes, HasPartial, ForSize, PagesOf, Unused, ObjAddr;
    hide Regions.Held, Regions.Spare;
    var p := Oblique();
    SmallPages();
    var addr;
    ghost var b, i;
    given, addr, b, i := p.Alloc(8);
    OnlyRegion(p.layout, p.pool.runs, p.pool.store.busy, p.slabs, p.spots, p.links);
    taken, b, i := p.Free(addr);
  }

  /** Without slabs no group has a partial one. */
  lemma NoPartial(groups: map<nat, Group>, slabs: map<Addr, Slab>, page: nat)
    requires PoolOk(groups, slabs, page) && slabs == map[]
    ensures forall g :: g in groups ==> groups[g].partial == []
  {
    hide NoDup, CountersOk;
    forall g | g in groups ensures groups[g].partial == [] {
      HeadIn(groups[g].partial);
      assert ListsOk(groups[g], slabs, g);
    }
  }

  lemma SmallPages()
    ensures PagesOf(ForSize(8), 8192) == 1
  {
    Pow2Values();
  }

  /** On a block at 4096 with regions of whole pages no slab lies on a boundary of 8192 bytes. */
  lemma OnlyRegion(l: PageAddr.Layout, runs: Runs, busy: seq<bool>, slabs: map<Addr, Slab>, spots: map<Addr, Spot>,
                   links: map<Spot, Spot>)
    requires l == PageAddr.Layout(8192, 81920, 144) && MemoryOk(l, runs, slabs, spots, links)
    requires runs.Keys == Regions.Held(4096, l.regionSize, busy)
    ensures forall addr :: !AlignedLive(slabs, 8192, addr)
  {
    hide LinksOk, PagesOf, PageRuns.UsedAt, InUse, SlabOk, PageMemory.Start;
    forall b | b in slabs ensures b % 8192 != 0 {
      AlignedExactly(l, runs, slabs, spots, b);
      var i: nat :| i < |busy| && busy[i] && spots[b].region == Regions.RegionAddr(4096, 81920, i);
      Regroup(i, 10, 8192);
      ModShift(4096, i * 10, 8192);
    }
  }
}
