/**
  Slabs: runs of pages cut into objects of one size, a bitmap of the objects in use, and per size group the lists of
  full and partial slabs with their counters.  A slab is known by the address of its first page.
 */
module SlabModel {
  import opened Maps
  import opened Powers
  import opened Queues
  import opened Bitmaps
  import PageAddr

  const MIN_SHIFT := 3
  const MAX_SHIFT := 11
  const OBJ_CNT := 512

  /** The group of objects larger than the largest size class: one object per slab. */
  const HUGE := 12

  type Addr = nat

  datatype Slab = Slab(group: nat, objSize: nat, bitmap: seq<Word>)

  datatype Group = Group(full: seq<Addr>, partial: seq<Addr>, alloc: int, free: int)

  // ----- size classes -----

  /** Number of the most significant bit. */
  function Msb(n: nat): nat
    requires n > 0
  {
    if n == 1 then 0 else 1 + Msb(n / 2)
  }

  lemma {:induction false} MsbBounds(n: nat)
    requires n > 0
    ensures Pow2(Msb(n)) <= n < Pow2(Msb(n) + 1)
  {
    if n > 1 { MsbBounds(n / 2); }
  }

  function SizeToIndex(size: nat): nat
    requires size > 0
  {
    if size <= 8 then MIN_SHIFT else if size > 2048 then HUGE else Msb(size - 1) + 1
  }

  lemma Pow2Values()
    ensures Pow2(3) == 8 && Pow2(11) == 2048 && Pow2(12) == 4096
  {
    assert Pow2(1) == 2 && Pow2(2) == 4 && Pow2(3) == 8 && Pow2(4) == 16 && Pow2(5) == 32 && Pow2(6) == 64;
    assert Pow2(7) == 128 && Pow2(8) == 256 && Pow2(9) == 512 && Pow2(10) == 1024 && Pow2(11) == 2048
      && Pow2(12) == 4096;
  }

  /** The group chosen is the smallest whose objects hold the size. */
  lemma SizeClass(size: nat)
    requires size > 0
    ensures var i := SizeToIndex(size);
      && MIN_SHIFT <= i <= HUGE && (i == HUGE <==> size > 2048)
      && (i < HUGE ==> size <= Pow2(i) && forall k: nat :: MIN_SHIFT <= k < i ==> Pow2(k) < size)
  {
    hide Msb;
    Pow2Values();
    var i := SizeToIndex(size);
    if 8 < size <= 2048 {
      MsbBounds(size - 1);
      if i > MAX_SHIFT { Pow2Mono(MAX_SHIFT, i - 1); }
      forall k: nat | MIN_SHIFT <= k < i ensures Pow2(k) < size { Pow2Mono(k, i - 1); }
    }
  }

  // ----- slots -----

  function Slots(g: nat): nat {
    if g == HUGE then 1 else OBJ_CNT
  }

  predicate SlabOk(s: Slab) {
    && MIN_SHIFT <= s.group <= HUGE && |s.bitmap| == 8
    && (if s.group == HUGE then s.objSize > 2048 else s.objSize == Pow2(s.group))
  }

  /** Object i of the slab is in use. */
  predicate InUse(s: Slab, i: nat)
    requires SlabOk(s) && i < Slots(s.group)
  {
    Bit(s.bitmap, i)
  }

  ghost predicate Full(s: Slab)
    requires SlabOk(s)
  {
    forall i: nat :: i < Slots(s.group) ==> InUse(s, i)
  }

  ghost predicate Unused(s: Slab)
    requires SlabOk(s)
  {
    forall i: nat :: i < Slots(s.group) ==> !InUse(s, i)
  }

  /** Number of objects in use among the first n. */
  function UsedOf(s: Slab, n: nat): nat
    requires SlabOk(s) && n <= Slots(s.group)
  {
    if n == 0 then 0 else UsedOf(s, n - 1) + if InUse(s, n - 1) then 1 else 0
  }

  function Mark(s: Slab, i: nat, v: bool): Slab
    requires SlabOk(s) && i < Slots(s.group)
  {
    s.(bitmap := SetBit(s.bitmap, i, v))
  }

  lemma MarkIs(s: Slab, i: nat, v: bool, j: nat)
    requires SlabOk(s) && i < Slots(s.group) && j < Slots(s.group)
    ensures var s' := Mark(s, i, v);
      SlabOk(s') && s'.group == s.group && s'.objSize == s.objSize
        && (InUse(s', j) <==> if j == i then v else InUse(s, j))
  {
    SetBitIs(s.bitmap, i, v, j);
  }

  lemma {:induction false} MarkCount(s: Slab, i: nat, v: bool, n: nat)
    requires SlabOk(s) && i < Slots(s.group) && n <= Slots(s.group) && InUse(s, i) != v
    ensures SlabOk(Mark(s, i, v))
    ensures UsedOf(Mark(s, i, v), n) == UsedOf(s, n) + if i < n then (if v then 1 else -1) else 0
    decreases n
  {
    hide Mark, InUse, SlabOk;
    MarkIs(s, i, v, i);
    if n > 0 {
      MarkCount(s, i, v, n - 1);
      MarkIs(s, i, v, n - 1);
    }
  }

  function Fresh(g: nat, objSize: nat): Slab {
    Slab(g, objSize, seq(8, _ => Zero()))
  }

  lemma {:induction false} FreshUnused(g: nat, objSize: nat, n: nat)
    requires SlabOk(Fresh(g, objSize)) && n <= Slots(g)
    ensures UsedOf(Fresh(g, objSize), n) == 0 && Unused(Fresh(g, objSize)) && !Full(Fresh(g, objSize))
    decreases n
  {
    var s := Fresh(g, objSize);
    if n > 0 { FreshUnused(g, objSize, n - 1); }
    assert !InUse(s, 0);
  }

  // ----- memory -----

  /** Bytes of the run of pages behind a slab. */
  function RunSize(s: Slab, page: nat): nat
    requires page > 0
  {
    PageAddr.Align(s.objSize * Slots(s.group), page)
  }

  predicate Disjoint(b: Addr, s: Slab, b': Addr, s': Slab, page: nat)
    requires page > 0
  {
    b + RunSize(s, page) <= b' || b' + RunSize(s', page) <= b
  }

  ghost predicate Apart(slabs: map<Addr, Slab>, page: nat)
    requires page > 0
  {
    forall b, b' :: b in slabs && b' in slabs && b != b' ==> Disjoint(b, slabs[b], b', slabs[b'], page)
  }

  /** The run of a new slab meets no other slab's run. */
  ghost predicate FreshRun(slabs: map<Addr, Slab>, page: nat, base: Addr, s: Slab) {
    page > 0 && base !in slabs && forall b :: b in slabs ==> Disjoint(base, s, b, slabs[b], page)
  }

  /** Slabs keep their group and object size as long as they exist. */
  ghost predicate SameSizes(slabs: map<Addr, Slab>, slabs': map<Addr, Slab>) {
    forall b :: b in slabs && b in slabs' ==> slabs'[b].group == slabs[b].group && slabs'[b].objSize == slabs[b].objSize
  }

  function ObjAddr(b: Addr, s: Slab, i: nat): Addr {
    b + i * s.objSize
  }

  lemma Commutes(a: nat, b: nat)
    ensures a * b == b * a
  {
  }

  /** An object lies inside the run of its slab, and objects of one slab do not meet. */
  lemma ObjInside(b: Addr, s: Slab, i: nat, j: nat, page: nat)
    requires page > 0 && SlabOk(s) && i < Slots(s.group)
    ensures b <= ObjAddr(b, s, i) && ObjAddr(b, s, i) + s.objSize <= b + RunSize(s, page)
    ensures i < j ==> ObjAddr(b, s, i) + s.objSize <= ObjAddr(b, s, j)
  {
    hide PageAddr.Align, SlabOk;
    var n := Slots(s.group);
    PageAddr.AlignUp(s.objSize * n, page);
    Commutes(s.objSize, n);
    PageAddr.MulMono(i + 1, n, s.objSize);
    PageAddr.OneMore(i, s.objSize);
    if i < j { PageAddr.MulMono(i + 1, j, s.objSize); }
  }

  // ----- lists and counters -----

  /** A slab is in the full list exactly when all its objects are in use, and otherwise in the partial list. */
  ghost predicate ListsOk(gr: Group, slabs: map<Addr, Slab>, g: nat)
    requires forall b :: b in slabs ==> SlabOk(slabs[b])
  {
    && NoDup(gr.full) && NoDup(gr.partial)
    && (forall b :: b in gr.full <==> b in slabs && slabs[b].group == g && Full(slabs[b]))
    && (forall b :: b in gr.partial <==> b in slabs && slabs[b].group == g && !Full(slabs[b]))
  }

  ghost function Sum(m: map<Addr, nat>): nat
    decreases |m|
  {
    if |m| == 0 then 0
    else
      var b := Pick(m);
      DropSize(m, b);
      m[b] + Sum(m - {b})
  }

  lemma {:induction false} SumDrop(m: map<Addr, nat>, b: Addr)
    requires b in m
    ensures Sum(m) == m[b] + Sum(m - {b})
    decreases |m|
  {
    DropSize(m, b);
    var x := Pick(m);
    if x != b {
      DropSize(m, x);
      SumDrop(m - {x}, b);
      SumDrop(m - {b}, x);
      assert m - {x} - {b} == m - {b} - {x};
    }
  }

  lemma SumPut(m: map<Addr, nat>, b: Addr, v: nat)
    ensures Sum(m[b := v]) == Sum(m) - (if b in m then m[b] else 0) + v
  {
    hide Sum;
    SumDrop(m[b := v], b);
    assert m[b := v] - {b} == m - {b};
    if b in m { SumDrop(m, b); } else { assert m - {b} == m; }
  }

  /** Objects in use and objects held, per slab, in group g. */
  ghost function UsedMap(slabs: map<Addr, Slab>, g: nat): map<Addr, nat>
    requires forall b :: b in slabs ==> SlabOk(slabs[b])
  {
    map b | b in slabs :: if slabs[b].group == g then UsedOf(slabs[b], Slots(g)) else 0
  }

  ghost function RoomMap(slabs: map<Addr, Slab>, g: nat): map<Addr, nat> {
    map b | b in slabs :: if slabs[b].group == g then Slots(g) else 0
  }

  /** The counters: objects in use, and slots held but not in use. */
  ghost predicate CountersOk(gr: Group, slabs: map<Addr, Slab>, g: nat)
    requires forall b :: b in slabs ==> SlabOk(slabs[b])
  {
    gr.alloc == Sum(UsedMap(slabs, g)) && gr.alloc + gr.free == Sum(RoomMap(slabs, g))
  }

  ghost predicate SlabsOk(slabs: map<Addr, Slab>) {
    forall b :: b in slabs ==> SlabOk(slabs[b])
  }

  ghost predicate PoolOk(groups: map<nat, Group>, slabs: map<Addr, Slab>, page: nat) {
    && page > 0 && SlabsOk(slabs) && Apart(slabs, page)
    && (forall g :: g in groups <==> MIN_SHIFT <= g <= HUGE)
    && (forall g :: g in groups ==> ListsOk(groups[g], slabs, g) && CountersOk(groups[g], slabs, g))
  }

  /** Objects in use, by slab and number. */
  ghost predicate Live(slabs: map<Addr, Slab>, b: Addr, i: nat) {
    b in slabs && SlabOk(slabs[b]) && i < Slots(slabs[b].group) && InUse(slabs[b], i)
  }

  /** Objects in use lie inside the runs of their slabs, and do not overlap where the runs do not. */
  lemma LiveApart(slabs: map<Addr, Slab>, page: nat, b: Addr, i: nat, b': Addr, i': nat)
    requires page > 0 && Apart(slabs, page) && Live(slabs, b, i) && Live(slabs, b', i') && (b, i) != (b', i')
    ensures var s, s' := slabs[b], slabs[b'];
      && b <= ObjAddr(b, s, i) && ObjAddr(b, s, i) + s.objSize <= b + RunSize(s, page)
      && (ObjAddr(b, s, i) + s.objSize <= ObjAddr(b', s', i') || ObjAddr(b', s', i') + s'.objSize <= ObjAddr(b, s, i))
  {
    hide RunSize, ObjAddr, SlabOk, InUse;
    ObjInside(b, slabs[b], i, i', page);
    ObjInside(b', slabs[b'], i', i, page);
    if b != b' { assert Disjoint(b, slabs[b], b', slabs[b'], page); }
  }

  predicate Holds(slabs: map<Addr, Slab>, page: nat, b: Addr, addr: Addr)
    requires page > 0 && b in slabs
  {
    b <= addr < b + RunSize(slabs[b], page)
  }
}
