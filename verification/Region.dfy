/** The regions of the shared memory: equal pieces of one block, each free or handed out. */
module Regions {
  import opened PageAddr

  const MAX_REGIONS := 1024

  datatype Answer = NoRegion | Region(addr: nat)

  /** Address of region i. */
  function RegionAddr(base: nat, size: nat, i: nat): nat {
    base + i * size
  }

  /** The regions handed out. */
  function Held(base: nat, size: nat, busy: seq<bool>): set<nat> {
    set i: nat | i < |busy| && busy[i] :: RegionAddr(base, size, i)
  }

  ghost predicate FirstSpare(busy: seq<bool>, i: nat) {
    i < |busy| && !busy[i] && forall j: nat :: j < i ==> busy[j]
  }

  /** Some region is not handed out. */
  predicate Spare(busy: seq<bool>) {
    exists i :: 0 <= i < |busy| && !busy[i]
  }

  lemma SameRegion(base: nat, size: nat, i: nat, j: nat)
    requires size > 0
    ensures RegionAddr(base, size, i) == RegionAddr(base, size, j) ==> i == j
    ensures i < j ==> RegionAddr(base, size, i) + size <= RegionAddr(base, size, j)
  {
    if i < j { MulMono(i + 1, j, size); OneMore(i, size); }
    if j < i { MulMono(j + 1, i, size); OneMore(j, size); }
  }

  /** Region i and no other changes hands. */
  lemma HeldPut(base: nat, size: nat, busy: seq<bool>, i: nat, v: bool)
    requires size > 0 && i < |busy|
    ensures var a := RegionAddr(base, size, i);
      && Held(base, size, busy[i := v]) == (if v then Held(base, size, busy) + {a} else Held(base, size, busy) - {a})
      && (a in Held(base, size, busy) <==> busy[i])
  {
    hide RegionAddr;
    forall j: nat ensures RegionAddr(base, size, i) == RegionAddr(base, size, j) ==> i == j {
      SameRegion(base, size, i, j);
    }
    var busy' := busy[i := v];
    forall j: nat | j < |busy| && j != i ensures busy'[j] == busy[j] {}
    forall a | a in Held(base, size, busy)
      ensures a == RegionAddr(base, size, i) || a in Held(base, size, busy')
    {
      var j: nat :| j < |busy| && busy[j] && a == RegionAddr(base, size, j);
    }
    assert v ==> busy'[i];
  }

  /** Regions handed out do not overlap. */
  lemma HeldApart(base: nat, size: nat, busy: seq<bool>, a: nat, b: nat)
    requires size > 0 && a in Held(base, size, busy) && b in Held(base, size, busy) && a < b
    ensures a + size <= b
  {
    hide RegionAddr;
    var i: nat :| i < |busy| && busy[i] && a == RegionAddr(base, size, i);
    var j: nat :| j < |busy| && busy[j] && b == RegionAddr(base, size, j);
    SameRegion(base, size, i, j);
    SameRegion(base, size, j, i);
  }

  /** Distinct regions in order are no more than there are regions. */
  lemma {:induction false} RegionsBound(base: nat, size: nat, busy: seq<bool>, regions: seq<nat>)
    requires size > 0 && Apart(regions, size) && forall a :: a in regions ==> a in Held(base, size, busy)
    ensures |regions| <= |busy|
  {
    if regions != [] {
      var m := |regions| - 1;
      assert regions[m] in regions && regions[0] in regions;
      var i: nat :| i < |busy| && busy[i] && regions[m] == RegionAddr(base, size, i);
      var j: nat :| j < |busy| && busy[j] && regions[0] == RegionAddr(base, size, j);
      Spread(regions, size, m);
      if m > i { MulMono(i + 1, m, size); OneMore(i, size); }
    }
  }

  lemma {:induction false} Spread(regions: seq<nat>, size: nat, k: nat)
    requires Apart(regions, size) && k < |regions|
    ensures regions[0] + k * size <= regions[k]
  {
    if k > 0 {
      Spread(regions, size, k - 1);
      OneMore(k - 1, size);
      assert regions[k - 1] + size <= regions[k];
    }
  }

  lemma BelowBase(base: nat, size: nat, addr: nat)
    requires addr < base
    ensures forall j: nat :: addr != RegionAddr(base, size, j)
  {
  }

  /** The quotient is the only region that can start at the address. */
  lemma OnlyIndex(base: nat, size: nat, addr: nat)
    requires size > 0 && addr >= base
    ensures forall j: nat :: addr == RegionAddr(base, size, j) ==> j == Div(addr - base, size)
  {
    hide Div;
    forall j: nat | addr == RegionAddr(base, size, j) ensures j == Div(addr - base, size) { Times(j, size); }
  }

  class RegionPool {
    const base: nat
    const size: nat
    var busy: seq<bool>

    ghost predicate Valid()
      reads this
    {
      size > 0 && |busy| <= MAX_REGIONS
    }

    ghost function Out(): set<nat>
      reads this
    {
      Held(base, size, busy)
    }

    constructor (base: nat, size: nat, cnt: nat)
      requires size > 0 && cnt <= MAX_REGIONS
      ensures Valid() && Out() == {} && this.base == base && this.size == size && |busy| == cnt
    {
      this.base, this.size, busy := base, size, [];
      new;
      while |busy| < cnt
        invariant |busy| <= cnt && forall i :: 0 <= i < |busy| ==> !busy[i]
      {
        busy := busy + [false];
      }
    }

    /** Hands out the first region that is not handed out yet; it refuses only when there is none. */
    method Alloc() returns (r: Answer)
      requires Valid()
      modifies this
      ensures Valid() && |busy| == |old(busy)|
      ensures r.Region? <==> Spare(old(busy))
      ensures r.Region? ==> r.addr !in old(Out()) && Out() == old(Out()) + {r.addr}
      ensures r.Region? ==> exists i: nat :: FirstSpare(old(busy), i) && r.addr == RegionAddr(base, size, i)
      ensures r == NoRegion ==> busy == old(busy)
    {
      var i := 0;
      while i < |busy|
        invariant 0 <= i <= |busy| && busy == old(busy) && forall j :: 0 <= j < i ==> busy[j]
      {
        if !busy[i] {
          HeldPut(base, size, busy, i, true);
          assert FirstSpare(old(busy), i);
          busy := busy[i := true];
          return Region(RegionAddr(base, size, i));
        }
        i := i + 1;
      }
      return NoRegion;
    }

    /** Takes back the region at the address; anything but the start of a region is refused. */
    method Free(addr: nat) returns (r: Result)
      requires Valid()
      modifies this
      ensures Valid() && |busy| == |old(busy)|
      ensures Out() == old(Out()) - {addr}
      ensures addr in old(Out()) ==> r == Ok(addr)
      ensures r.Ok? <==> exists i: nat :: i < |busy| && addr == RegionAddr(base, size, i)
    {
      hide Held, Div, RegionAddr;
      NotHeld(base, size, busy, addr);
      if addr < base {
        BelowBase(base, size, addr);
        return ArgInvalid;
      }
      var i := Div(addr - base, size);
      OnlyIndex(base, size, addr);
      if i >= |busy| {
        return OutOfRange;
      }
      if RegionAddr(base, size, i) != addr {
        return ArgInvalid;
      }
      HeldPut(base, size, busy, i, false);
      if busy[i] {
        busy := busy[i := false];
      }
      return Ok(addr);
    }
  }

  lemma NotHeld(base: nat, size: nat, busy: seq<bool>, addr: nat)
    ensures (forall i: nat :: i < |busy| ==> addr != RegionAddr(base, size, i)) ==>
      Held(base, size, busy) - {addr} == Held(base, size, busy)
    ensures addr in Held(base, size, busy) ==> exists i: nat :: i < |busy| && addr == RegionAddr(base, size, i)
  {
  }
}
