/**
  Address arithmetic of the page pool: where the data pages of a region lie, and the two maps between page records and
  data addresses over the set of registered regions.
 */
module PageAddr {

  /** Bytes of one data page, of one region and of one page record. */
  datatype Layout = Layout(pageSize: nat, regionSize: nat, recordSize: nat)

  datatype Result = Ok(value: nat) | NotFound | OutOfRange | ArgInvalid

  ghost predicate Sizes(l: Layout) {
    l.pageSize > 0 && l.recordSize > 0
  }

  function Div(x: nat, m: nat): nat
    requires m > 0
  {
    x / m
  }

  function PagesPerRegion(l: Layout): nat
    requires Sizes(l)
  {
    Div(l.regionSize, l.recordSize + l.pageSize)
  }

  /** Rounds up to a multiple, as masking does for powers of two. */
  function Align(i: nat, upto: nat): nat
    requires upto > 0
  {
    Div(i + upto - 1, upto) * upto
  }

  function BaseOffset(l: Layout): nat
    requires Sizes(l)
  {
    Align(l.recordSize * PagesPerRegion(l), l.pageSize)
  }

  // ----- small facts about products and quotients -----

  lemma MulMono(a: nat, b: nat, m: nat)
    requires a <= b
    ensures a * m <= b * m
  {
  }

  lemma OneMore(a: nat, m: nat)
    ensures (a + 1) * m == a * m + m
  {
  }

  lemma Quotient(x: nat, m: nat)
    requires m > 0
    ensures x == Div(x, m) * m + x % m && 0 <= x % m < m
  {
  }

  /** The quotient is the largest factor whose multiple fits. */
  lemma QuotientIs(x: nat, m: nat, q: nat)
    requires m > 0
    ensures q <= Div(x, m) <==> q * m <= x
  {
    hide Div;
    Quotient(x, m);
    var d := Div(x, m);
    OneMore(d, m);
    if q <= d { MulMono(q, d, m); } else { MulMono(d + 1, q, m); }
  }

  lemma Times(q: nat, m: nat)
    requires m > 0
    ensures Div(q * m, m) == q
  {
    hide Div;
    OneMore(q, m);
    QuotientIs(q * m, m, q);
    QuotientIs(q * m, m, q + 1);
  }

  lemma CeilIs(i: nat, p: nat, q: nat)
    requires p > 0
    ensures Div(i + p - 1, p) <= q <==> i <= q * p
  {
    hide Div;
    OneMore(q, p);
    QuotientIs(i + p - 1, p, q + 1);
  }

  lemma AlignUp(i: nat, p: nat)
    requires p > 0
    ensures i <= Align(i, p)
  {
    hide Div;
    CeilIs(i, p, Div(i + p - 1, p));
  }

  // ----- the data pages fit -----

  /** The last data page ends inside the region. */
  ghost predicate Fits(l: Layout)
    requires Sizes(l)
  {
    BaseOffset(l) + PagesPerRegion(l) * l.pageSize <= l.regionSize
  }

  /**
    The data pages fit exactly when cutting the region down to whole pages would not lose a page: the offset of the
    first data page is rounded up to whole pages while the number of pages is not.
   */
  lemma FitsExactly(l: Layout)
    requires Sizes(l)
    ensures Fits(l) <==> PagesPerRegion(l) == Div(Div(l.regionSize, l.pageSize) * l.pageSize, l.recordSize + l.pageSize)
  {
    hide Div, Fits, Align, BaseOffset;
    var n, p, s, r := PagesPerRegion(l), l.pageSize, l.recordSize, l.regionSize;
    var m := Div(r, p);
    WholeEnd(l);
    if n <= m { CeilIs(s * n, p, m - n); }
    Share(n, m, s, p);
    QuotientIs(m * p, s + p, n);
    QuotientIs(m * p, s + p, n + 1);
    QuotientIs(r, s + p, n + 1);
    Quotient(r, p);
  }

  /** n pages with their records take no more than m whole pages. */
  lemma Share(n: nat, m: nat, s: nat, p: nat)
    requires p > 0
    ensures n * (s + p) <= m * p <==> n <= m && s * n <= (m - n) * p
  {
    Distribute(n, s, p);
    if n <= m {
      Distribute(p, n, m - n);
    } else {
      MulMono(m + 1, n, p);
      OneMore(m, p);
    }
  }

  lemma Distribute(n: nat, a: nat, b: nat)
    ensures n * (a + b) == n * a + n * b == a * n + b * n
  {
  }

  /**
    The end of the data pages is a whole number of pages, so it fits in the region only if it fits in the whole pages.
   */
  lemma WholeEnd(l: Layout)
    requires Sizes(l)
    ensures Fits(l) <==>
      Div(l.recordSize * PagesPerRegion(l) + l.pageSize - 1, l.pageSize)
        + PagesPerRegion(l) <= Div(l.regionSize, l.pageSize)
  {
    hide Div, PagesPerRegion;
    var n, p := PagesPerRegion(l), l.pageSize;
    var c := Div(l.recordSize * n + p - 1, p);
    Distribute(p, c, n);
    QuotientIs(l.regionSize, p, c + n);
  }

  /** For a region of whole pages all data pages fit after the records. */
  lemma WholeRegionFits(l: Layout)
    requires Sizes(l) && l.regionSize % l.pageSize == 0
    ensures Fits(l)
  {
    hide Fits, Div;
    FitsExactly(l);
    Quotient(l.regionSize, l.pageSize);
  }

  /** With half a data page at its end, a region of three system pages is too short for the one page counted for it. */
  lemma PartialRegionTooShort()
    ensures var l := Layout(8192, 12288, 144); Sizes(l) && PagesPerRegion(l) == 1 && !Fits(l)
  {
  }

  // ----- finding the region of an address -----

  /** Registered regions, in order and without overlap. */
  ghost predicate Apart(regions: seq<nat>, size: nat) {
    forall i, j :: 0 <= i < j < |regions| ==> regions[i] + size <= regions[j]
  }

  /** Where the address is, or would be inserted, in the sorted array. */
  method SearchLeft(regions: seq<nat>, addr: nat) returns (idx: nat)
    requires forall i, j :: 0 <= i < j < |regions| ==> regions[i] < regions[j]
    ensures idx <= |regions|
    ensures forall i :: 0 <= i < idx ==> regions[i] < addr
    ensures forall i :: idx <= i < |regions| ==> regions[i] >= addr
  {
    var lo, hi := 0, |regions|;
    while lo < hi
      invariant lo <= hi <= |regions|
      invariant forall i :: 0 <= i < lo ==> regions[i] < addr
      invariant forall i :: hi <= i < |regions| ==> regions[i] >= addr
    {
      var mid := (lo + hi) / 2;
      if regions[mid] < addr {
        lo := mid + 1;
      } else {
        hi := mid;
      }
    }
    idx := lo;
  }

  ghost predicate Owner(regions: seq<nat>, size: nat, addr: nat, reg: nat) {
    reg in regions && reg <= addr < reg + size
  }

  /** An address lies in at most one region. */
  lemma OneOwner(regions: seq<nat>, size: nat, addr: nat, a: nat, b: nat)
    requires Apart(regions, size) && Owner(regions, size, addr, a) && Owner(regions, size, addr, b)
    ensures a == b
  {
    var i :| 0 <= i < |regions| && regions[i] == a;
    var j :| 0 <= j < |regions| && regions[j] == b;
    OneIndex(regions, size, addr, i, j);
  }

  lemma OneIndex(regions: seq<nat>, size: nat, addr: nat, i: nat, j: nat)
    requires Apart(regions, size) && i < |regions| && j < |regions|
    requires regions[i] <= addr < regions[i] + size && regions[j] <= addr < regions[j] + size
    ensures i == j
  {
  }

  /** The last region at or below the address is the only one that can hold it. */
  lemma LastBelow(regions: seq<nat>, size: nat, addr: nat, idx: nat, x: nat)
    requires Apart(regions, size) && 0 < idx <= |regions| && Owner(regions, size, addr, x)
    requires forall i :: idx <= i < |regions| ==> regions[i] > addr
    ensures addr < regions[idx - 1] + size
  {
    var i :| 0 <= i < |regions| && regions[i] == x;
    assert i < idx;
    if i < idx - 1 { assert regions[i] + size <= regions[idx - 1]; }
  }

  method GetRegion(l: Layout, regions: seq<nat>, addr: nat) returns (r: Result)
    requires l.regionSize > 0 && Apart(regions, l.regionSize)
    ensures r.Ok? || r == NotFound
    ensures r.Ok? ==> Owner(regions, l.regionSize, addr, r.value)
    ensures r == NotFound ==> forall reg :: !Owner(regions, l.regionSize, addr, reg)
  {
    var idx := SearchLeft(regions, addr);
    if idx < |regions| && regions[idx] == addr {
      return Ok(addr);
    }
    if idx == 0 {
      return NotFound;
    }
    var reg := regions[idx - 1];
    if reg < addr && addr < reg + l.regionSize {
      return Ok(reg);
    }
    forall x
      ensures !Owner(regions, l.regionSize, addr, x)
    {
      if Owner(regions, l.regionSize, addr, x) {
        LastBelow(regions, l.regionSize, addr, idx, x);
      }
    }
    return NotFound;
  }

  // ----- pages and addresses -----

  /** The record of page i of a region. */
  function Record(l: Layout, reg: nat, i: nat): nat {
    reg + i * l.recordSize
  }

  /** The data of page i of a region. */
  function Data(l: Layout, reg: nat, i: nat): nat
    requires Sizes(l)
  {
    reg + BaseOffset(l) + i * l.pageSize
  }

  function PageToAddr(l: Layout, reg: nat, page: nat): nat
    requires Sizes(l) && page >= reg
  {
    var idx := Div(page - reg, l.recordSize);
    reg + BaseOffset(l) + idx * l.pageSize
  }

  lemma PageToAddrIs(l: Layout, reg: nat, i: nat)
    requires Sizes(l)
    ensures PageToAddr(l, reg, Record(l, reg, i)) == Data(l, reg, i)
  {
    hide BaseOffset, Div;
    Times(i, l.recordSize);
  }

  /** The address is where the data of page i of the registered region reg would start. */
  ghost predicate StartsPage(l: Layout, regions: seq<nat>, addr: nat, reg: nat, i: nat)
    requires Sizes(l)
  {
    Owner(regions, l.regionSize, addr, reg) && addr == Data(l, reg, i)
  }

  /** Inside a page, after its first byte. */
  ghost predicate InsidePage(l: Layout, regions: seq<nat>, addr: nat, reg: nat, i: nat)
    requires Sizes(l)
  {
    Owner(regions, l.regionSize, addr, reg) && Data(l, reg, i) < addr < Data(l, reg, i + 1)
  }

  /**
    The inverse map: it finds the page record of every data address of every registered region, refuses addresses among
    the records and addresses inside a page, and reports addresses of no region.  It does not compare the page number
    with the pages of the region: the record it answers is one of the region's exactly when the address is below the end
    of the data.
   */
  method AddrToPage(l: Layout, regions: seq<nat>, addr: nat) returns (r: Result, reg: nat, i: nat)
    requires Sizes(l) && l.regionSize > 0 && Apart(regions, l.regionSize)
    ensures r == NotFound <==> forall x :: !Owner(regions, l.regionSize, addr, x)
    ensures r != NotFound ==> Owner(regions, l.regionSize, addr, reg)
    ensures r == OutOfRange <==> r != NotFound && addr < Data(l, reg, 0)
    ensures r.Ok? <==> StartsPage(l, regions, addr, reg, i)
    ensures forall x: nat, k: nat :: StartsPage(l, regions, addr, x, k) ==> r.Ok? && reg == x && i == k
    ensures r.Ok? ==> r.value == Record(l, reg, i) && PageToAddr(l, reg, r.value) == addr
    ensures r.Ok? ==> (r.value < Record(l, reg, PagesPerRegion(l)) <==> addr < Data(l, reg, PagesPerRegion(l)))
    ensures r == ArgInvalid <==> exists x: nat, k: nat :: InsidePage(l, regions, addr, x, k)
  {
    hide BaseOffset, Div, PagesPerRegion;
    reg, i := 0, 0;
    r := GetRegion(l, regions, addr);
    if !r.Ok? {
      return r, reg, i;
    }
    reg := r.value;
    var base := r.value + BaseOffset(l);
    if addr < base {
      OnlyPage(l, regions, addr, reg, 0);
      NotInside(l, regions, addr, reg, 0);
      return OutOfRange, reg, i;
    }
    i := Div(addr - base, l.pageSize);
    Quotient(addr - base, l.pageSize);
    OnlyPage(l, regions, addr, reg, i);
    if (addr - base) % l.pageSize != 0 {
      OneMore(i, l.pageSize);
      assert InsidePage(l, regions, addr, reg, i);
      return ArgInvalid, reg, i;
    }
    NotInside(l, regions, addr, reg, i);
    PageToAddrIs(l, reg, i);
    RecordExists(l, reg, i, PagesPerRegion(l));
    return Ok(r.value + Div(addr - base, l.pageSize) * l.recordSize), reg, i;
  }

  /** An address before the pages, or the first of a page, is inside no page. */
  lemma NotInside(l: Layout, regions: seq<nat>, addr: nat, reg: nat, i: nat)
    requires Sizes(l) && Apart(regions, l.regionSize) && Owner(regions, l.regionSize, addr, reg)
    requires addr < Data(l, reg, 0) || addr == Data(l, reg, i)
    ensures forall x: nat, k: nat :: !InsidePage(l, regions, addr, x, k)
  {
    hide BaseOffset, Div, Apart;
    forall x: nat, k: nat ensures !InsidePage(l, regions, addr, x, k) {
      if Owner(regions, l.regionSize, addr, x) {
        OneOwner(regions, l.regionSize, addr, x, reg);
        if addr == Data(l, reg, i) { SameData(l, reg, i, k, addr); }
      }
    }
  }

  /** No address starts two pages. */
  lemma OnlyPage(l: Layout, regions: seq<nat>, addr: nat, reg: nat, i: nat)
    requires Sizes(l) && Apart(regions, l.regionSize) && Owner(regions, l.regionSize, addr, reg)
    ensures forall x: nat, k: nat :: StartsPage(l, regions, addr, x, k) ==>
      x == reg && addr >= Data(l, reg, 0) && !(Data(l, reg, i) < addr < Data(l, reg, i + 1))
        && (addr == Data(l, reg, i) ==> k == i)
  {
    hide Data, Apart;
    forall x: nat, k: nat | StartsPage(l, regions, addr, x, k)
      ensures x == reg && addr >= Data(l, reg, 0) && !(Data(l, reg, i) < addr < Data(l, reg, i + 1))
        && (addr == Data(l, reg, i) ==> k == i)
    {
      OneOwner(regions, l.regionSize, addr, x, reg);
      SameData(l, reg, k, i, addr);
    }
  }

  /** Records and data come in the same order. */
  lemma RecordExists(l: Layout, reg: nat, i: nat, n: nat)
    requires Sizes(l)
    ensures i < n <==> Record(l, reg, i) < Record(l, reg, n)
    ensures i < n <==> Data(l, reg, i) < Data(l, reg, n)
  {
    hide BaseOffset;
    OneMore(i, l.pageSize);
    OneMore(i, l.recordSize);
    if i < n {
      MulMono(i + 1, n, l.pageSize);
      MulMono(i + 1, n, l.recordSize);
    } else {
      MulMono(n, i, l.pageSize);
      MulMono(n, i, l.recordSize);
    }
  }

  /** Data addresses of pages lie in their region, inside the region and apart from each other. */
  lemma DataApart(l: Layout, reg: nat, i: nat, j: nat)
    requires Sizes(l) && Fits(l) && i < PagesPerRegion(l)
    ensures reg + l.recordSize * PagesPerRegion(l) <= Data(l, reg, i)
    ensures Data(l, reg, i) + l.pageSize <= reg + l.regionSize
    ensures i < j ==> Data(l, reg, i) + l.pageSize <= Data(l, reg, j)
  {
    hide PagesPerRegion, Align;
    AlignUp(l.recordSize * PagesPerRegion(l), l.pageSize);
    MulMono(i + 1, PagesPerRegion(l), l.pageSize);
    OneMore(i, l.pageSize);
    if i < j { MulMono(i + 1, j, l.pageSize); }
  }

  /**
    Round trip: the page found for the address of page i of a registered region is that page, and nothing else answers.
   */
  method RoundTrip(l: Layout, regions: seq<nat>, reg: nat, i: nat) returns (r: Result)
    requires Sizes(l) && l.regionSize > 0 && Apart(regions, l.regionSize) && Fits(l)
    requires reg in regions && i < PagesPerRegion(l)
    ensures r == Ok(Record(l, reg, i))
  {
    hide BaseOffset, PagesPerRegion;
    var addr := PageToAddr(l, reg, Record(l, reg, i));
    PageToAddrIs(l, reg, i);
    DataApart(l, reg, i, i);
    assert Owner(regions, l.regionSize, addr, reg);
    var own, k;
    r, own, k := AddrToPage(l, regions, addr);
    assert StartsPage(l, regions, addr, reg, i);
  }

  /** Different pages have different data. */
  lemma SameData(l: Layout, reg: nat, i: nat, k: nat, addr: nat)
    requires Sizes(l) && addr == Data(l, reg, i)
    ensures !(Data(l, reg, k) < addr < Data(l, reg, k + 1))
    ensures addr == Data(l, reg, k) ==> i == k
    ensures addr >= Data(l, reg, 0)
  {
    hide BaseOffset, Div;
    if k < i { MulMono(k + 1, i, l.pageSize); OneMore(k, l.pageSize); }
    if i <= k { MulMono(i, k, l.pageSize); }
    if i < k { MulMono(i + 1, k, l.pageSize); OneMore(i, l.pageSize); }
  }

  // ----- addresses in the slack after the last page -----

  /** A registered region has addresses that are answered with a record it does not have exactly when slack is left. */
  lemma SlackExactly(l: Layout, regions: seq<nat>, reg: nat)
    requires Sizes(l) && Apart(regions, l.regionSize) && reg in regions
    ensures (exists addr: nat, i: nat :: StartsPage(l, regions, addr, reg, i) && i >= PagesPerRegion(l))
      <==> BaseOffset(l) + PagesPerRegion(l) * l.pageSize < l.regionSize
  {
    hide BaseOffset, PagesPerRegion;
    var n := PagesPerRegion(l);
    if addr: nat, i: nat :| StartsPage(l, regions, addr, reg, i) && i >= n {
      MulMono(n, i, l.pageSize);
    }
    if BaseOffset(l) + n * l.pageSize < l.regionSize {
      assert StartsPage(l, regions, Data(l, reg, n), reg, n);
    }
  }

  /** A region of 30 pages of 4096 bytes holds 28; its last page is slack, and is answered with a 29th record. */
  method SlackAddress() returns (r: Result)
    ensures var l := Layout(4096, 122880, 144);
      Fits(l) && PagesPerRegion(l) == 28 && r == Ok(Record(l, 0, 28)) && r.value >= Record(l, 0, PagesPerRegion(l))
  {
    var l := Layout(4096, 122880, 144);
    assert Data(l, 0, 28) == 118784;
    assert Owner([0], l.regionSize, 118784, 0);
    var reg, i;
    r, reg, i := AddrToPage(l, [0], 118784);
    assert StartsPage(l, [0], 118784, 0, 28);
  }
}
