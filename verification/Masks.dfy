/**
  Masking and rounding: the code rounds to pages by clearing the low bits, which is rounding exactly for page sizes that
  are
  powers of two.
 */
module Masks {
  import opened Powers
  import opened PageAddr
  import SlabMemory

  /** x with the bits of m cleared. */
  function AndNot(x: nat, m: nat): nat {
    if x == 0 then 0 else 2 * AndNot(x / 2, m / 2) + if x % 2 == 1 && m % 2 == 0 then 1 else 0
  }

  ghost predicate IsPow2(p: nat) {
    exists k: nat :: p == Pow2(k)
  }

  lemma {:induction false} NothingCleared(x: nat)
    ensures AndNot(x, 0) == x
  {
    if x > 0 { NothingCleared(x / 2); }
  }

  lemma {:induction false} AllCleared(x: nat)
    ensures AndNot(x, x) == 0
  {
    if x > 0 { AllCleared(x / 2); }
  }

  /** Halving both sides of a quotient. */
  lemma HalfQuotient(x: nat, q: nat)
    requires q > 0
    ensures Div(x, 2 * q) == Div(x / 2, q)
  {
    hide Div;
    var d := Div(x / 2, q);
    Quotient(x / 2, q);
    OneMore(d, q);
    Doubled(d, q);
    Doubled(d + 1, q);
    QuotientIs(x, 2 * q, d);
    QuotientIs(x, 2 * q, d + 1);
  }

  lemma OddMask(x: nat, q: nat)
    requires q > 0
    ensures AndNot(x, 2 * q - 1) == 2 * AndNot(x / 2, q - 1)
  {
    assert (2 * q - 1) / 2 == q - 1 && (2 * q - 1) % 2 == 1;
  }

  lemma Doubled(d: nat, q: nat)
    ensures d * (2 * q) == 2 * (d * q)
  {
  }

  lemma {:induction false} MaskRounds(x: nat, k: nat)
    ensures AndNot(x, Pow2(k) - 1) == Div(x, Pow2(k)) * Pow2(k)
    decreases k
  {
    hide Div, AndNot;
    if k == 0 {
      NothingCleared(x);
      Times(x, 1);
    } else {
      var q := Pow2(k - 1);
      MaskRounds(x / 2, k - 1);
      OddMask(x, q);
      HalfQuotient(x, q);
      Doubled(Div(x / 2, q), q);
    }
  }

  /** A number loses bits under the mask one below it unless it is a power of two. */
  lemma {:induction false} LowestBit(p: nat)
    requires p > 0
    ensures AndNot(p, p - 1) == p <==> IsPow2(p)
  {
    if p == 1 {
      NothingCleared(1);
      assert Pow2(0) == 1;
    } else if p % 2 == 1 {
      AllCleared(p / 2);
      assert (p - 1) / 2 == p / 2;
      OddPower(p);
    } else {
      LowestBit(p / 2);
      assert (p - 1) / 2 == p / 2 - 1;
      HalfPower(p);
    }
  }

  lemma OddPower(p: nat)
    requires p % 2 == 1 && p > 1
    ensures !IsPow2(p)
  {
  }

  lemma HalfPower(p: nat)
    requires p % 2 == 0 && p > 0
    ensures IsPow2(p) <==> IsPow2(p / 2)
  {
    if k: nat :| p == Pow2(k) { assert p / 2 == Pow2(k - 1); }
    if k: nat :| p / 2 == Pow2(k) { assert p == Pow2(k + 1); }
  }

  /** Rounding up as the code does it. */
  function MaskAlign(i: nat, upto: nat): nat
    requires upto > 0
  {
    AndNot(i + upto - 1, upto - 1)
  }

  /** Masking rounds every number up to whole pages if and only if the page size is a power of two. */
  lemma MaskAlignExactly(p: nat)
    requires p > 0
    ensures (forall i: nat :: MaskAlign(i, p) == Align(i, p)) <==> IsPow2(p)
  {
    hide Div;
    if k: nat :| p == Pow2(k) {
      forall i: nat ensures MaskAlign(i, p) == Align(i, p) { MaskRounds(i + p - 1, k); }
    }
    if forall i: nat :: MaskAlign(i, p) == Align(i, p) {
      assert MaskAlign(1, p) == Align(1, p);
      Times(1, p);
      LowestBit(p);
    }
  }

  /** Likewise for rounding an address down to its page. */
  lemma PageBaseExactly(p: nat)
    requires p > 0
    ensures (forall addr: nat :: AndNot(addr, p - 1) == SlabMemory.PageBase(addr, p)) <==> IsPow2(p)
  {
    hide Div;
    if k: nat :| p == Pow2(k) {
      forall addr: nat ensures AndNot(addr, p - 1) == SlabMemory.PageBase(addr, p) { MaskRounds(addr, k); }
    }
    if forall addr: nat :: AndNot(addr, p - 1) == SlabMemory.PageBase(addr, p) {
      assert AndNot(p, p - 1) == SlabMemory.PageBase(p, p);
      Times(1, p);
      LowestBit(p);
    }
  }

  /** The data pages of a region start at the masked offset and fit exactly as stated, for a power of two. */
  lemma FitsMasked(l: Layout)
    requires Sizes(l) && IsPow2(l.pageSize)
    ensures MaskAlign(l.recordSize * PagesPerRegion(l), l.pageSize) + PagesPerRegion(l) * l.pageSize <= l.regionSize
      <==> PagesPerRegion(l) == Div(Div(l.regionSize, l.pageSize) * l.pageSize, l.recordSize + l.pageSize)
  {
    hide Div, Align, MaskAlign, PagesPerRegion, IsPow2;
    MaskAlignExactly(l.pageSize);
    FitsExactly(l);
  }

  /** Under its own mask, 3 times a power of two keeps only the power of two. */
  lemma {:induction false} ThreeTimes(k: nat)
    ensures AndNot(3 * Pow2(k), 3 * Pow2(k) - 1) == Pow2(k)
  {
    if k == 0 {
      AllCleared(1);
    } else {
      ThreeTimes(k - 1);
      OddMask(3 * Pow2(k), 3 * Pow2(k - 1));
    }
  }

  /** A page size of 1536 is accepted, being a multiple of 512, but the mask sends the second page to 512. */
  lemma MaskMisses()
    ensures 1536 % 512 == 0 && !IsPow2(1536) && AndNot(1536, 1536 - 1) == 512 && SlabMemory.PageBase(1536, 1536) == 1536
  {
    hide AndNot, IsPow2;
    Pow2Nine();
    ThreeTimes(9);
    LowestBit(1536);
    Times(1, 1536);
  }

  lemma Pow2Nine()
    ensures Pow2(9) == 512
  {
    assert Pow2(3) == 8;
    assert Pow2(6) == 64;
  }
}
