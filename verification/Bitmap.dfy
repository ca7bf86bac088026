/**
  Bitmaps of 64-bit words.  A word is the sequence of its bits, lowest first, and the machine operations are given bit
  by
  bit; the scans work a masked word at a time and are proved against the bits they stand for.
 */
module Bitmaps {
  const BITS := 64

  type Word = w: seq<bool> | |w| == BITS witness seq(BITS, _ => false)

  function Zero(): Word {
    seq(BITS, _ => false)
  }

  function Ones(): Word {
    seq(BITS, _ => true)
  }

  function And(a: Word, b: Word): Word {
    seq(BITS, i requires 0 <= i < BITS => a[i] && b[i])
  }

  function Or(a: Word, b: Word): Word {
    seq(BITS, i requires 0 <= i < BITS => a[i] || b[i])
  }

  function Not(a: Word): Word {
    seq(BITS, i requires 0 <= i < BITS => !a[i])
  }

  function Shl(a: Word, n: nat): Word {
    seq(BITS, i requires 0 <= i < BITS => i >= n && a[i - n])
  }

  function Shr(a: Word, n: nat): Word {
    seq(BITS, i requires 0 <= i < BITS => i + n < BITS && a[i + n])
  }

  /** Bit i of the bitmap. */
  predicate Bit(bm: seq<Word>, i: nat)
    requires i < BITS * |bm|
  {
    bm[i / BITS][i % BITS]
  }

  predicate InOneWord(start: nat, end: nat)
    requires start < end
  {
    start / BITS == (end - 1) / BITS
  }

  function Mask(start: nat, end: nat): Word
    requires start < end <= BITS
  {
    And(Shl(Ones(), start), Shr(Ones(), BITS - end))
  }

  /** The mask selects exactly the bits from start up to end. */
  lemma MaskBits(start: nat, end: nat, i: nat)
    requires start < end <= BITS && i < BITS
    ensures Mask(start, end)[i] <==> start <= i < end
  {
  }

  function WordBits(bm: seq<Word>, start: nat, end: nat, reverse: bool): Word
    requires start < end <= BITS * |bm| && InOneWord(start, end)
  {
    var w := bm[start / BITS];
    var s, e := start % BITS, (end - 1) % BITS + 1;
    if s == 0 && e == BITS then (if reverse then Not(w) else w)
    else if reverse then And(Not(w), Mask(s, e)) else And(w, Mask(s, e))
  }

  lemma SameWord(start: nat, end: nat, i: nat)
    requires start <= i < end && InOneWord(start, end)
    ensures i / BITS == start / BITS && start % BITS <= i % BITS <= (end - 1) % BITS
  {
  }

  lemma BitOfWord(start: nat, end: nat, k: nat)
    requires start < end && InOneWord(start, end) && start % BITS <= k <= (end - 1) % BITS
    ensures var i := start / BITS * BITS + k; start <= i < end && i / BITS == start / BITS && i % BITS == k
  {
  }

  /** A masked word is zero exactly when none of its bits has the wanted value. */
  lemma WordBitsZero(bm: seq<Word>, start: nat, end: nat, reverse: bool)
    requires start < end <= BITS * |bm| && InOneWord(start, end)
    ensures WordBits(bm, start, end, reverse) == Zero() <==> forall i: nat :: start <= i < end ==> Bit(bm, i) == reverse
  {
    var m := WordBits(bm, start, end, reverse);
    if forall i: nat :: start <= i < end ==> Bit(bm, i) == reverse {
      forall k | 0 <= k < BITS
        ensures !m[k]
      {
        if start % BITS <= k <= (end - 1) % BITS {
          BitOfWord(start, end, k);
          assert Bit(bm, start / BITS * BITS + k) == reverse;
        }
      }
      assert m == Zero();
    } else {
      var i: nat :| start <= i < end && Bit(bm, i) != reverse;
      SameWord(start, end, i);
      assert m[i % BITS];
    }
  }

  /** Two masked words are equal exactly when their bits are. */
  lemma WordBitsEqual(a: seq<Word>, b: seq<Word>, start: nat, end: nat)
    requires start < end <= BITS * |a| && end <= BITS * |b| && InOneWord(start, end)
    ensures WordBits(a, start, end, false) == WordBits(b, start, end, false) <==> forall i: nat :: start <= i < end ==>
      Bit(a, i) == Bit(b, i)
  {
    var x, y := WordBits(a, start, end, false), WordBits(b, start, end, false);
    if forall i: nat :: start <= i < end ==> Bit(a, i) == Bit(b, i) {
      forall k | 0 <= k < BITS
        ensures x[k] == y[k]
      {
        if start % BITS <= k <= (end - 1) % BITS {
          BitOfWord(start, end, k);
          assert Bit(a, start / BITS * BITS + k) == Bit(b, start / BITS * BITS + k);
        }
      }
      assert x == y;
    } else {
      var i: nat :| start <= i < end && Bit(a, i) != Bit(b, i);
      SameWord(start, end, i);
      assert x[i % BITS] != y[i % BITS];
    }
  }

  // ----- one bit -----

  function SetBit(bm: seq<Word>, i: nat, v: bool): seq<Word>
    requires i < BITS * |bm|
  {
    bm[i / BITS := bm[i / BITS][i % BITS := v]]
  }

  /** One bit changes and no other. */
  lemma SetBitIs(bm: seq<Word>, i: nat, v: bool, j: nat)
    requires i < BITS * |bm| && j < BITS * |bm|
    ensures |SetBit(bm, i, v)| == |bm| && Bit(SetBit(bm, i, v), j) == if j == i then v else Bit(bm, j)
  {
    if j / BITS == i / BITS && j % BITS == i % BITS { Whole(i, j); }
  }

  lemma Whole(i: nat, j: nat)
    requires j / BITS == i / BITS && j % BITS == i % BITS
    ensures i == j
  {
  }

  method Get(bm: array<Word>, idx: nat) returns (b: bool)
    requires idx < BITS * bm.Length
    ensures b == Bit(bm[..], idx)
  {
    hide Bit;
    WordBitsZero(bm[..], idx, idx + 1, false);
    b := WordBits(bm[..], idx, idx + 1, false) != Zero();
  }

  method Set(bm: array<Word>, idx: nat) returns (was: bool)
    requires idx < BITS * bm.Length
    modifies bm
    ensures was == old(Bit(bm[..], idx)) && bm[..] == SetBit(old(bm[..]), idx, true)
  {
    var w, i := idx / BITS, idx % BITS;
    var mask := Mask(i, i + 1);
    OneBit(bm[w], i);
    was := And(bm[w], mask) != Zero();
    bm[w] := Or(bm[w], mask);
  }

  method Clear(bm: array<Word>, idx: nat) returns (was: bool)
    requires idx < BITS * bm.Length
    modifies bm
    ensures was == old(Bit(bm[..], idx)) && bm[..] == SetBit(old(bm[..]), idx, false)
  {
    var w, i := idx / BITS, idx % BITS;
    var mask := Mask(i, i + 1);
    OneBit(bm[w], i);
    was := And(bm[w], mask) != Zero();
    bm[w] := And(bm[w], Not(mask));
  }

  lemma OneBit(w: Word, i: nat)
    requires i < BITS
    ensures And(w, Mask(i, i + 1)) != Zero() <==> w[i]
    ensures Or(w, Mask(i, i + 1)) == w[i := true] && And(w, Not(Mask(i, i + 1))) == w[i := false]
  {
    var m := Mask(i, i + 1);
    forall k | 0 <= k < BITS
      ensures m[k] <==> k == i
    {
      MaskBits(i, i + 1, k);
    }
    assert And(w, m)[i] == w[i];
    if !w[i] { assert And(w, m) == Zero(); }
  }

  // ----- scans -----

  ghost predicate AllAre(bm: seq<Word>, lo: nat, hi: nat, v: bool)
    requires hi <= BITS * |bm|
  {
    forall i: nat :: lo <= i < hi ==> Bit(bm, i) == v
  }

  /** Every bit below nbits has the value: the loops of are_all_set and are_all_cleared. */
  method AreAll(bm: array<Word>, nbits: nat, v: bool) returns (r: bool)
    requires nbits <= BITS * bm.Length
    ensures r <==> AllAre(bm[..], 0, nbits, v)
  {
    hide Bit, WordBits;
    var idx, boundary := 0, BITS;
    while idx < nbits
      invariant idx <= nbits && AllAre(bm[..], 0, idx, v)
      invariant idx < nbits ==> idx % BITS == 0 && boundary == idx + BITS
      decreases nbits - idx
    {
      if boundary > nbits {
        boundary := nbits;
      }
      WordBitsZero(bm[..], idx, boundary, v);
      if WordBits(bm[..], idx, boundary, v) != Zero() {
        return false;
      }
      idx := boundary;
      boundary := boundary + BITS;
    }
    return true;
  }

  method Equal(a: array<Word>, b: array<Word>, nbits: nat) returns (r: bool)
    requires nbits <= BITS * a.Length && nbits <= BITS * b.Length
    ensures r <==> forall i: nat :: i < nbits ==> Bit(a[..], i) == Bit(b[..], i)
  {
    hide Bit, WordBits;
    var idx, boundary := 0, BITS;
    while idx < nbits
      invariant idx <= nbits && forall i: nat :: i < idx ==> Bit(a[..], i) == Bit(b[..], i)
      invariant idx < nbits ==> idx % BITS == 0 && boundary == idx + BITS
      decreases nbits - idx
    {
      if boundary > nbits {
        boundary := nbits;
      }
      WordBitsEqual(a[..], b[..], idx, boundary);
      if WordBits(a[..], idx, boundary, false) != WordBits(b[..], idx, boundary, false) {
        return false;
      }
      idx := boundary;
      boundary := boundary + BITS;
    }
    return true;
  }

  datatype Scan = At(idx: nat) | NotFound | OutOfRange

  /** The first bit with the value, from start up to end. */
  method FindNextBit(bm: array<Word>, start: nat, end: nat, v: bool) returns (r: Scan)
    requires end <= BITS * bm.Length
    ensures r == OutOfRange <==> start >= end
    ensures r == NotFound <==> start < end && AllAre(bm[..], start, end, !v)
    ensures r.At? ==> start <= r.idx < end && Bit(bm[..], r.idx) == v && AllAre(bm[..], start, r.idx, !v)
  {
    hide Bit, WordBits;
    if start >= end {
      return OutOfRange;
    }
    var idx, boundary := start, (start / BITS + 1) * BITS;
    while true
      invariant start <= idx < end && AllAre(bm[..], start, idx, !v)
      invariant idx < boundary && boundary == (idx / BITS + 1) * BITS
      decreases end - idx
    {
      if boundary > end {
        boundary := end;
      }
      WordBitsZero(bm[..], idx, boundary, !v);
      if WordBits(bm[..], idx, boundary, !v) != Zero() {
        break;
      }
      idx := boundary;
      boundary := boundary + BITS;
      if idx == end {
        return NotFound;
      }
    }
    var i := idx;
    while i < boundary
      invariant idx <= i <= boundary <= end && AllAre(bm[..], start, i, !v)
    {
      WordBitsZero(bm[..], i, i + 1, !v);
      if WordBits(bm[..], i, i + 1, !v) != Zero() {
        return At(i);
      }
      i := i + 1;
    }
    assert false;
  }
}
