/** The sparse array: presence bitmaps, an offset per word, and elements packed in index order. */
module SparseArrays {
  import opened Bitmaps

  datatype Option<T> = None | Some(value: T)

  // ----- counting bits -----

  /** Number of set bits among the first n. */
  function Count(w: seq<bool>, n: nat): nat
    requires n <= |w|
  {
    if n == 0 then 0 else Count(w, n - 1) + if w[n - 1] then 1 else 0
  }

  /** The count of all bits after the lower ones have been shifted to the top. */
  function CountBefore(w: Word, ibit: nat): nat {
    if ibit == 0 then Count(Zero(), BITS)
    else if ibit < BITS then Count(Shl(w, BITS - ibit), BITS)
    else Count(w, BITS)
  }

  lemma {:induction false} CountShifted(w: Word, ibit: nat, n: nat)
    requires 0 < ibit < BITS && n <= BITS
    ensures Count(Shl(w, BITS - ibit), n) == if n <= BITS - ibit then 0 else Count(w, n - (BITS - ibit))
    decreases n
  {
    if n > 0 { CountShifted(w, ibit, n - 1); }
  }

  lemma {:induction false} CountZero(n: nat)
    requires n <= BITS
    ensures Count(Zero(), n) == 0
  {
    if n > 0 { CountZero(n - 1); }
  }

  lemma CountBeforeIs(w: Word, ibit: nat)
    requires ibit <= BITS
    ensures CountBefore(w, ibit) == Count(w, ibit)
  {
    CountZero(BITS);
    if 0 < ibit < BITS { CountShifted(w, ibit, BITS); }
  }

  /** Setting a clear bit adds one to the counts above it. */
  lemma {:induction false} CountSet(w: Word, i: nat, n: nat)
    requires i < BITS && n <= BITS && !w[i]
    ensures Count(w[i := true], n) == Count(w, n) + if i < n then 1 else 0
    decreases n
  {
    if n > 0 { CountSet(w, i, n - 1); }
  }

  // ----- the index list and the rank -----

  ghost predicate Increasing(s: seq<nat>) {
    forall i, j :: 0 <= i < j < |s| ==> s[i] < s[j]
  }

  /** How many indexes are below p. */
  ghost function Rank(s: seq<nat>, p: nat): nat {
    if s == [] then 0 else Rank(s[..|s| - 1], p) + if s[|s| - 1] < p then 1 else 0
  }

  lemma RankAppend(s: seq<nat>, x: nat, p: nat)
    ensures Rank(s + [x], p) == Rank(s, p) + if x < p then 1 else 0
  {
    assert (s + [x])[..|s|] == s;
  }

  lemma {:induction false} RankAll(s: seq<nat>, p: nat)
    requires forall j :: 0 <= j < |s| ==> s[j] < p
    ensures Rank(s, p) == |s|
  {
    if s != [] { RankAll(s[..|s| - 1], p); }
  }

  lemma {:induction false} RankAt(s: seq<nat>, j: nat)
    requires Increasing(s) && j < |s|
    ensures Rank(s, s[j]) == j
  {
    if j == |s| - 1 {
      RankAll(s[..j], s[j]);
    } else {
      RankAt(s[..|s| - 1], j);
    }
  }

  // ----- what the array keeps -----

  /** The bits are the indexes, and a word's offset plus the bits before a position is the rank of the position. */
  ghost predicate Indexed(bm: seq<Word>, offsets: seq<nat>, index: seq<nat>) {
    && |offsets| == |bm| && Increasing(index)
    && (forall j :: 0 <= j < |index| ==> index[j] < BITS * |bm|)
    && (forall i: nat :: i < BITS * |bm| ==> (Bit(bm, i) <==> i in index))
    && (forall w, b: nat :: 0 <= w < |bm| && bm[w] != Zero() && b <= BITS ==>
      offsets[w] + Count(bm[w], b) == Rank(index, BITS * w + b))
  }

  lemma EmptyIndexed(n: nat)
    ensures Indexed(seq(n, _ => Zero()), seq(n, _ => 0), [])
  {
  }

  lemma ZeroWord(bm: seq<Word>, offsets: seq<nat>, index: seq<nat>, w: nat, x: nat)
    requires Indexed(bm, offsets, index) && w < |bm| && bm[w] == Zero() && x in index
    ensures x / BITS != w
  {
    assert Bit(bm, x);
  }

  lemma NoBits(w: Word)
    ensures (forall k :: 0 <= k < BITS ==> !w[k]) ==> w == Zero()
  {
  }

  lemma SomeBit(bm: seq<Word>, offsets: seq<nat>, index: seq<nat>, w: nat) returns (x: nat)
    requires Indexed(bm, offsets, index) && w < |bm| && bm[w] != Zero()
    ensures x in index && x / BITS == w
  {
    NoBits(bm[w]);
    var k :| 0 <= k < BITS && bm[w][k];
    x := w * BITS + k;
    Parts(w, k);
    assert Bit(bm, x);
  }

  lemma Parts(w: nat, k: nat)
    requires k < BITS
    ensures (w * BITS + k) / BITS == w && (w * BITS + k) % BITS == k
  {
  }

  ghost predicate Above(index: seq<nat>, i: nat) {
    forall j :: 0 <= j < |index| ==> index[j] < i
  }

  /** Appending an index above all others keeps the bits and the ranks. */
  lemma AppendIndexed(bm: seq<Word>, offsets: seq<nat>, index: seq<nat>, i: nat)
    requires Indexed(bm, offsets, index) && i < BITS * |bm| && Above(index, i)
    ensures var w := i / BITS;
      Indexed(SetBit(bm, i, true), if bm[w] == Zero() then offsets[w := |index|] else offsets, index + [i])
  {
    hide Bit, SetBit, Rank, Count;
    var w := i / BITS;
    var bm', offsets' := SetBit(bm, i, true), if bm[w] == Zero() then offsets[w := |index|] else offsets;
    SetBitIs(bm, i, true, i);
    forall j: nat | j < BITS * |bm|
      ensures Bit(bm', j) <==> j in index + [i]
    {
      SetBitIs(bm, i, true, j);
    }
    forall v, b: nat | 0 <= v < |bm'| && bm'[v] != Zero() && b <= BITS
      ensures offsets'[v] + Count(bm'[v], b) == Rank(index + [i], BITS * v + b)
    {
      RankAppend(index, i, BITS * v + b);
      if v == w { AppendHere(bm, offsets, index, i, b); } else { AppendThere(bm, offsets, index, i, v, b); }
    }
  }

  lemma AppendHere(bm: seq<Word>, offsets: seq<nat>, index: seq<nat>, i: nat, b: nat)
    requires Indexed(bm, offsets, index) && i < BITS * |bm| && Above(index, i) && b <= BITS
    ensures var w := i / BITS;
      (if bm[w] == Zero() then |index| else offsets[w]) + Count(SetBit(bm, i, true)[w], b) == Rank(index, BITS * w + b)
        + if i < BITS * w + b then 1 else 0
  {
    hide Rank;
    var w, k := i / BITS, i % BITS;
    assert !Bit(bm, i) by { assert i !in index; }
    CountSet(bm[w], k, b);
    if bm[w] == Zero() {
      CountZero(b);
      forall j | 0 <= j < |index| ensures index[j] < BITS * w + b {
        ZeroWord(bm, offsets, index, w, index[j]);
      }
      RankAll(index, BITS * w + b);
    }
  }

  lemma AppendThere(bm: seq<Word>, offsets: seq<nat>, index: seq<nat>, i: nat, v: nat, b: nat)
    requires Indexed(bm, offsets, index) && i < BITS * |bm| && Above(index, i) && b <= BITS
    requires v < |bm| && v != i / BITS && SetBit(bm, i, true)[v] != Zero()
    ensures offsets[v] + Count(SetBit(bm, i, true)[v], b) == Rank(index, BITS * v + b) && i >= BITS * v + b
  {
    hide Rank, Count;
    assert SetBit(bm, i, true)[v] == bm[v];
    var x := SomeBit(bm, offsets, index, v);
    assert x < i;
  }

  /** Words needed for a capacity. */
  function Words(capacity: nat): nat {
    (capacity + BITS - 1) / BITS
  }

  class SparseArray<T(0)> {
    const capacity: nat
    var bitmaps: seq<Word>
    var offsets: seq<nat>
    var elts: seq<T>
    ghost var index: seq<nat>

    ghost predicate Valid()
      reads this
    {
      |bitmaps| == Words(capacity) && Indexed(bitmaps, offsets, index) && |elts| == |index|
    }

    /** Builds the array from a strictly increasing list of indexes and their elements. */
    constructor (capacity: nat, index: seq<nat>, elts: seq<T>)
      requires Increasing(index) && |elts| == |index| && forall j :: 0 <= j < |index| ==> index[j] < capacity
      ensures Valid() && this.capacity == capacity && this.index == index && this.elts == elts
    {
      this.capacity := capacity;
      bitmaps, offsets, this.elts, this.index := seq(Words(capacity), _ => Zero()), seq(Words(capacity), _ => 0), [],
        [];
      new;
      EmptyIndexed(Words(capacity));
      var i := 0;
      while i < |index|
        invariant 0 <= i <= |index| && Valid() && this.index == index[..i] && this.elts == elts[..i]
      {
        Append(index[i], elts[i]);
        i := i + 1;
      }
    }

    method Append(i: nat, elt: T)
      requires Valid() && i < capacity && Above(index, i)
      modifies this
      ensures Valid() && index == old(index) + [i] && elts == old(elts) + [elt]
    {
      hide Indexed;
      var ibitmap, ibit := i / BITS, i % BITS;
      AppendIndexed(bitmaps, offsets, index, i);
      IndexedSize(bitmaps, offsets, index);
      if bitmaps[ibitmap] == Zero() {
        offsets := offsets[ibitmap := |elts|];
      }
      SetIsOr(bitmaps[ibitmap], ibit);
      bitmaps := bitmaps[ibitmap := Or(bitmaps[ibitmap], Shl(One(), ibit))];
      elts := elts + [elt];
      index := index + [i];
    }

    /** The element stored for an index, or none: the array is the map from its indexes to its elements. */
    method Get(i: nat) returns (r: Option<T>)
      requires Valid() && i < capacity
      ensures forall j :: 0 <= j < |index| && index[j] == i ==> r == Some(elts[j])
      ensures i !in index ==> r == None
    {
      hide Rank, Count, CountBefore;
      var ibitmap, ibit := i / BITS, i % BITS;
      var word := bitmaps[ibitmap];
      ShiftedBit(word, ibit);
      if And(Shr(word, ibit), One()) != Zero() {
        assert Bit(bitmaps, i);
        CountBeforeIs(word, ibit);
        ghost var j :| 0 <= j < |index| && index[j] == i;
        RankAt(index, j);
        Parts(ibitmap, ibit);
        assert bitmaps[ibitmap] != Zero() by { assert !Zero()[ibit]; }
        assert offsets[ibitmap] + Count(word, ibit) == Rank(index, BITS * ibitmap + ibit) == j;
        r := Some(elts[offsets[ibitmap] + CountBefore(word, ibit)]);
      } else {
        assert !Bit(bitmaps, i);
        r := None;
      }
    }
  }

  function One(): Word {
    Zero()[0 := true]
  }

  lemma IndexedSize(bm: seq<Word>, offsets: seq<nat>, index: seq<nat>)
    requires Indexed(bm, offsets, index)
    ensures |offsets| == |bm|
  {
  }

  lemma SetIsOr(w: Word, i: nat)
    requires i < BITS
    ensures Or(w, Shl(One(), i)) == w[i := true]
  {
  }

  lemma ShiftedBit(w: Word, i: nat)
    requires i < BITS
    ensures And(Shr(w, i), One()) != Zero() <==> w[i]
  {
    var m := And(Shr(w, i), One());
    assert m[0] == w[i];
    if !w[i] { assert m == Zero(); }
  }
}
