/** Page accounting: how many pages of the pool are free and how many are in use. */
module PageCount {
  import opened Maps
  import opened PageRuns

  /** Pages of one region whose runs have the given state. */
  function Amount(rs: seq<Run>, free: bool): nat {
    if rs == [] then 0 else (if rs[0].free == free then rs[0].len else 0) + Amount(rs[1..], free)
  }

  lemma {:induction false} AmountConcat(a: seq<Run>, b: seq<Run>, free: bool)
    ensures Amount(a + b, free) == Amount(a, free) + Amount(b, free)
  {
    if a == [] { assert a + b == b; } else { assert (a + b)[1..] == a[1..] + b; AmountConcat(a[1..], b, free); }
  }

  lemma AmountOne(r: Run, free: bool)
    ensures Amount([r], free) == if r.free == free then r.len else 0
  {
    assert [r][1..] == [];
  }

  lemma AmountsAreTotal(rs: seq<Run>)
    ensures Amount(rs, true) + Amount(rs, false) == Total(rs)
  {
  }

  /** Replacing a stretch of runs changes the amount by what the stretch holds. */
  lemma AmountReplaced(a: seq<Run>, x: seq<Run>, y: seq<Run>, b: seq<Run>, free: bool)
    ensures Amount(a + y + b, free) == Amount(a + x + b, free) - Amount(x, free) + Amount(y, free)
  {
    hide Amount;
    AmountConcat(a, x, free);
    AmountConcat(a + x, b, free);
    AmountConcat(a, y, free);
    AmountConcat(a + y, b, free);
  }

  /** Pages of the whole pool with the given state. */
  ghost function Count(runs: map<nat, seq<Run>>, free: bool): nat
    decreases |runs|
  {
    if |runs| == 0 then 0
    else
      var r := Pick(runs);
      DropSize(runs, r);
      Amount(runs[r], free) + Count(runs - {r}, free)
  }

  /** The count does not depend on the order in which regions are visited. */
  lemma {:induction false} CountDrop(runs: map<nat, seq<Run>>, r: nat, free: bool)
    requires r in runs
    ensures Count(runs, free) == Amount(runs[r], free) + Count(runs - {r}, free)
    decreases |runs|
  {
    hide Amount;
    var x := Pick(runs);
    if x != r {
      DropSize(runs, x);
      DropSize(runs, r);
      CountDrop(runs - {x}, r, free);
      CountDrop(runs - {r}, x, free);
      assert runs - {x} - {r} == runs - {r} - {x};
    }
  }

  lemma CountAdd(runs: map<nat, seq<Run>>, r: nat, rs: seq<Run>, free: bool)
    requires r !in runs
    ensures Count(runs[r := rs], free) == Count(runs, free) + Amount(rs, free)
  {
    hide Amount, Count;
    CountDrop(runs[r := rs], r, free);
    assert runs[r := rs] - {r} == runs;
  }

  lemma CountChange(runs: map<nat, seq<Run>>, r: nat, rs: seq<Run>, free: bool)
    requires r in runs
    ensures Count(runs[r := rs], free) == Count(runs, free) - Amount(runs[r], free) + Amount(rs, free)
  {
    hide Amount, Count;
    CountDrop(runs, r, free);
    CountDrop(runs[r := rs], r, free);
    assert runs[r := rs] - {r} == runs - {r};
  }

  /** Free and used pages together are all pages of all regions. */
  lemma {:induction false} Conservation(runs: map<nat, seq<Run>>, n: nat)
    requires forall r :: r in runs ==> Total(runs[r]) == n
    ensures Count(runs, true) + Count(runs, false) == |runs| * n
    decreases |runs|
  {
    hide Amount, Total;
    if |runs| > 0 {
      var r := Pick(runs);
      DropSize(runs, r);
      Conservation(runs - {r}, n);
      AmountsAreTotal(runs[r]);
      OneMore(|runs|, n);
    }
  }

  lemma OneMore(m: nat, n: nat)
    requires m > 0
    ensures (m - 1) * n + n == m * n
  {
  }
}
