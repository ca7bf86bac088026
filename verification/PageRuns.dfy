/**
  Runs of pages: a region is tiled by runs, and every page of a run carries the run's length and state, the first one
  the master tag.
 */
module PageRuns {

  datatype Page = Page(free: bool, master: bool, cnt: nat)

  datatype Run = Run(free: bool, len: nat)

  /** The tags of the pages of one run. */
  function Block(r: Run): seq<Page> {
    seq(r.len, i => Page(r.free, i == 0, r.len))
  }

  function Tile(rs: seq<Run>): seq<Page> {
    if rs == [] then [] else Block(rs[0]) + Tile(rs[1..])
  }

  function Total(rs: seq<Run>): nat {
    if rs == [] then 0 else rs[0].len + Total(rs[1..])
  }

  predicate Positive(rs: seq<Run>) {
    forall i :: 0 <= i < |rs| ==> rs[i].len > 0
  }

  /** No two neighbouring runs are both free. */
  predicate Coalesced(rs: seq<Run>) {
    forall i :: 0 <= i < |rs| - 1 ==> !(rs[i].free && rs[i + 1].free)
  }

  /** Run r starts at page `start`. */
  predicate RunAt(rs: seq<Run>, start: int, r: Run) {
    rs != [] && (if start == 0 then rs[0] == r else RunAt(rs[1..], start - rs[0].len, r))
  }

  /** A free run of this length starts at page `start`. */
  predicate FreeAt(rs: seq<Run>, start: int, len: nat) {
    RunAt(rs, start, Run(true, len))
  }

  /** A used run of this length starts at page `start`. */
  predicate UsedAt(rs: seq<Run>, start: int, len: nat) {
    RunAt(rs, start, Run(false, len))
  }

  lemma {:induction false} TotalConcat(a: seq<Run>, b: seq<Run>)
    ensures Total(a + b) == Total(a) + Total(b)
  {
    if a == [] { assert a + b == b; } else { assert (a + b)[1..] == a[1..] + b; TotalConcat(a[1..], b); }
  }

  lemma {:induction false} TileConcat(a: seq<Run>, b: seq<Run>)
    ensures Tile(a + b) == Tile(a) + Tile(b)
  {
    if a == [] { assert a + b == b; } else { assert (a + b)[1..] == a[1..] + b; TileConcat(a[1..], b); }
  }

  lemma {:induction false} TileSize(rs: seq<Run>)
    ensures |Tile(rs)| == Total(rs)
  {
    if rs != [] { TileSize(rs[1..]); }
  }

  lemma TileOne(r: Run)
    ensures Tile([r]) == Block(r) && Total([r]) == r.len
  {
    assert [r][1..] == [];
    assert Tile([]) == [];
  }

  lemma RunAtNegative(rs: seq<Run>, start: int, r: Run)
    requires start < 0
    ensures !RunAt(rs, start, r)
  {
  }

  /** The runs of a concatenation are those of the parts, shifted. */
  lemma {:induction false} RunAtConcat(a: seq<Run>, b: seq<Run>, start: int, r: Run)
    requires Positive(a)
    ensures RunAt(a + b, start, r) <==> if start < Total(a) then RunAt(a, start, r) else RunAt(b, start - Total(a), r)
  {
    if a == [] {
      assert a + b == b;
      if start < 0 { RunAtNegative(b, start, r); }
    } else {
      assert (a + b)[1..] == a[1..] + b;
      if start != 0 { RunAtConcat(a[1..], b, start - a[0].len, r); }
    }
  }

  lemma {:induction false} RunAtBounds(rs: seq<Run>, start: int, r: Run)
    requires RunAt(rs, start, r) && Positive(rs)
    ensures 0 <= start && 0 < r.len && start + r.len <= Total(rs)
  {
    if start != 0 { RunAtBounds(rs[1..], start - rs[0].len, r); }
  }

  lemma {:induction false} RunAtUnique(rs: seq<Run>, start: int, r: Run, r': Run)
    requires RunAt(rs, start, r) && RunAt(rs, start, r')
    ensures r == r'
  {
    if start != 0 { RunAtUnique(rs[1..], start - rs[0].len, r, r'); }
  }

  /** The run that starts at a page with the master tag. */
  lemma {:induction false} MasterStartsRun(rs: seq<Run>, start: nat) returns (k: nat)
    requires Positive(rs) && start < Total(rs) && |Tile(rs)| == Total(rs) && Tile(rs)[start].master
    ensures k < |rs| && Total(rs[..k]) == start && Tile(rs)[start] == Page(rs[k].free, true, rs[k].len)
  {
    if start == 0 {
      k := 0;
    } else {
      assert start >= rs[0].len;
      TileSize(rs[1..]);
      var j := MasterStartsRun(rs[1..], start - rs[0].len);
      k := j + 1;
      assert rs[..k] == [rs[0]] + rs[1..][..j];
      TotalConcat([rs[0]], rs[1..][..j]);
      TileOne(rs[0]);
    }
  }

  lemma SplitAtRun(rs: seq<Run>, k: nat)
    requires k < |rs|
    ensures rs == rs[..k] + [rs[k]] + rs[k + 1..]
    ensures Total(rs) == Total(rs[..k]) + rs[k].len + Total(rs[k + 1..])
    ensures Tile(rs) == Tile(rs[..k]) + Block(rs[k]) + Tile(rs[k + 1..])
  {
    hide Tile, Total, Block;
    Pieces(rs, k);
    Around(rs[..k], rs[k], rs[k + 1..]);
  }

  lemma Pieces(rs: seq<Run>, k: nat)
    requires k < |rs|
    ensures rs == rs[..k] + [rs[k]] + rs[k + 1..]
  {
  }

  lemma Around(a: seq<Run>, r: Run, b: seq<Run>)
    ensures Total(a + [r] + b) == Total(a) + r.len + Total(b)
    ensures Tile(a + [r] + b) == Tile(a) + Block(r) + Tile(b)
  {
    hide Tile, Total, Block;
    TotalConcat(a, [r]);
    TotalConcat(a + [r], b);
    TileConcat(a, [r]);
    TileConcat(a + [r], b);
    TileOne(r);
  }

  lemma {:induction false} RunAtIndex(rs: seq<Run>, start: int, r: Run) returns (k: nat)
    requires RunAt(rs, start, r)
    ensures k < |rs| && rs[k] == r && Total(rs[..k]) == start
  {
    if start == 0 {
      k := 0;
    } else {
      var j := RunAtIndex(rs[1..], start - rs[0].len, r);
      k := j + 1;
      assert rs[..k] == [rs[0]] + rs[1..][..j];
      TotalConcat([rs[0]], rs[1..][..j]);
      TileOne(rs[0]);
    }
  }

  lemma FreeAtIndex(rs: seq<Run>, start: int, len: nat) returns (k: nat)
    requires FreeAt(rs, start, len)
    ensures k < |rs| && rs[k] == Run(true, len) && Total(rs[..k]) == start
  {
    k := RunAtIndex(rs, start, Run(true, len));
  }

  lemma RunAtOne(r: Run, start: int, r': Run)
    ensures RunAt([r], start, r') <==> start == 0 && r == r'
  {
    assert [r][1..] == [];
    assert !RunAt([], start - r.len, r');
  }
}
