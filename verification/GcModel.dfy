/**
  The collector state and its steps.  Each loop of the collector is a function that repeats one small
  step (mark one table, classify one swept table, free one table) until the budget or the queue runs
  out; a mutator step is one table operation under the collector's lock.
 */
module GcModel {
  import opened Queues
  import opened Tables

  datatype State = State(
    tables: map<TableId, Table>,
    roots: seq<TableId>,
    markQ: seq<TableId>,
    prevQ: seq<TableId>,
    sweepQ: seq<TableId>,
    garbageQ: seq<TableId>,
    remainedQ: seq<TableId>,
    round: int,
    begin: bool,
    maxVisit: nat,
    currVisit: nat,
    maxFree: nat,
    currFree: nat,
    // Tables allocated and not yet put into a table or made a root: only the allocating caller knows them.
    nursery: set<TableId>)

  datatype Phase = Prev | Sweep

  const MAX_ROOTS := 1024

  const Initial := State(map[], [], [], [], [], [], [], 0, false, 100, 0, 50, 0, {})

  // ----- colours -----

  predicate White(s: State, t: TableId) { t in s.tables && s.tables[t].mark <= s.round }
  predicate Black(s: State, t: TableId) { t in s.tables && s.tables[t].mark == s.round + 1 }
  predicate Garbage(s: State, t: TableId) { t in s.tables && s.tables[t].mark == s.round + 2 }

  function KidsOf(s: State, t: TableId): seq<TableId> {
    if t in s.tables then Kids(s.tables[t].elems) else []
  }

  function WithMark(tables: map<TableId, Table>, t: TableId, m: int): map<TableId, Table> {
    if t in tables then tables[t := tables[t].(mark := m)] else tables
  }

  // ----- queues -----

  function Members(q: seq<TableId>): set<TableId> { set x | x in q }

  /** Append every kid that is unknown and whose queue node is free. */
  function Enqueue(s: State, kids: seq<TableId>, q: seq<TableId>, others: set<TableId>): (r: seq<TableId>)
    ensures q <= r && (forall x :: x in q ==> x in r)
    ensures forall x :: x in r ==> x in q || (x in kids && White(s, x) && x !in others)
    ensures forall x :: x in kids && White(s, x) ==> x in r || x in others
    decreases kids
  {
    if kids == [] then q
    else
      var q1 := if White(s, kids[0]) && kids[0] !in q && kids[0] !in others then q + [kids[0]] else q;
      assert forall x :: x in kids ==> x == kids[0] || x in kids[1..];
      Enqueue(s, kids[1..], q1, others)
  }

  function Queue(s: State, p: Phase): seq<TableId> {
    match p
    case Prev => s.prevQ
    case Sweep => s.sweepQ
  }

  function WithQueue(s: State, p: Phase, q: seq<TableId>): State {
    match p
    case Prev => s.(prevQ := q)
    case Sweep => s.(sweepQ := q)
  }

  // ----- one step of each collector loop -----

  function MarkOne(s: State): State
    requires s.markQ != []
  {
    var t := s.markQ[0];
    var s1 := s.(tables := WithMark(s.tables, t, s.round + 1), markQ := s.markQ[1..]);
    var q := Enqueue(s1, KidsOf(s1, t), s1.markQ, {});
    s1.(markQ := q, currVisit := s.currVisit + (|q| - |s1.markQ|) + 1)
  }

  /** The queues that share a table's sweep node, apart from the one being filled. */
  function OtherSweepNodes(s: State, p: Phase): set<TableId> {
    Members(match p case Prev => s.sweepQ case Sweep => s.prevQ) + Members(s.garbageQ) + Members(s.remainedQ)
  }

  function SweepOne(s: State, p: Phase): State
    requires Queue(s, p) != []
  {
    var t := Queue(s, p)[0];
    var s1 := WithQueue(s, p, Queue(s, p)[1..]);
    if Black(s, t) then
      s1.(remainedQ := if p == Sweep then s.remainedQ + [t] else s.remainedQ, currVisit := s.currVisit + 1)
    else
      var s2 := s1.(tables := WithMark(s.tables, t, s.round + 2), garbageQ := s.garbageQ + [t]);
      var q := Enqueue(s2, KidsOf(s2, t), Queue(s2, p), OtherSweepNodes(s2, p));
      WithQueue(s2, p, q).(currVisit := s.currVisit + (|q| - |Queue(s2, p)|) + 1)
  }

  function FreeOne(s: State): State
    requires s.garbageQ != []
  {
    s.(tables := s.tables - {s.garbageQ[0]}, garbageQ := s.garbageQ[1..], currFree := s.currFree + 1)
  }

  // ----- the collector loops and one slice -----

  function MarkReachable(s: State): (State, Ret)
    decreases s.maxVisit - s.currVisit
  {
    if s.currVisit >= s.maxVisit then (s, Ok)
    else if s.markQ == [] then (s, Empty)
    else MarkReachable(MarkOne(s))
  }

  function MarkGarbage(s: State, p: Phase): (State, Ret)
    decreases s.maxVisit - s.currVisit
  {
    if s.currVisit >= s.maxVisit then (s, Ok)
    else if Queue(s, p) == [] then (s, Empty)
    else if Garbage(s, Queue(s, p)[0]) then (WithQueue(s, p, Queue(s, p)[1..]), StateInvalid)
    else MarkGarbage(SweepOne(s, p), p)
  }

  /** Marks, then both sweeps; `budget` is the clock-derived limit for the next slice. */
  function MarkTables(s: State, budget: nat): (State, Ret) {
    var (s1, r1) := MarkReachable(s);
    if r1 != Empty then (NextVisit(s1, budget), r1) else
    var (s2, r2) := MarkGarbage(s1, Prev);
    if r2 == Ok then (NextVisit(s2, budget), r2) else if r2 != Empty then (s2, r2) else
    var (s3, r3) := MarkGarbage(s2, Sweep);
    if r3 == Ok || r3 == Empty then (NextVisit(s3, budget), r3) else (s3, r3)
  }

  function NextVisit(s: State, budget: nat): State {
    if s.currVisit > 0 then s.(maxVisit := budget) else s
  }

  function FreeTables(s: State, budget: nat): (State, Ret)
    decreases s.maxFree - s.currFree
  {
    if s.currFree >= s.maxFree then (if s.currFree > 0 then s.(maxFree := budget) else s, Ok)
    else if s.garbageQ == [] then (s, Empty)
    else FreeTables(FreeOne(s), budget)
  }

  /** The roots not yet waiting to be marked join the mark queue. */
  function RootsToMark(roots: seq<TableId>, q: seq<TableId>): (r: seq<TableId>)
    ensures q <= r
    ensures forall x :: x in r <==> x in q || x in roots
    decreases roots
  {
    if roots == [] then q
    else RootsToMark(roots[1..], if roots[0] !in q then q + [roots[0]] else q)
  }

  function BeginRound(s: State): State {
    s.(markQ := RootsToMark(s.roots, s.markQ), begin := true)
  }

  function EndRound(s: State): State {
    s.(prevQ := s.prevQ + s.remainedQ, remainedQ := [], round := s.round + 4, begin := false)
  }

  /** The work of one slice, with the round open. */
  function SliceBody(s: State, visit: nat, free: nat): (State, Ret) {
    var (s2, r2) := MarkTables(s, visit);
    if r2 != Empty then (s2, r2) else
    var (s3, r3) := FreeTables(s2, free);
    if r3 != Empty then (s3, r3) else
    (EndRound(s3), Ok)
  }

  /** One slice.  `visit` and `free` are the limits that the clock readings give for the next slice. */
  function RunSlice(s: State, visit: nat, free: nat): (State, Ret) {
    var s0 := s.(currVisit := 0, currFree := 0);
    if s.begin then SliceBody(s0, visit, free)
    else if s.sweepQ == [] && s.prevQ == [] then (s0, NoGcData)
    else SliceBody(BeginRound(s0), visit, free)
  }

  // ----- what the mutators do -----

  function PushToMark(s: State, t: TableId): State {
    if Black(s, t) || t in s.markQ then s else s.(markQ := s.markQ + [t])
  }

  function PushToSweep(s: State, t: TableId): State {
    s.(prevQ := Without(s.prevQ, t),
       sweepQ := Without(s.sweepQ, t) + [t],
       garbageQ := Without(s.garbageQ, t),
       remainedQ := Without(s.remainedQ, t))
  }

  function SweepValue(s: State, v: Value): State {
    if v.Ref? then PushToSweep(s, v.id) else s
  }

  function MarkValue(s: State, v: Value): State {
    if v.Ref? then PushToMark(s, v.id).(nursery := s.nursery - {v.id}) else s
  }

  function SweepAll(s: State, ts: seq<TableId>): State
    decreases ts
  {
    if ts == [] then s else SweepAll(PushToSweep(s, ts[0]), ts[1..])
  }

  function WithElems(s: State, p: TableId, es: seq<Element>, bump: nat): State {
    if p in s.tables then
      s.(tables := s.tables[p := s.tables[p].(elems := es, version := s.tables[p].version + bump)])
    else s
  }

  function ElemsOf(s: State, t: TableId): seq<Element> {
    if t in s.tables then s.tables[t].elems else []
  }

  function NewTable(s: State, t: TableId): State {
    s.(tables := s.tables[t := Table([], s.round, 0)], nursery := s.nursery + {t})
  }

  function AddKeyValue(s: State, p: TableId, k: int, v: Value): (State, Ret) {
    var es := ElemsOf(s, p);
    var i := Rank(es, k);
    if i < |es| && es[i].key == k then (s, Existed)
    else (MarkValue(WithElems(s, p, es[..i] + [Element(k, v)] + es[i..], 1), v), Ok)
  }

  function SetKeyValue(s: State, p: TableId, k: int, v: Value): (State, Ret) {
    var es := ElemsOf(s, p);
    var i := Rank(es, k);
    if i < |es| && es[i].key == k then
      (MarkValue(SweepValue(WithElems(s, p, es[i := Element(k, v)], 1), es[i].value), v), Ok)
    else
      (MarkValue(WithElems(s, p, es[..i] + [Element(k, v)] + es[i..], 1), v), Ok)
  }

  function RemoveKey(s: State, p: TableId, k: int): (State, Ret) {
    var es := ElemsOf(s, p);
    var i := Rank(es, k);
    if i < |es| && es[i].key == k then
      (SweepValue(WithElems(s, p, es[..i] + es[i + 1..], 1), es[i].value), Ok)
    else (s, NotFound)
  }

  /** Drops every element; `order` is the order in which the tree walk meets the referred tables. */
  function RemoveAll(s: State, p: TableId, order: seq<TableId>): State {
    WithElems(SweepAll(s, order), p, [], |ElemsOf(s, p)|)
  }

  function RootRank(roots: seq<TableId>, t: TableId): (r: nat)
    ensures r <= |roots|
  {
    if roots != [] && roots[0] < t then 1 + RootRank(roots[1..], t) else 0
  }

  function AddRoot(s: State, t: TableId): (State, Ret) {
    if t in s.roots then (s, Existed)
    else if |s.roots| >= MAX_ROOTS then (s, OutOfMemory)
    else
      var i := RootRank(s.roots, t);
      (s.(roots := s.roots[..i] + [t] + s.roots[i..], nursery := s.nursery - {t}), Ok)
  }

  function RemoveRoot(s: State, t: TableId, free: bool): (State, Ret) {
    if t !in s.roots then (s, NotFound)
    else
      var s1 := s.(roots := Without(s.roots, t));
      (if free then PushToSweep(s1, t) else s1, Ok)
  }
}
