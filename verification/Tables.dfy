/**
  Tables as the collector sees them: each holds its elements in key order (the in-order sequence of
  its red-black tree), a collector mark and a version counter.  A value may refer to another table.
 */
module Tables {

  type TableId = nat

  datatype Value = Scalar(n: int) | Ref(id: TableId)

  datatype Element = Element(key: int, value: Value)

  datatype Table = Table(elems: seq<Element>, mark: int, version: nat)

  datatype Ret = Ok | Empty | NoGcData | StateInvalid | NotFound | Existed | OutOfMemory | TableModified | IterFinish

  /** The tables referred to, in the order in which an iterator meets them. */
  function Kids(es: seq<Element>): seq<TableId> {
    if es == [] then []
    else (if es[0].value.Ref? then [es[0].value.id] else []) + Kids(es[1..])
  }

  predicate SortedKeys(es: seq<Element>) {
    forall i, j :: 0 <= i < j < |es| ==> es[i].key < es[j].key
  }

  predicate HasKey(es: seq<Element>, k: int) {
    exists i :: 0 <= i < |es| && es[i].key == k
  }

  /** How many keys lie below k: where k is, or where it belongs. */
  function Rank(es: seq<Element>, k: int): (r: nat)
    ensures r <= |es|
  {
    if es == [] then 0
    else if es[0].key < k then 1 + Rank(es[1..], k)
    else 0
  }

  lemma {:induction false} RankSplits(es: seq<Element>, k: int)
    requires SortedKeys(es)
    ensures forall i :: 0 <= i < Rank(es, k) ==> es[i].key < k
    ensures forall i :: Rank(es, k) <= i < |es| ==> k <= es[i].key
    ensures HasKey(es, k) <==> Rank(es, k) < |es| && es[Rank(es, k)].key == k
  {
    if es != [] && es[0].key < k {
      RankSplits(es[1..], k);
      assert forall i :: 0 <= i < |es[1..]| ==> es[1..][i] == es[i + 1];
      forall i | 0 <= i < Rank(es, k)
        ensures es[i].key < k
      {
        if i > 0 { assert es[i] == es[1..][i - 1]; }
      }
      forall i | Rank(es, k) <= i < |es|
        ensures k <= es[i].key
      {
        assert es[i] == es[1..][i - 1];
      }
    }
  }

  lemma KidsStep(es: seq<Element>)
    requires es != []
    ensures Kids(es) == (if es[0].value.Ref? then [es[0].value.id] else []) + Kids(es[1..])
  {
  }

  lemma EmptyKids()
    ensures Kids([]) == []
  {
  }

  lemma {:induction false} KidsConcat(a: seq<Element>, b: seq<Element>)
    ensures Kids(a + b) == Kids(a) + Kids(b)
  {
    hide Kids;
    if a == [] {
      EmptyKids();
      assert a + b == b;
    } else {
      assert (a + b)[1..] == a[1..] + b && (a + b)[0] == a[0];
      KidsConcat(a[1..], b);
      KidsStep(a + b);
      KidsStep(a);
    }
  }

  /** Kids collects exactly the ids that some element refers to. */
  lemma {:induction false} KidsMembers(es: seq<Element>, t: TableId)
    ensures t in Kids(es) <==> exists i :: 0 <= i < |es| && es[i].value == Ref(t)
  {
    if es != [] {
      KidsMembers(es[1..], t);
      assert forall i :: 0 <= i < |es[1..]| ==> es[1..][i] == es[i + 1];
      if i :| 0 <= i < |es| && es[i].value == Ref(t) {
        if i > 0 { assert es[1..][i - 1].value == Ref(t); }
      }
    }
  }

  // ----- the three changes to a table's elements, as changes of a map -----

  function Contents(es: seq<Element>): map<int, Value> {
    if es == [] then map[] else Contents(es[..|es| - 1])[es[|es| - 1].key := es[|es| - 1].value]
  }

  lemma {:induction false} ContentsConcat(a: seq<Element>, b: seq<Element>)
    ensures Contents(a + b) == Contents(a) + Contents(b)
  {
    if b == [] {
      assert a + b == a;
    } else {
      assert (a + b)[..|a + b| - 1] == a + b[..|b| - 1];
      ContentsConcat(a, b[..|b| - 1]);
    }
  }

  lemma {:induction false} ContentsKeys(es: seq<Element>)
    ensures forall k :: k in Contents(es) <==> HasKey(es, k)
  {
    if es != [] {
      var init := es[..|es| - 1];
      ContentsKeys(init);
      forall k
        ensures HasKey(es, k) <==> HasKey(init, k) || es[|es| - 1].key == k
      {
        if HasKey(init, k) { var i :| 0 <= i < |init| && init[i].key == k; assert es[i].key == k; }
        if HasKey(es, k) && es[|es| - 1].key != k { var i :| 0 <= i < |es| && es[i].key == k; assert init[i].key == k; }
      }
    }
  }

  /** Around position i, a sorted element sequence is a map made of three disjoint parts. */
  lemma ContentsAround(es: seq<Element>, i: nat)
    requires SortedKeys(es) && i < |es|
    ensures Contents(es) == (Contents(es[..i]) + Contents(es[i + 1..]))[es[i].key := es[i].value]
    ensures es[i].key !in Contents(es[..i]) && es[i].key !in Contents(es[i + 1..])
  {
    hide SortedKeys, HasKey, Contents;
    var a, e, b := es[..i], es[i], es[i + 1..];
    KeyElsewhere(es, i);
    ContentsKeys(a);
    ContentsKeys(b);
    assert es == a + [e] + b;
    ContentsConcat(a, [e]);
    ContentsConcat(a + [e], b);
    ContentsOne(e);
  }

  lemma ContentsOne(e: Element)
    ensures Contents([e]) == map[e.key := e.value]
  {
    assert [e][..0] == [];
  }

  lemma KeyElsewhere(es: seq<Element>, i: nat)
    requires SortedKeys(es) && i < |es|
    ensures !HasKey(es[..i], es[i].key) && !HasKey(es[i + 1..], es[i].key)
  {
  }

  lemma InsertSorted(es: seq<Element>, k: int, v: Value)
    requires SortedKeys(es)
    requires var i := Rank(es, k); !(i < |es| && es[i].key == k)
    ensures var i := Rank(es, k); SortedKeys(es[..i] + [Element(k, v)] + es[i..])
  {
    RankSplits(es, k);
    hide Rank, HasKey;
  }

  /** Inserting at the rank of a missing key adds that key and moves nothing else. */
  lemma InsertElement(es: seq<Element>, k: int, v: Value)
    requires SortedKeys(es)
    requires var i := Rank(es, k); !(i < |es| && es[i].key == k)
    ensures var i := Rank(es, k); var es' := es[..i] + [Element(k, v)] + es[i..];
      && SortedKeys(es')
      && (forall t :: t in Kids(es') <==> t in Kids(es) || v == Ref(t))
  {
    var i := Rank(es, k);
    InsertSorted(es, k, v);
    hide SortedKeys, Rank, Kids;
    SplicedParts(es, i, Element(k, v));
    KidsAround(es[..i] + [Element(k, v)] + es[i..], i);
    KidsConcat(es[..i], es[i..]);
  }

  lemma KidsSingle(e: Element)
    ensures Kids([e]) == if e.value.Ref? then [e.value.id] else []
  {
    assert [e][1..] == [];
  }

  lemma ReplaceElement(es: seq<Element>, i: nat, v: Value)
    requires SortedKeys(es) && i < |es|
    ensures var es' := es[i := Element(es[i].key, v)];
      && SortedKeys(es')
      && (forall t :: t in Kids(es') ==> t in Kids(es) || v == Ref(t))
    ensures es[i].value.Ref? ==> es[i].value.id in Kids(es)
  {
    var es' := es[i := Element(es[i].key, v)];
    assert SortedKeys(es');
    hide Kids, SortedKeys;
    KidsAround(es, i);
    KidsAround(es', i);
    assert es'[..i] == es[..i] && es'[i + 1..] == es[i + 1..];
  }

  /** The tables referred to, around position i. */
  lemma KidsAround(es: seq<Element>, i: nat)
    requires i < |es|
    ensures forall t :: t in Kids(es) <==> t in Kids(es[..i]) || es[i].value == Ref(t) || t in Kids(es[i + 1..])
  {
    hide Kids;
    Around(es, i);
    KidsConcat(es[..i], [es[i]]);
    KidsConcat(es[..i] + [es[i]], es[i + 1..]);
    KidsSingle(es[i]);
  }

  lemma Around(es: seq<Element>, i: nat)
    requires i < |es|
    ensures es == es[..i] + [es[i]] + es[i + 1..]
  {
  }

  lemma DeleteElement(es: seq<Element>, i: nat)
    requires SortedKeys(es) && i < |es|
    ensures var es' := es[..i] + es[i + 1..];
      && SortedKeys(es')
      && (forall t :: t in Kids(es') ==> t in Kids(es))
    ensures es[i].value.Ref? ==> es[i].value.id in Kids(es)
  {
    DeleteSorted(es, i);
    hide Kids, SortedKeys;
    KidsAround(es, i);
    KidsConcat(es[..i], es[i + 1..]);
  }

  lemma DeleteSorted(es: seq<Element>, i: nat)
    requires SortedKeys(es) && i < |es|
    ensures SortedKeys(es[..i] + es[i + 1..])
  {
  }

  lemma InsertContents(es: seq<Element>, k: int, v: Value)
    requires SortedKeys(es)
    requires var i := Rank(es, k); !(i < |es| && es[i].key == k)
    ensures var i := Rank(es, k); Contents(es[..i] + [Element(k, v)] + es[i..]) == Contents(es)[k := v]
    ensures k !in Contents(es)
  {
    var i := Rank(es, k);
    var es' := es[..i] + [Element(k, v)] + es[i..];
    InsertSorted(es, k, v);
    assert !HasKey(es, k) by { RankSplits(es, k); }
    ContentsKeys(es);
    hide Rank, SortedKeys, HasKey, Contents;
    SplicedParts(es, i, Element(k, v));
    ContentsAround(es', i);
    ContentsConcat(es[..i], es[i..]);
  }

  lemma SplicedParts(es: seq<Element>, i: nat, e: Element)
    requires i <= |es|
    ensures var es' := es[..i] + [e] + es[i..]; es'[..i] == es[..i] && es'[i] == e && es'[i + 1..] == es[i..]
    ensures es == es[..i] + es[i..]
  {
  }

  lemma ReplaceContents(es: seq<Element>, i: nat, v: Value)
    requires SortedKeys(es) && i < |es|
    ensures Contents(es[i := Element(es[i].key, v)]) == Contents(es)[es[i].key := v]
  {
    hide Contents, SortedKeys, Kids;
    var es' := es[i := Element(es[i].key, v)];
    ReplaceElement(es, i, v);
    ContentsAround(es, i);
    ContentsAround(es', i);
    assert es'[..i] == es[..i] && es'[i + 1..] == es[i + 1..];
  }

  lemma DeleteContents(es: seq<Element>, i: nat)
    requires SortedKeys(es) && i < |es|
    ensures Contents(es[..i] + es[i + 1..]) == Contents(es) - {es[i].key}
    ensures es[i].key in Contents(es) && Contents(es)[es[i].key] == es[i].value
  {
    hide Contents, SortedKeys;
    ContentsAround(es, i);
    ContentsConcat(es[..i], es[i + 1..]);
  }

  /** A table found by key is one of the kids. */
  lemma {:induction false} ContentsKids(es: seq<Element>, k: int, t: TableId)
    requires k in Contents(es) && Contents(es)[k] == Ref(t)
    ensures t in Kids(es)
  {
    var init, e := es[..|es| - 1], es[|es| - 1];
    assert es == init + [e];
    KidsConcat(init, [e]);
    KidsSingle(e);
    if e.key != k { ContentsKids(init, k, t); }
  }
}
