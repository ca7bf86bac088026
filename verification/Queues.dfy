/** Queues as sequences: each member once, and taking a member out. */
module Queues {

  predicate NoDup<T(==)>(q: seq<T>) {
    q == [] || (q[0] !in q[1..] && NoDup(q[1..]))
  }

  /** The queue without t. */
  function Without<T(==)>(q: seq<T>, t: T): seq<T> {
    if q == [] then []
    else if q[0] == t then Without(q[1..], t)
    else [q[0]] + Without(q[1..], t)
  }

  lemma NoDupSingle<T>(t: T)
    ensures NoDup([t])
  {
  }

  lemma {:induction false} NoDupConcat<T>(a: seq<T>, b: seq<T>)
    ensures NoDup(a + b) <==> NoDup(a) && NoDup(b) && (forall x :: x in a ==> x !in b)
  {
    if a == [] {
      assert a + b == b;
    } else {
      assert (a + b)[1..] == a[1..] + b;
      NoDupConcat(a[1..], b);
      assert forall x :: x in a <==> x == a[0] || x in a[1..];
    }
  }

  lemma NoDupTail<T>(q: seq<T>)
    requires NoDup(q) && q != []
    ensures NoDup(q[1..]) && q[0] !in q[1..]
    ensures forall x :: x in q <==> x == q[0] || x in q[1..]
  {
  }

  lemma NoDupAppend<T>(q: seq<T>, t: T)
    requires NoDup(q) && t !in q
    ensures NoDup(q + [t])
  {
    hide NoDup;
    NoDupSingle(t);
    NoDupConcat(q, [t]);
  }

  lemma {:induction false} WithoutMembers<T>(q: seq<T>, t: T)
    ensures forall x :: x in Without(q, t) <==> x in q && x != t
  {
    if q != [] {
      WithoutMembers(q[1..], t);
      assert forall x :: x in q <==> x == q[0] || x in q[1..];
    }
  }

  lemma {:induction false} WithoutNoDup<T>(q: seq<T>, t: T)
    requires NoDup(q)
    ensures NoDup(Without(q, t))
  {
    if q != [] {
      WithoutNoDup(q[1..], t);
      WithoutMembers(q[1..], t);
      assert ([q[0]] + Without(q[1..], t))[1..] == Without(q[1..], t);
    }
  }

  lemma WithoutOk<T>(q: seq<T>, t: T)
    requires NoDup(q)
    ensures NoDup(Without(q, t)) && forall x :: x in Without(q, t) <==> x in q && x != t
  {
    hide NoDup, Without;
    WithoutNoDup(q, t);
    WithoutMembers(q, t);
  }

  lemma {:induction false} WithoutAbsent<T>(q: seq<T>, t: T)
    requires t !in q
    ensures Without(q, t) == q
  {
    if q != [] { WithoutAbsent(q[1..], t); }
  }

  lemma WithoutFirst<T>(q: seq<T>)
    requires NoDup(q) && q != []
    ensures Without(q, q[0]) == q[1..]
  {
    WithoutAbsent(q[1..], q[0]);
  }
}
