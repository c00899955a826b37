/** Sorting by a relation: the result is a sorted permutation, and the only one. */
module Sorting {

  ghost predicate TotalOrder<T(!new)>(leq: (T, T) -> bool) {
    && (forall a, b :: leq(a, b) || leq(b, a))
    && (forall a, b, c :: leq(a, b) && leq(b, c) ==> leq(a, c))
  }

  ghost predicate SortedBy<T>(leq: (T, T) -> bool, xs: seq<T>) {
    forall i, j :: 0 <= i < j < |xs| ==> leq(xs[i], xs[j])
  }

  /** Members that tie are the same member */
  ghost predicate Antisymmetric<T>(leq: (T, T) -> bool, xs: seq<T>) {
    forall i, j :: 0 <= i < |xs| && 0 <= j < |xs| && leq(xs[i], xs[j]) && leq(xs[j], xs[i]) ==> xs[i] == xs[j]
  }

  function Insert<T>(leq: (T, T) -> bool, xs: seq<T>, x: T): seq<T> {
    if xs == [] || leq(xs[|xs| - 1], x) then xs + [x]
    else Insert(leq, xs[..|xs| - 1], x) + [xs[|xs| - 1]]
  }

  function Sort<T>(leq: (T, T) -> bool, xs: seq<T>): seq<T> {
    if xs == [] then []
    else Insert(leq, Sort(leq, xs[..|xs| - 1]), xs[|xs| - 1])
  }

  lemma SameMembers<T>(a: seq<T>, b: seq<T>)
    requires multiset(a) == multiset(b)
    ensures |a| == |b|
    ensures forall x :: x in a <==> x in b
  {
    assert |multiset(a)| == |multiset(b)|;
    forall x ensures x in a <==> x in b {
      assert x in a <==> x in multiset(a);
      assert x in b <==> x in multiset(b);
    }
  }

  lemma {:induction false} InsertMembers<T>(leq: (T, T) -> bool, xs: seq<T>, x: T)
    ensures multiset(Insert(leq, xs, x)) == multiset(xs) + multiset{x}
  {
    if xs != [] && !leq(xs[|xs| - 1], x) {
      InsertMembers(leq, xs[..|xs| - 1], x);
      assert xs == xs[..|xs| - 1] + [xs[|xs| - 1]];
    }
  }

  lemma {:induction false} InsertSorts<T(!new)>(leq: (T, T) -> bool, xs: seq<T>, x: T)
    requires TotalOrder(leq) && SortedBy(leq, xs)
    ensures SortedBy(leq, Insert(leq, xs, x))
  {
    if xs == [] {
    } else if leq(xs[|xs| - 1], x) {
      forall i | 0 <= i < |xs| ensures leq(xs[i], x) {
        assert i < |xs| - 1 ==> leq(xs[i], xs[|xs| - 1]);
      }
    } else {
      var n := |xs| - 1;
      var front := Insert(leq, xs[..n], x);
      InsertSorts(leq, xs[..n], x);
      InsertMembers(leq, xs[..n], x);
      SameMembers(front, xs[..n] + [x]);
      forall i | 0 <= i < |front| ensures leq(front[i], xs[n]) {
        assert front[i] in xs[..n] + [x];
      }
    }
  }

  lemma {:induction false} SortSorts<T(!new)>(leq: (T, T) -> bool, xs: seq<T>)
    requires TotalOrder(leq)
    ensures SortedBy(leq, Sort(leq, xs))
    ensures multiset(Sort(leq, xs)) == multiset(xs) && |Sort(leq, xs)| == |xs|
  {
    if xs != [] {
      var n := |xs| - 1;
      SortSorts(leq, xs[..n]);
      InsertSorts(leq, Sort(leq, xs[..n]), xs[n]);
      InsertMembers(leq, Sort(leq, xs[..n]), xs[n]);
      assert xs == xs[..n] + [xs[n]];
      SameMembers(Sort(leq, xs), xs);
    }
  }

  lemma DropLast<T>(a: seq<T>)
    requires a != []
    ensures a == a[..|a| - 1] + [a[|a| - 1]]
    ensures multiset(a[..|a| - 1]) == multiset(a) - multiset{a[|a| - 1]}
  {
    assert a == a[..|a| - 1] + [a[|a| - 1]];
  }

  lemma LastsAgree<T(!new)>(leq: (T, T) -> bool, a: seq<T>, b: seq<T>)
    requires TotalOrder(leq) && Antisymmetric(leq, a) && a != [] && |a| == |b|
    requires forall x :: x in a <==> x in b
    requires SortedBy(leq, a) && SortedBy(leq, b)
    ensures a[|a| - 1] == b[|b| - 1]
  {
    var n := |a| - 1;
    assert a[n] in b && b[n] in a;
    var i :| 0 <= i < |b| && b[i] == a[n];
    var j :| 0 <= j < |a| && a[j] == b[n];
    assert leq(b[i], b[n]) && leq(a[j], a[n]);
  }

  /** Two sorted arrangements of the same members are equal when no two members tie. */
  lemma {:induction false} SortedPermutationsAgree<T(!new)>(leq: (T, T) -> bool, a: seq<T>, b: seq<T>)
    requires TotalOrder(leq) && Antisymmetric(leq, a)
    requires SortedBy(leq, a) && SortedBy(leq, b) && multiset(a) == multiset(b)
    ensures a == b
  {
    SameMembers(a, b);
    if a != [] {
      var n := |a| - 1;
      LastsAgree(leq, a, b);
      DropLast(a);
      DropLast(b);
      SortedPermutationsAgree(leq, a[..n], b[..n]);
    }
  }
}
