/**
 Facts about prefixes of sequences, and the arbitrary-order listing of a set.
 */
module Sequences {

  lemma PrefixStep<T>(s: seq<T>, i: nat)
    requires i < |s|
    ensures s[..i + 1][..i] == s[..i]
    ensures s[..i + 1] == s[..i] + [s[i]]
  {
  }

  lemma WholePrefix<T>(s: seq<T>)
    ensures s[..|s|] == s
  {
  }

  lemma ConcatAssociative<T>(a: seq<T>, b: seq<T>, c: seq<T>)
    ensures a + b + c == a + (b + c)
  {
  }

  predicate NoDuplicates<T(==)>(s: seq<T>) {
    forall i, j :: 0 <= i < j < |s| ==> s[i] != s[j]
  }

  lemma InsertAt<T>(s: seq<T>, p: nat, x: T)
    requires p <= |s| && NoDuplicates(s) && x !in s
    ensures NoDuplicates(s[..p] + [x] + s[p..])
    ensures forall y :: y in s[..p] + [x] + s[p..] <==> y == x || y in s
  {
    assert s == s[..p] + s[p..];
  }

  lemma {:induction false} SubsetSize<T>(a: set<T>, b: set<T>)
    requires a <= b
    ensures |a| <= |b|
  {
    if a != {} {
      var x :| x in a;
      SubsetSize(a - {x}, b - {x});
    }
  }

  // Moving x from what is left to what is done.
  lemma MoveOver<T>(done: set<T>, rest: set<T>, all: set<T>, x: T)
    requires done + rest == all && done !! rest && x in rest
    ensures x !in done && (done + {x}) + (rest - {x}) == all && (done + {x}) !! (rest - {x})
  {
  }

  lemma MinusCommutes<K, V>(m: map<K, V>, a: K, b: K)
    ensures m - {a} - {b} == m - {b} - {a}
  {
  }

  // Leaving out one more key.
  lemma MinusPart<K, V>(m: map<K, V>, rest: set<K>, k: K)
    requires k in rest
    ensures m - (rest - {k}) - {k} == m - rest
    ensures k !in m ==> m - (rest - {k}) == m - rest
  {
  }

  // `done` is the part of m whose keys are not in `rest`.
  ghost predicate Remaining<K(!new), V(!new)>(m: map<K, V>, done: map<K, V>, rest: set<K>) {
    && rest <= m.Keys && done.Keys == m.Keys - rest
    && forall k :: k in done ==> done[k] == m[k]
  }

  lemma RemainingStep<K(!new), V(!new)>(m: map<K, V>, done: map<K, V>, rest: set<K>, k: K)
    requires Remaining(m, done, rest) && k in rest
    ensures k !in done && Remaining(m, done[k := m[k]], rest - {k})
  {
  }

  lemma RemainingNone<K(!new), V(!new)>(m: map<K, V>, done: map<K, V>)
    requires Remaining(m, done, {})
    ensures done == m
  {
  }

  // The elements of s in some order, as Go lists a set or ranges over a map.
  method UnsortedList<T(==)>(s: set<T>) returns (list: seq<T>)
    ensures NoDuplicates(list) && |list| == |s|
    ensures forall x :: x in list <==> x in s
  {
    list := [];
    var rest := s;
    while rest != {}
      invariant rest <= s && NoDuplicates(list) && |list| + |rest| == |s|
      invariant forall x :: x in list <==> x in s && x !in rest
      decreases rest
    {
      var x :| x in rest;
      rest := rest - {x};
      list := list + [x];
    }
  }
}
