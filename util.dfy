/** Shared helpers: an Option type for JavaScript's `undefined`/`null`
    results, and the order-preserving `Array.prototype.filter` that every
    page uses to narrow its lists. */
module Util {

  datatype Option<+T> = None | Some(value: T)

  /** The `variant` names of the badge component used across the pages. */
  datatype BadgeVariant = Default | Secondary | Outline | Destructive | Success | Warning

  /** `xs.filter(p)`: the elements of `s` that satisfy `p`, in their
      original order. */
  function Filter<T(!new)>(s: seq<T>, p: T -> bool): (r: seq<T>)
    ensures |r| <= |s|
    ensures forall x :: x in r <==> x in s && p(x)
    ensures forall i :: 0 <= i < |r| ==> p(r[i])
  {
    if s == [] then []
    else (if p(s[0]) then [s[0]] else []) + Filter(s[1..], p)
  }

  /** One step of the filter: the head is kept or dropped, then the rest. */
  lemma FilterCons<T(!new)>(x: T, s: seq<T>, p: T -> bool)
    ensures Filter([x] + s, p) == (if p(x) then [x] else []) + Filter(s, p)
  {
    assert ([x] + s)[1..] == s;
  }

  /** Regrouping a concatenation. Stated on its own so that proofs about
      filters can use it without unfolding the filters' contracts. */
  lemma ConcatAssoc<T>(a: seq<T>, b: seq<T>, c: seq<T>)
    ensures a + (b + c) == (a + b) + c
  {
  }

  /** `r` can be obtained from `s` by deleting elements, without reordering. */
  predicate IsSubsequence<T(==)>(r: seq<T>, s: seq<T>)
  {
    if r == [] then true
    else if s == [] then false
    else (r[0] == s[0] && IsSubsequence(r[1..], s[1..])) || IsSubsequence(r, s[1..])
  }

  lemma {:induction false} FilterIsSubsequence<T(!new)>(s: seq<T>, p: T -> bool)
    ensures IsSubsequence(Filter(s, p), s)
  {
    if s != [] {
      FilterIsSubsequence(s[1..], p);
      assert Filter(s, p) == (if p(s[0]) then [s[0]] else []) + Filter(s[1..], p);
      if p(s[0]) {
        assert Filter(s, p)[1..] == Filter(s[1..], p);
      } else {
        assert Filter(s, p) == Filter(s[1..], p);
      }
    }
  }

  /** Filtering distributes over concatenation: the kept elements of a
      prefix come before the kept elements of the rest. */
  lemma {:induction false} FilterAppend<T(!new)>(a: seq<T>, b: seq<T>, p: T -> bool)
    ensures Filter(a + b, p) == Filter(a, p) + Filter(b, p)
  {
    if a != [] {
      assert (a + b)[1..] == a[1..] + b;
      FilterAppend(a[1..], b, p);
    } else {
      assert a + b == b;
    }
  }

  /** A filter whose predicate holds everywhere keeps the list as it is. */
  lemma {:induction false} FilterAllKept<T(!new)>(s: seq<T>, p: T -> bool)
    requires forall x :: x in s ==> p(x)
    ensures Filter(s, p) == s
  {
    if s != [] {
      FilterAllKept(s[1..], p);
    }
  }

  /** A filter whose predicate holds nowhere keeps nothing. */
  lemma {:induction false} FilterNoneKept<T(!new)>(s: seq<T>, p: T -> bool)
    requires forall x :: x in s ==> !p(x)
    ensures Filter(s, p) == []
  {
    if s != [] {
      FilterNoneKept(s[1..], p);
    }
  }

  /** Two predicates that agree on every element of `s` filter it alike. */
  lemma {:induction false} FilterAgree<T(!new)>(s: seq<T>, p: T -> bool, q: T -> bool)
    requires forall x :: x in s ==> (p(x) <==> q(x))
    ensures Filter(s, p) == Filter(s, q)
  {
    if s != [] {
      FilterAgree(s[1..], p, q);
    }
  }

  /** A filter and its complement split a list: together they hold each
      element exactly as often as the list does. */
  lemma {:induction false} FilterPartition<T(!new)>(s: seq<T>, p: T -> bool, q: T -> bool)
    requires forall x :: q(x) <==> !p(x)
    ensures multiset(Filter(s, p)) + multiset(Filter(s, q)) == multiset(s)
  {
    if s != [] {
      FilterPartition(s[1..], p, q);
      if p(s[0]) {
        PartitionStep(s, p, q);
      } else {
        PartitionStep(s, q, p);
      }
    }
  }

  /** One element more, kept by `p` and not by `q`: it lands in the first
      part only. */
  lemma PartitionStep<T(!new)>(s: seq<T>, p: T -> bool, q: T -> bool)
    requires s != [] && p(s[0]) && !q(s[0])
    requires multiset(Filter(s[1..], p)) + multiset(Filter(s[1..], q)) == multiset(s[1..])
    ensures multiset(Filter(s, p)) + multiset(Filter(s, q)) == multiset(s)
    ensures multiset(Filter(s, q)) + multiset(Filter(s, p)) == multiset(s)
  {
    FilterHead(s, p);
    FilterHead(s, q);
    HeadSplit(s);
    AddOne(s[0], multiset(Filter(s[1..], p)), multiset(Filter(s[1..], q)), multiset(s[1..]));
  }

  lemma FilterHead<T(!new)>(s: seq<T>, p: T -> bool)
    requires s != []
    ensures p(s[0]) ==> multiset(Filter(s, p)) == multiset{s[0]} + multiset(Filter(s[1..], p))
    ensures !p(s[0]) ==> Filter(s, p) == Filter(s[1..], p)
  {
    if p(s[0]) {
      assert Filter(s, p) == [s[0]] + Filter(s[1..], p);
    }
  }

  lemma HeadSplit<T>(s: seq<T>)
    requires s != []
    ensures multiset(s) == multiset{s[0]} + multiset(s[1..])
  {
    assert s == [s[0]] + s[1..];
  }

  /** Regrouping a multiset sum, stated on its own for the same reason. */
  lemma AddOne<T>(x: T, a: multiset<T>, b: multiset<T>, r: multiset<T>)
    requires a + b == r
    ensures (multiset{x} + a) + b == multiset{x} + r
    ensures b + (multiset{x} + a) == multiset{x} + r
  {
  }

  /** Chaining two filters keeps exactly what one filter on the
      conjunction keeps, in the same order. */
  lemma {:induction false} FilterFilter<T(!new)>(s: seq<T>, p: T -> bool, q: T -> bool, pq: T -> bool)
    requires forall x :: pq(x) <==> p(x) && q(x)
    ensures Filter(Filter(s, p), q) == Filter(s, pq)
  {
    if s != [] {
      FilterFilter(s[1..], p, q, pq);
      var fp := Filter(s, p);
      assert fp == (if p(s[0]) then [s[0]] else []) + Filter(s[1..], p);
      if p(s[0]) {
        assert fp[0] == s[0] && fp[1..] == Filter(s[1..], p);
        assert Filter(fp, q) == (if q(s[0]) then [s[0]] else []) + Filter(Filter(s[1..], p), q);
      } else {
        assert fp == Filter(s[1..], p);
      }
    }
  }

  /** `xs.find(p)`: the first element that satisfies `p`, or `undefined`. */
  function Find<T(!new)>(s: seq<T>, p: T -> bool): (r: Option<T>)
    ensures r.None? <==> forall x :: x in s ==> !p(x)
    ensures r.Some? ==> exists i :: 0 <= i < |s| && s[i] == r.value && p(s[i]) && forall j :: 0 <= j < i ==> !p(s[j])
  {
    if s == [] then None
    else if p(s[0]) then Some(s[0])
    else
      Find(s[1..], p)
  }
}
