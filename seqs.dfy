/** Sequence helpers shared by the detector and the backend models. */
module Seqs {

  /** No element occurs twice. */
  predicate Distinct<T(==)>(s: seq<T>) {
    forall i, j :: 0 <= i < j < |s| ==> s[i] != s[j]
  }

  /** The elements of `s` that satisfy `keep`, in their original order (JavaScript `filter`,
      a Python list comprehension with an `if`). */
  function Filter<T(!new)>(s: seq<T>, keep: T -> bool): (r: seq<T>)
    ensures |r| <= |s|
    ensures forall x :: x in r <==> x in s && keep(x)
  {
    if s == [] then []
    else
      assert s == [s[0]] + s[1..];
      if keep(s[0]) then [s[0]] + Filter(s[1..], keep) else Filter(s[1..], keep)
  }

  /** Filtering keeps every occurrence of a kept element and none of the others. */
  lemma {:induction false} FilterCounts<T(!new)>(s: seq<T>, keep: T -> bool, x: T)
    ensures multiset(Filter(s, keep))[x] == if keep(x) then multiset(s)[x] else 0
  {
    if s != [] {
      FilterCounts(s[1..], keep, x);
      assert s == [s[0]] + s[1..];
    }
  }

  /** Filtering keeps nothing exactly when no element passes. */
  lemma {:induction false} FilterEmptyIff<T(!new)>(s: seq<T>, keep: T -> bool)
    ensures Filter(s, keep) == [] <==> forall i :: 0 <= i < |s| ==> !keep(s[i])
  {
    if s != [] {
      FilterEmptyIff(s[1..], keep);
      if !keep(s[0]) {
        forall i | 1 <= i < |s| ensures s[i] == s[1..][i - 1] { }
      }
    }
  }

  /** Filtering distributes over concatenation, so the kept elements stay in input order. */
  lemma {:induction false} FilterAppend<T(!new)>(a: seq<T>, b: seq<T>, keep: T -> bool)
    ensures Filter(a + b, keep) == Filter(a, keep) + Filter(b, keep)
  {
    if a == [] {
      assert a + b == b;
    } else {
      assert (a + b)[0] == a[0] && (a + b)[1..] == a[1..] + b;
      FilterAppend(a[1..], b, keep);
      if keep(a[0]) {
        assert Filter(a + b, keep) == [a[0]] + (Filter(a[1..], keep) + Filter(b, keep));
      }
    }
  }

  /** Index of the first occurrence of `x` in `s`. */
  function FirstIndex<T(==)>(s: seq<T>, x: T): (k: nat)
    requires x in s
    ensures k < |s| && s[k] == x
    ensures forall j :: 0 <= j < k ==> s[j] != x
  {
    if s[0] == x then 0 else 1 + FirstIndex(s[1..], x)
  }

  /** The distinct elements of `s` in order of first occurrence (pandas `Series.unique`). */
  function Unique<T(==,!new)>(s: seq<T>): (r: seq<T>)
    ensures Distinct(r)
    ensures forall x :: x in r <==> x in s
  {
    if s == [] then []
    else
      var init := s[..|s| - 1];
      assert s == init + [s[|s| - 1]];
      var r := Unique(init);
      if s[|s| - 1] in r then r else r + [s[|s| - 1]]
  }

  lemma FirstIndexOfPrefix<T>(p: seq<T>, y: T, x: T)
    requires x in p
    ensures FirstIndex(p + [y], x) == FirstIndex(p, x)
  {
    var k, k' := FirstIndex(p, x), FirstIndex(p + [y], x);
    assert (p + [y])[k] == x;
  }

  /** `Unique` lists the distinct elements in the order in which they first occur in `s`. */
  lemma {:induction false} UniqueInFirstOccurrenceOrder<T(!new)>(s: seq<T>)
    ensures forall i, j :: 0 <= i < j < |Unique(s)| ==> FirstIndex(s, Unique(s)[i]) < FirstIndex(s, Unique(s)[j])
  {
    if s != [] {
      var init, last := s[..|s| - 1], s[|s| - 1];
      assert s == init + [last];
      UniqueInFirstOccurrenceOrder(init);
      var r0 := Unique(init);
      var r := Unique(s);
      assert r == if last in r0 then r0 else r0 + [last];
      forall i, j | 0 <= i < j < |r| ensures FirstIndex(s, r[i]) < FirstIndex(s, r[j]) {
        assert r[i] == r0[i] && r0[i] in init;
        FirstIndexOfPrefix(init, last, r0[i]);
        if j < |r0| {
          assert r[j] == r0[j] && r0[j] in init;
          FirstIndexOfPrefix(init, last, r0[j]);
          assert FirstIndex(init, r0[i]) < FirstIndex(init, r0[j]);
        } else {
          assert r[j] == last && last !in init;
          assert FirstIndex(s, last) == |init|;
        }
      }
    }
  }

  /** Lists the elements of a set, each once, in an unspecified order (Python `list(set(...))`). */
  method ListOfSet<T(==)>(s: set<T>) returns (r: seq<T>)
    ensures Distinct(r) && |r| == |s|
    ensures forall x :: x in r <==> x in s
  {
    r := [];
    var rest := s;
    while rest != {}
      invariant rest <= s
      invariant Distinct(r)
      invariant |r| + |rest| == |s|
      invariant forall x :: x in r <==> x in s && x !in rest
      decreases |rest|
    {
      var x :| x in rest;
      r := r + [x];
      rest := rest - {x};
    }
  }
}
