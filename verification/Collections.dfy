/** Facts about sequences, permutations and multisets that several components share. */
module Collections {
  import opened Wrappers

  ghost predicate Permutation<T>(a: seq<T>, b: seq<T>) {
    multiset(a) == multiset(b)
  }

  ghost predicate NoDuplicates<T>(s: seq<T>) {
    forall i, j :: 0 <= i < j < |s| ==> s[i] != s[j]
  }

  /** Applies `f` to every element in order and keeps the results that are present. */
  function FilterMap<A, B>(f: A -> Option<B>, s: seq<A>): seq<B> {
    if s == [] then []
    else
      var init := FilterMap(f, s[..|s| - 1]);
      match f(s[|s| - 1])
      case None => init
      case Some(b) => init + [b]
  }

  lemma MultisetOfInit<T>(s: seq<T>)
    requires s != []
    ensures multiset(s) == multiset(s[..|s| - 1]) + multiset{s[|s| - 1]}
  {
    assert s == s[..|s| - 1] + [s[|s| - 1]];
  }

  lemma MultisetOfPrefix<T>(s: seq<T>, k: nat)
    requires 0 < k <= |s|
    ensures multiset(s[..k]) == multiset(s[..k - 1]) + multiset{s[k - 1]}
  {
    assert s[..k] == s[..k - 1] + [s[k - 1]];
  }

  lemma DropEqualLast<T>(a: seq<T>, b: seq<T>)
    requires Permutation(a, b) && a != [] && b != [] && a[|a| - 1] == b[|b| - 1]
    ensures Permutation(a[..|a| - 1], b[..|b| - 1])
  {
    MultisetOfInit(a);
    MultisetOfInit(b);
    assert multiset(a[..|a| - 1]) == multiset(a) - multiset{a[|a| - 1]} == multiset(b[..|b| - 1]);
  }

  lemma HeadAndRest<T>(first: seq<T>, second: seq<T>)
    requires first != []
    ensures first + second == [first[0]] + (first[1..] + second)
  {
  }

  lemma MultisetOfMiddle<T>(l: seq<T>, x: T, r: seq<T>)
    ensures multiset(l + [x] + r) == multiset(l + r) + multiset{x}
    ensures multiset(l + r) == multiset(l + [x] + r) - multiset{x}
  {
  }

  lemma {:induction false} FilterMapConcat<A, B>(f: A -> Option<B>, a: seq<A>, b: seq<A>)
    ensures FilterMap(f, a + b) == FilterMap(f, a) + FilterMap(f, b)
  {
    if b == [] {
      assert a + b == a;
    } else {
      assert (a + b)[..|a + b| - 1] == a + b[..|b| - 1];
      FilterMapConcat(f, a, b[..|b| - 1]);
    }
  }

  lemma FilterMapOne<A, B>(f: A -> Option<B>, a: A)
    ensures FilterMap(f, [a]) == if f(a).Some? then [f(a).value] else []
  {
    assert [a][..0] == [];
    assert FilterMap(f, [a][..0]) == [];
  }

  lemma FilterMapMiddle<A, B>(f: A -> Option<B>, l: seq<A>, x: A, r: seq<A>)
    ensures multiset(FilterMap(f, l + [x] + r)) == multiset(FilterMap(f, l + r)) + multiset(FilterMap(f, [x]))
  {
    FilterMapConcat(f, l + [x], r);
    FilterMapConcat(f, l, [x]);
    FilterMapConcat(f, l, r);
  }

  /** The multiset of results depends only on the multiset of inputs, not on their order. */
  lemma {:induction false} FilterMapPermutation<A, B>(f: A -> Option<B>, a: seq<A>, b: seq<A>)
    requires Permutation(a, b)
    ensures Permutation(FilterMap(f, a), FilterMap(f, b))
    decreases |a|
  {
    assert |a| == |multiset(a)| == |multiset(b)| == |b|;
    if a != [] {
      var x, rest := a[0], a[1..];
      assert x in multiset(b);
      var i :| 0 <= i < |b| && b[i] == x;
      var l, r := b[..i], b[i + 1..];
      assert a == [] + [x] + rest;
      assert b == l + [x] + r;
      MultisetOfMiddle([], x, rest);
      MultisetOfMiddle(l, x, r);
      assert Permutation([] + rest, l + r) by {
        assert multiset([] + rest) == multiset(a) - multiset{x};
      }
      FilterMapPermutation(f, [] + rest, l + r);
      FilterMapMiddle(f, [], x, rest);
      FilterMapMiddle(f, l, x, r);
    }
  }
}
