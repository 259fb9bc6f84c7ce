/**
 When the bytes that `MergeChunks` returns are determined although `sort.Slice` is not stable (file/chunking.go:48):
 exactly when chunks that share an index can be concatenated in either order.
 */
module MergeOrder {
  import opened Collections
  import opened FileMetadata
  import opened Chunking

  predicate Commute(a: Bytes, b: Bytes) {
    a + b == b + a
  }

  ghost predicate SameIndexCommutes(chunks: seq<Chunk>) {
    forall c, d :: c in chunks && d in chunks && c.index == d.index ==> Commute(c.data, d.data)
  }

  /** Every way the sort may come out gives the same merged bytes. */
  ghost predicate MergeIsDetermined(chunks: seq<Chunk>) {
    forall s, s' :: SortedPermutation(chunks, s) && SortedPermutation(chunks, s') ==> Concat(s) == Concat(s')
  }

  lemma {:induction false} ConcatConcat(a: seq<Chunk>, b: seq<Chunk>)
    ensures Concat(a + b) == Concat(a) + Concat(b)
    decreases |b|
  {
    if b == [] {
      assert a + b == a;
    } else {
      var n := |b| - 1;
      ConcatConcat(a, b[..n]);
      assert (a + b)[..|a + b| - 1] == a + b[..n];
    }
  }

  lemma {:induction false} MoveToEnd(x: Chunk, s: seq<Chunk>)
    requires forall c :: c in s ==> Commute(x.data, c.data)
    ensures Concat([x] + s) == Concat(s) + x.data
    decreases |s|
  {
    if s == [] {
      assert [x] + s == [] + [x];
      ConcatAppend([], x);
    } else {
      var n := |s| - 1;
      MoveToEnd(x, s[..n]);
      assert [x] + s == ([x] + s[..n]) + [s[n]];
      ConcatAppend([x] + s[..n], s[n]);
      assert Commute(x.data, s[n].data);
      assert Concat(s[..n]) + x.data + s[n].data == Concat(s[..n]) + (x.data + s[n].data);
      assert Concat(s[..n]) + (s[n].data + x.data) == Concat(s[..n]) + s[n].data + x.data;
    }
  }

  /** Behind a chunk of the greatest index there are only chunks of that index. */
  lemma BehindTheGreatest(b: seq<Chunk>, j: nat)
    requires j < |b| && SortedByIndex(b) && SameIndexCommutes(b)
    requires forall c :: c in b ==> c.index <= b[j].index
    ensures forall c :: c in b[j + 1..] ==> Commute(b[j].data, c.data)
  {
    forall c | c in b[j + 1..] ensures Commute(b[j].data, c.data) {
      var k :| j < k < |b| && b[k] == c;
      assert b[k].index == b[j].index;
    }
  }

  lemma MovePast(l: seq<Chunk>, x: Chunk, r: seq<Chunk>)
    requires forall c :: c in r ==> Commute(x.data, c.data)
    ensures Concat(l + ([x] + r)) == Concat(l + r) + x.data
  {
    ConcatConcat(l, [x] + r);
    ConcatConcat(l, r);
    MoveToEnd(x, r);
  }

  /** Taking a chunk of the greatest index out moves it past chunks of its own index only. */
  lemma TakeOut(b: seq<Chunk>, j: nat)
    requires j < |b| && SortedByIndex(b) && SameIndexCommutes(b)
    requires forall c :: c in b ==> c.index <= b[j].index
    ensures Concat(b) == Concat(b[..j] + b[j + 1..]) + b[j].data
  {
    BehindTheGreatest(b, j);
    MovePast(b[..j], b[j], b[j + 1..]);
    SplitAt(b, j);
  }

  lemma SplitAt<T>(b: seq<T>, j: nat)
    requires j < |b|
    ensures b == b[..j] + ([b[j]] + b[j + 1..])
  {
  }

  lemma SortedWithout(b: seq<Chunk>, j: nat)
    requires j < |b| && SortedByIndex(b)
    ensures SortedByIndex(b[..j] + b[j + 1..])
  {
  }

  lemma CommutesInPart(a: seq<Chunk>, b: seq<Chunk>)
    requires SameIndexCommutes(a) && forall c :: c in b ==> c in a
    ensures SameIndexCommutes(b)
  {
  }

  lemma SameElements(a: seq<Chunk>, b: seq<Chunk>)
    requires Permutation(a, b) && a != [] && SortedByIndex(a)
    ensures forall c :: c in b ==> c in a && c.index <= a[|a| - 1].index
  {
    forall c | c in b ensures c in a && c.index <= a[|a| - 1].index {
      assert c in multiset(a);
    }
  }

  lemma {:induction false} CommutingMergesAgree(a: seq<Chunk>, b: seq<Chunk>)
    requires Permutation(a, b) && SortedByIndex(a) && SortedByIndex(b) && SameIndexCommutes(a)
    ensures Concat(a) == Concat(b)
    decreases |a|
  {
    assert |a| == |multiset(a)| == |multiset(b)| == |b|;
    if a != [] {
      var x, a' := a[|a| - 1], a[..|a| - 1];
      assert x in multiset(b);
      var j :| 0 <= j < |b| && b[j] == x;
      SameElements(a, b);
      CommutesInPart(a, b);
      CommutesInPart(a, a');
      TakeOut(b, j);
      RemoveSame(a, b, j);
      SortedWithout(b, j);
      CommutingMergesAgree(a', b[..j] + b[j + 1..]);
    }
  }

  lemma RemoveSame(a: seq<Chunk>, b: seq<Chunk>, j: nat)
    requires Permutation(a, b) && a != [] && j < |b| && b[j] == a[|a| - 1]
    ensures Permutation(a[..|a| - 1], b[..j] + b[j + 1..])
  {
    MultisetOfInit(a);
    MultisetOfMiddle(b[..j], b[j], b[j + 1..]);
    assert b == b[..j] + [b[j]] + b[j + 1..];
    assert multiset(a[..|a| - 1]) == multiset(a) - multiset{b[j]};
  }

  /** `s` with the chunks at `p` and `q` placed next to each other at `p`, in the given order. */
  function Adjacent(s: seq<Chunk>, p: nat, q: nat, first: Chunk, second: Chunk): seq<Chunk>
    requires p < q < |s|
  {
    s[..p] + ([first, second] + (s[p + 1..q] + s[q + 1..]))
  }

  lemma AdjacentIsPermutation(s: seq<Chunk>, p: nat, q: nat)
    requires p < q < |s|
    ensures Permutation(s, Adjacent(s, p, q, s[p], s[q])) && Permutation(s, Adjacent(s, p, q, s[q], s[p]))
  {
    var l, m, r := s[..p], s[p + 1..q], s[q + 1..];
    assert s == l + [s[p]] + m + [s[q]] + r;
    assert multiset([s[p], s[q]]) == multiset{s[p], s[q]} == multiset([s[q], s[p]]);
  }

  lemma AdjacentIsSorted(s: seq<Chunk>, p: nat, q: nat, first: Chunk, second: Chunk)
    requires p < q < |s| && SortedByIndex(s) && s[p].index == s[q].index
    requires first.index == s[p].index && second.index == s[p].index
    ensures SortedByIndex(Adjacent(s, p, q, first, second))
  {
    var t := Adjacent(s, p, q, first, second);
    forall k | 0 <= k < |s| ensures t[k].index == s[k].index {
      if p + 2 <= k <= q {
        assert t[k] == s[k - 1];
      }
    }
  }

  lemma AdjacentDiffer(s: seq<Chunk>, p: nat, q: nat)
    requires p < q < |s| && !Commute(s[p].data, s[q].data)
    ensures Concat(Adjacent(s, p, q, s[p], s[q])) != Concat(Adjacent(s, p, q, s[q], s[p]))
  {
    var l, rest := s[..p], s[p + 1..q] + s[q + 1..];
    ConcatConcat([s[p], s[q]], rest);
    ConcatConcat([s[q], s[p]], rest);
    ConcatConcat(l, [s[p], s[q]] + rest);
    ConcatConcat(l, [s[q], s[p]] + rest);
    ConcatPair(s[p], s[q]);
    ConcatPair(s[q], s[p]);
    MiddleMatters(Concat(l), s[p].data + s[q].data, s[q].data + s[p].data, Concat(rest));
  }

  lemma MiddleMatters(l: Bytes, x: Bytes, y: Bytes, r: Bytes)
    requires |x| == |y| && x != y
    ensures l + (x + r) != l + (y + r)
  {
    assert (l + (x + r))[|l|..|l| + |x|] == x && (l + (y + r))[|l|..|l| + |x|] == y;
  }

  lemma NonCommutingIsAmbiguous(chunks: seq<Chunk>, c: Chunk, d: Chunk)
    requires c in chunks && d in chunks && c.index == d.index && !Commute(c.data, d.data)
    ensures !MergeIsDetermined(chunks)
  {
    var s := SortByIndex(chunks);
    assert c in multiset(s) && d in multiset(s);
    var i :| 0 <= i < |s| && s[i] == c;
    var j :| 0 <= j < |s| && s[j] == d;
    assert i != j;
    var p, q := Min(i, j), if i < j then j else i;
    AdjacentIsPermutation(s, p, q);
    AdjacentIsSorted(s, p, q, s[p], s[q]);
    AdjacentIsSorted(s, p, q, s[q], s[p]);
    AdjacentDiffer(s, p, q);
    assert SortedPermutation(chunks, Adjacent(s, p, q, s[p], s[q]));
    assert SortedPermutation(chunks, Adjacent(s, p, q, s[q], s[p]));
  }

  /**
   For every list of chunks: the merged bytes do not depend on how the sort orders ties if and only if any two chunks
   with the same index have data that commute under concatenation. Distinct indices are the special case.
   */
  lemma DeterminedIffCommuting(chunks: seq<Chunk>)
    ensures MergeIsDetermined(chunks) <==> SameIndexCommutes(chunks)
  {
    if SameIndexCommutes(chunks) {
      forall s, s' | SortedPermutation(chunks, s) && SortedPermutation(chunks, s') ensures Concat(s) == Concat(s') {
        forall c | c in s ensures c in chunks {
          assert c in multiset(s);
        }
        CommutesInPart(chunks, s);
        CommutingMergesAgree(s, s');
      }
    } else {
      var c, d :| c in chunks && d in chunks && c.index == d.index && !Commute(c.data, d.data);
      NonCommutingIsAmbiguous(chunks, c, d);
    }
  }
}
