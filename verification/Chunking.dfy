/** Cutting a file into hashed chunks and putting it together again (file/chunking.go). */
module Chunking {
  import opened Wrappers
  import opened Collections
  import opened FileMetadata
  import opened FloatCeiling

  datatype Chunk = Chunk(index: int, data: Bytes, hash: Hash)

  function Min(a: int, b: int): int {
    if a <= b then a else b
  }

  /** The bytes of chunk `i`. */
  function Piece(data: Bytes, chunkSize: int, i: nat): Bytes
    requires chunkSize > 0
  {
    var lo := Min(i * chunkSize, |data|);
    data[lo..Min(lo + chunkSize, |data|)]
  }

  function ChunkAt(sha: HashFunction, data: Bytes, chunkSize: int, i: nat): Chunk
    requires chunkSize > 0
  {
    var piece := Piece(data, chunkSize, i);
    Chunk(i, piece, sha(piece))
  }

  /** The specification of `SplitFile`. */
  function Split(sha: HashFunction, data: Bytes, chunkSize: int): (chunks: seq<Chunk>)
    requires chunkSize > 0
  {
    seq(CeilDiv(|data|, chunkSize), (i: nat) => ChunkAt(sha, data, chunkSize, i))
  }

  method CountChunks(rnd: real -> real, n: nat, d: int) returns (k: nat)
    requires IsRounding(rnd) && n < TWO53 && 0 < d < TWO63
    ensures k == CeilDiv(n, d)
  {
    FloatCeilingIsExact(rnd, n, d);
    k := FloatCeilDiv(rnd, n, d);
  }

  /** One iteration of `SplitFile`: the slice bounds never overflow and never leave the data. */
  method CutChunk(sha: HashFunction, data: Bytes, chunkSize: int, i: nat) returns (c: Chunk)
    requires |data| < TWO53 && 0 < chunkSize < TWO63 && i < CeilDiv(|data|, chunkSize)
    ensures c == ChunkAt(sha, data, chunkSize, i)
  {
    SliceBoundsFit(|data|, chunkSize, i);
    var start := i * chunkSize;
    var end := start + chunkSize;
    assert 0 <= start < end < TWO63;
    if end > |data| {
      end := |data|;
    }
    var chunkData := data[start..end];
    c := Chunk(i, chunkData, sha(chunkData));
  }

  /** The loop of `SplitFile`; the chunk count goes through float64, rounded by `rnd`. */
  method SplitFile(sha: HashFunction, rnd: real -> real, data: Bytes, chunkSize: int) returns (r: Option<seq<Chunk>>)
    requires IsRounding(rnd) && |data| < TWO53 && chunkSize < TWO63
    ensures chunkSize <= 0 ==> r == None
    ensures chunkSize > 0 ==> r == Some(Split(sha, data, chunkSize))
  {
    if chunkSize <= 0 {
      return None;
    }
    var totalChunks := CountChunks(rnd, |data|, chunkSize);
    var chunks := [];
    var i := 0;
    while i < totalChunks
      invariant 0 <= i <= totalChunks
      invariant |chunks| == i && forall k :: 0 <= k < i ==> chunks[k] == ChunkAt(sha, data, chunkSize, k)
    {
      var chunk := CutChunk(sha, data, chunkSize, i);
      chunks := chunks + [chunk];
      i := i + 1;
    }
    assert chunks == Split(sha, data, chunkSize);
    return Some(chunks);
  }

  /** Every chunk but the last is full, none is empty, and chunk `i` carries index `i` and its own hash. */
  lemma SplitShape(sha: HashFunction, data: Bytes, chunkSize: int, i: nat)
    requires chunkSize > 0 && i < |Split(sha, data, chunkSize)|
    ensures var chunks := Split(sha, data, chunkSize);
            && chunks[i].index == i
            && chunks[i].hash == sha(chunks[i].data)
            && 0 < |chunks[i].data| <= chunkSize
            && (i < |chunks| - 1 ==> |chunks[i].data| == chunkSize)
            && i * chunkSize + |chunks[i].data| <= |data|
            && chunks[i].data == data[i * chunkSize..i * chunkSize + |chunks[i].data|]
  {
    var n := CeilDiv(|data|, chunkSize);
    IntCancel(i, n - 1, chunkSize);
    if i < n - 1 {
      IntCancel(i + 1, n - 1, chunkSize);
    }
  }

  /** Concatenation of the chunk data in list order: the second loop of `MergeChunks`. */
  function Concat(chunks: seq<Chunk>): Bytes {
    if chunks == [] then [] else Concat(chunks[..|chunks| - 1]) + chunks[|chunks| - 1].data
  }

  lemma ConcatAppend(chunks: seq<Chunk>, c: Chunk)
    ensures Concat(chunks + [c]) == Concat(chunks) + c.data
  {
    assert (chunks + [c])[..|chunks|] == chunks;
  }

  lemma PieceExtends(data: Bytes, chunkSize: int, k: nat)
    requires chunkSize > 0
    ensures data[..Min(k * chunkSize, |data|)] + Piece(data, chunkSize, k) == data[..Min((k + 1) * chunkSize, |data|)]
  {
    assert (k + 1) * chunkSize == k * chunkSize + chunkSize;
  }

  lemma {:induction false} ConcatOfSplitPrefix(sha: HashFunction, data: Bytes, chunkSize: int, k: nat)
    requires chunkSize > 0 && k <= |Split(sha, data, chunkSize)|
    ensures Concat(Split(sha, data, chunkSize)[..k]) == data[..Min(k * chunkSize, |data|)]
  {
    if k > 0 {
      var chunks := Split(sha, data, chunkSize);
      ConcatOfSplitPrefix(sha, data, chunkSize, k - 1);
      assert chunks[..k] == chunks[..k - 1] + [chunks[k - 1]];
      ConcatAppend(chunks[..k - 1], chunks[k - 1]);
      PieceExtends(data, chunkSize, k - 1);
    }
  }

  lemma ConcatOfSplit(sha: HashFunction, data: Bytes, chunkSize: int)
    requires chunkSize > 0
    ensures Concat(Split(sha, data, chunkSize)) == data
  {
    var chunks := Split(sha, data, chunkSize);
    ConcatOfSplitPrefix(sha, data, chunkSize, |chunks|);
    assert chunks[..|chunks|] == chunks;
  }

  ghost predicate SortedByIndex(chunks: seq<Chunk>) {
    forall i, j :: 0 <= i < j < |chunks| ==> chunks[i].index <= chunks[j].index
  }

  /** A result `sort.Slice` may produce. The sort is not stable, so ties may come out in any order. */
  ghost predicate SortedPermutation(chunks: seq<Chunk>, sorted: seq<Chunk>) {
    Permutation(chunks, sorted) && SortedByIndex(sorted)
  }

  function Indices(chunks: seq<Chunk>): seq<int> {
    seq(|chunks|, i requires 0 <= i < |chunks| => chunks[i].index)
  }

  lemma LastElementsAgree(a: seq<Chunk>, b: seq<Chunk>)
    requires a != [] && b != [] && Permutation(a, b) && SortedByIndex(a) && SortedByIndex(b)
    requires NoDuplicates(Indices(a))
    ensures a[|a| - 1] == b[|b| - 1]
  {
    var x, y := a[|a| - 1], b[|b| - 1];
    assert x in multiset(b) && y in multiset(a);
    var i :| 0 <= i < |b| && b[i] == x;
    var j :| 0 <= j < |a| && a[j] == y;
    assert x.index == y.index;
    assert Indices(a)[j] == Indices(a)[|a| - 1];
  }

  /** Two sorted arrangements of chunks with distinct indices are equal. */
  lemma {:induction false} SortedPermutationUnique(a: seq<Chunk>, b: seq<Chunk>)
    requires Permutation(a, b) && SortedByIndex(a) && SortedByIndex(b)
    requires NoDuplicates(Indices(a))
    ensures a == b
    decreases |a|
  {
    assert |a| == |multiset(a)| == |multiset(b)| == |b|;
    if a != [] {
      var a', b', x := a[..|a| - 1], b[..|b| - 1], a[|a| - 1];
      LastElementsAgree(a, b);
      DropEqualLast(a, b);
      assert Indices(a') == Indices(a)[..|a| - 1];
      SortedPermutationUnique(a', b');
      assert a == a' + [x] && b == b' + [x];
    }
  }

  lemma SplitIsSorted(sha: HashFunction, data: Bytes, chunkSize: int)
    requires chunkSize > 0
    ensures SortedByIndex(Split(sha, data, chunkSize)) && NoDuplicates(Indices(Split(sha, data, chunkSize)))
  {
  }

  /** Whatever order the chunks arrive in and however the sort works, merging gives back the file. */
  lemma SplitMergeRoundTrip(sha: HashFunction, data: Bytes, chunkSize: int, arrived: seq<Chunk>, sorted: seq<Chunk>)
    requires chunkSize > 0
    requires Permutation(Split(sha, data, chunkSize), arrived)
    requires SortedPermutation(arrived, sorted)
    ensures Concat(sorted) == data
  {
    SplitIsSorted(sha, data, chunkSize);
    SortedPermutationUnique(Split(sha, data, chunkSize), sorted);
    ConcatOfSplit(sha, data, chunkSize);
  }

  /** With a repeated index the merged bytes are NOT determined: both orders are sorted permutations. */
  lemma RepeatedIndexIsAmbiguous(c: Chunk, d: Chunk)
    requires c.index == d.index && c.data == [1] && d.data == [2]
    ensures SortedPermutation([c, d], [c, d]) && SortedPermutation([c, d], [d, c])
    ensures Concat([c, d]) != Concat([d, c])
  {
    assert multiset([c, d]) == multiset{c, d} == multiset([d, c]);
    ConcatPair(c, d);
    ConcatPair(d, c);
    assert ([1] + [2])[0] != ([2] + [1])[0];
  }

  lemma ConcatPair(c: Chunk, d: Chunk)
    ensures Concat([c, d]) == c.data + d.data
  {
    assert [c, d] == ([] + [c]) + [d];
    ConcatAppend([], c);
    ConcatAppend([] + [c], d);
  }

  /** A sorted permutation always exists; used where some run of the sort has to be named. */
  function SortByIndex(chunks: seq<Chunk>): (sorted: seq<Chunk>)
    ensures SortedPermutation(chunks, sorted)
  {
    if chunks == [] then []
    else
      MultisetOfInit(chunks);
      Insert(SortByIndex(chunks[..|chunks| - 1]), chunks[|chunks| - 1])
  }

  function Insert(sorted: seq<Chunk>, c: Chunk): (r: seq<Chunk>)
    requires SortedByIndex(sorted)
    ensures SortedByIndex(r) && multiset(r) == multiset(sorted) + multiset{c}
  {
    if sorted == [] || sorted[|sorted| - 1].index <= c.index then sorted + [c]
    else
      var n := |sorted| - 1;
      MultisetOfInit(sorted);
      var r := Insert(sorted[..n], c);
      InsertKeepsBound(sorted[..n], c, r, sorted[n].index);
      r + [sorted[n]]
  }

  lemma InsertKeepsBound(s: seq<Chunk>, c: Chunk, r: seq<Chunk>, bound: int)
    requires multiset(r) == multiset(s) + multiset{c}
    requires c.index <= bound && forall i :: 0 <= i < |s| ==> s[i].index <= bound
    ensures forall i :: 0 <= i < |r| ==> r[i].index <= bound
  {
    forall i | 0 <= i < |r| ensures r[i].index <= bound {
      assert r[i] in multiset(r);
      assert r[i] in multiset(s) || r[i] == c;
    }
  }

  method SwapWithPrevious(a: array<Chunk>, j: nat)
    requires 0 < j < a.Length
    modifies a
    ensures a[j] == old(a[j - 1]) && a[j - 1] == old(a[j])
    ensures forall k :: 0 <= k < a.Length && k != j && k != j - 1 ==> a[k] == old(a[k])
    ensures Permutation(old(a[..]), a[..])
  {
    a[j - 1], a[j] := a[j], a[j - 1];
  }

  /** Moves element `i` down to its place in the sorted part. */
  method InsertInPlace(a: array<Chunk>, i: nat)
    requires i < a.Length && SortedByIndex(a[..i])
    modifies a
    ensures SortedByIndex(a[..i + 1]) && Permutation(old(a[..]), a[..])
  {
    var j := i;
    while j > 0 && a[j].index < a[j - 1].index
      invariant 0 <= j <= i
      invariant Permutation(old(a[..]), a[..])
      invariant forall k, l :: 0 <= k < l <= i && l != j ==> a[k].index <= a[l].index
    {
      SwapWithPrevious(a, j);
      j := j - 1;
    }
  }

  /** `sort.Slice` by index, in place. Only the permutation and the order are promised, not stability. */
  method SortInPlace(a: array<Chunk>)
    modifies a
    ensures SortedPermutation(old(a[..]), a[..])
  {
    var i := 0;
    while i < a.Length
      invariant 0 <= i <= a.Length
      invariant Permutation(old(a[..]), a[..])
      invariant SortedByIndex(a[..i])
    {
      InsertInPlace(a, i);
      i := i + 1;
    }
    assert a[..i] == a[..];
  }

  /** Sorts in place, then appends the chunk data one by one. */
  method MergeChunks(chunks: array<Chunk>) returns (data: Bytes)
    modifies chunks
    ensures SortedPermutation(old(chunks[..]), chunks[..])
    ensures data == Concat(chunks[..])
  {
    SortInPlace(chunks);
    data := [];
    var i := 0;
    while i < chunks.Length
      invariant 0 <= i <= chunks.Length
      invariant data == Concat(chunks[..i])
      invariant SortedPermutation(old(chunks[..]), chunks[..])
    {
      data := data + chunks[i].data;
      assert chunks[..i + 1] == chunks[..i] + [chunks[i]];
      ConcatAppend(chunks[..i], chunks[i]);
      i := i + 1;
    }
    assert chunks[..i] == chunks[..];
  }
}
