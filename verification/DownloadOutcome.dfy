/** What a successful download returns: the right bytes, from the assigned peers, evenly spread. */
module DownloadOutcome {
  import opened Collections
  import opened FileMetadata
  import opened Chunking
  import opened Upload
  import opened FloatCeiling
  import opened DownloadProtocol
  import opened DownloadInvariant
  import opened DownloadSafety
  import opened DownloadRefinement
  import opened Downloader

  predicate HasSucceeded(s: State) {
    s.main.Publishing? || s.main.Succeeded?
  }

  /** Success means that every goroutine exited with a verified chunk and that the announced count is the real one. */
  lemma SuccessMeansAllPassed(sha: HashFunction, cfg: Config, s: State)
    requires Inv(sha, cfg, s) && HasSucceeded(s)
    ensures cfg.meta.totalChunks == |cfg.meta.chunks|
    ensures forall k :: 0 <= k < |s.workers| ==>
              s.workers[k].Exited? && Passes(sha, cfg.meta.chunks[k], s.workers[k].reply)
    ensures Permutation(FinalResults(sha, cfg, s.workers), s.received)
    ensures Errors(FinalResults(sha, cfg, s.workers)) == []
  {
    CollectedAll(sha, cfg, s);
    var rs := FinalResults(sha, cfg, s.workers);
    VerdictPermutes(cfg, rs, s.received);
    AllGood(rs);
    forall k | 0 <= k < |s.workers| ensures Passes(sha, cfg.meta.chunks[k], s.workers[k].reply) {
      assert rs[k].Good?;
    }
  }

  /** Two different byte strings with the same hash were seen: a piece of the file and a reply to its request. */
  ghost predicate CollisionFound(sha: HashFunction, data: Bytes, s: State) {
    exists k :: 0 <= k < |s.workers| && Collides(sha, Piece(data, CHUNK_SIZE, k), s.workers[k])
  }

  ghost predicate Collides(sha: HashFunction, piece: Bytes, w: Worker) {
    w.Exited? && w.reply.Some? && w.reply.value != piece && sha(w.reply.value) == sha(piece)
  }

  lemma {:induction false} ConcatDependsOnData(a: seq<Chunk>, b: seq<Chunk>)
    requires |a| == |b| && forall i :: 0 <= i < |a| ==> a[i].data == b[i].data
    ensures Concat(a) == Concat(b)
    decreases |a|
  {
    if a != [] {
      ConcatDependsOnData(a[..|a| - 1], b[..|b| - 1]);
    }
  }

  lemma CollectedPieces(sha: HashFunction, cfg: Config, name: string, data: Bytes, s: State)
    requires Inv(sha, cfg, s) && HasSucceeded(s)
    requires cfg.meta.chunks == MetaFor(sha, name, data).chunks
    requires !CollisionFound(sha, data, s)
    ensures forall k :: 0 <= k < |s.workers| ==> s.workers[k].Exited?
    ensures var collected, split := Chunks(FinalResults(sha, cfg, s.workers)), Split(sha, data, CHUNK_SIZE);
            && |collected| == |split|
            && forall k :: 0 <= k < |split| ==> collected[k] == Chunk(k, split[k].data, ZeroHash())
  {
    SuccessMeansAllPassed(sha, cfg, s);
    var rs := FinalResults(sha, cfg, s.workers);
    AllGood(rs);
    MetaForShape(sha, name, data);
    forall k | 0 <= k < |s.workers| ensures Chunks(rs)[k] == Chunk(k, Piece(data, CHUNK_SIZE, k), ZeroHash()) {
      assert rs[k].Good?;
      assert Passes(sha, cfg.meta.chunks[k], s.workers[k].reply);
      assert !Collides(sha, Piece(data, CHUNK_SIZE, k), s.workers[k]);
    }
  }

  /** Chunks that carry the pieces of the data under their own indices have only one sorted order. */
  lemma PiecesMergeToData(sha: HashFunction, data: Bytes, collected: seq<Chunk>, sorted: seq<Chunk>)
    requires var split := Split(sha, data, CHUNK_SIZE);
             && |collected| == |split|
             && forall k :: 0 <= k < |split| ==> collected[k] == Chunk(k, split[k].data, ZeroHash())
    requires SortedPermutation(collected, sorted)
    ensures Concat(sorted) == data
  {
    assert SortedByIndex(collected) && NoDuplicates(Indices(collected));
    SortedPermutationUnique(collected, sorted);
    ConcatDependsOnData(collected, Split(sha, data, CHUNK_SIZE));
    ConcatOfSplit(sha, data, CHUNK_SIZE);
  }

  /**
   With uploaded metadata a successful download returns the uploaded bytes, whatever arrived on the wire and in
   whatever order, unless a reply exhibits a hash collision.
   */
  lemma HonestMetadataGivesOriginal(sha: HashFunction, cfg: Config, name: string, data: Bytes, s: State)
    requires Inv(sha, cfg, s) && s.main.Succeeded?
    requires cfg.meta.chunks == MetaFor(sha, name, data).chunks
    ensures ResultData(s) == data || CollisionFound(sha, data, s)
  {
    if !CollisionFound(sha, data, s) {
      SuccessMeansAllPassed(sha, cfg, s);
      CollectedPieces(sha, cfg, name, data, s);
      var rs := FinalResults(sha, cfg, s.workers);
      AccumulatorsPermute(rs, s.received);
      PiecesMergeToData(sha, data, Chunks(rs), s.main.sorted);
    }
  }

  /** With uploaded metadata a successful download has the announced size, or a hash collision was seen. */
  lemma SizeIsAsAnnounced(sha: HashFunction, cfg: Config, name: string, data: Bytes, s: State)
    requires Inv(sha, cfg, s) && s.main.Succeeded?
    requires cfg.meta == MetaFor(sha, name, data)
    ensures |ResultData(s)| == cfg.meta.fileSize || CollisionFound(sha, data, s)
  {
    HonestMetadataGivesOriginal(sha, cfg, name, data, s);
    MetaGeometry(sha, name, data);
  }

  /** The entry of `ChunkSources` that list position `i` must produce. */
  function ExpectedSources(cfg: Config): seq<ChunkSource>
    requires cfg.peers != []
  {
    seq(|cfg.meta.chunks|, i requires 0 <= i < |cfg.meta.chunks| =>
      ChunkSource(cfg.meta.chunks[i].index, AssignedPeer(cfg, i)))
  }

  lemma {:induction false} GoodSourcesPrefix(rs: seq<ChunkResult>, k: nat)
    requires k <= |rs| && forall i :: 0 <= i < |rs| ==> rs[i].Good?
    ensures |Sources(rs[..k])| == |ServedBy(rs[..k])| == k
    ensures forall i :: 0 <= i < k ==> Sources(rs[..k])[i] == ChunkSource(rs[i].index, rs[i].peer)
    ensures forall i :: 0 <= i < k ==> ServedBy(rs[..k])[i] == rs[i].peer
  {
    if k > 0 {
      assert rs[..k][..k - 1] == rs[..k - 1];
      GoodSourcesPrefix(rs, k - 1);
    }
  }

  function AssignedPeers(cfg: Config): seq<Addr>
    requires cfg.peers != []
  {
    seq(|cfg.meta.chunks|, i requires 0 <= i < |cfg.meta.chunks| => AssignedPeer(cfg, i))
  }

  /** On success the chunk at list position `i` was served by peer `i mod k`, and nothing else was recorded. */
  lemma SourcesAreRoundRobin(sha: HashFunction, cfg: Config, s: State)
    requires Inv(sha, cfg, s) && HasSucceeded(s)
    ensures Permutation(ExpectedSources(cfg), Sources(s.received))
    ensures Permutation(AssignedPeers(cfg), ServedBy(s.received))
    ensures |ServedBy(s.received)| == cfg.meta.totalChunks
  {
    SuccessMeansAllPassed(sha, cfg, s);
    var rs := FinalResults(sha, cfg, s.workers);
    AllGood(rs);
    assert rs[..|rs|] == rs;
    GoodSourcesPrefix(rs, |rs|);
    assert Sources(rs) == ExpectedSources(cfg);
    assert ServedBy(rs) == AssignedPeers(cfg);
    FilterMapPermutation(ToSource, rs, s.received);
    FilterMapPermutation(PeerOf, rs, s.received);
    assert |multiset(ServedBy(rs))| == |multiset(ServedBy(s.received))|;
  }

  /** How many of the first `n` list positions go to peer number `j` of `m`. */
  function Share(n: nat, m: nat, j: nat): nat
    requires m > 0
  {
    if n == 0 then 0 else Share(n - 1, m, j) + if (n - 1) % m == j then 1 else 0
  }

  lemma NextQuotient(n: nat, m: nat)
    requires m > 0
    ensures if n % m + 1 < m then (n + 1) / m == n / m && (n + 1) % m == n % m + 1
            else (n + 1) / m == n / m + 1 && (n + 1) % m == 0
  {
    var q, r := n / m, n % m;
    assert n + 1 == q * m + (r + 1);
    if r + 1 < m {
      QuotientIsUnique(n + 1, m, q, r + 1);
    } else {
      assert n + 1 == (q + 1) * m;
      QuotientIsUnique(n + 1, m, q + 1, 0);
    }
  }

  lemma QuotientIsUnique(n: nat, m: nat, q: nat, r: nat)
    requires r < m && n == q * m + r
    ensures n / m == q && n % m == r
  {
    var d := n / m - q;
    assert d * m == r - n % m;
    IntCancel(1, d, m);
    IntCancel(d, -1, m);
  }

  /** Each peer gets the floor or the ceiling of n/m; the first n mod m peers get the extra one. */
  lemma {:induction false} RoundRobinIsBalanced(n: nat, m: nat, j: nat)
    requires j < m
    ensures Share(n, m, j) == n / m + if j < n % m then 1 else 0
  {
    if n > 0 {
      RoundRobinIsBalanced(n - 1, m, j);
      NextQuotient(n - 1, m);
    }
  }

  lemma {:induction false} AssignedCount(cfg: Config, j: nat, k: nat)
    requires j < |cfg.peers| && NoDuplicates(cfg.peers) && k <= |cfg.meta.chunks|
    ensures multiset(AssignedPeers(cfg)[..k])[cfg.peers[j]] == Share(k, |cfg.peers|, j)
  {
    if k > 0 {
      AssignedCount(cfg, j, k - 1);
      MultisetOfPrefix(AssignedPeers(cfg), k);
      var i := (k - 1) % |cfg.peers|;
      assert AssignedPeers(cfg)[k - 1] == cfg.peers[i];
    }
  }

  /**
   On success with duplicate-free peers, the number of chunks counted for the j-th peer (`peerChunkCount`) is
   floor(n/m) or ceil(n/m), the same for every schedule.
   */
  lemma LoadIsBalanced(sha: HashFunction, cfg: Config, s: State, j: nat)
    requires Inv(sha, cfg, s) && HasSucceeded(s)
    requires NoDuplicates(cfg.peers) && j < |cfg.peers|
    ensures var n, m := |cfg.meta.chunks|, |cfg.peers|;
            multiset(ServedBy(s.received))[cfg.peers[j]] == n / m + if j < n % m then 1 else 0
  {
    SourcesAreRoundRobin(sha, cfg, s);
    AssignedCount(cfg, j, |cfg.meta.chunks|);
    assert AssignedPeers(cfg)[..|cfg.meta.chunks|] == AssignedPeers(cfg);
    RoundRobinIsBalanced(|cfg.meta.chunks|, |cfg.peers|, j);
  }

  /** A zero-byte upload is published but no download of it ever launches; every other upload can be launched. */
  lemma OnlyEmptyUploadsCannotLaunch(sha: HashFunction, name: string, data: Bytes, peers: seq<Addr>,
      maxCapacity: nat)
    requires peers != []
    ensures Launchable(Config(MetaFor(sha, name, data), peers, maxCapacity)) <==> data != []
  {
    MetaForShape(sha, name, data);
  }
}
