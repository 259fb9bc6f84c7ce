/** The sequential pieces of the downloader (peer/downloader.go), each run by one goroutine from start to end. */
module Downloader {
  import opened Wrappers
  import opened Collections
  import opened FileMetadata
  import opened Chunking
  import opened Peers
  import opened DownloadProtocol

  /** One turn of the probing loop: a peer that is neither this one nor the primary and has the file is kept. */
  function Keep(selfAddr: Addr, primary: Addr, hasFile: Addr -> bool, a: Addr): Option<Addr> {
    if a != selfAddr && a != primary && hasFile(a) then Some(a) else None
  }

  /** The peers of the list that are asked and answer the probe for the file. */
  function Probed(selfAddr: Addr, primary: Addr, peers: seq<Addr>, hasFile: Addr -> bool): seq<Addr> {
    FilterMap((a: Addr) => Keep(selfAddr, primary, hasFile, a), peers)
  }

  /** The specification of `findPeersWithFile`. */
  function Available(selfAddr: Addr, primary: Addr, peers: seq<Addr>, hasFile: Addr -> bool): seq<Addr> {
    [primary] + Probed(selfAddr, primary, peers, hasFile)
  }

  function PeerOf(r: ChunkResult): Option<Addr> {
    if r.Good? then Some(r.peer) else None
  }

  /** Who served the chunks that arrived. */
  function ServedBy(rs: seq<ChunkResult>): seq<Addr> {
    FilterMap(PeerOf, rs)
  }

  function CountOf(counts: map<Addr, nat>, a: Addr): nat {
    if a in counts then counts[a] else 0
  }

  class Downloader {
    const localPeer: Peer

    constructor (localPeer: Peer)
      ensures this.localPeer == localPeer
    {
      this.localPeer := localPeer;
    }

    /** `hasFile` is the outcome of FetchFileMeta; `selfAddr` is always built from the HTTP port. */
    method FindPeersWithFile(selfAddr: Addr, primary: Addr, peers: seq<Addr>, hasFile: Addr -> bool)
      returns (available: seq<Addr>)
      ensures available == Available(selfAddr, primary, peers, hasFile)
    {
      available := [primary];
      var i := 0;
      while i < |peers|
        invariant 0 <= i <= |peers|
        invariant available == Available(selfAddr, primary, peers[..i], hasFile)
      {
        assert peers[..i + 1][..i] == peers[..i];
        if peers[i] == selfAddr || peers[i] == primary {
          i := i + 1;
          continue;
        }
        if hasFile(peers[i]) {
          available := available + [peers[i]];
        }
        i := i + 1;
      }
      assert peers[..i] == peers;
    }

    /**
     The body of one chunk goroutine for list entry `w`, given what FetchChunk answered.
     The chunk is stored exactly when its hash is the announced one, and before the result is sent.
     */
    method DownloadChunk(sha: HashFunction, cfg: Config, w: nat, reply: Option<Bytes>) returns (result: ChunkResult)
      requires cfg.peers != [] && w < |cfg.meta.chunks|
      modifies localPeer`chunkDataStorage
      ensures result == ResultOf(sha, cfg, w, reply)
      ensures localPeer.State() == if Passes(sha, cfg.meta.chunks[w], reply)
                                   then StoreChunk(old(localPeer.State()), Hex(cfg.meta.chunks[w].hash), reply.value)
                                   else old(localPeer.State())
    {
      var cm := cfg.meta.chunks[w];
      var hashStr := Hex(cm.hash);
      if reply.None? {
        return Bad(cm.index, FetchFailed);
      }
      var actualHash := sha(reply.value);
      if actualHash != cm.hash {
        return Bad(cm.index, IntegrityFailed);
      }
      localPeer.PutChunk(hashStr, reply.value);
      return Good(cm.index, reply.value, cfg.peers[w % |cfg.peers|]);
    }

    /** The collector loop over the results in the order in which the channel delivers them. */
    method Collect(results: seq<ChunkResult>)
      returns (chunks: seq<Chunk>, sources: seq<ChunkSource>, errors: seq<ChunkResult>, peerChunkCount: map<Addr, nat>)
      ensures chunks == Chunks(results) && sources == Sources(results) && errors == Errors(results)
      ensures forall a :: CountOf(peerChunkCount, a) == multiset(ServedBy(results))[a]
    {
      chunks, sources, errors, peerChunkCount := [], [], [], map[];
      var i := 0;
      while i < |results|
        invariant 0 <= i <= |results|
        invariant chunks == Chunks(results[..i]) && sources == Sources(results[..i]) && errors == Errors(results[..i])
        invariant forall a :: CountOf(peerChunkCount, a) == multiset(ServedBy(results[..i]))[a]
      {
        var result := results[i];
        assert results[..i + 1][..i] == results[..i];
        i := i + 1;
        if result.Bad? {
          errors := errors + [result];
          continue;
        }
        chunks := chunks + [Chunk(result.index, result.data, ZeroHash())];
        sources := sources + [ChunkSource(result.index, result.peer)];
        peerChunkCount := peerChunkCount[result.peer := CountOf(peerChunkCount, result.peer) + 1];
      }
      assert results[..i] == results;
    }

    /** Everything after the launch, given the delivered results: the two checks, the merge and the publication. */
    method Finish(fileName: string, cfg: Config, results: seq<ChunkResult>)
      returns (error: Option<DownloadError>, data: Bytes, sources: seq<ChunkSource>)
      modifies localPeer`sharedFiles
      ensures error == Verdict(cfg, results)
      ensures error.Some? ==> localPeer.State() == old(localPeer.State())
      ensures error.None? ==> localPeer.State() == Share(old(localPeer.State()), fileName, cfg.meta)
      ensures error.None? ==> sources == Sources(results)
      ensures error.None? ==> exists sorted :: SortedPermutation(Chunks(results), sorted) && data == Concat(sorted)
    {
      var chunks, chunkSources, errors, peerChunkCount := Collect(results);
      if |errors| > 0 {
        return Some(ChunkErrors(|errors|, errors[0])), [], [];
      }
      if |chunks| != cfg.meta.totalChunks {
        return Some(CountMismatch(cfg.meta.totalChunks, |chunks|)), [], [];
      }
      var buffer := new Chunk[|chunks|](i requires 0 <= i < |chunks| => chunks[i]);
      assert buffer[..] == chunks;
      data := MergeChunks(buffer);
      assert SortedPermutation(Chunks(results), buffer[..]);
      localPeer.sharedFiles := localPeer.sharedFiles[fileName := cfg.meta];
      return None, data, chunkSources;
    }
  }

  lemma {:induction false} ProbedMembers(selfAddr: Addr, primary: Addr, peers: seq<Addr>, hasFile: Addr -> bool)
    ensures var found := Probed(selfAddr, primary, peers, hasFile);
            && (forall a :: a in found <==> a in peers && a != selfAddr && a != primary && hasFile(a))
            && (NoDuplicates(peers) ==> NoDuplicates(found))
    decreases |peers|
  {
    if peers != [] {
      var n := |peers| - 1;
      ProbedMembers(selfAddr, primary, peers[..n], hasFile);
      assert peers == peers[..n] + [peers[n]];
      assert Probed(selfAddr, primary, peers, hasFile) ==
             Probed(selfAddr, primary, peers[..n], hasFile) +
             if peers[n] != selfAddr && peers[n] != primary && hasFile(peers[n]) then [peers[n]] else [];
    }
  }

  /**
   With a duplicate-free registry the peers used are duplicate-free, the primary comes first, so the modulus of
   the round robin is never zero, and the rest are exactly the other known peers that answered the probe.
   */
  lemma AvailablePeers(selfAddr: Addr, primary: Addr, peers: seq<Addr>, hasFile: Addr -> bool)
    requires NoDuplicates(peers)
    ensures var available := Available(selfAddr, primary, peers, hasFile);
            && available != [] && available[0] == primary
            && NoDuplicates(available)
            && (forall a :: a in available <==> a == primary || (a in peers && a != selfAddr && hasFile(a)))
  {
    ProbedMembers(selfAddr, primary, peers, hasFile);
    var found := Probed(selfAddr, primary, peers, hasFile);
    forall i, j | 0 <= i < j < |found| + 1 ensures ([primary] + found)[i] != ([primary] + found)[j] {
      assert found[j - 1] in found;
    }
  }

  /** Exactly when a peer that is known to others as `own` is assigned chunks of its own. */
  lemma OwnAddressIsUsedIff(selfAddr: Addr, own: Addr, primary: Addr, peers: seq<Addr>, hasFile: Addr -> bool)
    ensures own in Available(selfAddr, primary, peers, hasFile)
       <==> own == primary || (own in peers && own != selfAddr && hasFile(own))
  {
    ProbedMembers(selfAddr, primary, peers, hasFile);
  }

  /** `fmt.Sprintf("%d", n)` */
  function Decimal(n: nat): string {
    if n < 10 then [Digit(n)] else Decimal(n / 10) + [Digit(n % 10)]
  }

  function Digit(d: nat): char
    requires d < 10
  {
    '0' + d as char
  }

  function LocalAddress(port: nat): Addr {
    "localhost:" + Decimal(port)
  }

  lemma {:induction false} DecimalInjective(a: nat, b: nat)
    requires Decimal(a) == Decimal(b)
    ensures a == b
    decreases a
  {
    var s, t := Decimal(a), Decimal(b);
    assert s[|s| - 1] == Digit(a % 10) && t[|t| - 1] == Digit(b % 10);
    assert |s| > 1 <==> a >= 10;
    assert |t| > 1 <==> b >= 10;
    if a >= 10 {
      assert s[..|s| - 1] == Decimal(a / 10) && t[..|t| - 1] == Decimal(b / 10);
      DecimalInjective(a / 10, b / 10);
    }
  }

  const TCP_PORT_OFFSET: nat := 1000

  /**
   "Skip self" compares with one spelling of the HTTP address. Under that spelling a peer serves itself only when it is
   asked to download from itself; under the address by which it is known in TCP mode it is never skipped.
   */
  lemma SkipSelfWorksForHttpOnly(port: nat, primary: Addr, peers: seq<Addr>, hasFile: Addr -> bool)
    ensures var self, tcp := LocalAddress(port), LocalAddress(port + TCP_PORT_OFFSET);
            && (self in Available(self, primary, peers, hasFile) <==> self == primary)
            && (tcp in Available(self, primary, peers, hasFile) <==> tcp == primary || (tcp in peers && hasFile(tcp)))
  {
    var self, tcp := LocalAddress(port), LocalAddress(port + TCP_PORT_OFFSET);
    if self == tcp {
      assert self[|"localhost:"|..] == Decimal(port) && tcp[|"localhost:"|..] == Decimal(port + TCP_PORT_OFFSET);
      DecimalInjective(port, port + TCP_PORT_OFFSET);
    }
    OwnAddressIsUsedIff(self, self, primary, peers, hasFile);
    OwnAddressIsUsedIff(self, tcp, primary, peers, hasFile);
  }
}
