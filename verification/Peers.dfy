/** The state one peer shares with the network (peer/peer.go) and how an upload fills it (handler/upload.go). */
module Peers {
  import opened FileMetadata

  /** `SharedFiles` and `ChunkDataStorage`. The store is keyed by the hexadecimal hash. */
  datatype PeerState = PeerState(shared: map<string, FileMeta>, store: map<string, Bytes>)

  const EMPTY_PEER := PeerState(map[], map[])

  function StoreChunk(p: PeerState, key: string, data: Bytes): PeerState {
    p.(store := p.store[key := data])
  }

  /** Publication under a name; the uploader uses the name in the metadata, the downloader the requested name. */
  function Share(p: PeerState, name: string, meta: FileMeta): PeerState {
    p.(shared := p.shared[name := meta])
  }

  /** Every stored value hashes to its key. */
  ghost predicate ContentAddressed(sha: HashFunction, store: map<string, Bytes>) {
    forall key :: key in store ==> Hex(sha(store[key])) == key
  }

  /** The store has a chunk for every hash in the metadata. */
  ghost predicate CanServe(store: map<string, Bytes>, meta: FileMeta) {
    forall i :: 0 <= i < |meta.chunks| ==> Hex(meta.chunks[i].hash) in store
  }

  /** "I only advertise what I can serve." */
  ghost predicate Seeding(sha: HashFunction, p: PeerState) {
    && ContentAddressed(sha, p.store)
    && forall name :: name in p.shared ==> CanServe(p.store, p.shared[name])
  }

  /** The mutable peer object. `Mu` makes each method one atomic step; AddFile runs without it. */
  class Peer {
    const peerID: string
    const port: int
    var sharedFiles: map<string, FileMeta>
    var chunkDataStorage: map<string, Bytes>

    constructor (peerID: string, port: int)
      ensures this.peerID == peerID && this.port == port
      ensures State() == EMPTY_PEER
    {
      this.peerID, this.port := peerID, port;
      sharedFiles, chunkDataStorage := map[], map[];
    }

    function State(): PeerState
      reads this
    {
      PeerState(sharedFiles, chunkDataStorage)
    }

    method AddFile(fileMsg: FileMeta)
      modifies this`sharedFiles
      ensures State() == Share(old(State()), fileMsg.fileName, fileMsg)
    {
      sharedFiles := sharedFiles[fileMsg.fileName := fileMsg];
    }

    method PutChunk(hashStr: string, data: Bytes)
      modifies this`chunkDataStorage
      ensures State() == StoreChunk(old(State()), hashStr, data)
    {
      chunkDataStorage := chunkDataStorage[hashStr := data];
    }
  }
}

/** Steps 3 to 5 of the upload handler. */
module Upload {
  import opened FileMetadata
  import opened FloatCeiling
  import opened Chunking
  import opened Peers

  const CHUNK_SIZE: int := 1024 * 1024

  function MetaOf(chunks: seq<Chunk>): seq<ChunkMeta> {
    seq(|chunks|, i requires 0 <= i < |chunks| => ChunkMeta(chunks[i].index, chunks[i].hash))
  }

  /** The metadata an upload publishes. */
  function MetaFor(sha: HashFunction, name: string, data: Bytes): FileMeta {
    var chunks := Split(sha, data, CHUNK_SIZE);
    FileMeta(name, |data|, CHUNK_SIZE, |chunks|, MetaOf(chunks))
  }

  /** The peer after the first `k` chunks have been stored; a later chunk overwrites one with the same hash. */
  function StoreAll(p: PeerState, chunks: seq<Chunk>, k: nat): PeerState
    requires k <= |chunks|
  {
    if k == 0 then p
    else StoreChunk(StoreAll(p, chunks, k - 1), Hex(chunks[k - 1].hash), chunks[k - 1].data)
  }

  function Uploaded(sha: HashFunction, p: PeerState, name: string, data: Bytes): PeerState {
    var chunks := Split(sha, data, CHUNK_SIZE);
    Share(StoreAll(p, chunks, |chunks|), name, MetaFor(sha, name, data))
  }

  /** The loop of step 4: fills the metadata list and the store side by side. */
  method StoreChunks(peer: Peer, chunks: seq<Chunk>) returns (metas: array<ChunkMeta>)
    modifies peer`chunkDataStorage
    ensures fresh(metas) && metas[..] == MetaOf(chunks)
    ensures peer.State() == StoreAll(old(peer.State()), chunks, |chunks|)
  {
    metas := new ChunkMeta[|chunks|](i => ChunkMeta(0, ZeroHash()));
    var i := 0;
    while i < |chunks|
      invariant 0 <= i <= |chunks|
      invariant forall k :: 0 <= k < i ==> metas[k] == ChunkMeta(chunks[k].index, chunks[k].hash)
      invariant peer.State() == StoreAll(old(peer.State()), chunks, i)
    {
      var c := chunks[i];
      metas[i] := ChunkMeta(c.index, c.hash);
      peer.PutChunk(Hex(c.hash), c.data);
      i := i + 1;
    }
  }

  method UploadFile(peer: Peer, sha: HashFunction, rnd: real -> real, name: string, data: Bytes)
    requires IsRounding(rnd) && |data| < TWO53
    modifies peer
    ensures peer.State() == Uploaded(sha, old(peer.State()), name, data)
  {
    var split := SplitFile(sha, rnd, data, CHUNK_SIZE);
    var chunks := split.value;
    var metas := StoreChunks(peer, chunks);
    peer.AddFile(FileMeta(name, |data|, CHUNK_SIZE, |chunks|, metas[..]));
  }

  /** What one more stored chunk does to the store. */
  lemma StoreChunkKeeps(sha: HashFunction, p: PeerState, data: Bytes)
    requires ContentAddressed(sha, p.store)
    ensures var q := StoreChunk(p, Hex(sha(data)), data);
            && ContentAddressed(sha, q.store)
            && q.store.Keys == p.store.Keys + {Hex(sha(data))}
  {
  }

  ghost predicate Stored(store: map<string, Bytes>, chunks: seq<Chunk>, k: nat)
    requires k <= |chunks|
  {
    forall i :: 0 <= i < k ==> Hex(chunks[i].hash) in store.Keys
  }

  lemma StoredNext(sha: HashFunction, p: PeerState, chunks: seq<Chunk>, k: nat)
    requires k < |chunks| && Stored(p.store, chunks, k) && chunks[k].hash == sha(chunks[k].data)
    ensures Stored(StoreChunk(p, Hex(sha(chunks[k].data)), chunks[k].data).store, chunks, k + 1)
  {
  }

  /** `q` is `p` after storing the first `k` chunks: nothing else was touched and nothing was lost. */
  ghost predicate HoldsFirst(sha: HashFunction, p: PeerState, q: PeerState, chunks: seq<Chunk>, k: nat)
    requires k <= |chunks|
  {
    && q.shared == p.shared
    && ContentAddressed(sha, q.store)
    && p.store.Keys <= q.store.Keys
    && Stored(q.store, chunks, k)
  }

  lemma StoreOneMore(sha: HashFunction, p: PeerState, q: PeerState, chunks: seq<Chunk>, k: nat)
    requires k < |chunks| && HoldsFirst(sha, p, q, chunks, k)
    requires chunks[k].hash == sha(chunks[k].data)
    ensures HoldsFirst(sha, p, StoreChunk(q, Hex(chunks[k].hash), chunks[k].data), chunks, k + 1)
  {
    StoreChunkKeeps(sha, q, chunks[k].data);
    StoredNext(sha, q, chunks, k);
  }

  lemma {:induction false} StoreAllKeeps(sha: HashFunction, p: PeerState, chunks: seq<Chunk>, k: nat)
    requires k <= |chunks|
    requires ContentAddressed(sha, p.store)
    requires forall i :: 0 <= i < |chunks| ==> chunks[i].hash == sha(chunks[i].data)
    ensures HoldsFirst(sha, p, StoreAll(p, chunks, k), chunks, k)
  {
    if k > 0 {
      StoreAllKeeps(sha, p, chunks, k - 1);
      StoreOneMore(sha, p, StoreAll(p, chunks, k - 1), chunks, k - 1);
    }
  }

  /** Storing adds the keys of the chunks and no others. */
  lemma {:induction false} StoredKeys(p: PeerState, chunks: seq<Chunk>, k: nat, key: string)
    requires k <= |chunks|
    ensures key in StoreAll(p, chunks, k).store <==>
              key in p.store || exists i :: 0 <= i < k && Hex(chunks[i].hash) == key
  {
    if k > 0 {
      StoredKeys(p, chunks, k - 1, key);
    }
  }

  /** Under the key of a stored chunk lies that chunk's data or that of a later chunk with the same hash. */
  lemma {:induction false} StoredValue(p: PeerState, chunks: seq<Chunk>, k: nat, i: nat) returns (j: nat)
    requires i < k <= |chunks|
    ensures i <= j < k && Hex(chunks[j].hash) == Hex(chunks[i].hash)
    ensures var store := StoreAll(p, chunks, k).store;
            Hex(chunks[i].hash) in store && store[Hex(chunks[i].hash)] == chunks[j].data
  {
    if Hex(chunks[k - 1].hash) == Hex(chunks[i].hash) {
      j := k - 1;
    } else {
      j := StoredValue(p, chunks, k - 1, i);
    }
  }

  /** An upload keeps the peer's promise: everything it advertises, old and new, it can serve. */
  lemma UploadKeepsSeeding(sha: HashFunction, p: PeerState, name: string, data: Bytes)
    requires Seeding(sha, p)
    ensures var q := Uploaded(sha, p, name, data);
            && Seeding(sha, q)
            && q.shared.Keys == p.shared.Keys + {name}
            && p.store.Keys <= q.store.Keys
  {
    var chunks := Split(sha, data, CHUNK_SIZE);
    StoreAllKeeps(sha, p, chunks, |chunks|);
  }

  /** Uploaded metadata is complete and its indices are the list positions; only an empty file has no chunks. */
  lemma MetaForShape(sha: HashFunction, name: string, data: Bytes)
    ensures var meta := MetaFor(sha, name, data);
            && meta.totalChunks == |meta.chunks|
            && (meta.chunks == [] <==> data == [])
            && forall i :: 0 <= i < |meta.chunks| ==>
                 meta.chunks[i] == ChunkMeta(i, sha(Piece(data, CHUNK_SIZE, i)))
  {
  }

  /** The lengths of the first `n` pieces together. */
  function PiecesLength(data: Bytes, chunkSize: int, n: nat): nat
    requires chunkSize > 0
  {
    if n == 0 then 0 else PiecesLength(data, chunkSize, n - 1) + |Piece(data, chunkSize, n - 1)|
  }

  lemma {:induction false} PiecesAddUp(data: Bytes, chunkSize: int, n: nat)
    requires chunkSize > 0
    ensures PiecesLength(data, chunkSize, n) == Min(n * chunkSize, |data|)
  {
    if n > 0 {
      PiecesAddUp(data, chunkSize, n - 1);
      assert (n - 1) * chunkSize + chunkSize == n * chunkSize;
    }
  }

  /**
   The sizes that uploaded metadata announces fit its content: cut by the announced chunk size, 1 MiB, the data gives
   the announced hashes; all pieces but the last are full; their lengths add up to the announced file size; and the
   count is the smallest that covers it.
   */
  lemma MetaGeometry(sha: HashFunction, name: string, data: Bytes)
    ensures var meta := MetaFor(sha, name, data);
            && meta.fileName == name && meta.chunkSize == 1_048_576
            && meta.fileSize == |data| == PiecesLength(data, meta.chunkSize, |meta.chunks|)
            && (forall i :: 0 <= i < |meta.chunks| ==>
                  && meta.chunks[i].hash == sha(Piece(data, meta.chunkSize, i))
                  && (i < |meta.chunks| - 1 ==> |Piece(data, meta.chunkSize, i)| == meta.chunkSize))
            && (data != [] ==>
                  (meta.totalChunks - 1) * meta.chunkSize < meta.fileSize <= meta.totalChunks * meta.chunkSize)
  {
    var meta := MetaFor(sha, name, data);
    MetaForShape(sha, name, data);
    PiecesAddUp(data, CHUNK_SIZE, |meta.chunks|);
    forall i | 0 <= i < |meta.chunks| - 1 ensures |Piece(data, CHUNK_SIZE, i)| == CHUNK_SIZE {
      SplitShape(sha, data, CHUNK_SIZE, i);
    }
  }
}
