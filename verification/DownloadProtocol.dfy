/**
 One call of `Download` (peer/downloader.go:97-169) as a transition system: the launcher loop, one goroutine
 per entry of `meta.Chunks`, the bounded result channel, the WaitGroup, the closing goroutine, the collector loop
 and the final merge and publication. Every step is one atomic action of one goroutine; any interleaving is a run.
 Operations that panic in Go (send on or close of a closed channel, a negative WaitGroup counter, `i % 0`,
 `make` with a capacity it refuses) set `panicked`, so that their absence is a theorem.
 */
module DownloadProtocol {
  import opened Wrappers
  import opened Collections
  import opened FileMetadata
  import opened Chunking

  type Addr = string

  /**
   What is fixed once the launcher starts: the metadata the primary served, `availablePeers`, and the largest capacity
   that `make(chan chunkResult, n)` accepts on this machine.
   */
  datatype Config = Config(meta: FileMeta, peers: seq<Addr>, maxCapacity: nat)

  datatype FetchError = FetchFailed | IntegrityFailed

  datatype ChunkResult =
    | Good(index: int, data: Bytes, peer: Addr)
    | Bad(index: int, error: FetchError)

  datatype ChunkSource = ChunkSource(chunkIndex: int, peerAddr: Addr)

  /** A chunk goroutine. `reply` is what FetchChunk returned to it. */
  datatype Worker =
    | Unlaunched
    | Fetching
    | Verified(reply: Option<Bytes>)  // integrity check passed, chunk not yet stored
    | Ready(reply: Option<Bytes>)     // about to send its result
    | Sent(reply: Option<Bytes>)      // result sent, wg.Done() still to run
    | Exited(reply: Option<Bytes>)

  datatype Closer = NotSpawned | Waiting | Woken | Finished

  datatype DownloadError =
    | ChunkErrors(failed: nat, first: ChunkResult)
    | CountMismatch(expected: int, received: nat)

  datatype Main =
    | Launching(next: nat)
    | Collecting
    | Merging
    | Publishing(sorted: seq<Chunk>)
    | Succeeded(sorted: seq<Chunk>)
    | Failed(error: DownloadError)

  datatype State = State(main: Main, workers: seq<Worker>, wg: int, closer: Closer, queue: seq<ChunkResult>,
                         closed: bool, received: seq<ChunkResult>, panicked: bool)

  datatype Event =
    | Launch
    | SpawnCloser
    | Reply(w: nat, reply: Option<Bytes>)
    | Store(w: nat)
    | Send(w: nat)
    | Exit(w: nat)
    | WaitReturns
    | Close
    | Receive
    | Drain
    | Merge(sorted: seq<Chunk>)
    | Publish

  /** `availablePeers[i%peerCount]` */
  function AssignedPeer(cfg: Config, w: nat): Addr
    requires cfg.peers != []
  {
    cfg.peers[w % |cfg.peers|]
  }

  predicate Passes(sha: HashFunction, cm: ChunkMeta, reply: Option<Bytes>) {
    reply.Some? && sha(reply.value) == cm.hash
  }

  /** The value `downloadChunk` sends for entry `w` when FetchChunk answered `reply`. */
  function ResultOf(sha: HashFunction, cfg: Config, w: nat, reply: Option<Bytes>): ChunkResult
    requires cfg.peers != [] && w < |cfg.meta.chunks|
  {
    var cm := cfg.meta.chunks[w];
    if reply.None? then Bad(cm.index, FetchFailed)
    else if sha(reply.value) != cm.hash then Bad(cm.index, IntegrityFailed)
    else Good(cm.index, reply.value, AssignedPeer(cfg, w))
  }

  function ToChunk(r: ChunkResult): Option<Chunk> {
    if r.Good? then Some(Chunk(r.index, r.data, ZeroHash())) else None
  }

  function ToSource(r: ChunkResult): Option<ChunkSource> {
    if r.Good? then Some(ChunkSource(r.index, r.peer)) else None
  }

  function ToError(r: ChunkResult): Option<ChunkResult> {
    if r.Bad? then Some(r) else None
  }

  /** The collector's accumulators after receiving `rs` in this order. */
  function Chunks(rs: seq<ChunkResult>): seq<Chunk> { FilterMap(ToChunk, rs) }

  function Sources(rs: seq<ChunkResult>): seq<ChunkSource> { FilterMap(ToSource, rs) }

  function Errors(rs: seq<ChunkResult>): seq<ChunkResult> { FilterMap(ToError, rs) }

  /** The two checks after the collector loop; None means that the chunks are merged. */
  function Verdict(cfg: Config, rs: seq<ChunkResult>): Option<DownloadError> {
    if Errors(rs) != [] then Some(ChunkErrors(|Errors(rs)|, Errors(rs)[0]))
    else if |Chunks(rs)| != cfg.meta.totalChunks then Some(CountMismatch(cfg.meta.totalChunks, |Chunks(rs)|))
    else None
  }

  /**
   `make(chan chunkResult, n)` panics on a negative count and on one whose buffer would exceed the address space. The
   slice of the same capacity made later has elements of the same size and no tighter limit, so it never panics.
   */
  predicate CapacityAccepted(cfg: Config) {
    0 <= cfg.meta.totalChunks <= cfg.maxCapacity
  }

  /** The launcher's first act is `make(chan chunkResult, meta.TotalChunks)`. */
  function Init(cfg: Config): State {
    State(Launching(0), seq(|cfg.meta.chunks|, i => Unlaunched), 0, NotSpawned, [], false, [], !CapacityAccepted(cfg))
  }

  ghost predicate Enabled(cfg: Config, s: State, e: Event) {
    && !s.panicked
    && |s.workers| == |cfg.meta.chunks|
    && match e
       case Launch => s.main.Launching? && s.main.next < |s.workers|
       case SpawnCloser => s.main.Launching? && s.main.next >= |s.workers|
       case Reply(w, _) => w < |s.workers| && s.workers[w].Fetching?
       case Store(w) => w < |s.workers| && s.workers[w].Verified?
       case Send(w) => w < |s.workers| && s.workers[w].Ready? && (s.closed || |s.queue| < cfg.meta.totalChunks)
       case Exit(w) => w < |s.workers| && s.workers[w].Sent?
       case WaitReturns => s.closer.Waiting? && s.wg == 0
       case Close => s.closer.Woken?
       case Receive => s.main.Collecting? && s.queue != []
       case Drain => s.main.Collecting? && s.queue == [] && s.closed
       case Merge(sorted) => s.main.Merging? && SortedPermutation(Chunks(s.received), sorted)
       case Publish => s.main.Publishing?
  }

  ghost function Step(sha: HashFunction, cfg: Config, s: State, e: Event): State
    requires Enabled(cfg, s, e)
  {
    match e
    case Launch =>
      if cfg.peers == [] then s.(panicked := true)
      else s.(main := Launching(s.main.next + 1), workers := s.workers[s.main.next := Fetching], wg := s.wg + 1)
    case SpawnCloser =>
      s.(main := Collecting, closer := Waiting)
    case Reply(w, r) =>
      s.(workers := s.workers[w := if Passes(sha, cfg.meta.chunks[w], r) then Verified(r) else Ready(r)])
    case Store(w) =>
      s.(workers := s.workers[w := Ready(s.workers[w].reply)])
    case Send(w) =>
      if s.closed || cfg.peers == [] then s.(panicked := true)
      else s.(workers := s.workers[w := Sent(s.workers[w].reply)],
              queue := s.queue + [ResultOf(sha, cfg, w, s.workers[w].reply)])
    case Exit(w) =>
      if s.wg <= 0 then s.(panicked := true)
      else s.(workers := s.workers[w := Exited(s.workers[w].reply)], wg := s.wg - 1)
    case WaitReturns =>
      s.(closer := Woken)
    case Close =>
      if s.closed then s.(panicked := true) else s.(closer := Finished, closed := true)
    case Receive =>
      s.(queue := s.queue[1..], received := s.received + [s.queue[0]])
    case Drain =>
      (match Verdict(cfg, s.received)
       case Some(error) => s.(main := Failed(error))
       case None => s.(main := Merging))
    case Merge(sorted) =>
      s.(main := Publishing(sorted))
    case Publish =>
      s.(main := Succeeded(s.main.sorted))
  }

  ghost predicate IsRun(sha: HashFunction, cfg: Config, s: State, es: seq<Event>)
    decreases |es|
  {
    es != [] ==> Enabled(cfg, s, es[0]) && IsRun(sha, cfg, Step(sha, cfg, s, es[0]), es[1..])
  }

  ghost function End(sha: HashFunction, cfg: Config, s: State, es: seq<Event>): State
    requires IsRun(sha, cfg, s, es)
    decreases |es|
  {
    if es == [] then s else End(sha, cfg, Step(sha, cfg, s, es[0]), es[1..])
  }

  predicate Final(s: State) {
    s.main.Succeeded? || s.main.Failed?
  }

  /** `DownloadResult.Data` */
  function ResultData(s: State): Bytes
    requires s.main.Succeeded?
  {
    Concat(s.main.sorted)
  }

  /** The tests that guard the launch: a non-zero chunk count, a non-empty list, and at least the primary as peer. */
  predicate Launchable(cfg: Config) {
    cfg.meta.totalChunks != 0 && cfg.meta.chunks != [] && cfg.peers != []
  }
}
