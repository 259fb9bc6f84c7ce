/**
 A swarm of any number of peers. Uploads, registrations and downloads of all peers interleave freely; uploads and
 downloads are cut at every critical section of the Go code. Metadata and chunk replies are arbitrary here; the
 theorems that need honest metadata or faithful replies say so about the run.
 */
module Swarm {
  import opened Wrappers
  import opened FileMetadata
  import opened FloatCeiling
  import opened Chunking
  import opened Peers
  import opened Upload
  import DP = DownloadProtocol
  import opened Registry

  type Addr = DP.Addr

  /**
   `selfAddr` is what findPeersWithFile takes for its own address; it need not be the address others use.
   `maxCapacity` is the largest channel capacity this machine can make.
   */
  datatype Node = Node(state: PeerState, registry: seq<Addr>, selfAddr: Addr, maxCapacity: nat)

  datatype Job =
    | Asking(name: string, primary: Addr)
    | Probing(name: string, primary: Addr, meta: FileMeta, todo: seq<Addr>, found: seq<Addr>)
    | Running(name: string, cfg: DP.Config, run: DP.State)
    | Rejected

  datatype Task = Task(owner: Addr, job: Job)

  /** An upload that has stored its first `next` chunks. */
  datatype UploadTask = UploadTask(owner: Addr, name: string, data: Bytes, next: nat)

  /** `history` records the files whose upload has been published. */
  datatype System = System(nodes: map<Addr, Node>, tasks: map<nat, Task>, uploads: map<nat, UploadTask>,
                           history: set<(string, Bytes)>)

  datatype Event =
    | Register(at: Addr, address: Addr)
    | BeginUpload(id: nat, owner: Addr, name: string, data: Bytes)
    | StoreNext(id: nat)
    | FinishUpload(id: nat)
    | BeginDownload(id: nat, owner: Addr, name: string, primary: Addr)
    | MetaReply(id: nat, reply: Option<FileMeta>)
    | ProbeReply(id: nat, ok: bool)
    | StartRun(id: nat)
    | Act(id: nat, e: DP.Event)

  predicate IsRunning(s: System, id: nat) {
    id in s.tasks && s.tasks[id].job.Running? && s.tasks[id].owner in s.nodes
  }

  ghost predicate Enabled(s: System, e: Event) {
    match e
    case Register(at, _) => at in s.nodes
    case BeginUpload(id, owner, _, _) => id !in s.uploads && owner in s.nodes
    case StoreNext(id) =>
      id in s.uploads && s.uploads[id].owner in s.nodes && s.uploads[id].next < ChunkCount(s.uploads[id].data)
    case FinishUpload(id) =>
      id in s.uploads && s.uploads[id].owner in s.nodes && s.uploads[id].next == ChunkCount(s.uploads[id].data)
    case BeginDownload(id, owner, _, _) => id !in s.tasks && owner in s.nodes
    case MetaReply(id, _) => id in s.tasks && s.tasks[id].job.Asking? && s.tasks[id].owner in s.nodes
    case ProbeReply(id, _) =>
      id in s.tasks && s.tasks[id].job.Probing? && s.tasks[id].owner in s.nodes && s.tasks[id].job.todo != []
    case StartRun(id) =>
      id in s.tasks && s.tasks[id].job.Probing? && s.tasks[id].owner in s.nodes && s.tasks[id].job.todo == []
    case Act(id, a) => IsRunning(s, id) && DP.Enabled(s.tasks[id].job.cfg, s.tasks[id].job.run, a)
  }

  function ChunkCount(data: Bytes): nat {
    CeilDiv(|data|, CHUNK_SIZE)
  }

  function SetPeer(s: System, a: Addr, p: PeerState): System
    requires a in s.nodes
  {
    s.(nodes := s.nodes[a := s.nodes[a].(state := p)])
  }

  function SetJob(s: System, id: nat, job: Job): System
    requires id in s.tasks
  {
    s.(tasks := s.tasks[id := s.tasks[id].(job := job)])
  }

  /** The job after the metadata arrived: rejected without chunks, otherwise probing the registry as it is now. */
  function AfterMeta(job: Job, node: Node, reply: Option<FileMeta>): Job
    requires job.Asking?
  {
    if reply.None? || reply.value.totalChunks == 0 || reply.value.chunks == [] then Rejected
    else Probing(job.name, job.primary, reply.value, node.registry, [job.primary])
  }

  /** One turn of the loop in findPeersWithFile. */
  function AfterProbe(job: Job, node: Node, ok: bool): Job
    requires job.Probing? && job.todo != []
  {
    var a := job.todo[0];
    job.(todo := job.todo[1..],
         found := if a != node.selfAddr && a != job.primary && ok then job.found + [a] else job.found)
  }

  /** What a download step does to the peer that runs it. */
  function Effect(p: PeerState, job: Job, a: DP.Event): PeerState
    requires job.Running?
  {
    match a
    case Store(w) =>
      if w < |job.cfg.meta.chunks| && w < |job.run.workers| &&
         job.run.workers[w].Verified? && job.run.workers[w].reply.Some?
      then StoreChunk(p, Hex(job.cfg.meta.chunks[w].hash), job.run.workers[w].reply.value) else p
    case Publish => Share(p, job.name, job.cfg.meta)
    case _ => p
  }

  ghost function Step(sha: HashFunction, s: System, e: Event): System
    requires Enabled(s, e)
  {
    match e
    case Register(at, address) =>
      s.(nodes := s.nodes[at := s.nodes[at].(registry := Add(s.nodes[at].registry, address))])
    case BeginUpload(id, owner, name, data) =>
      s.(uploads := s.uploads[id := UploadTask(owner, name, data, 0)])
    case StoreNext(id) =>
      var u := s.uploads[id];
      var c := ChunkAt(sha, u.data, CHUNK_SIZE, u.next);
      SetPeer(s, u.owner, StoreChunk(s.nodes[u.owner].state, Hex(c.hash), c.data)).(
        uploads := s.uploads[id := u.(next := u.next + 1)])
    case FinishUpload(id) =>
      var u := s.uploads[id];
      SetPeer(s, u.owner, Share(s.nodes[u.owner].state, u.name, MetaFor(sha, u.name, u.data))).(
        uploads := s.uploads - {id}, history := s.history + {(u.name, u.data)})
    case BeginDownload(id, owner, name, primary) =>
      s.(tasks := s.tasks[id := Task(owner, Asking(name, primary))])
    case MetaReply(id, reply) =>
      SetJob(s, id, AfterMeta(s.tasks[id].job, s.nodes[s.tasks[id].owner], reply))
    case ProbeReply(id, ok) =>
      SetJob(s, id, AfterProbe(s.tasks[id].job, s.nodes[s.tasks[id].owner], ok))
    case StartRun(id) =>
      var job := s.tasks[id].job;
      var cfg := DP.Config(job.meta, job.found, s.nodes[s.tasks[id].owner].maxCapacity);
      SetJob(s, id, Running(job.name, cfg, DP.Init(cfg)))
    case Act(id, a) =>
      var task := s.tasks[id];
      var after := task.job.(run := DP.Step(sha, task.job.cfg, task.job.run, a));
      SetJob(SetPeer(s, task.owner, Effect(s.nodes[task.owner].state, task.job, a)), id, after)
  }

  ghost predicate IsRun(sha: HashFunction, s: System, es: seq<Event>)
    decreases |es|
  {
    es != [] ==> Enabled(s, es[0]) && IsRun(sha, Step(sha, s, es[0]), es[1..])
  }

  ghost function End(sha: HashFunction, s: System, es: seq<Event>): System
    requires IsRun(sha, s, es)
    decreases |es|
  {
    if es == [] then s else End(sha, Step(sha, s, es[0]), es[1..])
  }

  /** Every process has just started: nothing stored, nothing shared, nothing under way. */
  ghost predicate Initial(s: System) {
    && (forall a :: a in s.nodes ==> s.nodes[a].state == EMPTY_PEER)
    && s.tasks == map[] && s.uploads == map[] && s.history == {}
  }
}
