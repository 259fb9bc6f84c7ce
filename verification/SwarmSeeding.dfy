/** Every peer can serve everything it advertises, in every run, whatever its peers send it. */
module SwarmSeeding {
  import opened FileMetadata
  import opened Chunking
  import opened Peers
  import opened Upload
  import DP = DownloadProtocol
  import DI = DownloadInvariant
  import DO = DownloadOutcome
  import opened Swarm

  /** A goroutine that verified its chunk and got past the store has left the chunk in the store. */
  ghost predicate WorkerStored(sha: HashFunction, store: map<string, Bytes>, cm: ChunkMeta, w: DP.Worker) {
    (w.Ready? || w.Sent? || w.Exited?) && DP.Passes(sha, cm, w.reply) ==> Hex(cm.hash) in store
  }

  ghost predicate RunStored(sha: HashFunction, store: map<string, Bytes>, cfg: DP.Config, run: DP.State)
    requires |run.workers| == |cfg.meta.chunks|
  {
    forall k :: 0 <= k < |run.workers| ==> WorkerStored(sha, store, cfg.meta.chunks[k], run.workers[k])
  }

  /** A download under way; one whose chunk count `make` refuses has panicked before launching anything. */
  ghost predicate GoodRun(sha: HashFunction, store: map<string, Bytes>, cfg: DP.Config, run: DP.State) {
    && DP.Launchable(cfg)
    && (!DP.CapacityAccepted(cfg) ==> run == DP.Init(cfg))
    && (DP.CapacityAccepted(cfg) ==> DI.Inv(sha, cfg, run) && RunStored(sha, store, cfg, run))
  }

  ghost predicate GoodJob(sha: HashFunction, store: map<string, Bytes>, job: Job) {
    && (job.Probing? ==> job.meta.totalChunks != 0 && job.meta.chunks != [] && job.found != [])
    && (job.Running? ==> GoodRun(sha, store, job.cfg, job.run))
  }

  ghost predicate GoodUpload(sha: HashFunction, store: map<string, Bytes>, u: UploadTask) {
    u.next <= ChunkCount(u.data) && Stored(store, Split(sha, u.data, CHUNK_SIZE), u.next)
  }

  ghost predicate TaskIsGood(sha: HashFunction, s: System, id: nat)
    requires id in s.tasks
  {
    s.tasks[id].owner in s.nodes && GoodJob(sha, s.nodes[s.tasks[id].owner].state.store, s.tasks[id].job)
  }

  ghost predicate UploadIsGood(sha: HashFunction, s: System, id: nat)
    requires id in s.uploads
  {
    s.uploads[id].owner in s.nodes && GoodUpload(sha, s.nodes[s.uploads[id].owner].state.store, s.uploads[id])
  }

  ghost predicate PeersGood(sha: HashFunction, s: System) {
    forall a :: a in s.nodes ==> Seeding(sha, s.nodes[a].state)
  }

  ghost predicate TasksGood(sha: HashFunction, s: System) {
    forall id :: id in s.tasks ==> TaskIsGood(sha, s, id)
  }

  ghost predicate UploadsGood(sha: HashFunction, s: System) {
    forall id :: id in s.uploads ==> UploadIsGood(sha, s, id)
  }

  /** Every peer can serve what it shares, and nothing under way has lost what it stored. */
  ghost predicate Inv(sha: HashFunction, s: System) {
    PeersGood(sha, s) && TasksGood(sha, s) && UploadsGood(sha, s)
  }

  /** `q` is a later state of a peer than `p`: nothing stored is lost. */
  ghost predicate Grows(p: PeerState, q: PeerState) {
    p.store.Keys <= q.store.Keys
  }

  lemma JobGrows(sha: HashFunction, p: PeerState, q: PeerState, job: Job)
    requires GoodJob(sha, p.store, job) && Grows(p, q)
    ensures GoodJob(sha, q.store, job)
  {
  }

  lemma UploadGrows(sha: HashFunction, p: PeerState, q: PeerState, u: UploadTask)
    requires GoodUpload(sha, p.store, u) && Grows(p, q)
    ensures GoodUpload(sha, q.store, u)
  {
  }

  /** A chunk whose hash is right may be stored at any time. */
  lemma StoreKeepsSeeding(sha: HashFunction, p: PeerState, hash: Hash, data: Bytes)
    requires Seeding(sha, p) && sha(data) == hash
    ensures Seeding(sha, StoreChunk(p, Hex(hash), data)) && Grows(p, StoreChunk(p, Hex(hash), data))
  {
  }

  lemma ShareKeepsSeeding(sha: HashFunction, p: PeerState, name: string, meta: FileMeta)
    requires Seeding(sha, p) && CanServe(p.store, meta)
    ensures Seeding(sha, Share(p, name, meta))
  {
  }

  /** When a download reaches its publication every chunk of the metadata is in the store. */
  lemma PublishableIsServed(sha: HashFunction, store: map<string, Bytes>, cfg: DP.Config, run: DP.State)
    requires DI.Inv(sha, cfg, run) && RunStored(sha, store, cfg, run) && DO.HasSucceeded(run)
    ensures CanServe(store, cfg.meta)
  {
    DO.SuccessMeansAllPassed(sha, cfg, run);
    forall i | 0 <= i < |cfg.meta.chunks| ensures Hex(cfg.meta.chunks[i].hash) in store {
      assert WorkerStored(sha, store, cfg.meta.chunks[i], run.workers[i]);
    }
  }

  /** A step of a download keeps its peer seeding and loses nothing. */
  lemma EffectKeepsSeeding(sha: HashFunction, p: PeerState, job: Job, a: DP.Event)
    requires job.Running? && Seeding(sha, p) && GoodRun(sha, p.store, job.cfg, job.run)
    requires DP.Enabled(job.cfg, job.run, a)
    ensures Seeding(sha, Effect(p, job, a)) && Grows(p, Effect(p, job, a))
  {
    if a.Store? {
      StoreKeepsSeeding(sha, p, job.cfg.meta.chunks[a.w].hash, job.run.workers[a.w].reply.value);
    } else if a.Publish? {
      PublishableIsServed(sha, p.store, job.cfg, job.run);
      ShareKeepsSeeding(sha, p, job.name, job.cfg.meta);
    }
  }

  lemma ActKeepsStored(sha: HashFunction, p: PeerState, job: Job, a: DP.Event)
    requires job.Running? && GoodRun(sha, p.store, job.cfg, job.run) && DP.Enabled(job.cfg, job.run, a)
    requires Grows(p, Effect(p, job, a))
    ensures var run' := DP.Step(sha, job.cfg, job.run, a);
            |run'.workers| == |job.cfg.meta.chunks| && RunStored(sha, Effect(p, job, a).store, job.cfg, run')
  {
    var run' := DP.Step(sha, job.cfg, job.run, a);
    forall k | 0 <= k < |run'.workers|
      ensures WorkerStored(sha, Effect(p, job, a).store, job.cfg.meta.chunks[k], run'.workers[k])
    {
      assert WorkerStored(sha, p.store, job.cfg.meta.chunks[k], job.run.workers[k]);
    }
  }

  lemma ActKeepsGoodRun(sha: HashFunction, p: PeerState, job: Job, a: DP.Event)
    requires job.Running? && Seeding(sha, p) && GoodRun(sha, p.store, job.cfg, job.run)
    requires DP.Enabled(job.cfg, job.run, a)
    ensures GoodRun(sha, Effect(p, job, a).store, job.cfg, DP.Step(sha, job.cfg, job.run, a))
  {
    EffectKeepsSeeding(sha, p, job, a);
    DI.StepKeepsInv(sha, job.cfg, job.run, a);
    ActKeepsStored(sha, p, job, a);
  }

  lemma StoreNextKeeps(sha: HashFunction, p: PeerState, u: UploadTask)
    requires Seeding(sha, p) && GoodUpload(sha, p.store, u) && u.next < ChunkCount(u.data)
    ensures var c := ChunkAt(sha, u.data, CHUNK_SIZE, u.next);
            var q := StoreChunk(p, Hex(c.hash), c.data);
            && Seeding(sha, q) && Grows(p, q)
            && GoodUpload(sha, q.store, u.(next := u.next + 1))
  {
    var c := ChunkAt(sha, u.data, CHUNK_SIZE, u.next);
    assert c == Split(sha, u.data, CHUNK_SIZE)[u.next];
    StoreKeepsSeeding(sha, p, c.hash, c.data);
    StoredNext(sha, p, Split(sha, u.data, CHUNK_SIZE), u.next);
  }

  lemma FinishedIsServed(sha: HashFunction, p: PeerState, u: UploadTask)
    requires GoodUpload(sha, p.store, u) && u.next == ChunkCount(u.data)
    ensures CanServe(p.store, MetaFor(sha, u.name, u.data))
  {
  }

  lemma StartIsGood(sha: HashFunction, store: map<string, Bytes>, cfg: DP.Config)
    requires DP.Launchable(cfg)
    ensures GoodRun(sha, store, cfg, DP.Init(cfg))
  {
    if DP.CapacityAccepted(cfg) {
      DI.InitInv(sha, cfg);
    }
  }

  /** The download's own part of the swarm invariant. */
  lemma RunIsGood(sha: HashFunction, s: System, id: nat)
    requires Inv(sha, s) && IsRunning(s, id)
    ensures GoodRun(sha, s.nodes[s.tasks[id].owner].state.store, s.tasks[id].job.cfg, s.tasks[id].job.run)
  {
    assert GoodJob(sha, s.nodes[s.tasks[id].owner].state.store, s.tasks[id].job);
  }

  /** What a step of the swarm makes of peer `a`. */
  ghost function NextPeer(sha: HashFunction, s: System, e: Event, a: Addr): PeerState
    requires Enabled(s, e) && a in s.nodes
  {
    var p := s.nodes[a].state;
    match e
    case StoreNext(id) =>
      var u := s.uploads[id];
      var c := ChunkAt(sha, u.data, CHUNK_SIZE, u.next);
      if u.owner == a then StoreChunk(p, Hex(c.hash), c.data) else p
    case FinishUpload(id) =>
      var u := s.uploads[id];
      if u.owner == a then Share(p, u.name, MetaFor(sha, u.name, u.data)) else p
    case Act(id, act) =>
      if s.tasks[id].owner == a then Effect(p, s.tasks[id].job, act) else p
    case _ => p
  }

  lemma StepKeepsKeys(sha: HashFunction, s: System, e: Event)
    requires Enabled(s, e)
    ensures Step(sha, s, e).nodes.Keys == s.nodes.Keys
  {
  }

  lemma StepMovesPeer(sha: HashFunction, s: System, e: Event, a: Addr)
    requires Enabled(s, e) && a in s.nodes
    ensures Step(sha, s, e).nodes.Keys == s.nodes.Keys
    ensures Step(sha, s, e).nodes[a].state == NextPeer(sha, s, e, a)
  {
  }

  lemma NextPeerKeeps(sha: HashFunction, s: System, e: Event, a: Addr)
    requires Inv(sha, s) && Enabled(s, e) && a in s.nodes
    ensures Seeding(sha, NextPeer(sha, s, e, a)) && Grows(s.nodes[a].state, NextPeer(sha, s, e, a))
  {
    var p := s.nodes[a].state;
    match e {
      case StoreNext(id) =>
        if s.uploads[id].owner == a {
          StoreNextKeeps(sha, p, s.uploads[id]);
        }
      case FinishUpload(id) =>
        var u := s.uploads[id];
        if u.owner == a {
          FinishedIsServed(sha, p, u);
          ShareKeepsSeeding(sha, p, u.name, MetaFor(sha, u.name, u.data));
        }
      case Act(id, act) =>
        if s.tasks[id].owner == a {
          RunIsGood(sha, s, id);
          EffectKeepsSeeding(sha, p, s.tasks[id].job, act);
        }
      case _ =>
    }
  }

  /** The effect of any step on the peers: they keep their promise and lose no chunk. */
  lemma StepKeepsPeers(sha: HashFunction, s: System, e: Event, a: Addr)
    requires Inv(sha, s) && Enabled(s, e) && a in s.nodes
    ensures var s' := Step(sha, s, e);
            && s'.nodes.Keys == s.nodes.Keys
            && Seeding(sha, s'.nodes[a].state) && Grows(s.nodes[a].state, s'.nodes[a].state)
  {
    StepMovesPeer(sha, s, e, a);
    NextPeerKeeps(sha, s, e, a);
  }

  /** The state of the download's own transition system after a step of the swarm. */
  ghost function NextRun(sha: HashFunction, s: System, e: Event, id: nat): DP.State
    requires IsRunning(s, id) && Enabled(s, e)
  {
    var job := s.tasks[id].job;
    if e.Act? && e.id == id then DP.Step(sha, job.cfg, job.run, e.e) else job.run
  }

  lemma StepMovesRun(sha: HashFunction, s: System, e: Event, id: nat)
    requires IsRunning(s, id) && Enabled(s, e)
    ensures var s' := Step(sha, s, e);
            && IsRunning(s', id) && s'.tasks[id].owner == s.tasks[id].owner
            && s'.tasks[id].job == s.tasks[id].job.(run := NextRun(sha, s, e, id))
  {
  }

  /** The task an event belongs to, if any. */
  predicate TaskOf(e: Event, id: nat) {
    match e
    case BeginDownload(i, _, _, _) => i == id
    case MetaReply(i, _) => i == id
    case ProbeReply(i, _) => i == id
    case StartRun(i) => i == id
    case Act(i, _) => i == id
    case _ => false
  }

  lemma OtherTaskStays(sha: HashFunction, s: System, e: Event, id: nat)
    requires Enabled(s, e) && !TaskOf(e, id) && id in Step(sha, s, e).tasks
    ensures id in s.tasks && Step(sha, s, e).tasks[id] == s.tasks[id]
  {
  }

  lemma OtherTaskStaysGood(sha: HashFunction, s: System, e: Event, id: nat)
    requires Inv(sha, s) && Enabled(s, e) && !TaskOf(e, id) && id in Step(sha, s, e).tasks
    ensures TaskIsGood(sha, Step(sha, s, e), id)
  {
    OtherTaskStays(sha, s, e, id);
    var a := s.tasks[id].owner;
    assert TaskIsGood(sha, s, id);
    StepKeepsPeers(sha, s, e, a);
    JobGrows(sha, s.nodes[a].state, Step(sha, s, e).nodes[a].state, s.tasks[id].job);
  }

  lemma ActKeepsTaskGood(sha: HashFunction, s: System, id: nat, act: DP.Event)
    requires Inv(sha, s) && Enabled(s, Act(id, act))
    ensures id in Step(sha, s, Act(id, act)).tasks && TaskIsGood(sha, Step(sha, s, Act(id, act)), id)
  {
    var a := s.tasks[id].owner;
    RunIsGood(sha, s, id);
    ActKeepsGoodRun(sha, s.nodes[a].state, s.tasks[id].job, act);
    StepMovesPeer(sha, s, Act(id, act), a);
    StepMovesRun(sha, s, Act(id, act), id);
  }

  lemma StartKeepsTaskGood(sha: HashFunction, s: System, id: nat)
    requires Inv(sha, s) && Enabled(s, StartRun(id))
    ensures TaskIsGood(sha, Step(sha, s, StartRun(id)), id)
  {
    assert TaskIsGood(sha, s, id);
    var job, node := s.tasks[id].job, s.nodes[s.tasks[id].owner];
    StartIsGood(sha, node.state.store, DP.Config(job.meta, job.found, node.maxCapacity));
  }

  lemma StepKeepsTask(sha: HashFunction, s: System, e: Event, id: nat)
    requires Inv(sha, s) && Enabled(s, e) && id in Step(sha, s, e).tasks
    ensures TaskIsGood(sha, Step(sha, s, e), id)
  {
    if !TaskOf(e, id) {
      OtherTaskStaysGood(sha, s, e, id);
    } else if e.Act? {
      ActKeepsTaskGood(sha, s, id, e.e);
    } else if e.StartRun? {
      StartKeepsTaskGood(sha, s, id);
    } else {
      assert id in s.tasks ==> TaskIsGood(sha, s, id);
    }
  }

  lemma OtherUploadStays(sha: HashFunction, s: System, e: Event, id: nat)
    requires Enabled(s, e) && !(e.StoreNext? && e.id == id) && !(e.BeginUpload? && e.id == id)
    requires id in Step(sha, s, e).uploads
    ensures id in s.uploads && Step(sha, s, e).uploads[id] == s.uploads[id]
  {
  }

  lemma StoreKeepsUploadGood(sha: HashFunction, s: System, id: nat)
    requires Inv(sha, s) && Enabled(s, StoreNext(id))
    ensures UploadIsGood(sha, Step(sha, s, StoreNext(id)), id)
  {
    StoreNextKeeps(sha, s.nodes[s.uploads[id].owner].state, s.uploads[id]);
  }

  lemma StepKeepsUpload(sha: HashFunction, s: System, e: Event, id: nat)
    requires Inv(sha, s) && Enabled(s, e) && id in Step(sha, s, e).uploads
    ensures UploadIsGood(sha, Step(sha, s, e), id)
  {
    if e.StoreNext? && e.id == id {
      StoreKeepsUploadGood(sha, s, id);
    } else if !(e.BeginUpload? && e.id == id) {
      OtherUploadStays(sha, s, e, id);
      var a := s.uploads[id].owner;
      StepKeepsPeers(sha, s, e, a);
      UploadGrows(sha, s.nodes[a].state, Step(sha, s, e).nodes[a].state, s.uploads[id]);
    }
  }

  lemma StepKeepsPeersGood(sha: HashFunction, s: System, e: Event)
    requires Inv(sha, s) && Enabled(s, e)
    ensures PeersGood(sha, Step(sha, s, e))
  {
    StepKeepsKeys(sha, s, e);
    forall a | a in s.nodes ensures Seeding(sha, Step(sha, s, e).nodes[a].state) {
      StepKeepsPeers(sha, s, e, a);
    }
  }

  lemma StepKeepsTasksGood(sha: HashFunction, s: System, e: Event)
    requires Inv(sha, s) && Enabled(s, e)
    ensures TasksGood(sha, Step(sha, s, e))
  {
    forall id | id in Step(sha, s, e).tasks ensures TaskIsGood(sha, Step(sha, s, e), id) {
      StepKeepsTask(sha, s, e, id);
    }
  }

  lemma StepKeepsInv(sha: HashFunction, s: System, e: Event)
    requires Inv(sha, s) && Enabled(s, e)
    ensures Inv(sha, Step(sha, s, e))
  {
    StepKeepsPeersGood(sha, s, e);
    StepKeepsTasksGood(sha, s, e);
    forall id | id in Step(sha, s, e).uploads ensures UploadIsGood(sha, Step(sha, s, e), id) {
      StepKeepsUpload(sha, s, e, id);
    }
  }

  lemma {:induction false} RunKeepsInv(sha: HashFunction, s: System, es: seq<Event>)
    requires Inv(sha, s) && IsRun(sha, s, es)
    ensures Inv(sha, End(sha, s, es))
    decreases |es|
  {
    if es != [] {
      StepKeepsInv(sha, s, es[0]);
      RunKeepsInv(sha, Step(sha, s, es[0]), es[1..]);
    }
  }

  /** A store never loses a key over a run, and every value in it hashes to its key. */
  lemma {:induction false} StoresGrow(sha: HashFunction, s: System, es: seq<Event>, a: Addr)
    requires Inv(sha, s) && IsRun(sha, s, es) && a in s.nodes
    ensures var t := End(sha, s, es);
            a in t.nodes && Grows(s.nodes[a].state, t.nodes[a].state) && ContentAddressed(sha, t.nodes[a].state.store)
    decreases |es|
  {
    if es != [] {
      StepKeepsPeers(sha, s, es[0], a);
      StepKeepsInv(sha, s, es[0]);
      StoresGrow(sha, Step(sha, s, es[0]), es[1..], a);
    }
  }

  /**
   The seeding theorem: from freshly started peers, after any interleaving of uploads and downloads, failing or
   succeeding, with arbitrary metadata and replies, every peer can serve every file it advertises.
   */
  lemma EveryPeerServesWhatItAdvertises(sha: HashFunction, s: System, es: seq<Event>, a: Addr, name: string)
    requires Initial(s) && IsRun(sha, s, es)
    requires var t := End(sha, s, es); a in t.nodes && name in t.nodes[a].state.shared
    ensures var p := End(sha, s, es).nodes[a].state;
            forall i :: 0 <= i < |p.shared[name].chunks| ==>
              var key := Hex(p.shared[name].chunks[i].hash);
              key in p.store && sha(p.store[key]) == p.shared[name].chunks[i].hash
  {
    RunKeepsInv(sha, s, es);
    var p := End(sha, s, es).nodes[a].state;
    assert Seeding(sha, p) && CanServe(p.store, p.shared[name]);
    forall i | 0 <= i < |p.shared[name].chunks|
      ensures var key := Hex(p.shared[name].chunks[i].hash);
              key in p.store && sha(p.store[key]) == p.shared[name].chunks[i].hash
    {
      var key := Hex(p.shared[name].chunks[i].hash);
      HexInjective(sha(p.store[key]), p.shared[name].chunks[i].hash);
    }
  }

  /** Steps that put an entry into the shared files of peer `a`. */
  predicate PublishesAt(s: System, e: Event, a: Addr) {
    match e
    case FinishUpload(id) => id in s.uploads && s.uploads[id].owner == a
    case Act(id, act) => id in s.tasks && s.tasks[id].owner == a && act.Publish?
    case _ => false
  }

  lemma OnlyPublicationsChangeShared(sha: HashFunction, s: System, e: Event, a: Addr)
    requires Enabled(s, e) && a in s.nodes && !PublishesAt(s, e, a)
    ensures a in Step(sha, s, e).nodes && Step(sha, s, e).nodes[a].state.shared == s.nodes[a].state.shared
  {
    StepMovesPeer(sha, s, e, a);
  }

  lemma PublishSucceeds(sha: HashFunction, s: System, e: Event, a: Addr, id: nat)
    requires Enabled(s, e) && PublishesAt(s, e, a) && e.Act? && e.id == id
    ensures TaskSucceeded(Step(sha, s, e), id)
  {
  }

  /** In this run nobody but download `id` publishes at peer `a`. */
  ghost predicate SolePublisher(sha: HashFunction, s: System, es: seq<Event>, a: Addr, id: nat)
    requires IsRun(sha, s, es)
    decreases |es|
  {
    es != [] ==>
      && (PublishesAt(s, es[0], a) ==> es[0].Act? && es[0].id == id)
      && SolePublisher(sha, Step(sha, s, es[0]), es[1..], a, id)
  }

  predicate TaskSucceeded(s: System, id: nat) {
    id in s.tasks && s.tasks[id].job.Running? && s.tasks[id].job.run.main.Succeeded?
  }

  lemma {:induction false} SuccessIsStable(sha: HashFunction, s: System, es: seq<Event>, id: nat)
    requires IsRun(sha, s, es) && TaskSucceeded(s, id)
    ensures TaskSucceeded(End(sha, s, es), id)
    decreases |es|
  {
    if es != [] {
      SuccessIsStable(sha, Step(sha, s, es[0]), es[1..], id);
    }
  }

  /**
   A download that has not succeeded has not touched the shared files of its peer: whatever else runs in the swarm,
   if nobody else publishes there the shared files are unchanged, and the store has only grown.
   */
  lemma {:induction false} UnsuccessfulDownloadKeepsShared(sha: HashFunction, s: System, es: seq<Event>, a: Addr,
      id: nat)
    requires Inv(sha, s) && IsRun(sha, s, es) && a in s.nodes
    requires SolePublisher(sha, s, es, a, id)
    requires !TaskSucceeded(End(sha, s, es), id)
    ensures var t := End(sha, s, es);
            && a in t.nodes
            && t.nodes[a].state.shared == s.nodes[a].state.shared
            && Grows(s.nodes[a].state, t.nodes[a].state)
    decreases |es|
  {
    if es != [] {
      var s' := Step(sha, s, es[0]);
      if PublishesAt(s, es[0], a) {
        PublishSucceeds(sha, s, es[0], a, id);
        SuccessIsStable(sha, s', es[1..], id);
        assert false;
      }
      OnlyPublicationsChangeShared(sha, s, es[0], a);
      StepKeepsInv(sha, s, es[0]);
      StepKeepsPeers(sha, s, es[0], a);
      UnsuccessfulDownloadKeepsShared(sha, s', es[1..], a, id);
    }
  }
}
