/** Why one content per name is needed: a probe asks for a name, so a peer with another file of that name is used. */
module SwarmTrap {
  import opened Wrappers
  import opened Collections
  import opened FileMetadata
  import opened Chunking
  import opened Peers
  import opened Upload
  import opened Registry
  import DP = DownloadProtocol
  import DL = Downloader
  import opened Swarm
  import opened SwarmSeeding
  import opened SwarmDelivery
  import opened SwarmCompleteness
  import opened SwarmAvailability
  import opened SwarmSequential

  /** Every answer, to download `id` and to all others, is the truth of its own moment. */
  ghost predicate PromptRun(sha: HashFunction, s: System, es: seq<Event>, id: nat)
    requires IsRun(sha, s, es)
    decreases |es|
  {
    es != [] ==>
      && HonestStep({s}, s, es[0]) && TruthfulStep({s}, s, es[0], id)
      && PromptRun(sha, Step(sha, s, es[0]), es[1..], id)
  }

  lemma {:induction false} PromptIsTruthful(sha: HashFunction, all: set<System>, past: set<System>, s: System,
      es: seq<Event>, id: nat)
    requires IsRun(sha, s, es) && PromptRun(sha, s, es, id)
    ensures HonestRun(sha, all, s, es) && TruthfulRun(sha, past, s, es, id)
    decreases |es|
  {
    if es != [] {
      assert {s} <= all + {s} && {s} <= past + {s};
      PromptIsTruthful(sha, all + {s}, NextPast(past, s, es[0], id), Step(sha, s, es[0]), es[1..], id);
    }
  }

  lemma PromptPrepend(sha: HashFunction, s: System, e: Event, rest: seq<Event>, id: nat)
    requires Enabled(s, e) && HonestStep({s}, s, e) && TruthfulStep({s}, s, e, id)
    requires IsRun(sha, Step(sha, s, e), rest) && PromptRun(sha, Step(sha, s, e), rest, id)
    ensures IsRun(sha, s, [e] + rest) && PromptRun(sha, s, [e] + rest, id)
    ensures End(sha, s, [e] + rest) == End(sha, Step(sha, s, e), rest)
  {
    assert ([e] + rest)[1..] == rest;
  }

  lemma {:induction false} PromptConcat(sha: HashFunction, s: System, first: seq<Event>, second: seq<Event>, id: nat)
    requires IsRun(sha, s, first) && PromptRun(sha, s, first, id)
    requires IsRun(sha, End(sha, s, first), second) && PromptRun(sha, End(sha, s, first), second, id)
    ensures IsRun(sha, s, first + second) && PromptRun(sha, s, first + second, id)
    ensures End(sha, s, first + second) == End(sha, End(sha, s, first), second)
    decreases |first|
  {
    if first == [] {
      assert first + second == second;
    } else {
      PromptConcat(sha, Step(sha, s, first[0]), first[1..], second, id);
      HeadAndRest(first, second);
      PromptPrepend(sha, s, first[0], first[1..] + second, id);
    }
  }

  /** The remaining probes, answered truthfully one after the other, and the launch. */
  function ProbeSteps(id: nat, todo: seq<Addr>, hasFile: Addr -> bool): seq<Event> {
    if todo == [] then [StartRun(id)] else [ProbeReply(id, hasFile(todo[0]))] + ProbeSteps(id, todo[1..], hasFile)
  }

  ghost predicate Truth(s: System, name: string, hasFile: Addr -> bool) {
    forall a :: hasFile(a) <==> Shares(s, a, name)
  }

  /** `t` is `s` with download `id` at `owner` launched with these peers; everything else is as it was. */
  ghost predicate Launched(s: System, t: System, id: nat, owner: Addr, name: string, meta: FileMeta, peers: seq<Addr>)
    requires owner in s.nodes
  {
    var cfg := DP.Config(meta, peers, s.nodes[owner].maxCapacity);
    t.nodes == s.nodes && id in t.tasks && t.tasks[id] == Task(owner, Running(name, cfg, DP.Init(cfg)))
  }

  lemma {:induction false} ProbesRun(sha: HashFunction, s: System, id: nat, hasFile: Addr -> bool)
    requires id in s.tasks && s.tasks[id].job.Probing? && s.tasks[id].owner in s.nodes
    requires Truth(s, s.tasks[id].job.name, hasFile)
    ensures var task, es := s.tasks[id], ProbeSteps(id, s.tasks[id].job.todo, hasFile);
            && IsRun(sha, s, es) && PromptRun(sha, s, es, id)
            && var done := ProbeAll(task.job, s.nodes[task.owner], hasFile);
               Launched(s, End(sha, s, es), id, task.owner, done.name, done.meta, done.found)
    decreases |s.tasks[id].job.todo|
  {
    var task := s.tasks[id];
    var todo := task.job.todo;
    if todo == [] {
      assert [StartRun(id)] + [] == [StartRun(id)];
      PromptPrepend(sha, s, StartRun(id), [], id);
    } else {
      var e := ProbeReply(id, hasFile(todo[0]));
      var s' := Step(sha, s, e);
      assert s in {s} && s'.tasks[id].job == AfterProbe(task.job, s.nodes[task.owner], hasFile(todo[0]));
      ProbesRun(sha, s', id, hasFile);
      PromptPrepend(sha, s, e, ProbeSteps(id, todo[1..], hasFile), id);
    }
  }

  /** A whole download up to the launch, undisturbed and answered truthfully. */
  function LaunchSteps(id: nat, owner: Addr, name: string, primary: Addr, meta: FileMeta, known: seq<Addr>,
      hasFile: Addr -> bool): seq<Event>
  {
    [BeginDownload(id, owner, name, primary)] + ([MetaReply(id, Some(meta))] + ProbeSteps(id, known, hasFile))
  }

  /** Whoever shares anything at all under the name is used, in the round robin over all peers found. */
  lemma SharersAreUsed(sha: HashFunction, s: System, id: nat, owner: Addr, name: string, primary: Addr, meta: FileMeta,
      hasFile: Addr -> bool)
    requires id !in s.tasks && owner in s.nodes && Truth(s, name, hasFile)
    requires MetaAt(s, primary, name) == Some(meta) && meta.totalChunks != 0 && meta.chunks != []
    ensures var node := s.nodes[owner];
            var es := LaunchSteps(id, owner, name, primary, meta, node.registry, hasFile);
            && IsRun(sha, s, es) && PromptRun(sha, s, es, id)
            && Launched(s, End(sha, s, es), id, owner, name, meta,
                        DL.Available(node.selfAddr, primary, node.registry, hasFile))
  {
    var node := s.nodes[owner];
    var s1 := Step(sha, s, BeginDownload(id, owner, name, primary));
    var s2 := Step(sha, s1, MetaReply(id, Some(meta)));
    assert s1 in {s1} && MetaAt(s1, primary, name) == Some(meta);
    assert s2.tasks[id].job == AfterMeta(Asking(name, primary), node, Some(meta));
    ProbesRun(sha, s2, id, hasFile);
    ProbingFindsAvailablePeers(name, primary, node, meta, hasFile);
    PromptPrepend(sha, s1, MetaReply(id, Some(meta)), ProbeSteps(id, node.registry, hasFile), id);
    PromptPrepend(sha, s, BeginDownload(id, owner, name, primary),
                  [MetaReply(id, Some(meta))] + ProbeSteps(id, node.registry, hasFile), id);
  }

  /**
   The trap. Let the j-th of the peers found share something under the name but not hold the j-th chunk. However
   truthful everybody is, the download launched from there can fail, and it succeeds only if that peer has meanwhile
   come to hold the chunk.
   */
  lemma SameNameTrap(sha: HashFunction, s: System, id: nat, owner: Addr, name: string, primary: Addr, meta: FileMeta,
      hasFile: Addr -> bool, j: nat) returns (bad: seq<Event>)
    requires Inv(sha, s) && id !in s.tasks && owner in s.nodes && Truth(s, name, hasFile)
    requires MetaAt(s, primary, name) == Some(meta) && meta.totalChunks != 0 && j < |meta.chunks|
    requires var peers := DL.Available(s.nodes[owner].selfAddr, primary, s.nodes[owner].registry, hasFile);
             j < |peers| && !Holds(s, peers[j], meta.chunks[j].hash)
    ensures var launch := LaunchSteps(id, owner, name, primary, meta, s.nodes[owner].registry, hasFile);
            && IsRun(sha, s, launch) && PromptRun(sha, s, launch, id)
            && var t := End(sha, s, launch);
               var peers := DL.Available(s.nodes[owner].selfAddr, primary, s.nodes[owner].registry, hasFile);
               && Launched(s, t, id, owner, name, meta, peers)
               && IsRun(sha, t, bad) && FaithfulRun(sha, {}, t, bad, id) && !SafeAndLive(End(sha, t, bad), id)
               && (0 <= meta.totalChunks <= s.nodes[owner].maxCapacity ==> HasFailed(End(sha, t, bad), id))
               && forall es :: IsRun(sha, t, es) && FaithfulRun(sha, {}, t, es, id) &&
                               TaskSucceeded(End(sha, t, es), id) ==>
                    Holds(End(sha, t, es), peers[j], meta.chunks[j].hash)
  {
    var launch := LaunchSteps(id, owner, name, primary, meta, s.nodes[owner].registry, hasFile);
    SharersAreUsed(sha, s, id, owner, name, primary, meta, hasFile);
    SwarmSeeding.RunKeepsInv(sha, s, launch);
    var t := End(sha, s, launch);
    WellServedHolds(t, t.tasks[id].job.cfg, j);
    bad := SomeScheduleFails(sha, t, id);
    forall es | IsRun(sha, t, es) && FaithfulRun(sha, {}, t, es, id) && TaskSucceeded(End(sha, t, es), id)
      ensures Holds(End(sha, t, es), t.tasks[id].job.cfg.peers[j], meta.chunks[j].hash)
    {
      SuccessNeedsHolder(sha, t, es, id, j);
    }
  }

  lemma WellServedHolds(s: System, cfg: DP.Config, j: nat)
    requires j < |cfg.peers| && j < |cfg.meta.chunks|
    ensures WellServed(s, cfg) ==> Holds(s, cfg.peers[j], cfg.meta.chunks[j].hash)
  {
    assert DP.AssignedPeer(cfg, j) == cfg.peers[j];
  }

  lemma SuccessNeedsHolder(sha: HashFunction, t: System, es: seq<Event>, id: nat, j: nat)
    requires Inv(sha, t) && IsRunning(t, id) && t.tasks[id].job.run == DP.Init(t.tasks[id].job.cfg)
    requires j < |t.tasks[id].job.cfg.peers| && j < |t.tasks[id].job.cfg.meta.chunks|
    requires IsRun(sha, t, es) && FaithfulRun(sha, {}, t, es, id) && TaskSucceeded(End(sha, t, es), id)
    ensures Holds(End(sha, t, es), t.tasks[id].job.cfg.peers[j], t.tasks[id].job.cfg.meta.chunks[j].hash)
  {
    SuccessNeedsHolders(sha, t, es, id);
    WellServedHolds(End(sha, t, es), t.tasks[id].job.cfg, j);
  }

  /** Uploads and registrations answer nobody, so they are truthful. */
  predicate Quiet(e: Event) {
    e.Register? || e.BeginUpload? || e.StoreNext? || e.FinishUpload?
  }

  lemma {:induction false} QuietIsPrompt(sha: HashFunction, s: System, es: seq<Event>, id: nat)
    requires IsRun(sha, s, es) && forall i :: 0 <= i < |es| ==> Quiet(es[i])
    ensures PromptRun(sha, s, es, id)
    decreases |es|
  {
    if es != [] {
      assert Quiet(es[0]);
      QuietIsPrompt(sha, Step(sha, s, es[0]), es[1..], id);
    }
  }

  lemma {:induction false} UploadIsQuiet(id: nat, u: UploadTask)
    requires u.next <= ChunkCount(u.data)
    ensures forall i :: 0 <= i < |UploadSteps(id, u)| ==> Quiet(UploadSteps(id, u)[i])
    decreases ChunkCount(u.data) - u.next
  {
    if u.next < ChunkCount(u.data) {
      UploadIsQuiet(id, u.(next := u.next + 1));
    }
  }

  lemma PromptUpload(sha: HashFunction, s: System, u: nat, owner: Addr, name: string, data: Bytes, id: nat)
    requires u !in s.uploads && owner in s.nodes
    ensures var es := WholeUpload(u, owner, name, data);
            && IsRun(sha, s, es) && PromptRun(sha, s, es, id)
            && End(sha, s, es) == WithUpload(sha, s, name, owner, data)
  {
    UndisturbedUpload(sha, s, u, owner, name, data);
    UploadIsQuiet(u, UploadTask(owner, name, data, 0));
    QuietIsPrompt(sha, s, WholeUpload(u, owner, name, data), id);
  }

  /** Two files were uploaded under one name, one at each peer, and `owner` got to know the second peer. */
  ghost predicate TwoFiles(sha: HashFunction, s0: System, s: System, name: string, first: Addr, d1: Bytes, second: Addr,
      d2: Bytes, owner: Addr)
    requires owner in s0.nodes
  {
    && s.nodes.Keys == s0.nodes.Keys && first in s.nodes && second in s.nodes
    && s.tasks == map[]
    && s.nodes[first].state == Uploaded(sha, EMPTY_PEER, name, d1)
    && s.nodes[second].state == Uploaded(sha, EMPTY_PEER, name, d2)
    && (forall a :: a in s.nodes && a != first && a != second ==> s.nodes[a].state == EMPTY_PEER)
    && s.nodes[owner].selfAddr == s0.nodes[owner].selfAddr && s.nodes[owner].maxCapacity == s0.nodes[owner].maxCapacity
    && second in s.nodes[owner].registry
  }

  function UploadAndRegister(name: string, peer: Addr, data: Bytes, owner: Addr): seq<Event> {
    WholeUpload(0, peer, name, data) + ([Register(owner, peer)] + [])
  }

  function WithRegistration(s: System, owner: Addr, peer: Addr): System
    requires owner in s.nodes
  {
    s.(nodes := s.nodes[owner := s.nodes[owner].(registry := Add(s.nodes[owner].registry, peer))])
  }

  lemma UploadAndRegisterRun(sha: HashFunction, s: System, name: string, peer: Addr, data: Bytes, owner: Addr, id: nat)
    requires 0 !in s.uploads && peer in s.nodes && owner in s.nodes
    ensures var es := UploadAndRegister(name, peer, data, owner);
            && IsRun(sha, s, es) && PromptRun(sha, s, es, id)
            && End(sha, s, es) == WithRegistration(WithUpload(sha, s, name, peer, data), owner, peer)
  {
    PromptUpload(sha, s, 0, peer, name, data, id);
    var u := WithUpload(sha, s, name, peer, data);
    PromptPrepend(sha, u, Register(owner, peer), [], id);
    PromptConcat(sha, s, WholeUpload(0, peer, name, data), [Register(owner, peer)] + [], id);
  }

  lemma TwoFilesArise(sha: HashFunction, s0: System, name: string, first: Addr, d1: Bytes, second: Addr, d2: Bytes,
      owner: Addr)
    requires Initial(s0) && first in s0.nodes && second in s0.nodes && owner in s0.nodes && first != second
    ensures var s1 := WithUpload(sha, s0, name, first, d1);
            var s := WithRegistration(WithUpload(sha, s1, name, second, d2), owner, second);
            TwoFiles(sha, s0, s, name, first, d1, second, d2, owner)
  {
  }

  function TwoUploads(name: string, first: Addr, d1: Bytes, second: Addr, d2: Bytes, owner: Addr): seq<Event> {
    WholeUpload(0, first, name, d1) + UploadAndRegister(name, second, d2, owner)
  }

  lemma TwoUploadsRun(sha: HashFunction, s0: System, name: string, first: Addr, d1: Bytes, second: Addr, d2: Bytes,
      owner: Addr, id: nat)
    requires Initial(s0) && first in s0.nodes && second in s0.nodes && owner in s0.nodes && first != second
    ensures var es := TwoUploads(name, first, d1, second, d2, owner);
            && IsRun(sha, s0, es) && PromptRun(sha, s0, es, id)
            && TwoFiles(sha, s0, End(sha, s0, es), name, first, d1, second, d2, owner)
  {
    PromptUpload(sha, s0, 0, first, name, d1, id);
    UploadAndRegisterRun(sha, WithUpload(sha, s0, name, first, d1), name, second, d2, owner, id);
    PromptConcat(sha, s0, WholeUpload(0, first, name, d1), UploadAndRegister(name, second, d2, owner), id);
    TwoFilesArise(sha, s0, name, first, d1, second, d2, owner);
  }

  lemma UploadedKeys(sha: HashFunction, name: string, data: Bytes, hash: Hash)
    requires forall i :: 0 <= i < |MetaFor(sha, name, data).chunks| ==> MetaFor(sha, name, data).chunks[i].hash != hash
    ensures Hex(hash) !in Uploaded(sha, EMPTY_PEER, name, data).store
  {
    var chunks := Split(sha, data, CHUNK_SIZE);
    StoredKeys(EMPTY_PEER, chunks, |chunks|, Hex(hash));
    forall i | 0 <= i < |chunks| ensures Hex(chunks[i].hash) != Hex(hash) {
      assert MetaFor(sha, name, data).chunks[i].hash == chunks[i].hash;
      HexInjective(chunks[i].hash, hash);
    }
  }

  /** The second uploader comes second in the round robin. */
  lemma SecondIsFound(selfAddr: Addr, first: Addr, second: Addr, registry: seq<Addr>, hasFile: Addr -> bool)
    requires first != second && second != selfAddr && second in registry
    requires forall a :: hasFile(a) <==> a == first || a == second
    ensures var peers := DL.Available(selfAddr, first, registry, hasFile); |peers| >= 2 && peers[1] == second
  {
    DL.ProbedMembers(selfAddr, first, registry, hasFile);
    var found := DL.Probed(selfAddr, first, registry, hasFile);
    assert second in found && found[0] in found;
  }

  /**
   The trap is reached from freshly started peers: two uploads under one name, of which the second has no chunk with
   the hash of the first one's second chunk, one registration, and a download from the first uploader. Every answer is
   prompt and true, and the download fails.
   */
  lemma TrapIsReachable(sha: HashFunction, s0: System, name: string, first: Addr, d1: Bytes, second: Addr, d2: Bytes,
      owner: Addr) returns (es: seq<Event>, bad: seq<Event>)
    requires Initial(s0) && first in s0.nodes && second in s0.nodes && owner in s0.nodes && name != ""
    requires first != second && second != s0.nodes[owner].selfAddr
    requires 2 <= |MetaFor(sha, name, d1).chunks| <= s0.nodes[owner].maxCapacity
    requires forall i :: 0 <= i < |MetaFor(sha, name, d2).chunks| ==>
               MetaFor(sha, name, d2).chunks[i].hash != MetaFor(sha, name, d1).chunks[1].hash
    ensures IsRun(sha, s0, es) && PromptRun(sha, s0, es, 0)
    ensures var t := End(sha, s0, es);
            && 0 in t.tasks && t.tasks[0].owner == owner && t.tasks[0].job.Running? && t.tasks[0].job.name == name
            && t.tasks[0].job.cfg.meta == MetaFor(sha, name, d1)
            && IsRun(sha, t, bad) && FaithfulRun(sha, {}, t, bad, 0) && HasFailed(End(sha, t, bad), 0)
  {
    var uploads := TwoUploads(name, first, d1, second, d2, owner);
    TwoUploadsRun(sha, s0, name, first, d1, second, d2, owner, 0);
    SwarmSeeding.RunKeepsInv(sha, s0, uploads);
    var s := End(sha, s0, uploads);
    var launch;
    launch, bad := TwoFilesTrap(sha, s0, s, name, first, d1, second, d2, owner);
    PromptConcat(sha, s0, uploads, launch, 0);
    es := uploads + launch;
  }

  lemma TwoFilesTrap(sha: HashFunction, s0: System, s: System, name: string, first: Addr, d1: Bytes, second: Addr,
      d2: Bytes, owner: Addr) returns (launch: seq<Event>, bad: seq<Event>)
    requires owner in s0.nodes && TwoFiles(sha, s0, s, name, first, d1, second, d2, owner) && Inv(sha, s)
    requires name != "" && first != second && second != s0.nodes[owner].selfAddr
    requires 2 <= |MetaFor(sha, name, d1).chunks| <= s0.nodes[owner].maxCapacity
    requires forall i :: 0 <= i < |MetaFor(sha, name, d2).chunks| ==>
               MetaFor(sha, name, d2).chunks[i].hash != MetaFor(sha, name, d1).chunks[1].hash
    ensures IsRun(sha, s, launch) && PromptRun(sha, s, launch, 0)
    ensures var t := End(sha, s, launch);
            && 0 in t.tasks && t.tasks[0].owner == owner && t.tasks[0].job.Running? && t.tasks[0].job.name == name
            && t.tasks[0].job.cfg.meta == MetaFor(sha, name, d1)
            && IsRun(sha, t, bad) && FaithfulRun(sha, {}, t, bad, 0) && HasFailed(End(sha, t, bad), 0)
  {
    var meta, node := MetaFor(sha, name, d1), s.nodes[owner];
    var hasFile := (a: Addr) => a == first || a == second;
    MetaForShape(sha, name, d1);
    assert Truth(s, name, hasFile) && MetaAt(s, first, name) == Some(meta);
    SecondIsFound(node.selfAddr, first, second, node.registry, hasFile);
    UploadedKeys(sha, name, d2, meta.chunks[1].hash);
    bad := SameNameTrap(sha, s, 0, owner, name, first, meta, hasFile, 1);
    launch := LaunchSteps(0, owner, name, first, meta, node.registry, hasFile);
  }
}
