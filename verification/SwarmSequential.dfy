/** Undisturbed, the steps of the swarm add up to the sequential code they were cut from. */
module SwarmSequential {
  import opened Wrappers
  import opened Collections
  import opened FileMetadata
  import opened Chunking
  import opened Peers
  import opened Upload
  import DL = Downloader
  import opened Swarm

  /** The remaining steps of an upload that has stored its first `u.next` chunks. */
  function UploadSteps(id: nat, u: UploadTask): seq<Event>
    requires u.next <= ChunkCount(u.data)
    decreases ChunkCount(u.data) - u.next
  {
    if u.next == ChunkCount(u.data) then [FinishUpload(id)]
    else [StoreNext(id)] + UploadSteps(id, u.(next := u.next + 1))
  }

  /** The swarm after upload `id` of `data` has run to its end at a peer whose state was `p`, and nothing else has. */
  ghost function AfterUpload(sha: HashFunction, s: System, id: nat, owner: Addr, p: PeerState, name: string,
      data: Bytes): System
    requires owner in s.nodes
  {
    SetPeer(s, owner, Uploaded(sha, p, name, data)).(uploads := s.uploads - {id}, history := s.history + {(name, data)})
  }

  lemma AfterUploadOverwrites(sha: HashFunction, s: System, s': System, id: nat, owner: Addr, p: PeerState,
      name: string, data: Bytes, q: PeerState, u: UploadTask)
    requires owner in s.nodes && s' == SetPeer(s, owner, q).(uploads := s.uploads[id := u])
    ensures AfterUpload(sha, s', id, owner, p, name, data) == AfterUpload(sha, s, id, owner, p, name, data)
  {
    var r := Uploaded(sha, p, name, data);
    assert s'.uploads - {id} == s.uploads - {id};
    assert SetPeer(s', owner, r).nodes == SetPeer(s, owner, r).nodes;
  }

  lemma {:induction false} RemainingUploadSteps(sha: HashFunction, s: System, id: nat, p: PeerState)
    requires id in s.uploads && s.uploads[id].owner in s.nodes && s.uploads[id].next <= ChunkCount(s.uploads[id].data)
    requires var u := s.uploads[id];
             s.nodes[u.owner].state == StoreAll(p, Split(sha, u.data, CHUNK_SIZE), u.next)
    ensures var u, es := s.uploads[id], UploadSteps(id, s.uploads[id]);
            IsRun(sha, s, es) && End(sha, s, es) == AfterUpload(sha, s, id, u.owner, p, u.name, u.data)
    decreases ChunkCount(s.uploads[id].data) - s.uploads[id].next
  {
    var u, es := s.uploads[id], UploadSteps(id, s.uploads[id]);
    var s' := Step(sha, s, es[0]);
    if u.next == ChunkCount(u.data) {
      assert es[1..] == [];
      assert IsRun(sha, s', []) && End(sha, s', []) == s';
    } else {
      var q := StoreAll(p, Split(sha, u.data, CHUNK_SIZE), u.next + 1);
      assert Split(sha, u.data, CHUNK_SIZE)[u.next] == ChunkAt(sha, u.data, CHUNK_SIZE, u.next);
      assert s' == SetPeer(s, u.owner, q).(uploads := s.uploads[id := u.(next := u.next + 1)]);
      assert es[1..] == UploadSteps(id, s'.uploads[id]);
      RemainingUploadSteps(sha, s', id, p);
      AfterUploadOverwrites(sha, s, s', id, u.owner, p, u.name, u.data, q, u.(next := u.next + 1));
    }
  }

  /** `s` after an upload at `peer`. */
  ghost function WithUpload(sha: HashFunction, s: System, name: string, peer: Addr, data: Bytes): System
    requires peer in s.nodes
  {
    SetPeer(s, peer, Uploaded(sha, s.nodes[peer].state, name, data)).(history := s.history + {(name, data)})
  }

  /** All the steps of an upload. */
  function WholeUpload(id: nat, owner: Addr, name: string, data: Bytes): seq<Event> {
    [BeginUpload(id, owner, name, data)] + UploadSteps(id, UploadTask(owner, name, data, 0))
  }

  /** An upload whose steps run without interruption does to the swarm what the upload handler does to its peer. */
  lemma UndisturbedUpload(sha: HashFunction, s: System, id: nat, owner: Addr, name: string, data: Bytes)
    requires id !in s.uploads && owner in s.nodes
    ensures IsRun(sha, s, WholeUpload(id, owner, name, data))
    ensures End(sha, s, WholeUpload(id, owner, name, data)) == WithUpload(sha, s, name, owner, data)
  {
    var es, s' := WholeUpload(id, owner, name, data), Step(sha, s, BeginUpload(id, owner, name, data));
    RemainingUploadSteps(sha, s', id, s.nodes[owner].state);
    assert es[1..] == UploadSteps(id, UploadTask(owner, name, data, 0));
    assert s'.uploads - {id} == s.uploads;
  }

  /** The probing loop of a job, run to its end with fixed answers. */
  function ProbeAll(job: Job, node: Node, hasFile: Addr -> bool): (done: Job)
    requires job.Probing?
    ensures done.Probing? && done.todo == []
    ensures done.name == job.name && done.primary == job.primary && done.meta == job.meta
    decreases |job.todo|
  {
    if job.todo == [] then job else ProbeAll(AfterProbe(job, node, hasFile(job.todo[0])), node, hasFile)
  }

  lemma ProbedFirst(selfAddr: Addr, primary: Addr, peers: seq<Addr>, hasFile: Addr -> bool)
    requires peers != []
    ensures DL.Probed(selfAddr, primary, peers, hasFile) ==
              DL.Probed(selfAddr, primary, peers[..1], hasFile) + DL.Probed(selfAddr, primary, peers[1..], hasFile)
  {
    assert peers == peers[..1] + peers[1..];
    FilterMapConcat((a: Addr) => DL.Keep(selfAddr, primary, hasFile, a), peers[..1], peers[1..]);
  }

  /** One turn of the loop adds what the specification keeps of one address. */
  lemma AfterProbeFinds(job: Job, node: Node, hasFile: Addr -> bool)
    requires job.Probing? && job.todo != []
    ensures AfterProbe(job, node, hasFile(job.todo[0])).found ==
              job.found + DL.Probed(node.selfAddr, job.primary, job.todo[..1], hasFile)
  {
    assert job.todo[..1] == [job.todo[0]];
    FilterMapOne((a: Addr) => DL.Keep(node.selfAddr, job.primary, hasFile, a), job.todo[0]);
  }

  lemma ConcatAssociates<T>(a: seq<T>, b: seq<T>, c: seq<T>)
    ensures (a + b) + c == a + (b + c)
  {
  }

  lemma {:induction false} ProbeAllFinds(job: Job, node: Node, hasFile: Addr -> bool)
    requires job.Probing?
    ensures ProbeAll(job, node, hasFile).found
         == job.found + DL.Probed(node.selfAddr, job.primary, job.todo, hasFile)
    decreases |job.todo|
  {
    if job.todo != [] {
      var next := AfterProbe(job, node, hasFile(job.todo[0]));
      ProbeAllFinds(next, node, hasFile);
      AfterProbeFinds(job, node, hasFile);
      ProbedFirst(node.selfAddr, job.primary, job.todo, hasFile);
      ConcatAssociates(job.found, DL.Probed(node.selfAddr, job.primary, job.todo[..1], hasFile),
                       DL.Probed(node.selfAddr, job.primary, job.todo[1..], hasFile));
    }
  }

  /** Probing step by step collects exactly the peers that findPeersWithFile returns. */
  lemma ProbingFindsAvailablePeers(name: string, primary: Addr, node: Node, meta: FileMeta, hasFile: Addr -> bool)
    requires AfterMeta(Asking(name, primary), node, Some(meta)).Probing?
    ensures ProbeAll(AfterMeta(Asking(name, primary), node, Some(meta)), node, hasFile).found ==
              DL.Available(node.selfAddr, primary, node.registry, hasFile)
  {
    ProbeAllFinds(AfterMeta(Asking(name, primary), node, Some(meta)), node, hasFile);
  }

  /**
   What becomes of a download when its metadata arrives: without chunks, by count or by list, it is rejected; otherwise
   the probing starts with the registry as it is at that moment, and the primary is the first peer in use.
   */
  lemma MetaReplyDecides(sha: HashFunction, s: System, id: nat, reply: Option<FileMeta>)
    requires Enabled(s, MetaReply(id, reply))
    ensures var before, after := s.tasks[id], Step(sha, s, MetaReply(id, reply)).tasks[id];
            && after.owner == before.owner
            && (after.job.Rejected? <==> reply.None? || reply.value.totalChunks == 0 || |reply.value.chunks| == 0)
            && (!after.job.Rejected? ==>
                  after.job == Probing(before.job.name, before.job.primary, reply.value,
                                       s.nodes[before.owner].registry, [before.job.primary]))
    ensures Step(sha, s, MetaReply(id, reply)).nodes == s.nodes
  {
  }
}
