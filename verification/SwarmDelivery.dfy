/** End-to-end correctness over runs of the swarm: what a download returns. */
module SwarmDelivery {
  import opened Wrappers
  import opened FileMetadata
  import opened Peers
  import opened Upload
  import DP = DownloadProtocol
  import DO = DownloadOutcome
  import TR = TcpRpc
  import opened Swarm
  import opened SwarmSeeding

  /** `meta` describes a file of this name whose upload was published. */
  ghost predicate Genuine(sha: HashFunction, history: set<(string, Bytes)>, name: string, meta: FileMeta) {
    exists data :: (name, data) in history && meta == MetaFor(sha, name, data)
  }

  /** What the peer at `a` answers to a request for metadata, which is also what a probe asks. */
  function MetaAt(s: System, a: Addr, name: string): Option<FileMeta> {
    if a in s.nodes then TR.FindFile(s.nodes[a].state.shared, Some(name)) else None
  }

  /**
   A metadata reply is what the primary shared under the name at some moment of the run, in one of the states `past`.
   The primary may have shared something else since. Chunk replies are not constrained.
   */
  ghost predicate HonestStep(past: set<System>, s: System, e: Event) {
    e.MetaReply? && e.reply.Some? && e.id in s.tasks && s.tasks[e.id].job.Asking? ==>
      exists p :: p in past && MetaAt(p, s.tasks[e.id].job.primary, s.tasks[e.id].job.name) == e.reply
  }

  /** `past` holds the states before `s`. */
  ghost predicate HonestRun(sha: HashFunction, past: set<System>, s: System, es: seq<Event>)
    requires IsRun(sha, s, es)
    decreases |es|
  {
    es != [] ==> HonestStep(past + {s}, s, es[0]) && HonestRun(sha, past + {s}, Step(sha, s, es[0]), es[1..])
  }

  /** The states a run has gone through before its last. */
  ghost function Visited(sha: HashFunction, s: System, es: seq<Event>): set<System>
    requires IsRun(sha, s, es)
    decreases |es|
  {
    if es == [] then {} else {s} + Visited(sha, Step(sha, s, es[0]), es[1..])
  }

  ghost predicate GenuinePeer(sha: HashFunction, history: set<(string, Bytes)>, p: PeerState) {
    forall name :: name in p.shared ==> Genuine(sha, history, name, p.shared[name])
  }

  ghost predicate GenuineJob(sha: HashFunction, history: set<(string, Bytes)>, job: Job) {
    && (job.Probing? ==> Genuine(sha, history, job.name, job.meta))
    && (job.Running? ==> Genuine(sha, history, job.name, job.cfg.meta))
  }

  ghost predicate AllGenuine(sha: HashFunction, s: System) {
    && (forall a :: a in s.nodes ==> GenuinePeer(sha, s.history, s.nodes[a].state))
    && (forall id :: id in s.tasks ==> GenuineJob(sha, s.history, s.tasks[id].job))
  }

  lemma HistoryGrows(sha: HashFunction, h: set<(string, Bytes)>, h': set<(string, Bytes)>, name: string, meta: FileMeta)
    requires h <= h' && Genuine(sha, h, name, meta)
    ensures Genuine(sha, h', name, meta)
  {
    var data :| (name, data) in h && meta == MetaFor(sha, name, data);
    assert (name, data) in h';
  }

  lemma PeerStaysGenuine(sha: HashFunction, h: set<(string, Bytes)>, h': set<(string, Bytes)>, p: PeerState)
    requires h <= h' && GenuinePeer(sha, h, p)
    ensures GenuinePeer(sha, h', p)
  {
    forall name | name in p.shared ensures Genuine(sha, h', name, p.shared[name]) {
      HistoryGrows(sha, h, h', name, p.shared[name]);
    }
  }

  lemma JobStaysGenuine(sha: HashFunction, h: set<(string, Bytes)>, h': set<(string, Bytes)>, job: Job)
    requires h <= h' && GenuineJob(sha, h, job)
    ensures GenuineJob(sha, h', job)
  {
    if job.Probing? {
      HistoryGrows(sha, h, h', job.name, job.meta);
    } else if job.Running? {
      HistoryGrows(sha, h, h', job.name, job.cfg.meta);
    }
  }

  lemma StepKeepsPeerGenuine(sha: HashFunction, s: System, e: Event, a: Addr)
    requires AllGenuine(sha, s) && Enabled(s, e) && a in s.nodes
    ensures var s' := Step(sha, s, e);
            && s'.nodes.Keys == s.nodes.Keys && s.history <= s'.history
            && GenuinePeer(sha, s'.history, s'.nodes[a].state)
  {
    var s' := Step(sha, s, e);
    PeerStaysGenuine(sha, s.history, s'.history, s.nodes[a].state);
    if e.FinishUpload? && s.uploads[e.id].owner == a {
      var u := s.uploads[e.id];
      assert (u.name, u.data) in s'.history;
      assert Genuine(sha, s'.history, u.name, MetaFor(sha, u.name, u.data));
    } else if e.Act? {
      assert GenuineJob(sha, s.history, s.tasks[e.id].job);
    }
  }

  /** Everything that was shared in one of the states `past` describes a file of the history. */
  ghost predicate PastGenuine(sha: HashFunction, history: set<(string, Bytes)>, past: set<System>) {
    forall p, a :: p in past && a in p.nodes ==> GenuinePeer(sha, history, p.nodes[a].state)
  }

  lemma PastStaysGenuine(sha: HashFunction, s: System, e: Event, past: set<System>)
    requires AllGenuine(sha, s) && Enabled(s, e) && PastGenuine(sha, s.history, past)
    ensures PastGenuine(sha, Step(sha, s, e).history, past + {s})
  {
    var h := Step(sha, s, e).history;
    assert s.history <= h;
    forall p, a | p in past + {s} && a in p.nodes ensures GenuinePeer(sha, h, p.nodes[a].state) {
      PeerStaysGenuine(sha, s.history, h, p.nodes[a].state);
    }
  }

  lemma ReplyIsGenuine(sha: HashFunction, s: System, past: set<System>, id: nat, reply: Option<FileMeta>)
    requires AllGenuine(sha, s) && PastGenuine(sha, s.history, past)
    requires Enabled(s, MetaReply(id, reply)) && HonestStep(past + {s}, s, MetaReply(id, reply)) && reply.Some?
    ensures Genuine(sha, s.history, s.tasks[id].job.name, reply.value)
  {
    var job := s.tasks[id].job;
    var p :| p in past + {s} && MetaAt(p, job.primary, job.name) == reply;
    assert GenuinePeer(sha, s.history, p.nodes[job.primary].state);
  }

  lemma StepKeepsJobGenuine(sha: HashFunction, past: set<System>, s: System, e: Event, id: nat)
    requires AllGenuine(sha, s) && PastGenuine(sha, s.history, past) && Enabled(s, e) && HonestStep(past + {s}, s, e)
    requires id in Step(sha, s, e).tasks
    ensures GenuineJob(sha, Step(sha, s, e).history, Step(sha, s, e).tasks[id].job)
  {
    var s' := Step(sha, s, e);
    if id in s.tasks {
      JobStaysGenuine(sha, s.history, s'.history, s.tasks[id].job);
      if e.MetaReply? && e.reply.Some? {
        ReplyIsGenuine(sha, s, past, e.id, e.reply);
      }
    }
  }

  lemma StepKeepsGenuine(sha: HashFunction, past: set<System>, s: System, e: Event)
    requires AllGenuine(sha, s) && PastGenuine(sha, s.history, past) && Enabled(s, e) && HonestStep(past + {s}, s, e)
    ensures AllGenuine(sha, Step(sha, s, e))
  {
    var s' := Step(sha, s, e);
    StepKeepsKeys(sha, s, e);
    forall a | a in s'.nodes ensures GenuinePeer(sha, s'.history, s'.nodes[a].state) {
      StepKeepsPeerGenuine(sha, s, e, a);
    }
    forall id | id in s'.tasks ensures GenuineJob(sha, s'.history, s'.tasks[id].job) {
      StepKeepsJobGenuine(sha, past, s, e, id);
    }
  }

  lemma {:induction false} HonestRunStaysGenuine(sha: HashFunction, past: set<System>, s: System, es: seq<Event>)
    requires AllGenuine(sha, s) && PastGenuine(sha, s.history, past)
    requires IsRun(sha, s, es) && HonestRun(sha, past, s, es)
    ensures AllGenuine(sha, End(sha, s, es))
    ensures PastGenuine(sha, End(sha, s, es).history, past + Visited(sha, s, es))
    decreases |es|
  {
    if es == [] {
      assert past + {} == past;
    } else {
      StepKeepsGenuine(sha, past, s, es[0]);
      PastStaysGenuine(sha, s, es[0], past);
      HonestRunStaysGenuine(sha, past + {s}, Step(sha, s, es[0]), es[1..]);
      assert past + {s} + Visited(sha, Step(sha, s, es[0]), es[1..]) == past + Visited(sha, s, es);
    }
  }

  /** The finished download holds the bytes of a published upload of its name, unless a hash collision was found. */
  ghost predicate ReturnsUpload(sha: HashFunction, history: set<(string, Bytes)>, job: Job)
    requires job.Running? && job.run.main.Succeeded?
  {
    exists data ::
      && (job.name, data) in history
      && job.cfg.meta == MetaFor(sha, job.name, data)
      && (DP.ResultData(job.run) == data || DO.CollisionFound(sha, data, job.run))
  }

  lemma GenuineSuccessReturnsUpload(sha: HashFunction, store: map<string, Bytes>, history: set<(string, Bytes)>,
      job: Job)
    requires job.Running? && job.run.main.Succeeded?
    requires GoodJob(sha, store, job) && GenuineJob(sha, history, job)
    ensures ReturnsUpload(sha, history, job)
  {
    var data :| (job.name, data) in history && job.cfg.meta == MetaFor(sha, job.name, data);
    DO.HonestMetadataGivesOriginal(sha, job.cfg, job.name, data, job.run);
  }

  /**
   End-to-end safety. From freshly started peers, over any interleaving in which every metadata reply is something the
   primary shared at some moment of the run and chunk replies are arbitrary, a download of `name` that succeeds returns
   exactly the bytes of a published upload of that name, the one described by the metadata it was served, or has found
   a hash collision.
   */
  lemma DownloadReturnsUploadedFile(sha: HashFunction, s: System, es: seq<Event>, id: nat)
    requires Initial(s) && IsRun(sha, s, es) && HonestRun(sha, {}, s, es)
    requires TaskSucceeded(End(sha, s, es), id)
    ensures ReturnsUpload(sha, End(sha, s, es).history, End(sha, s, es).tasks[id].job)
  {
    SwarmSeeding.RunKeepsInv(sha, s, es);
    HonestRunStaysGenuine(sha, {}, s, es);
    var t := End(sha, s, es);
    var task := t.tasks[id];
    GenuineSuccessReturnsUpload(sha, t.nodes[task.owner].state.store, t.history, task.job);
  }
}
