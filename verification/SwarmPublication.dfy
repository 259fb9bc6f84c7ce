/** What a download changes at the peer that runs it: the chunks it stores, and the file it shares once it succeeds. */
module SwarmPublication {
  import opened FileMetadata
  import DP = DownloadProtocol
  import DI = DownloadInvariant
  import opened Swarm
  import opened SwarmSeeding

  /** The publication adds one entry to the shared files of the downloading peer and touches nothing else. */
  lemma PublishShares(sha: HashFunction, s: System, id: nat)
    requires Enabled(s, Act(id, DP.Publish))
    ensures var s', a, job := Step(sha, s, Act(id, DP.Publish)), s.tasks[id].owner, s.tasks[id].job;
            && TaskSucceeded(s', id)
            && s'.nodes.Keys == s.nodes.Keys
            && s'.nodes[a].state.shared == s.nodes[a].state.shared[job.name := job.cfg.meta]
            && s'.nodes[a].state.store == s.nodes[a].state.store
            && s'.nodes[a].registry == s.nodes[a].registry
            && forall b :: b in s.nodes && b != a ==> s'.nodes[b] == s.nodes[b]
  {
    StepMovesPeer(sha, s, Act(id, DP.Publish), s.tasks[id].owner);
  }

  /** Before its result is sent, a verified chunk is put into the store under its hash; nothing else changes. */
  lemma StoreAddsChunk(sha: HashFunction, s: System, id: nat, w: nat)
    requires Inv(sha, s) && Enabled(s, Act(id, DP.Store(w)))
    ensures var s', a, job := Step(sha, s, Act(id, DP.Store(w))), s.tasks[id].owner, s.tasks[id].job;
            && w < |job.cfg.meta.chunks| && job.run.workers[w].reply.Some?
            && sha(job.run.workers[w].reply.value) == job.cfg.meta.chunks[w].hash
            && s'.nodes.Keys == s.nodes.Keys
            && s'.nodes[a].state.store ==
                 s.nodes[a].state.store[Hex(job.cfg.meta.chunks[w].hash) := job.run.workers[w].reply.value]
            && s'.nodes[a].state.shared == s.nodes[a].state.shared
            && forall b :: b in s.nodes && b != a ==> s'.nodes[b] == s.nodes[b]
  {
    RunIsGood(sha, s, id);
    StepMovesPeer(sha, s, Act(id, DP.Store(w)), s.tasks[id].owner);
  }

  /** No other step of a download touches any peer. */
  lemma OtherActsTouchNoPeer(sha: HashFunction, s: System, id: nat, a: DP.Event)
    requires Enabled(s, Act(id, a)) && !a.Publish? && !a.Store?
    ensures Step(sha, s, Act(id, a)).nodes == s.nodes
  {
    StepKeepsKeys(sha, s, Act(id, a));
  }

  /** A download that has succeeded is advertised by its peer. */
  ghost predicate Advertised(s: System, id: nat) {
    TaskSucceeded(s, id) ==>
      s.tasks[id].owner in s.nodes && s.tasks[id].job.name in s.nodes[s.tasks[id].owner].state.shared
  }

  lemma SharedNamesStay(sha: HashFunction, s: System, e: Event, a: Addr)
    requires Enabled(s, e) && a in s.nodes
    ensures a in Step(sha, s, e).nodes
    ensures s.nodes[a].state.shared.Keys <= Step(sha, s, e).nodes[a].state.shared.Keys
  {
    StepMovesPeer(sha, s, e, a);
  }

  /** Only its own publication makes a download succeed; afterwards its task does not change. */
  lemma SuccessComesFromPublish(sha: HashFunction, s: System, e: Event, id: nat)
    requires Enabled(s, e) && TaskSucceeded(Step(sha, s, e), id)
    ensures e == Act(id, DP.Publish) || (TaskSucceeded(s, id) && s.tasks[id].owner == Step(sha, s, e).tasks[id].owner)
    ensures id in s.tasks && s.tasks[id].owner == Step(sha, s, e).tasks[id].owner && s.tasks[id].job.Running?
    ensures s.tasks[id].job.name == Step(sha, s, e).tasks[id].job.name
    ensures s.tasks[id].job.cfg == Step(sha, s, e).tasks[id].job.cfg
  {
  }

  lemma StepKeepsAdvertised(sha: HashFunction, s: System, e: Event, id: nat)
    requires Enabled(s, e) && Advertised(s, id)
    ensures Advertised(Step(sha, s, e), id)
  {
    if TaskSucceeded(Step(sha, s, e), id) {
      SuccessComesFromPublish(sha, s, e, id);
      if e == Act(id, DP.Publish) {
        PublishShares(sha, s, id);
      } else {
        SharedNamesStay(sha, s, e, s.tasks[id].owner);
      }
    }
  }

  lemma {:induction false} RunKeepsAdvertised(sha: HashFunction, s: System, es: seq<Event>, id: nat)
    requires IsRun(sha, s, es) && Advertised(s, id)
    ensures Advertised(End(sha, s, es), id)
    decreases |es|
  {
    if es != [] {
      StepKeepsAdvertised(sha, s, es[0], id);
      RunKeepsAdvertised(sha, Step(sha, s, es[0]), es[1..], id);
    }
  }

  /**
   From freshly started peers, whatever is interleaved and whatever the replies were: a download that has succeeded has
   left its file among the shared files of its peer, under the name that was asked for.
   */
  lemma SuccessIsAdvertised(sha: HashFunction, s: System, es: seq<Event>, id: nat)
    requires Initial(s) && IsRun(sha, s, es) && TaskSucceeded(End(sha, s, es), id)
    ensures var t := End(sha, s, es);
            && t.tasks[id].owner in t.nodes
            && t.tasks[id].job.name in t.nodes[t.tasks[id].owner].state.shared
  {
    RunKeepsAdvertised(sha, s, es, id);
  }

  /** A download that has succeeded takes no further step. */
  lemma NoActAfterSuccess(sha: HashFunction, s: System, id: nat, a: DP.Event)
    requires Inv(sha, s) && TaskSucceeded(s, id)
    ensures !Enabled(s, Act(id, a))
  {
    if Enabled(s, Act(id, a)) {
      RunIsGood(sha, s, id);
      DI.ClosedStep(sha, s.tasks[id].job.cfg, s.tasks[id].job.run, a);
      assert false;
    }
  }

  lemma StepAfterSuccess(sha: HashFunction, s: System, e: Event, a: Addr, id: nat)
    requires Inv(sha, s) && TaskSucceeded(s, id) && Enabled(s, e) && a in s.nodes
    requires PublishesAt(s, e, a) ==> e.Act? && e.id == id
    ensures var s' := Step(sha, s, e);
            && a in s'.nodes && s'.nodes[a].state.shared == s.nodes[a].state.shared
            && id in s'.tasks && s'.tasks[id] == s.tasks[id]
  {
    if e.Act? && e.id == id {
      NoActAfterSuccess(sha, s, id, e.e);
    } else {
      OnlyPublicationsChangeShared(sha, s, e, a);
    }
  }

  lemma {:induction false} NothingAfterSuccess(sha: HashFunction, s: System, es: seq<Event>, a: Addr, id: nat)
    requires Inv(sha, s) && TaskSucceeded(s, id) && a in s.nodes
    requires IsRun(sha, s, es) && SolePublisher(sha, s, es, a, id)
    ensures var t := End(sha, s, es);
            && a in t.nodes && t.nodes[a].state.shared == s.nodes[a].state.shared
            && id in t.tasks && t.tasks[id] == s.tasks[id]
    decreases |es|
  {
    if es != [] {
      StepAfterSuccess(sha, s, es[0], a, id);
      StepKeepsInv(sha, s, es[0]);
      NothingAfterSuccess(sha, Step(sha, s, es[0]), es[1..], a, id);
    }
  }

  /**
   The other half of `SwarmSeeding.UnsuccessfulDownloadKeepsShared`: when nobody else publishes at the peer, a download
   that succeeds changes its shared files by exactly one entry, the requested name with the metadata that was served.
   */
  lemma {:induction false} SuccessfulDownloadShares(sha: HashFunction, s: System, es: seq<Event>, a: Addr, id: nat)
    requires Inv(sha, s) && IsRun(sha, s, es) && a in s.nodes && SolePublisher(sha, s, es, a, id)
    requires !TaskSucceeded(s, id) && TaskSucceeded(End(sha, s, es), id) && End(sha, s, es).tasks[id].owner == a
    ensures var t := End(sha, s, es);
            && a in t.nodes
            && t.nodes[a].state.shared == s.nodes[a].state.shared[t.tasks[id].job.name := t.tasks[id].job.cfg.meta]
    decreases |es|
  {
    var s' := Step(sha, s, es[0]);
    StepKeepsInv(sha, s, es[0]);
    StepKeepsKeys(sha, s, es[0]);
    if TaskSucceeded(s', id) {
      SuccessComesFromPublish(sha, s, es[0], id);
      PublishShares(sha, s, id);
      NothingAfterSuccess(sha, s', es[1..], a, id);
    } else {
      if PublishesAt(s, es[0], a) {
        PublishSucceeds(sha, s, es[0], a, id);
        assert false;
      }
      OnlyPublicationsChangeShared(sha, s, es[0], a);
      SuccessfulDownloadShares(sha, s', es[1..], a, id);
    }
  }
}
