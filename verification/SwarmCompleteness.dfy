/** A download from peers that hold their chunks succeeds under every schedule, and only such a download does. */
module SwarmCompleteness {
  import opened Wrappers
  import opened Collections
  import opened FileMetadata
  import opened Peers
  import DP = DownloadProtocol
  import DI = DownloadInvariant
  import PG = DownloadProgress
  import DS = DownloadSafety
  import DR = DownloadRefinement
  import DO = DownloadOutcome
  import TR = TcpRpc
  import opened Swarm
  import opened SwarmSeeding

  /** What a faithful peer answers to a chunk request. */
  function Lookup(s: System, a: Addr, key: string): Option<Bytes> {
    if a in s.nodes then TR.FindChunk(s.nodes[a].state.store, Some(key)) else None
  }

  /** The answer that the peer assigned to entry `w` has for it. */
  function AnswerAt(s: System, cfg: DP.Config, w: nat): Option<Bytes>
    requires cfg.peers != [] && w < |cfg.meta.chunks|
  {
    Lookup(s, DP.AssignedPeer(cfg, w), Hex(cfg.meta.chunks[w].hash))
  }

  /** Every reply to download `id` is what the assigned peer looked up at some moment, in one of the states `past`. */
  ghost predicate FaithfulStep(past: set<System>, s: System, e: Event, id: nat) {
    e.Act? && e.id == id && e.e.Reply? && IsRunning(s, id) && DP.Launchable(s.tasks[id].job.cfg) &&
    e.e.w < |s.tasks[id].job.cfg.meta.chunks| ==>
      exists p :: p in past && AnswerAt(p, s.tasks[id].job.cfg, e.e.w) == e.e.reply
  }

  /** A run since the launch of download `id`; `past` holds the states from the launch to before `s`. */
  ghost predicate FaithfulRun(sha: HashFunction, past: set<System>, s: System, es: seq<Event>, id: nat)
    requires IsRun(sha, s, es)
    decreases |es|
  {
    es != [] ==>
      && FaithfulStep(past + {s}, s, es[0], id)
      && FaithfulRun(sha, past + {s}, Step(sha, s, es[0]), es[1..], id)
  }

  predicate Holds(s: System, a: Addr, hash: Hash) {
    Lookup(s, a, Hex(hash)).Some?
  }

  /** The peer each chunk is assigned to holds that chunk. */
  ghost predicate HoldersAssigned(s: System, cfg: DP.Config)
    requires cfg.peers != []
  {
    forall k :: 0 <= k < |cfg.meta.chunks| ==> Holds(s, DP.AssignedPeer(cfg, k), cfg.meta.chunks[k].hash)
  }

  /** The metadata counts its chunks correctly, their number fits a channel, and each is held where it is asked for. */
  ghost predicate WellServed(s: System, cfg: DP.Config) {
    && cfg.meta.totalChunks == |cfg.meta.chunks| && DP.CapacityAccepted(cfg)
    && cfg.peers != [] && HoldersAssigned(s, cfg)
  }

  predicate Answered(w: DP.Worker) {
    !w.Unlaunched? && !w.Fetching?
  }

  ghost predicate RepliesPass(sha: HashFunction, cfg: DP.Config, run: DP.State) {
    && |run.workers| == |cfg.meta.chunks|
    && forall k :: 0 <= k < |run.workers| && Answered(run.workers[k]) ==>
         DP.Passes(sha, cfg.meta.chunks[k], run.workers[k].reply)
  }

  ghost predicate OnTrack(sha: HashFunction, s: System, id: nat) {
    && IsRunning(s, id)
    && WellServed(s, s.tasks[id].job.cfg)
    && RepliesPass(sha, s.tasks[id].job.cfg, s.tasks[id].job.run)
  }

  lemma LookupPasses(sha: HashFunction, s: System, cfg: DP.Config, w: nat)
    requires Inv(sha, s) && WellServed(s, cfg) && DP.Launchable(cfg) && w < |cfg.meta.chunks|
    ensures DP.Passes(sha, cfg.meta.chunks[w], AnswerAt(s, cfg, w))
  {
    var a, hash := DP.AssignedPeer(cfg, w), cfg.meta.chunks[w].hash;
    assert Holds(s, a, hash);
    assert Seeding(sha, s.nodes[a].state) && Hex(hash) in s.nodes[a].state.store;
    HexInjective(sha(s.nodes[a].state.store[Hex(hash)]), hash);
  }

  lemma ActKeepsRepliesPass(sha: HashFunction, cfg: DP.Config, run: DP.State, a: DP.Event)
    requires DP.Enabled(cfg, run, a) && RepliesPass(sha, cfg, run)
    requires a.Reply? ==> DP.Passes(sha, cfg.meta.chunks[a.w], a.reply)
    ensures RepliesPass(sha, cfg, DP.Step(sha, cfg, run, a))
  {
  }

  lemma StepKeepsHolder(sha: HashFunction, s: System, e: Event, a: Addr, hash: Hash)
    requires Inv(sha, s) && Enabled(s, e) && Holds(s, a, hash)
    ensures Holds(Step(sha, s, e), a, hash)
  {
    StepKeepsPeers(sha, s, e, a);
  }

  lemma StepKeepsWellServed(sha: HashFunction, s: System, e: Event, cfg: DP.Config)
    requires Inv(sha, s) && Enabled(s, e) && WellServed(s, cfg)
    ensures WellServed(Step(sha, s, e), cfg)
  {
    forall k | 0 <= k < |cfg.meta.chunks|
      ensures Holds(Step(sha, s, e), DP.AssignedPeer(cfg, k), cfg.meta.chunks[k].hash)
    {
      StepKeepsHolder(sha, s, e, DP.AssignedPeer(cfg, k), cfg.meta.chunks[k].hash);
    }
  }

  /** The download was well served in all the states `past`. */
  ghost predicate AllServe(sha: HashFunction, past: set<System>, cfg: DP.Config) {
    forall p :: p in past ==> Inv(sha, p) && WellServed(p, cfg)
  }

  lemma NextRunPasses(sha: HashFunction, past: set<System>, s: System, e: Event, id: nat)
    requires OnTrack(sha, s, id) && Enabled(s, e) && FaithfulStep(past, s, e, id)
    requires DP.Launchable(s.tasks[id].job.cfg) && AllServe(sha, past, s.tasks[id].job.cfg)
    ensures RepliesPass(sha, s.tasks[id].job.cfg, NextRun(sha, s, e, id))
  {
    var job := s.tasks[id].job;
    if e.Act? && e.id == id {
      if e.e.Reply? {
        var p :| p in past && AnswerAt(p, job.cfg, e.e.w) == e.e.reply;
        LookupPasses(sha, p, job.cfg, e.e.w);
      }
      ActKeepsRepliesPass(sha, job.cfg, job.run, e.e);
    }
  }

  lemma StepKeepsOnTrack(sha: HashFunction, past: set<System>, s: System, e: Event, id: nat)
    requires Inv(sha, s) && OnTrack(sha, s, id) && Enabled(s, e) && FaithfulStep(past + {s}, s, e, id)
    requires AllServe(sha, past, s.tasks[id].job.cfg)
    ensures OnTrack(sha, Step(sha, s, e), id)
    ensures Step(sha, s, e).tasks[id].job.cfg == s.tasks[id].job.cfg
  {
    RunIsGood(sha, s, id);
    StepMovesRun(sha, s, e, id);
    StepKeepsWellServed(sha, s, e, s.tasks[id].job.cfg);
    NextRunPasses(sha, past + {s}, s, e, id);
  }

  /** With only passing replies the verdict after the collector loop is to merge. */
  lemma PassingRepliesNeverFail(sha: HashFunction, cfg: DP.Config, run: DP.State)
    requires DI.Inv(sha, cfg, run) && RepliesPass(sha, cfg, run) && cfg.meta.totalChunks == |cfg.meta.chunks|
    ensures !run.main.Failed?
  {
    if run.main.Failed? {
      DS.CollectedAll(sha, cfg, run);
      var rs := DS.FinalResults(sha, cfg, run.workers);
      DR.GoodHasNoErrors(rs);
      DR.AllGood(rs);
      DR.VerdictPermutes(cfg, rs, run.received);
    }
  }

  /** The task of a launch that `make` accepted. */
  ghost predicate Underway(sha: HashFunction, s: System, id: nat) {
    && Inv(sha, s) && IsRunning(s, id)
    && DI.Inv(sha, s.tasks[id].job.cfg, s.tasks[id].job.run)
  }

  lemma OnTrackIsUnderway(sha: HashFunction, s: System, id: nat)
    requires Inv(sha, s) && OnTrack(sha, s, id)
    ensures Underway(sha, s, id)
  {
    RunIsGood(sha, s, id);
  }

  /** How many of the events are steps of download `id`. */
  function ActCount(es: seq<Event>, id: nat): nat {
    if es == [] then 0 else (if es[0].Act? && es[0].id == id then 1 else 0) + ActCount(es[1..], id)
  }

  lemma StepMeasure(sha: HashFunction, s: System, e: Event, id: nat)
    requires Underway(sha, s, id) && Enabled(s, e)
    ensures Underway(sha, Step(sha, s, e), id)
    ensures PG.Measure(Step(sha, s, e).tasks[id].job.run) + (if e.Act? && e.id == id then 1 else 0)
         <= PG.Measure(s.tasks[id].job.run)
  {
    StepMovesRun(sha, s, e, id);
    StepKeepsInv(sha, s, e);
    if e.Act? && e.id == id {
      var job := s.tasks[id].job;
      DI.StepKeepsInv(sha, job.cfg, job.run, e.e);
      PG.StepDecreases(sha, job.cfg, job.run, e.e);
    }
  }

  lemma {:induction false} RunStaysOnTrack(sha: HashFunction, past: set<System>, s: System, es: seq<Event>, id: nat)
    requires Inv(sha, s) && OnTrack(sha, s, id) && AllServe(sha, past, s.tasks[id].job.cfg)
    requires IsRun(sha, s, es) && FaithfulRun(sha, past, s, es, id)
    ensures var t := End(sha, s, es);
            && Inv(sha, t) && OnTrack(sha, t, id)
            && t.tasks[id].job.cfg == s.tasks[id].job.cfg
            && ActCount(es, id) + PG.Measure(t.tasks[id].job.run) <= PG.Measure(s.tasks[id].job.run)
    decreases |es|
  {
    if es != [] {
      OnTrackIsUnderway(sha, s, id);
      StepKeepsOnTrack(sha, past, s, es[0], id);
      StepMeasure(sha, s, es[0], id);
      RunStaysOnTrack(sha, past + {s}, Step(sha, s, es[0]), es[1..], id);
    }
  }

  /** A download that has not finished has a step it can take, with the answer of the moment if it is waiting. */
  lemma NextAct(sha: HashFunction, s: System, id: nat) returns (a: DP.Event)
    requires Underway(sha, s, id) && !DP.Final(s.tasks[id].job.run)
    ensures Enabled(s, Act(id, a)) && FaithfulStep({s}, s, Act(id, a), id)
  {
    var job := s.tasks[id].job;
    var answers := (w: nat) =>
      if job.cfg.peers != [] && w < |job.cfg.meta.chunks| then AnswerAt(s, job.cfg, w) else None;
    a := PG.Progress(sha, job.cfg, job.run, answers);
    if a.Reply? {
      assert s in {s} && AnswerAt(s, job.cfg, a.w) == a.reply;
    }
  }

  /** Neither panicked nor failed nor stuck. */
  ghost predicate SafeAndLive(s: System, id: nat) {
    && IsRunning(s, id)
    && !s.tasks[id].job.run.panicked && !s.tasks[id].job.run.main.Failed?
    && (DP.Final(s.tasks[id].job.run) || exists a :: Enabled(s, Act(id, a)) && FaithfulStep({s}, s, Act(id, a), id))
  }

  lemma OnTrackIsSafeAndLive(sha: HashFunction, s: System, id: nat)
    requires Inv(sha, s) && OnTrack(sha, s, id)
    ensures SafeAndLive(s, id)
  {
    var job := s.tasks[id].job;
    OnTrackIsUnderway(sha, s, id);
    PassingRepliesNeverFail(sha, job.cfg, job.run);
    if !DP.Final(job.run) {
      var a := NextAct(sha, s, id);
    }
  }

  lemma MeasureOfInit(cfg: DP.Config)
    ensures PG.Measure(DP.Init(cfg)) == 7 * |cfg.meta.chunks| + 7
  {
    DI.TotalOfCopies(PG.Rank, DP.Init(cfg).workers, DP.Unlaunched);
  }

  /**
   Completeness. If at launch each chunk of correctly counted metadata is held by the peer it is assigned to, and the
   assigned peers answer faithfully, then however the rest of the swarm interleaves the download takes at most 7n + 7
   steps, always has a next step until it is finished, and finishes with success.
   */
  lemma EveryScheduleSucceeds(sha: HashFunction, s: System, es: seq<Event>, id: nat)
    requires Inv(sha, s) && IsRunning(s, id) && s.tasks[id].job.run == DP.Init(s.tasks[id].job.cfg)
    requires WellServed(s, s.tasks[id].job.cfg)
    requires IsRun(sha, s, es) && FaithfulRun(sha, {}, s, es, id)
    ensures SafeAndLive(End(sha, s, es), id)
    ensures ActCount(es, id) <= 7 * |s.tasks[id].job.cfg.meta.chunks| + 7
  {
    var cfg := s.tasks[id].job.cfg;
    assert RepliesPass(sha, cfg, DP.Init(cfg));
    MeasureOfInit(cfg);
    RunStaysOnTrack(sha, {}, s, es, id);
    OnTrackIsSafeAndLive(sha, End(sha, s, es), id);
  }

  /** Data that arrived for a chunk came from a peer that holds it. */
  ghost predicate RepliesFromHolders(s: System, cfg: DP.Config, run: DP.State) {
    && cfg.peers != [] && |run.workers| == |cfg.meta.chunks|
    && forall k :: 0 <= k < |run.workers| && Answered(run.workers[k]) && run.workers[k].reply.Some? ==>
         Holds(s, DP.AssignedPeer(cfg, k), cfg.meta.chunks[k].hash)
  }

  ghost predicate Traced(s: System, id: nat) {
    IsRunning(s, id) && RepliesFromHolders(s, s.tasks[id].job.cfg, s.tasks[id].job.run)
  }

  lemma HoldersStay(sha: HashFunction, s: System, e: Event, cfg: DP.Config, run: DP.State)
    requires Inv(sha, s) && Enabled(s, e) && RepliesFromHolders(s, cfg, run)
    ensures RepliesFromHolders(Step(sha, s, e), cfg, run)
  {
    forall k | 0 <= k < |run.workers| && Answered(run.workers[k]) && run.workers[k].reply.Some?
      ensures Holds(Step(sha, s, e), DP.AssignedPeer(cfg, k), cfg.meta.chunks[k].hash)
    {
      StepKeepsHolder(sha, s, e, DP.AssignedPeer(cfg, k), cfg.meta.chunks[k].hash);
    }
  }

  lemma ActKeepsTrace(sha: HashFunction, s: System, cfg: DP.Config, run: DP.State, a: DP.Event)
    requires RepliesFromHolders(s, cfg, run) && DP.Enabled(cfg, run, a)
    requires a.Reply? && a.reply.Some? ==> Holds(s, DP.AssignedPeer(cfg, a.w), cfg.meta.chunks[a.w].hash)
    ensures RepliesFromHolders(s, cfg, DP.Step(sha, cfg, run, a))
  {
  }

  /** What peers held in the states `past` they still hold. */
  ghost predicate StillHeld(past: set<System>, s: System) {
    forall p, a, hash :: p in past && Holds(p, a, hash) ==> Holds(s, a, hash)
  }

  lemma StepKeepsHeld(sha: HashFunction, past: set<System>, s: System, e: Event)
    requires Inv(sha, s) && Enabled(s, e) && StillHeld(past, s)
    ensures StillHeld(past + {s}, Step(sha, s, e))
  {
    forall p, a, hash | p in past + {s} && Holds(p, a, hash) ensures Holds(Step(sha, s, e), a, hash) {
      StepKeepsHolder(sha, s, e, a, hash);
    }
  }

  lemma NextRunIsTraced(sha: HashFunction, past: set<System>, s: System, e: Event, id: nat)
    requires Inv(sha, s) && Traced(s, id) && StillHeld(past, s)
    requires Enabled(s, e) && FaithfulStep(past + {s}, s, e, id)
    ensures RepliesFromHolders(s, s.tasks[id].job.cfg, NextRun(sha, s, e, id))
  {
    if e.Act? && e.id == id {
      RunIsGood(sha, s, id);
      var cfg := s.tasks[id].job.cfg;
      if e.e.Reply? && e.e.reply.Some? {
        var p :| p in past + {s} && AnswerAt(p, cfg, e.e.w) == e.e.reply;
        assert Holds(p, DP.AssignedPeer(cfg, e.e.w), cfg.meta.chunks[e.e.w].hash);
      }
      ActKeepsTrace(sha, s, cfg, s.tasks[id].job.run, e.e);
    }
  }

  lemma StepKeepsTrace(sha: HashFunction, past: set<System>, s: System, e: Event, id: nat)
    requires Inv(sha, s) && Traced(s, id) && StillHeld(past, s)
    requires Enabled(s, e) && FaithfulStep(past + {s}, s, e, id)
    ensures Traced(Step(sha, s, e), id)
    ensures Step(sha, s, e).tasks[id].job.cfg == s.tasks[id].job.cfg
  {
    NextRunIsTraced(sha, past, s, e, id);
    HoldersStay(sha, s, e, s.tasks[id].job.cfg, NextRun(sha, s, e, id));
    StepMovesRun(sha, s, e, id);
  }

  lemma {:induction false} RunKeepsTrace(sha: HashFunction, past: set<System>, s: System, es: seq<Event>, id: nat)
    requires Inv(sha, s) && Traced(s, id) && StillHeld(past, s)
    requires IsRun(sha, s, es) && FaithfulRun(sha, past, s, es, id)
    ensures Inv(sha, End(sha, s, es)) && Traced(End(sha, s, es), id)
    ensures End(sha, s, es).tasks[id].job.cfg == s.tasks[id].job.cfg
    decreases |es|
  {
    if es != [] {
      StepKeepsInv(sha, s, es[0]);
      StepKeepsTrace(sha, past, s, es[0], id);
      StepKeepsHeld(sha, past, s, es[0]);
      RunKeepsTrace(sha, past + {s}, Step(sha, s, es[0]), es[1..], id);
    }
  }

  lemma TracedSuccessIsWellServed(sha: HashFunction, s: System, id: nat)
    requires Inv(sha, s) && Traced(s, id) && TaskSucceeded(s, id)
    ensures WellServed(s, s.tasks[id].job.cfg)
  {
    var job := s.tasks[id].job;
    RunIsGood(sha, s, id);
    DO.SuccessMeansAllPassed(sha, job.cfg, job.run);
    forall k | 0 <= k < |job.cfg.meta.chunks|
      ensures Holds(s, DP.AssignedPeer(job.cfg, k), job.cfg.meta.chunks[k].hash)
    {
      assert Answered(job.run.workers[k]);
    }
  }

  /**
   A download whose peers answer faithfully succeeds only if each chunk is, in the end, held by the peer it was assigned
   to, whatever else these peers come to hold while it runs.
   */
  lemma SuccessNeedsHolders(sha: HashFunction, s: System, es: seq<Event>, id: nat)
    requires Inv(sha, s) && IsRunning(s, id) && s.tasks[id].job.run == DP.Init(s.tasks[id].job.cfg)
    requires IsRun(sha, s, es) && FaithfulRun(sha, {}, s, es, id)
    requires TaskSucceeded(End(sha, s, es), id)
    ensures WellServed(End(sha, s, es), s.tasks[id].job.cfg)
  {
    RunIsGood(sha, s, id);
    RunKeepsTrace(sha, {}, s, es, id);
    TracedSuccessIsWellServed(sha, End(sha, s, es), id);
  }

  predicate BadAnswer(sha: HashFunction, cfg: DP.Config, run: DP.State, k: nat) {
    && k < |run.workers| == |cfg.meta.chunks|
    && Answered(run.workers[k]) && !DP.Passes(sha, cfg.meta.chunks[k], run.workers[k].reply)
  }

  /** Download `id` has received an answer for entry `k` that it cannot use. */
  predicate Spoilt(sha: HashFunction, s: System, id: nat, k: nat) {
    IsRunning(s, id) && BadAnswer(sha, s.tasks[id].job.cfg, s.tasks[id].job.run, k)
  }

  lemma BadAnswerStays(sha: HashFunction, cfg: DP.Config, run: DP.State, a: DP.Event, k: nat)
    requires DI.Control(cfg, run) && DP.Enabled(cfg, run, a) && BadAnswer(sha, cfg, run, k)
    ensures BadAnswer(sha, cfg, DP.Step(sha, cfg, run, a), k)
  {
  }

  lemma StepStaysSpoilt(sha: HashFunction, s: System, e: Event, id: nat, k: nat)
    requires Inv(sha, s) && Spoilt(sha, s, id, k) && Enabled(s, e)
    ensures Spoilt(sha, Step(sha, s, e), id, k)
  {
    RunIsGood(sha, s, id);
    StepMovesRun(sha, s, e, id);
    if e.Act? && e.id == id {
      BadAnswerStays(sha, s.tasks[id].job.cfg, s.tasks[id].job.run, e.e, k);
    }
  }

  lemma SpoiltHasNotSucceeded(sha: HashFunction, s: System, id: nat, k: nat)
    requires Inv(sha, s) && Spoilt(sha, s, id, k)
    ensures !TaskSucceeded(s, id)
  {
    if TaskSucceeded(s, id) {
      var job := s.tasks[id].job;
      RunIsGood(sha, s, id);
      DO.SuccessMeansAllPassed(sha, job.cfg, job.run);
      assert false;
    }
  }

  /** One answer that is missing or has the wrong hash is fatal: whatever happens later, the download never succeeds. */
  lemma {:induction false} SpoiltNeverSucceeds(sha: HashFunction, s: System, es: seq<Event>, id: nat, k: nat)
    requires Inv(sha, s) && Spoilt(sha, s, id, k) && IsRun(sha, s, es)
    ensures !TaskSucceeded(End(sha, s, es), id)
    decreases |es|
  {
    if es == [] {
      SpoiltHasNotSucceeded(sha, s, id, k);
    } else {
      StepKeepsInv(sha, s, es[0]);
      StepStaysSpoilt(sha, s, es[0], id, k);
      SpoiltNeverSucceeds(sha, Step(sha, s, es[0]), es[1..], id, k);
    }
  }

  lemma {:induction false} FaithfulInMore(sha: HashFunction, past: set<System>, more: set<System>, s: System,
      es: seq<Event>, id: nat)
    requires past <= more && IsRun(sha, s, es) && FaithfulRun(sha, past, s, es, id)
    ensures FaithfulRun(sha, more, s, es, id)
    decreases |es|
  {
    if es != [] {
      FaithfulInMore(sha, past + {s}, more + {s}, Step(sha, s, es[0]), es[1..], id);
    }
  }

  lemma FaithfulHead(sha: HashFunction, past: set<System>, s: System, e: Event, rest: seq<Event>, id: nat)
    requires Enabled(s, e) && FaithfulStep(past + {s}, s, e, id)
    requires IsRun(sha, Step(sha, s, e), rest) && FaithfulRun(sha, past + {s}, Step(sha, s, e), rest, id)
    ensures IsRun(sha, s, [e] + rest) && FaithfulRun(sha, past, s, [e] + rest, id)
    ensures End(sha, s, [e] + rest) == End(sha, Step(sha, s, e), rest)
  {
    assert ([e] + rest)[1..] == rest;
  }

  lemma FaithfulPrepend(sha: HashFunction, s: System, e: Event, rest: seq<Event>, id: nat)
    requires Enabled(s, e) && FaithfulStep({s}, s, e, id)
    requires IsRun(sha, Step(sha, s, e), rest) && FaithfulRun(sha, {}, Step(sha, s, e), rest, id)
    ensures IsRun(sha, s, [e] + rest) && FaithfulRun(sha, {}, s, [e] + rest, id)
    ensures End(sha, s, [e] + rest) == End(sha, Step(sha, s, e), rest)
  {
    assert {} + {s} == {s};
    FaithfulInMore(sha, {}, {s}, Step(sha, s, e), rest, id);
    FaithfulHead(sha, {}, s, e, rest, id);
  }

  lemma {:induction false} FaithfulConcat(sha: HashFunction, past: set<System>, s: System, first: seq<Event>,
      second: seq<Event>, id: nat)
    requires IsRun(sha, s, first) && FaithfulRun(sha, past, s, first, id)
    requires IsRun(sha, End(sha, s, first), second) && FaithfulRun(sha, {}, End(sha, s, first), second, id)
    ensures IsRun(sha, s, first + second) && FaithfulRun(sha, past, s, first + second, id)
    ensures End(sha, s, first + second) == End(sha, End(sha, s, first), second)
    decreases |first|
  {
    if first == [] {
      assert first + second == second;
      FaithfulInMore(sha, {}, past, s, second, id);
    } else {
      FaithfulConcat(sha, past + {s}, Step(sha, s, first[0]), first[1..], second, id);
      HeadAndRest(first, second);
      FaithfulHead(sha, past, s, first[0], first[1..] + second, id);
    }
  }

  /** The launcher goes on until goroutine `k` has been started, and that goroutine is answered at once. */
  lemma {:induction false} AskFor(sha: HashFunction, s: System, id: nat, k: nat) returns (es: seq<Event>)
    requires Underway(sha, s, id) && k < |s.tasks[id].job.cfg.meta.chunks|
    requires s.tasks[id].job.run.main.Launching? && s.tasks[id].job.run.main.next <= k
    requires !Holds(s, DP.AssignedPeer(s.tasks[id].job.cfg, k), s.tasks[id].job.cfg.meta.chunks[k].hash)
    ensures IsRun(sha, s, es) && FaithfulRun(sha, {}, s, es, id)
    ensures Inv(sha, End(sha, s, es)) && Spoilt(sha, End(sha, s, es), id, k)
    decreases k - s.tasks[id].job.run.main.next
  {
    var s' := Step(sha, s, Act(id, DP.Launch));
    LaunchOne(sha, s, id, k);
    var rest: seq<Event>;
    if s.tasks[id].job.run.main.next < k {
      rest := AskFor(sha, s', id, k);
    } else {
      rest := [Act(id, DP.Reply(k, None))];
      NothingFound(sha, s', id, k);
    }
    FaithfulPrepend(sha, s, Act(id, DP.Launch), rest, id);
    es := [Act(id, DP.Launch)] + rest;
  }

  /** One turn of the launcher loop changes nothing at the peers. */
  lemma LaunchOne(sha: HashFunction, s: System, id: nat, k: nat)
    requires Underway(sha, s, id) && k < |s.tasks[id].job.cfg.meta.chunks|
    requires s.tasks[id].job.run.main.Launching? && s.tasks[id].job.run.main.next <= k
    requires !Holds(s, DP.AssignedPeer(s.tasks[id].job.cfg, k), s.tasks[id].job.cfg.meta.chunks[k].hash)
    ensures Enabled(s, Act(id, DP.Launch)) && FaithfulStep({s}, s, Act(id, DP.Launch), id)
    ensures var s', next := Step(sha, s, Act(id, DP.Launch)), s.tasks[id].job.run.main.next;
            && Underway(sha, s', id)
            && s'.tasks[id].job.cfg == s.tasks[id].job.cfg
            && s'.tasks[id].job.run.main == DP.Launching(next + 1) && s'.tasks[id].job.run.workers[next].Fetching?
            && !Holds(s', DP.AssignedPeer(s.tasks[id].job.cfg, k), s.tasks[id].job.cfg.meta.chunks[k].hash)
  {
    var job := s.tasks[id].job;
    StepKeepsInv(sha, s, Act(id, DP.Launch));
    StepMovesRun(sha, s, Act(id, DP.Launch), id);
    DI.StepKeepsInv(sha, job.cfg, job.run, DP.Launch);
    var s', a := Step(sha, s, Act(id, DP.Launch)), DP.AssignedPeer(job.cfg, k);
    StepKeepsKeys(sha, s, Act(id, DP.Launch));
    if a in s.nodes {
      StepMovesPeer(sha, s, Act(id, DP.Launch), a);
    }
  }

  lemma NothingFound(sha: HashFunction, s: System, id: nat, k: nat)
    requires Underway(sha, s, id) && k < |s.tasks[id].job.cfg.meta.chunks| == |s.tasks[id].job.run.workers|
    requires s.tasks[id].job.run.workers[k].Fetching?
    requires !Holds(s, DP.AssignedPeer(s.tasks[id].job.cfg, k), s.tasks[id].job.cfg.meta.chunks[k].hash)
    ensures var es := [Act(id, DP.Reply(k, None))];
            && IsRun(sha, s, es) && FaithfulRun(sha, {}, s, es, id)
            && Inv(sha, End(sha, s, es)) && Spoilt(sha, End(sha, s, es), id, k)
  {
    var e := Act(id, DP.Reply(k, None));
    assert s in {s} && AnswerAt(s, s.tasks[id].job.cfg, k) == None;
    StepKeepsInv(sha, s, e);
    StepMovesRun(sha, s, e, id);
    FaithfulPrepend(sha, s, e, [], id);
    assert [e] + [] == [e];
  }

  lemma {:induction false} ConfigStays(sha: HashFunction, s: System, es: seq<Event>, id: nat)
    requires IsRunning(s, id) && IsRun(sha, s, es)
    ensures IsRunning(End(sha, s, es), id) && End(sha, s, es).tasks[id].job.cfg == s.tasks[id].job.cfg
    decreases |es|
  {
    if es != [] {
      StepMovesRun(sha, s, es[0], id);
      ConfigStays(sha, Step(sha, s, es[0]), es[1..], id);
    }
  }

  lemma MiscountNeverSucceeds(sha: HashFunction, s: System, es: seq<Event>, id: nat)
    requires Inv(sha, s) && IsRunning(s, id) && IsRun(sha, s, es)
    requires s.tasks[id].job.cfg.meta.totalChunks != |s.tasks[id].job.cfg.meta.chunks|
    ensures !TaskSucceeded(End(sha, s, es), id)
  {
    var t := End(sha, s, es);
    SwarmSeeding.RunKeepsInv(sha, s, es);
    ConfigStays(sha, s, es, id);
    RunIsGood(sha, t, id);
    if TaskSucceeded(t, id) {
      DO.SuccessMeansAllPassed(sha, t.tasks[id].job.cfg, t.tasks[id].job.run);
      assert false;
    }
  }

  /** No continuation of the swarm makes the download succeed. */
  ghost predicate Doomed(sha: HashFunction, s: System, id: nat) {
    forall more :: IsRun(sha, s, more) ==> !TaskSucceeded(End(sha, s, more), id)
  }

  /** A launched download that is not well served has a faithful schedule after which it can no longer succeed. */
  lemma WellServedIsNeeded(sha: HashFunction, s: System, id: nat) returns (es: seq<Event>)
    requires Inv(sha, s) && IsRunning(s, id) && s.tasks[id].job.run == DP.Init(s.tasks[id].job.cfg)
    requires DP.CapacityAccepted(s.tasks[id].job.cfg) && !WellServed(s, s.tasks[id].job.cfg)
    ensures IsRun(sha, s, es) && FaithfulRun(sha, {}, s, es, id)
    ensures Inv(sha, End(sha, s, es)) && Doomed(sha, End(sha, s, es), id)
  {
    RunIsGood(sha, s, id);
    var cfg := s.tasks[id].job.cfg;
    if cfg.meta.totalChunks != |cfg.meta.chunks| {
      es := [];
      forall more | IsRun(sha, s, more) ensures !TaskSucceeded(End(sha, s, more), id) {
        MiscountNeverSucceeds(sha, s, more, id);
      }
    } else {
      var k :| 0 <= k < |cfg.meta.chunks| && !Holds(s, DP.AssignedPeer(cfg, k), cfg.meta.chunks[k].hash);
      es := AskFor(sha, s, id, k);
      var t := End(sha, s, es);
      forall more | IsRun(sha, t, more) ensures !TaskSucceeded(End(sha, t, more), id) {
        SpoiltNeverSucceeds(sha, t, more, id, k);
      }
    }
  }

  /** Every download under way can be brought to its end by its own steps and faithful answers. */
  lemma {:induction false} CanEnd(sha: HashFunction, s: System, id: nat) returns (es: seq<Event>)
    requires Underway(sha, s, id)
    ensures IsRun(sha, s, es) && FaithfulRun(sha, {}, s, es, id)
    ensures IsRunning(End(sha, s, es), id) && DP.Final(End(sha, s, es).tasks[id].job.run)
    decreases PG.Measure(s.tasks[id].job.run)
  {
    if DP.Final(s.tasks[id].job.run) {
      es := [];
    } else {
      var a := NextAct(sha, s, id);
      StepMeasure(sha, s, Act(id, a), id);
      var rest := CanEnd(sha, Step(sha, s, Act(id, a)), id);
      FaithfulPrepend(sha, s, Act(id, a), rest, id);
      es := [Act(id, a)] + rest;
    }
  }

  predicate HasFailed(s: System, id: nat) {
    IsRunning(s, id) && s.tasks[id].job.run.main.Failed?
  }

  /** A doomed download can be driven into failure. */
  lemma DoomedCanFail(sha: HashFunction, s: System, id: nat) returns (es: seq<Event>)
    requires Underway(sha, s, id) && Doomed(sha, s, id)
    ensures IsRun(sha, s, es) && FaithfulRun(sha, {}, s, es, id) && HasFailed(End(sha, s, es), id)
  {
    es := CanEnd(sha, s, id);
    assert !TaskSucceeded(End(sha, s, es), id);
  }

  lemma {:induction false} StaysUnderway(sha: HashFunction, s: System, es: seq<Event>, id: nat)
    requires Underway(sha, s, id) && IsRun(sha, s, es)
    ensures Underway(sha, End(sha, s, es), id)
    decreases |es|
  {
    if es != [] {
      StepMeasure(sha, s, es[0], id);
      StaysUnderway(sha, Step(sha, s, es[0]), es[1..], id);
    }
  }

  /** Some faithful schedule of a download that is not well served ends in a panic or a failure. */
  lemma SomeScheduleFails(sha: HashFunction, s: System, id: nat) returns (es: seq<Event>)
    requires Inv(sha, s) && IsRunning(s, id) && s.tasks[id].job.run == DP.Init(s.tasks[id].job.cfg)
    requires !WellServed(s, s.tasks[id].job.cfg)
    ensures IsRun(sha, s, es) && FaithfulRun(sha, {}, s, es, id) && !SafeAndLive(End(sha, s, es), id)
    ensures DP.CapacityAccepted(s.tasks[id].job.cfg) ==> HasFailed(End(sha, s, es), id)
  {
    RunIsGood(sha, s, id);
    if DP.CapacityAccepted(s.tasks[id].job.cfg) {
      var first := WellServedIsNeeded(sha, s, id);
      StaysUnderway(sha, s, first, id);
      var second := DoomedCanFail(sha, End(sha, s, first), id);
      FaithfulConcat(sha, {}, s, first, second, id);
      es := first + second;
    } else {
      es := [];
    }
  }

  /**
   Exactly when a download is guaranteed: every faithful schedule is free of panic, failure and deadlock if and only if
   at launch the metadata counts its chunks correctly, a channel of that size can be made, and each chunk is held by the
   peer it is assigned to.
   */
  lemma GuaranteedIffWellServed(sha: HashFunction, s: System, id: nat)
    requires Inv(sha, s) && IsRunning(s, id) && s.tasks[id].job.run == DP.Init(s.tasks[id].job.cfg)
    ensures WellServed(s, s.tasks[id].job.cfg) <==>
              forall es :: IsRun(sha, s, es) && FaithfulRun(sha, {}, s, es, id) ==> SafeAndLive(End(sha, s, es), id)
  {
    if WellServed(s, s.tasks[id].job.cfg) {
      forall es | IsRun(sha, s, es) && FaithfulRun(sha, {}, s, es, id) ensures SafeAndLive(End(sha, s, es), id) {
        EveryScheduleSucceeds(sha, s, es, id);
      }
    } else {
      var es := SomeScheduleFails(sha, s, id);
    }
  }
}
