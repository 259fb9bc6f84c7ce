/** A file published with one content can be downloaded from any peer that shares it, from the request to the bytes. */
module SwarmAvailability {
  import opened Wrappers
  import opened FileMetadata
  import opened Peers
  import opened Upload
  import DP = DownloadProtocol
  import DO = DownloadOutcome
  import PG = DownloadProgress
  import TR = TcpRpc
  import opened Swarm
  import opened SwarmSeeding
  import opened SwarmDelivery
  import opened SwarmPublication
  import opened SwarmCompleteness

  predicate Shares(s: System, a: Addr, name: string) {
    MetaAt(s, a, name).Some?
  }

  /**
   Download `id` is told what the asked peer had at some moment since the request was sent, in one of the states `past`.
   A probe may fail but does not invent a file.
   */
  ghost predicate TruthfulStep(past: set<System>, s: System, e: Event, id: nat) {
    && FaithfulStep(past, s, e, id)
    && (e.MetaReply? && e.id == id && id in s.tasks && s.tasks[id].job.Asking? ==>
          exists p :: p in past && MetaAt(p, s.tasks[id].job.primary, s.tasks[id].job.name) == e.reply)
    && (e.ProbeReply? && e.id == id && e.ok && id in s.tasks && s.tasks[id].job.Probing? &&
        s.tasks[id].job.todo != [] ==>
          exists p :: p in past && Shares(p, s.tasks[id].job.todo[0], s.tasks[id].job.name))
  }

  /** The moments that count start afresh when the probing starts and when the chunk goroutines are launched. */
  ghost function NextPast(past: set<System>, s: System, e: Event, id: nat): set<System> {
    if (e.MetaReply? || e.StartRun?) && e.id == id then {} else past + {s}
  }

  ghost predicate TruthfulRun(sha: HashFunction, past: set<System>, s: System, es: seq<Event>, id: nat)
    requires IsRun(sha, s, es)
    decreases |es|
  {
    es != [] ==>
      && TruthfulStep(past + {s}, s, es[0], id)
      && TruthfulRun(sha, NextPast(past, s, es[0], id), Step(sha, s, es[0]), es[1..], id)
  }

  /** A faithful chunk answer is what FetchChunk returns, exactly when the response fits limit and connection. */
  lemma FaithfulAnswerIsFetched(s: System, a: Addr, key: string, room: nat)
    requires a in s.nodes
    ensures TR.Arrives(TR.FindChunk(s.nodes[a].state.store, Some(key)), room) == Lookup(s, a, key)
       <==> TR.Delivers(Lookup(s, a, key), room)
  {
    TR.ArrivesIffFits(Lookup(s, a, key), room);
  }

  /** A truthful metadata answer is what FetchFileMeta returns when the response fits. */
  lemma TruthfulMetaIsFetched(c: TR.Codec, s: System, a: Addr, name: string, room: nat)
    requires TR.Faithful(c) && a in s.nodes
    requires MetaAt(s, a, name).Some? ==> TR.Delivers(Some(c.encodeMeta(MetaAt(s, a, name).value)), room)
    ensures TR.MetaArrives(c, TR.FindFile(s.nodes[a].state.shared, Some(name)), room) == MetaAt(s, a, name)
  {
    if MetaAt(s, a, name).Some? {
      TR.ArrivesIffFits(Some(c.encodeMeta(MetaAt(s, a, name).value)), room);
    }
  }

  /** No other content has been published under the name. */
  ghost predicate OneContent(history: set<(string, Bytes)>, name: string, data: Bytes) {
    forall d :: (name, d) in history ==> d == data
  }

  ghost predicate AllShare(s: System, peers: seq<Addr>, name: string) {
    forall j :: 0 <= j < |peers| ==> Shares(s, peers[j], name)
  }

  ghost predicate OnCourse(sha: HashFunction, s: System, id: nat, name: string, data: Bytes) {
    && id in s.tasks && s.tasks[id].owner in s.nodes
    && |MetaFor(sha, name, data).chunks| <= s.nodes[s.tasks[id].owner].maxCapacity
    && match s.tasks[id].job
       case Asking(n, primary) => n == name && Shares(s, primary, name)
       case Probing(n, _, meta, _, found) =>
         n == name && meta == MetaFor(sha, name, data) && found != [] && AllShare(s, found, name)
       case Running(n, cfg, _) => n == name && cfg.meta == MetaFor(sha, name, data) && OnTrack(sha, s, id)
       case Rejected => false
  }

  /** What the answers of the current phase can be drawn from. */
  ghost predicate PastOnCourse(sha: HashFunction, past: set<System>, s: System, id: nat, name: string, data: Bytes)
    requires id in s.tasks
  {
    match s.tasks[id].job
    case Asking(_, primary) => forall p :: p in past ==> MetaAt(p, primary, name) == Some(MetaFor(sha, name, data))
    case Probing(_, _, _, _, _) => forall p, a :: p in past && Shares(p, a, name) ==> Shares(s, a, name)
    case Running(_, cfg, _) => AllServe(sha, past, cfg)
    case Rejected => true
  }

  /** Whoever shares the name shares this file and can serve all of it. */
  lemma SharedIsTheFile(sha: HashFunction, s: System, a: Addr, name: string, data: Bytes)
    requires Inv(sha, s) && AllGenuine(sha, s) && OneContent(s.history, name, data) && Shares(s, a, name)
    ensures MetaAt(s, a, name) == Some(MetaFor(sha, name, data))
    ensures CanServe(s.nodes[a].state.store, MetaFor(sha, name, data))
  {
    var p := s.nodes[a].state;
    assert Seeding(sha, p) && GenuinePeer(sha, s.history, p);
    assert Genuine(sha, s.history, name, p.shared[name]) && CanServe(p.store, p.shared[name]);
  }

  lemma StepKeepsShared(sha: HashFunction, s: System, e: Event, a: Addr, name: string)
    requires Enabled(s, e) && Shares(s, a, name)
    ensures Shares(Step(sha, s, e), a, name)
  {
    StepMovesPeer(sha, s, e, a);
  }

  /** What a step leaves alone at a peer. The registry only grows. */
  lemma StepKeepsNode(sha: HashFunction, s: System, e: Event, a: Addr)
    requires Enabled(s, e) && a in s.nodes
    ensures var s' := Step(sha, s, e);
            && s.history <= s'.history && a in s'.nodes
            && s'.nodes[a].maxCapacity == s.nodes[a].maxCapacity
            && |s.nodes[a].registry| <= |s'.nodes[a].registry|
  {
  }

  lemma StepKeepsAllShared(sha: HashFunction, s: System, e: Event, peers: seq<Addr>, name: string)
    requires Enabled(s, e) && AllShare(s, peers, name)
    ensures AllShare(Step(sha, s, e), peers, name)
  {
    forall j | 0 <= j < |peers| ensures Shares(Step(sha, s, e), peers[j], name) {
      StepKeepsShared(sha, s, e, peers[j], name);
    }
  }

  lemma StepKeepsTaskOf(sha: HashFunction, s: System, e: Event, id: nat)
    requires Enabled(s, e) && id in s.tasks && !TaskOf(e, id)
    ensures id in Step(sha, s, e).tasks && Step(sha, s, e).tasks[id] == s.tasks[id]
  {
  }

  /** A step of somebody else does not disturb the download. */
  lemma OtherStepKeepsCourse(sha: HashFunction, past: set<System>, s: System, e: Event, id: nat, name: string,
      data: Bytes)
    requires Inv(sha, s) && OnCourse(sha, s, id, name, data) && PastOnCourse(sha, past, s, id, name, data)
    requires Enabled(s, e) && !TaskOf(e, id)
    ensures OnCourse(sha, Step(sha, s, e), id, name, data)
  {
    var task := s.tasks[id];
    StepKeepsTaskOf(sha, s, e, id);
    StepKeepsNode(sha, s, e, task.owner);
    if task.job.Asking? {
      StepKeepsShared(sha, s, e, task.job.primary, name);
    } else if task.job.Probing? {
      StepKeepsAllShared(sha, s, e, task.job.found, name);
    } else {
      StepKeepsOnTrack(sha, past, s, e, id);
    }
  }

  lemma MetaArrives(sha: HashFunction, past: set<System>, s: System, reply: Option<FileMeta>, id: nat, name: string,
      data: Bytes)
    requires Inv(sha, s) && AllGenuine(sha, s) && OneContent(s.history, name, data) && data != []
    requires OnCourse(sha, s, id, name, data) && PastOnCourse(sha, past, s, id, name, data)
    requires Enabled(s, MetaReply(id, reply)) && TruthfulStep(past + {s}, s, MetaReply(id, reply), id)
    ensures OnCourse(sha, Step(sha, s, MetaReply(id, reply)), id, name, data)
  {
    var primary := s.tasks[id].job.primary;
    SharedIsTheFile(sha, s, primary, name, data);
    assert reply == Some(MetaFor(sha, name, data));
    MetaForShape(sha, name, data);
    StepKeepsShared(sha, s, MetaReply(id, reply), primary, name);
  }

  lemma ProbeArrives(sha: HashFunction, past: set<System>, s: System, ok: bool, id: nat, name: string, data: Bytes)
    requires OnCourse(sha, s, id, name, data) && PastOnCourse(sha, past, s, id, name, data)
    requires Enabled(s, ProbeReply(id, ok)) && TruthfulStep(past + {s}, s, ProbeReply(id, ok), id)
    ensures OnCourse(sha, Step(sha, s, ProbeReply(id, ok)), id, name, data)
  {
    var job, e := s.tasks[id].job, ProbeReply(id, ok);
    StepKeepsAllShared(sha, s, e, job.found, name);
    if ok {
      assert Shares(s, job.todo[0], name);
      StepKeepsShared(sha, s, e, job.todo[0], name);
    }
  }

  /** The peers found by truthful probes serve every chunk: this is where completeness can start. */
  lemma FoundPeersServe(sha: HashFunction, s: System, cfg: DP.Config, name: string, data: Bytes)
    requires Inv(sha, s) && AllGenuine(sha, s) && OneContent(s.history, name, data)
    requires cfg.meta == MetaFor(sha, name, data) && |cfg.meta.chunks| <= cfg.maxCapacity
    requires cfg.peers != [] && AllShare(s, cfg.peers, name)
    ensures WellServed(s, cfg)
  {
    MetaForShape(sha, name, data);
    forall k | 0 <= k < |cfg.meta.chunks| ensures Holds(s, DP.AssignedPeer(cfg, k), cfg.meta.chunks[k].hash) {
      SharedIsTheFile(sha, s, cfg.peers[k % |cfg.peers|], name, data);
    }
  }

  lemma RunStarts(sha: HashFunction, s: System, id: nat, name: string, data: Bytes)
    requires Inv(sha, s) && AllGenuine(sha, s) && OneContent(s.history, name, data)
    requires OnCourse(sha, s, id, name, data) && Enabled(s, StartRun(id))
    ensures OnCourse(sha, Step(sha, s, StartRun(id)), id, name, data)
  {
    var s' := Step(sha, s, StartRun(id));
    var cfg := s'.tasks[id].job.cfg;
    FoundPeersServe(sha, s, cfg, name, data);
    StepKeepsWellServed(sha, s, StartRun(id), cfg);
    assert RepliesPass(sha, cfg, DP.Init(cfg));
  }

  lemma ActStaysOnCourse(sha: HashFunction, past: set<System>, s: System, a: DP.Event, id: nat, name: string,
      data: Bytes)
    requires Inv(sha, s) && OnCourse(sha, s, id, name, data) && PastOnCourse(sha, past, s, id, name, data)
    requires Enabled(s, Act(id, a)) && FaithfulStep(past + {s}, s, Act(id, a), id)
    ensures OnCourse(sha, Step(sha, s, Act(id, a)), id, name, data)
  {
    StepKeepsNode(sha, s, Act(id, a), s.tasks[id].owner);
    StepKeepsOnTrack(sha, past, s, Act(id, a), id);
    StepMovesRun(sha, s, Act(id, a), id);
  }

  lemma StepStaysOnCourse(sha: HashFunction, past: set<System>, s: System, e: Event, id: nat, name: string, data: Bytes)
    requires Inv(sha, s) && AllGenuine(sha, s) && OneContent(s.history, name, data) && data != []
    requires OnCourse(sha, s, id, name, data) && PastOnCourse(sha, past, s, id, name, data)
    requires Enabled(s, e) && TruthfulStep(past + {s}, s, e, id)
    ensures OnCourse(sha, Step(sha, s, e), id, name, data)
  {
    if !TaskOf(e, id) {
      OtherStepKeepsCourse(sha, past, s, e, id, name, data);
    } else {
      match e {
        case MetaReply(_, reply) => MetaArrives(sha, past, s, reply, id, name, data);
        case ProbeReply(_, ok) => ProbeArrives(sha, past, s, ok, id, name, data);
        case StartRun(_) => RunStarts(sha, s, id, name, data);
        case Act(_, a) => ActStaysOnCourse(sha, past, s, a, id, name, data);
      }
    }
  }

  lemma OwnStepJob(sha: HashFunction, s: System, e: Event, id: nat)
    requires Enabled(s, e) && id in s.tasks
    ensures id in Step(sha, s, e).tasks && Step(sha, s, e).tasks[id].owner == s.tasks[id].owner
    ensures var job, job' := s.tasks[id].job, Step(sha, s, e).tasks[id].job;
            && (job'.Asking? ==> job' == job)
            && (job'.Probing? && !(e.MetaReply? && e.id == id) ==> job.Probing?)
            && (job'.Running? && !(e.StartRun? && e.id == id) ==> job.Running? && job'.cfg == job.cfg)
  {
  }

  /** What a peer shared in one of the states `past` or shares now it still shares after the step. */
  lemma PastShared(sha: HashFunction, past: set<System>, s: System, e: Event, name: string)
    requires Enabled(s, e)
    requires forall p, a :: p in past && Shares(p, a, name) ==> Shares(s, a, name)
    ensures forall p, a :: p in past + {s} && Shares(p, a, name) ==> Shares(Step(sha, s, e), a, name)
  {
    forall p, a | p in past + {s} && Shares(p, a, name) ensures Shares(Step(sha, s, e), a, name) {
      StepKeepsShared(sha, s, e, a, name);
    }
  }

  lemma AskingKeepsPast(sha: HashFunction, past: set<System>, s: System, e: Event, id: nat, name: string, data: Bytes)
    requires Inv(sha, s) && AllGenuine(sha, s) && OneContent(s.history, name, data)
    requires OnCourse(sha, s, id, name, data) && PastOnCourse(sha, past, s, id, name, data) && s.tasks[id].job.Asking?
    requires Enabled(s, e) && !((e.MetaReply? || e.StartRun?) && e.id == id)
    ensures id in Step(sha, s, e).tasks
    ensures PastOnCourse(sha, past + {s}, Step(sha, s, e), id, name, data)
  {
    OwnStepJob(sha, s, e, id);
    SharedIsTheFile(sha, s, s.tasks[id].job.primary, name, data);
  }

  lemma ProbingKeepsPast(sha: HashFunction, past: set<System>, s: System, e: Event, id: nat, name: string, data: Bytes)
    requires id in s.tasks && PastOnCourse(sha, past, s, id, name, data) && s.tasks[id].job.Probing?
    requires Enabled(s, e) && !((e.MetaReply? || e.StartRun?) && e.id == id)
    ensures id in Step(sha, s, e).tasks
    ensures PastOnCourse(sha, past + {s}, Step(sha, s, e), id, name, data)
  {
    OwnStepJob(sha, s, e, id);
    PastShared(sha, past, s, e, name);
  }

  lemma RunningKeepsPast(sha: HashFunction, past: set<System>, s: System, e: Event, id: nat, name: string, data: Bytes)
    requires Inv(sha, s) && OnCourse(sha, s, id, name, data) && PastOnCourse(sha, past, s, id, name, data)
    requires s.tasks[id].job.Running?
    requires Enabled(s, e) && !((e.MetaReply? || e.StartRun?) && e.id == id)
    ensures id in Step(sha, s, e).tasks
    ensures PastOnCourse(sha, past + {s}, Step(sha, s, e), id, name, data)
  {
    OwnStepJob(sha, s, e, id);
    assert AllServe(sha, past + {s}, s.tasks[id].job.cfg);
  }

  lemma StepKeepsPast(sha: HashFunction, past: set<System>, s: System, e: Event, id: nat, name: string, data: Bytes)
    requires Inv(sha, s) && AllGenuine(sha, s) && OneContent(s.history, name, data)
    requires OnCourse(sha, s, id, name, data) && PastOnCourse(sha, past, s, id, name, data) && Enabled(s, e)
    ensures id in Step(sha, s, e).tasks
    ensures PastOnCourse(sha, NextPast(past, s, e, id), Step(sha, s, e), id, name, data)
  {
    if (e.MetaReply? || e.StartRun?) && e.id == id {
      OwnStepJob(sha, s, e, id);
      NewPhase(sha, s, e, id, name, data);
    } else if s.tasks[id].job.Asking? {
      AskingKeepsPast(sha, past, s, e, id, name, data);
    } else if s.tasks[id].job.Probing? {
      ProbingKeepsPast(sha, past, s, e, id, name, data);
    } else {
      RunningKeepsPast(sha, past, s, e, id, name, data);
    }
  }

  lemma NewPhase(sha: HashFunction, s: System, e: Event, id: nat, name: string, data: Bytes)
    requires Enabled(s, e) && (e.MetaReply? || e.StartRun?) && e.id == id && id in Step(sha, s, e).tasks
    ensures PastOnCourse(sha, {}, Step(sha, s, e), id, name, data)
  {
  }

  lemma {:induction false} RunOnlyGrows(sha: HashFunction, s: System, es: seq<Event>, a: Addr)
    requires IsRun(sha, s, es) && a in s.nodes
    ensures var t := End(sha, s, es);
            && s.history <= t.history && a in t.nodes
            && |s.nodes[a].registry| <= |t.nodes[a].registry|
    decreases |es|
  {
    if es != [] {
      StepKeepsNode(sha, s, es[0], a);
      RunOnlyGrows(sha, Step(sha, s, es[0]), es[1..], a);
    }
  }

  /** How many of the events are steps of download `id`, from its metadata request on. */
  function OwnSteps(es: seq<Event>, id: nat): nat {
    if es == [] then 0 else (if TaskOf(es[0], id) then 1 else 0) + OwnSteps(es[1..], id)
  }

  /** A bound on the steps left, for a file of `n` chunks when no more than `known` peers will be probed. */
  function StepsLeft(job: Job, n: nat, known: nat): nat {
    match job
    case Asking(_, _) => known + 7 * n + 9
    case Probing(_, _, _, todo, _) => |todo| + 7 * n + 8
    case Running(_, _, run) => PG.Measure(run)
    case Rejected => 0
  }

  lemma OwnStepIsProgress(sha: HashFunction, s: System, e: Event, id: nat, name: string, data: Bytes, known: nat)
    requires Inv(sha, s) && OnCourse(sha, s, id, name, data) && Enabled(s, e)
    requires OnCourse(sha, Step(sha, s, e), id, name, data) && TaskOf(e, id)
    requires |s.nodes[s.tasks[id].owner].registry| <= known
    ensures var n := |MetaFor(sha, name, data).chunks|;
            StepsLeft(Step(sha, s, e).tasks[id].job, n, known) < StepsLeft(s.tasks[id].job, n, known)
  {
    if e.Act? {
      OnTrackIsUnderway(sha, s, id);
      StepMeasure(sha, s, e, id);
    } else if e.StartRun? {
      MeasureOfInit(Step(sha, s, e).tasks[id].job.cfg);
    }
  }

  /** Everything that holds of a swarm while a download of the file is on course. */
  ghost predicate GoodCourse(sha: HashFunction, all: set<System>, past: set<System>, s: System, id: nat, name: string,
      data: Bytes)
  {
    && Inv(sha, s) && AllGenuine(sha, s) && PastGenuine(sha, s.history, all)
    && OnCourse(sha, s, id, name, data) && PastOnCourse(sha, past, s, id, name, data)
  }

  lemma StepKeepsGoodCourse(sha: HashFunction, all: set<System>, past: set<System>, s: System, e: Event, id: nat,
      name: string, data: Bytes)
    requires GoodCourse(sha, all, past, s, id, name, data) && OneContent(s.history, name, data) && data != []
    requires Enabled(s, e) && HonestStep(all + {s}, s, e) && TruthfulStep(past + {s}, s, e, id)
    ensures GoodCourse(sha, all + {s}, NextPast(past, s, e, id), Step(sha, s, e), id, name, data)
  {
    StepKeepsInv(sha, s, e);
    StepKeepsGenuine(sha, all, s, e);
    PastStaysGenuine(sha, s, e, all);
    StepStaysOnCourse(sha, past, s, e, id, name, data);
    StepKeepsPast(sha, past, s, e, id, name, data);
  }

  /** Truthful steps keep the download on course; each of its own steps is one of the bounded number it has left. */
  lemma {:induction false} RunStaysOnCourse(sha: HashFunction, all: set<System>, past: set<System>, s: System,
      es: seq<Event>, id: nat, name: string, data: Bytes, known: nat)
    requires GoodCourse(sha, all, past, s, id, name, data) && data != []
    requires IsRun(sha, s, es) && HonestRun(sha, all, s, es) && TruthfulRun(sha, past, s, es, id)
    requires OneContent(End(sha, s, es).history, name, data)
    requires s.tasks[id].owner in End(sha, s, es).nodes
    requires |End(sha, s, es).nodes[s.tasks[id].owner].registry| <= known
    ensures var t, n := End(sha, s, es), |MetaFor(sha, name, data).chunks|;
            && Inv(sha, t) && AllGenuine(sha, t) && OnCourse(sha, t, id, name, data)
            && t.tasks[id].owner == s.tasks[id].owner
            && OwnSteps(es, id) + StepsLeft(t.tasks[id].job, n, known) <= StepsLeft(s.tasks[id].job, n, known)
    decreases |es|
  {
    if es != [] {
      var s' := Step(sha, s, es[0]);
      RunOnlyGrows(sha, s, es, s.tasks[id].owner);
      StepKeepsGoodCourse(sha, all, past, s, es[0], id, name, data);
      OwnStepJob(sha, s, es[0], id);
      if TaskOf(es[0], id) {
        OwnStepIsProgress(sha, s, es[0], id, name, data, known);
      } else {
        StepKeepsTaskOf(sha, s, es[0], id);
      }
      RunStaysOnCourse(sha, all + {s}, NextPast(past, s, es[0], id), s', es[1..], id, name, data, known);
    }
  }

  /** The download has a next step, with the answer of the moment if it is waiting for one. */
  ghost predicate CanContinue(s: System, id: nat) {
    exists e :: TaskOf(e, id) && Enabled(s, e) && HonestStep({s}, s, e) && TruthfulStep({s}, s, e, id)
  }

  lemma OnCourseCanContinue(sha: HashFunction, s: System, id: nat, name: string, data: Bytes)
    requires Inv(sha, s) && OnCourse(sha, s, id, name, data) && !TaskSucceeded(s, id)
    ensures CanContinue(s, id)
  {
    assert s in {s};
    match s.tasks[id].job {
      case Asking(_, primary) =>
        var e := MetaReply(id, MetaAt(s, primary, name));
        assert TaskOf(e, id) && Enabled(s, e) && HonestStep({s}, s, e) && TruthfulStep({s}, s, e, id);
      case Probing(_, _, _, todo, _) =>
        var e := if todo == [] then StartRun(id) else ProbeReply(id, Shares(s, todo[0], name));
        assert TaskOf(e, id) && Enabled(s, e) && HonestStep({s}, s, e) && TruthfulStep({s}, s, e, id);
      case Running(_, _, _) =>
        OnTrackIsSafeAndLive(sha, s, id);
        var a :| Enabled(s, Act(id, a)) && FaithfulStep({s}, s, Act(id, a), id);
        assert TaskOf(Act(id, a), id) && HonestStep({s}, s, Act(id, a)) && TruthfulStep({s}, s, Act(id, a), id);
    }
  }

  /** Neither rejected, nor failed, nor stuck; and if it is finished the bytes are right. */
  ghost predicate Delivering(sha: HashFunction, s: System, id: nat, data: Bytes) {
    && id in s.tasks && !s.tasks[id].job.Rejected?
    && (s.tasks[id].job.Running? ==> !s.tasks[id].job.run.panicked && !s.tasks[id].job.run.main.Failed?)
    && (TaskSucceeded(s, id) || CanContinue(s, id))
    && (TaskSucceeded(s, id) ==>
          DP.ResultData(s.tasks[id].job.run) == data || DO.CollisionFound(sha, data, s.tasks[id].job.run))
  }

  lemma OnCourseIsDelivering(sha: HashFunction, s: System, id: nat, name: string, data: Bytes)
    requires Inv(sha, s) && OnCourse(sha, s, id, name, data)
    ensures Delivering(sha, s, id, data)
  {
    var job := s.tasks[id].job;
    if job.Running? {
      OnTrackIsSafeAndLive(sha, s, id);
      RunIsGood(sha, s, id);
      if TaskSucceeded(s, id) {
        DO.HonestMetadataGivesOriginal(sha, job.cfg, name, data, job.run);
      }
    }
    if !TaskSucceeded(s, id) {
      OnCourseCanContinue(sha, s, id, name, data);
    }
  }

  /**
   Availability, from the request to the bytes. In a swarm of freshly started peers let one non-empty content be the
   only one ever published under a name. A download of that name from any peer that shares it, at a peer that can make
   a channel of that many chunks, is then never rejected, never fails and never gets stuck, as long as the peers it
   asks tell it what they have; it succeeds after at most 7n + 9 steps and one per known peer, and returns that content
   or has found a hash collision. Everything else in the swarm may interleave with it freely.
   */
  lemma PublishedFileIsDelivered(sha: HashFunction, s0: System, before: seq<Event>, es: seq<Event>, id: nat,
      owner: Addr, name: string, primary: Addr, data: Bytes)
    requires Initial(s0) && IsRun(sha, s0, before) && HonestRun(sha, {}, s0, before)
    requires var s := End(sha, s0, before);
             && Enabled(s, BeginDownload(id, owner, name, primary)) && Shares(s, primary, name)
             && |MetaFor(sha, name, data).chunks| <= s.nodes[owner].maxCapacity
    requires var s := Step(sha, End(sha, s0, before), BeginDownload(id, owner, name, primary));
             && IsRun(sha, s, es) && OneContent(End(sha, s, es).history, name, data)
             && HonestRun(sha, Visited(sha, s0, before), s, es) && TruthfulRun(sha, {}, s, es, id)
    requires data != []
    ensures var t := End(sha, Step(sha, End(sha, s0, before), BeginDownload(id, owner, name, primary)), es);
            && Delivering(sha, t, id, data)
            && owner in t.nodes
            && OwnSteps(es, id) <= |t.nodes[owner].registry| + 7 * |MetaFor(sha, name, data).chunks| + 9
  {
    var b, all := BeginDownload(id, owner, name, primary), Visited(sha, s0, before);
    HonestPrefixIsGenuine(sha, s0, before, b);
    var s := Step(sha, End(sha, s0, before), b);
    StepKeepsShared(sha, End(sha, s0, before), b, primary, name);
    RunOnlyGrows(sha, s, es, owner);
    RunStaysOnCourse(sha, all, {}, s, es, id, name, data, |End(sha, s, es).nodes[owner].registry|);
    OnCourseIsDelivering(sha, End(sha, s, es), id, name, data);
  }

  /**
   The downloader becomes a source: under the same hypotheses, once the download has succeeded its peer answers a
   request for the name with the very metadata of the upload, and holds every chunk of it.
   */
  lemma DownloaderBecomesSource(sha: HashFunction, s0: System, before: seq<Event>, es: seq<Event>, id: nat,
      owner: Addr, name: string, primary: Addr, data: Bytes)
    requires Initial(s0) && IsRun(sha, s0, before) && HonestRun(sha, {}, s0, before)
    requires var s := End(sha, s0, before);
             && Enabled(s, BeginDownload(id, owner, name, primary)) && Shares(s, primary, name)
             && |MetaFor(sha, name, data).chunks| <= s.nodes[owner].maxCapacity
    requires var s := Step(sha, End(sha, s0, before), BeginDownload(id, owner, name, primary));
             && IsRun(sha, s, es) && OneContent(End(sha, s, es).history, name, data)
             && HonestRun(sha, Visited(sha, s0, before), s, es) && TruthfulRun(sha, {}, s, es, id)
             && TaskSucceeded(End(sha, s, es), id)
    requires data != []
    ensures var t := End(sha, Step(sha, End(sha, s0, before), BeginDownload(id, owner, name, primary)), es);
            && MetaAt(t, owner, name) == Some(MetaFor(sha, name, data))
            && CanServe(t.nodes[owner].state.store, MetaFor(sha, name, data))
  {
    var b, all := BeginDownload(id, owner, name, primary), Visited(sha, s0, before);
    HonestPrefixIsGenuine(sha, s0, before, b);
    var s := Step(sha, End(sha, s0, before), b);
    StepKeepsShared(sha, End(sha, s0, before), b, primary, name);
    RunOnlyGrows(sha, s, es, owner);
    RunStaysOnCourse(sha, all, {}, s, es, id, name, data, |End(sha, s, es).nodes[owner].registry|);
    RunKeepsAdvertised(sha, s, es, id);
    SharedIsTheFile(sha, End(sha, s, es), owner, name, data);
  }

  lemma HonestPrefixIsGenuine(sha: HashFunction, s0: System, before: seq<Event>, b: Event)
    requires Initial(s0) && IsRun(sha, s0, before) && HonestRun(sha, {}, s0, before)
    requires Enabled(End(sha, s0, before), b) && b.BeginDownload?
    ensures var s := Step(sha, End(sha, s0, before), b);
            Inv(sha, s) && AllGenuine(sha, s) && PastGenuine(sha, s.history, Visited(sha, s0, before))
  {
    var t, all := End(sha, s0, before), Visited(sha, s0, before);
    SwarmSeeding.RunKeepsInv(sha, s0, before);
    HonestRunStaysGenuine(sha, {}, s0, before);
    assert {} + all == all;
    StepKeepsInv(sha, t, b);
    StepKeepsGenuine(sha, all, t, b);
  }
}
