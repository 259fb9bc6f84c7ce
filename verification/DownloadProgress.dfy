/** Termination and freedom from deadlock of the download, for every channel capacity of at least one. */
module DownloadProgress {
  import opened Wrappers
  import opened FileMetadata
  import opened Chunking
  import opened DownloadProtocol
  import opened DownloadInvariant

  /** What FetchChunk returns to the goroutine of each list entry. */
  type Answers = nat -> Option<Bytes>

  predicate Follows(e: Event, answers: Answers) {
    e.Reply? ==> e.reply == answers(e.w)
  }

  function Rank(w: Worker): nat {
    match w
    case Unlaunched => 7
    case Fetching => 6
    case Verified(_) => 5
    case Ready(_) => 4
    case Sent(_) => 1
    case Exited(_) => 0
  }

  function CloserRank(c: Closer): nat {
    match c
    case NotSpawned => 3
    case Waiting => 2
    case Woken => 1
    case Finished => 0
  }

  function MainRank(m: Main): nat {
    match m
    case Launching(_) => 4
    case Collecting => 3
    case Merging => 2
    case Publishing(_) => 1
    case Succeeded(_) => 0
    case Failed(_) => 0
  }

  /** A sent result still has to be received, so it counts until then. */
  function Measure(s: State): nat {
    Total(Rank, s.workers) + 2 * |s.queue| + CloserRank(s.closer) + MainRank(s.main)
  }

  lemma ReplyRank(sha: HashFunction, cfg: Config, s: State, w: nat, r: Option<Bytes>)
    requires Enabled(cfg, s, Reply(w, r))
    ensures Total(Rank, Step(sha, cfg, s, Reply(w, r)).workers)
         == Total(Rank, s.workers) - if Passes(sha, cfg.meta.chunks[w], r) then 1 else 2
  {
    TotalUpdate(Rank, s.workers, w, if Passes(sha, cfg.meta.chunks[w], r) then Verified(r) else Ready(r));
  }

  /** A goroutine's step lowers its rank; a send gives up more than the queue entry weighs. */
  lemma WorkerStepRank(sha: HashFunction, cfg: Config, s: State, e: Event)
    requires Enabled(cfg, s, e) && !Step(sha, cfg, s, e).panicked
    requires e.Launch? ==> s.workers[s.main.next].Unlaunched?
    ensures var s' := Step(sha, cfg, s, e);
            Total(Rank, s'.workers) == Total(Rank, s.workers) -
              match e
              case Launch => 1
              case Reply(w, r) => if Passes(sha, cfg.meta.chunks[w], r) then 1 else 2
              case Store(_) => 1
              case Send(_) => 3
              case Exit(_) => 1
              case _ => 0
  {
    match e
    case Launch => TotalUpdate(Rank, s.workers, s.main.next, Fetching);
    case Reply(w, r) => ReplyRank(sha, cfg, s, w, r);
    case Store(w) => TotalUpdate(Rank, s.workers, w, Ready(s.workers[w].reply));
    case Send(w) => TotalUpdate(Rank, s.workers, w, Sent(s.workers[w].reply));
    case Exit(w) => TotalUpdate(Rank, s.workers, w, Exited(s.workers[w].reply));
    case _ =>
  }

  lemma StepDecreases(sha: HashFunction, cfg: Config, s: State, e: Event)
    requires Enabled(cfg, s, e) && !Step(sha, cfg, s, e).panicked
    requires e.Launch? ==> s.workers[s.main.next].Unlaunched?
    requires e.SpawnCloser? ==> s.closer.NotSpawned?
    ensures Measure(Step(sha, cfg, s, e)) < Measure(s)
  {
    WorkerStepRank(sha, cfg, s, e);
  }

  lemma {:induction false} RunIsBounded(sha: HashFunction, cfg: Config, s: State, es: seq<Event>)
    requires Inv(sha, cfg, s) && IsRun(sha, cfg, s, es)
    ensures |es| + Measure(End(sha, cfg, s, es)) <= Measure(s)
    decreases |es|
  {
    if es != [] {
      StepKeepsInv(sha, cfg, s, es[0]);
      StepDecreases(sha, cfg, s, es[0]);
      RunIsBounded(sha, cfg, Step(sha, cfg, s, es[0]), es[1..]);
    }
  }

  /** Every schedule stops: a download of n chunks takes at most 7n + 7 steps. */
  lemma DownloadTerminates(sha: HashFunction, cfg: Config, es: seq<Event>)
    requires Launchable(cfg) && CapacityAccepted(cfg)
    requires IsRun(sha, cfg, Init(cfg), es)
    ensures |es| <= 7 * |cfg.meta.chunks| + 7
  {
    InitInv(sha, cfg);
    RunIsBounded(sha, cfg, Init(cfg), es);
    TotalOfCopies(Rank, Init(cfg).workers, Unlaunched);
  }

  /** The next step of goroutine `k`, which has not exited. The channel is empty, so a send does not block. */
  lemma WorkerCanStep(sha: HashFunction, cfg: Config, s: State, answers: Answers, k: nat) returns (e: Event)
    requires Inv(sha, cfg, s) && s.queue == [] && k < |s.workers| && Owes(s.workers[k]) > 0
    ensures Enabled(cfg, s, e) && Follows(e, answers)
  {
    match s.workers[k] {
      case Fetching => e := Reply(k, answers(k));
      case Verified(_) => e := Store(k);
      case Ready(_) => e := Send(k);
      case Sent(_) => e := Exit(k);
    }
  }

  /** In every state that is not final some goroutine can take a step, whatever answer is pending. */
  lemma Progress(sha: HashFunction, cfg: Config, s: State, answers: Answers) returns (e: Event)
    requires Inv(sha, cfg, s) && !Final(s)
    ensures Enabled(cfg, s, e) && Follows(e, answers)
  {
    match s.main {
      case Launching(next) => e := if next < |s.workers| then Launch else SpawnCloser;
      case Merging => e := Merge(SortByIndex(Chunks(s.received)));
      case Publishing(_) => e := Publish;
      case Collecting =>
        if s.queue != [] {
          e := Receive;
        } else if s.closed {
          e := Drain;
        } else if s.closer.Woken? {
          e := Close;
        } else if s.wg == 0 {
          e := WaitReturns;
        } else {
          var k := TotalWitness(Owes, s.workers);
          e := WorkerCanStep(sha, cfg, s, answers, k);
        }
    }
  }

  /** A state in which nothing can happen is final: there is no deadlock. */
  lemma NoDeadlock(sha: HashFunction, cfg: Config, es: seq<Event>)
    requires Launchable(cfg) && CapacityAccepted(cfg)
    requires IsRun(sha, cfg, Init(cfg), es)
    requires forall e :: !Enabled(cfg, End(sha, cfg, Init(cfg), es), e)
    ensures Final(End(sha, cfg, Init(cfg), es))
  {
    InitInv(sha, cfg);
    RunKeepsInv(sha, cfg, Init(cfg), es);
    var s := End(sha, cfg, Init(cfg), es);
    if !Final(s) {
      var e := Progress(sha, cfg, s, w => None);
    }
  }

  predicate Fetched(s: State) {
    !s.main.Launching? && !s.main.Collecting?
  }

  lemma RunPrepend(sha: HashFunction, cfg: Config, s: State, e: Event, rest: seq<Event>)
    requires Enabled(cfg, s, e) && IsRun(sha, cfg, Step(sha, cfg, s, e), rest)
    ensures IsRun(sha, cfg, s, [e] + rest)
    ensures End(sha, cfg, s, [e] + rest) == End(sha, cfg, Step(sha, cfg, s, e), rest)
  {
    assert ([e] + rest)[1..] == rest;
  }

  ghost predicate AllFollow(es: seq<Event>, answers: Answers) {
    forall i :: 0 <= i < |es| ==> Follows(es[i], answers)
  }

  /** The first of the remaining steps: it follows the answers and brings the end nearer. */
  lemma NextStep(sha: HashFunction, cfg: Config, s: State, answers: Answers) returns (e: Event)
    requires Inv(sha, cfg, s) && !Final(s)
    ensures Enabled(cfg, s, e) && Follows(e, answers)
    ensures Inv(sha, cfg, Step(sha, cfg, s, e)) && Measure(Step(sha, cfg, s, e)) < Measure(s)
  {
    e := Progress(sha, cfg, s, answers);
    StepKeepsInv(sha, cfg, s, e);
    StepDecreases(sha, cfg, s, e);
  }

  lemma LeavesCollecting(sha: HashFunction, cfg: Config, s: State, e: Event)
    requires Enabled(cfg, s, e) && !Fetched(s) && Fetched(Step(sha, cfg, s, e))
    ensures Step(sha, cfg, s, e).main.Merging? || Step(sha, cfg, s, e).main.Failed?
  {
  }

  /** Every state can be driven through the collector loop with the given answers. */
  lemma {:induction false} CanCollect(sha: HashFunction, cfg: Config, s: State, answers: Answers)
    returns (es: seq<Event>)
    requires Inv(sha, cfg, s) && !Fetched(s)
    ensures IsRun(sha, cfg, s, es) && (End(sha, cfg, s, es).main.Merging? || End(sha, cfg, s, es).main.Failed?)
    ensures AllFollow(es, answers)
    decreases Measure(s)
  {
    var e := NextStep(sha, cfg, s, answers);
    var s' := Step(sha, cfg, s, e);
    var rest := [];
    if Fetched(s') {
      LeavesCollecting(sha, cfg, s, e);
    } else {
      rest := CanCollect(sha, cfg, s', answers);
    }
    RunPrepend(sha, cfg, s, e, rest);
    es := [e] + rest;
  }

  /** From every reachable state the download can be driven to its end, whatever the answers are. */
  lemma {:induction false} CanFinish(sha: HashFunction, cfg: Config, s: State, answers: Answers)
    returns (es: seq<Event>)
    requires Inv(sha, cfg, s)
    ensures IsRun(sha, cfg, s, es) && Final(End(sha, cfg, s, es))
    ensures AllFollow(es, answers)
    decreases Measure(s)
  {
    if Final(s) {
      es := [];
    } else {
      var e := NextStep(sha, cfg, s, answers);
      var rest := CanFinish(sha, cfg, Step(sha, cfg, s, e), answers);
      RunPrepend(sha, cfg, s, e, rest);
      es := [e] + rest;
    }
  }

  /** After the collector loop the merge may use any sorted arrangement of the collected chunks. */
  lemma CanMergeAs(sha: HashFunction, cfg: Config, s: State, sorted: seq<Chunk>)
    requires Inv(sha, cfg, s) && s.main.Merging? && SortedPermutation(Chunks(s.received), sorted)
    ensures IsRun(sha, cfg, s, [Merge(sorted), Publish])
    ensures End(sha, cfg, s, [Merge(sorted), Publish]) == s.(main := Succeeded(sorted))
  {
    var s1 := Step(sha, cfg, s, Merge(sorted));
    RunPrepend(sha, cfg, s1, Publish, []);
    assert [Publish] + [] == [Publish];
    RunPrepend(sha, cfg, s, Merge(sorted), [Publish]);
    assert [Merge(sorted)] + [Publish] == [Merge(sorted), Publish];
  }

  lemma {:induction false} RunsConcatenate(sha: HashFunction, cfg: Config, s: State, first: seq<Event>,
      second: seq<Event>)
    requires IsRun(sha, cfg, s, first) && IsRun(sha, cfg, End(sha, cfg, s, first), second)
    ensures IsRun(sha, cfg, s, first + second)
    ensures End(sha, cfg, s, first + second) == End(sha, cfg, End(sha, cfg, s, first), second)
    decreases |first|
  {
    if first == [] {
      assert first + second == second;
    } else {
      RunsConcatenate(sha, cfg, Step(sha, cfg, s, first[0]), first[1..], second);
      assert (first + second)[1..] == first[1..] + second;
    }
  }
}
