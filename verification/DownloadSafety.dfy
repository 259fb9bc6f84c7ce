/** What the channel, the WaitGroup and the collector guarantee in every run. */
module DownloadSafety {
  import opened Collections
  import opened FileMetadata
  import opened DownloadProtocol
  import opened DownloadInvariant

  /**
   A run panics if and only if the served chunk count is negative or above what `make` accepts, and then before the
   first goroutine starts.
   */
  lemma NeverPanicsIffCapacityAccepted(sha: HashFunction, cfg: Config, es: seq<Event>)
    requires Launchable(cfg) && IsRun(sha, cfg, Init(cfg), es)
    ensures !End(sha, cfg, Init(cfg), es).panicked <==> 0 <= cfg.meta.totalChunks <= cfg.maxCapacity
    ensures !CapacityAccepted(cfg) ==> es == []
  {
    if CapacityAccepted(cfg) {
      InitInv(sha, cfg);
      RunKeepsInv(sha, cfg, Init(cfg), es);
    }
  }

  predicate IsCollectorEvent(e: Event) {
    e.Receive? || e.Drain? || e.Merge? || e.Publish?
  }

  lemma {:induction false} ClosedStaysQuiet(sha: HashFunction, cfg: Config, s: State, es: seq<Event>, j: nat)
    requires Inv(sha, cfg, s) && s.closed && IsRun(sha, cfg, s, es) && j < |es|
    ensures IsCollectorEvent(es[j])
    decreases |es|
  {
    ClosedStep(sha, cfg, s, es[0]);
    if j > 0 {
      StepKeepsInv(sha, cfg, s, es[0]);
      ClosedStaysQuiet(sha, cfg, Step(sha, cfg, s, es[0]), es[1..], j - 1);
    }
  }

  lemma CloseCloses(sha: HashFunction, cfg: Config, s: State)
    requires Inv(sha, cfg, s) && Enabled(cfg, s, Close)
    ensures Step(sha, cfg, s, Close).closed
  {
  }

  /** After the channel is closed nothing is sent, no goroutine acts and it is not closed again. */
  lemma {:induction false} NothingAfterClose(sha: HashFunction, cfg: Config, s: State, es: seq<Event>, i: nat, j: nat)
    requires Inv(sha, cfg, s) && IsRun(sha, cfg, s, es)
    requires i < j < |es| && es[i].Close?
    ensures IsCollectorEvent(es[j])
    decreases |es|
  {
    StepKeepsInv(sha, cfg, s, es[0]);
    var s' := Step(sha, cfg, s, es[0]);
    if i == 0 {
      CloseCloses(sha, cfg, s);
      ClosedStaysQuiet(sha, cfg, s', es[1..], j - 1);
    } else {
      NothingAfterClose(sha, cfg, s', es[1..], i - 1, j - 1);
    }
  }

  /** One result per list entry, in list order, once every goroutine has exited. */
  function FinalResults(sha: HashFunction, cfg: Config, ws: seq<Worker>): seq<ChunkResult>
    requires cfg.peers != [] && |ws| == |cfg.meta.chunks|
    requires forall k :: 0 <= k < |ws| ==> ws[k].Exited?
  {
    seq(|ws|, k requires 0 <= k < |ws| => ResultOf(sha, cfg, k, ws[k].reply))
  }

  lemma {:induction false} DeliveredIsFinal(sha: HashFunction, cfg: Config, ws: seq<Worker>, k: nat)
    requires cfg.peers != [] && k <= |ws| == |cfg.meta.chunks|
    requires forall i :: 0 <= i < |ws| ==> ws[i].Exited?
    ensures Delivered(sha, cfg, ws, k) == multiset(FinalResults(sha, cfg, ws)[..k])
  {
    var rs := FinalResults(sha, cfg, ws);
    if k > 0 {
      DeliveredIsFinal(sha, cfg, ws, k - 1);
      MultisetOfPrefix(rs, k);
    }
  }

  lemma ClosedMeansAllDelivered(sha: HashFunction, cfg: Config, s: State)
    requires Inv(sha, cfg, s) && s.closed
    ensures forall k :: 0 <= k < |s.workers| ==> s.workers[k].Exited?
    ensures Permutation(FinalResults(sha, cfg, s.workers), s.queue + s.received)
  {
    var rs := FinalResults(sha, cfg, s.workers);
    DeliveredIsFinal(sha, cfg, s.workers, |s.workers|);
    assert rs[..|s.workers|] == rs;
  }

  lemma CollectedAll(sha: HashFunction, cfg: Config, s: State)
    requires Inv(sha, cfg, s) && !s.main.Launching? && !s.main.Collecting?
    ensures forall k :: 0 <= k < |s.workers| ==> s.workers[k].Exited?
    ensures Permutation(FinalResults(sha, cfg, s.workers), s.received)
    ensures |s.received| == |cfg.meta.chunks|
  {
    ClosedMeansAllDelivered(sha, cfg, s);
    assert s.queue + s.received == s.received;
    assert |multiset(s.received)| == |multiset(FinalResults(sha, cfg, s.workers))|;
  }

  /**
   When the collector loop ends it has received exactly one result per entry of `meta.Chunks`: the received
   results are a permutation of what the goroutines computed.
   */
  lemma CollectorReceivesEachOnce(sha: HashFunction, cfg: Config, es: seq<Event>)
    requires Launchable(cfg) && IsRun(sha, cfg, Init(cfg), es)
    requires var t := End(sha, cfg, Init(cfg), es); !t.main.Launching? && !t.main.Collecting?
    ensures var t := End(sha, cfg, Init(cfg), es);
            && |t.workers| == |t.received| == |cfg.meta.chunks|
            && (forall k :: 0 <= k < |t.workers| ==> t.workers[k].Exited?)
            && Permutation(FinalResults(sha, cfg, t.workers), t.received)
  {
    NeverPanicsIffCapacityAccepted(sha, cfg, es);
    InitInv(sha, cfg);
    RunKeepsInv(sha, cfg, Init(cfg), es);
    CollectedAll(sha, cfg, End(sha, cfg, Init(cfg), es));
  }
}
