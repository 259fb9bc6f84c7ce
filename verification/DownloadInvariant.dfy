/** The invariant that every interleaving of a download keeps. */
module DownloadInvariant {
  import opened Wrappers
  import opened FileMetadata
  import opened Chunking
  import opened DownloadProtocol

  function Total(weight: Worker -> nat, ws: seq<Worker>): nat {
    if ws == [] then 0 else weight(ws[0]) + Total(weight, ws[1..])
  }

  lemma {:induction false} TotalUpdate(weight: Worker -> nat, ws: seq<Worker>, i: nat, w: Worker)
    requires i < |ws|
    ensures Total(weight, ws[i := w]) == Total(weight, ws) - weight(ws[i]) + weight(w)
  {
    if i == 0 {
      assert ws[i := w][1..] == ws[1..];
    } else {
      TotalUpdate(weight, ws[1..], i - 1, w);
      assert ws[i := w][1..] == ws[1..][i - 1 := w];
    }
  }

  lemma {:induction false} TotalPositive(weight: Worker -> nat, ws: seq<Worker>, i: nat)
    requires i < |ws|
    ensures Total(weight, ws) >= weight(ws[i])
  {
    if i > 0 {
      TotalPositive(weight, ws[1..], i - 1);
    }
  }

  lemma {:induction false} TotalWitness(weight: Worker -> nat, ws: seq<Worker>) returns (i: nat)
    requires Total(weight, ws) > 0
    ensures i < |ws| && weight(ws[i]) > 0
  {
    if weight(ws[0]) > 0 {
      i := 0;
    } else {
      i := TotalWitness(weight, ws[1..]);
      i := i + 1;
    }
  }

  lemma {:induction false} TotalOfCopies(weight: Worker -> nat, ws: seq<Worker>, w: Worker)
    requires forall i :: 0 <= i < |ws| ==> ws[i] == w
    ensures Total(weight, ws) == |ws| * weight(w)
  {
    if ws != [] {
      TotalOfCopies(weight, ws[1..], w);
    }
  }

  /** 1 for a goroutine that still owes the WaitGroup a Done. */
  function Owes(w: Worker): nat {
    if w.Unlaunched? || w.Exited? then 0 else 1
  }

  predicate HasDelivered(w: Worker) {
    w.Sent? || w.Exited?
  }

  predicate SameDelivery(a: Worker, b: Worker) {
    HasDelivered(a) == HasDelivered(b) && (HasDelivered(a) ==> a.reply == b.reply)
  }

  /** The results that the first `k` goroutines have put into the channel. */
  function Delivered(sha: HashFunction, cfg: Config, ws: seq<Worker>, k: nat): multiset<ChunkResult>
    requires cfg.peers != [] && k <= |ws| == |cfg.meta.chunks|
  {
    if k == 0 then multiset{}
    else Delivered(sha, cfg, ws, k - 1) +
         (if HasDelivered(ws[k - 1]) then multiset{ResultOf(sha, cfg, k - 1, ws[k - 1].reply)} else multiset{})
  }

  lemma {:induction false} DeliveredFrame(sha: HashFunction, cfg: Config, ws: seq<Worker>, ws': seq<Worker>, k: nat)
    requires cfg.peers != [] && k <= |ws| == |ws'| == |cfg.meta.chunks|
    requires forall i :: 0 <= i < k ==> SameDelivery(ws[i], ws'[i])
    ensures Delivered(sha, cfg, ws, k) == Delivered(sha, cfg, ws', k)
  {
    if k > 0 {
      DeliveredFrame(sha, cfg, ws, ws', k - 1);
    }
  }

  lemma {:induction false} DeliveredSend(sha: HashFunction, cfg: Config, ws: seq<Worker>, w: nat, k: nat)
    requires cfg.peers != [] && w < k <= |ws| == |cfg.meta.chunks|
    requires ws[w].Ready?
    ensures Delivered(sha, cfg, ws[w := Sent(ws[w].reply)], k)
         == Delivered(sha, cfg, ws, k) + multiset{ResultOf(sha, cfg, w, ws[w].reply)}
  {
    var ws' := ws[w := Sent(ws[w].reply)];
    if w == k - 1 {
      DeliveredFrame(sha, cfg, ws, ws', k - 1);
    } else {
      DeliveredSend(sha, cfg, ws, w, k - 1);
    }
  }

  /** How far the launcher is. */
  ghost predicate LauncherControl(s: State) {
    && (s.main.Launching? ==>
          && s.main.next <= |s.workers|
          && s.closer.NotSpawned?
          && s.received == []
          && forall k :: 0 <= k < |s.workers| ==> (s.workers[k].Unlaunched? <==> k >= s.main.next))
    && (!s.main.Launching? ==>
          && !s.closer.NotSpawned?
          && forall k :: 0 <= k < |s.workers| ==> !s.workers[k].Unlaunched?)
  }

  /** How far the closing goroutine is. */
  ghost predicate CloserControl(s: State) {
    && (s.closed <==> s.closer.Finished?)
    && (s.closer.Woken? || s.closer.Finished? ==> forall k :: 0 <= k < |s.workers| ==> s.workers[k].Exited?)
    && (!s.main.Launching? && !s.main.Collecting? ==> s.closed && s.queue == [])
  }

  /** Where the goroutines can be relative to each other. */
  ghost predicate Control(cfg: Config, s: State) {
    && !s.panicked
    && |s.workers| == |cfg.meta.chunks|
    && LauncherControl(s) && CloserControl(s)
  }

  /** Conservation: what is in the channel or was received is exactly what the goroutines sent. */
  ghost predicate Conserved(sha: HashFunction, cfg: Config, s: State)
    requires cfg.peers != [] && |s.workers| == |cfg.meta.chunks|
  {
    && s.wg == Total(Owes, s.workers)
    && |s.queue| <= cfg.meta.totalChunks
    && multiset(s.queue) + multiset(s.received) == Delivered(sha, cfg, s.workers, |s.workers|)
  }

  ghost predicate Decided(cfg: Config, s: State) {
    && (s.main.Merging? || s.main.Publishing? || s.main.Succeeded? ==> Verdict(cfg, s.received).None?)
    && (s.main.Publishing? || s.main.Succeeded? ==> SortedPermutation(Chunks(s.received), s.main.sorted))
    && (s.main.Failed? ==> Verdict(cfg, s.received) == Some(s.main.error))
  }

  ghost predicate Checked(sha: HashFunction, cfg: Config, s: State)
    requires |s.workers| == |cfg.meta.chunks|
  {
    forall k :: 0 <= k < |s.workers| && s.workers[k].Verified? ==> Passes(sha, cfg.meta.chunks[k], s.workers[k].reply)
  }

  ghost predicate Inv(sha: HashFunction, cfg: Config, s: State) {
    && cfg.meta.totalChunks > 0 && CapacityAccepted(cfg) && cfg.peers != []
    && Control(cfg, s)
    && Conserved(sha, cfg, s)
    && Decided(cfg, s)
    && Checked(sha, cfg, s)
  }

  lemma {:induction false} NothingDelivered(sha: HashFunction, cfg: Config, ws: seq<Worker>, k: nat)
    requires cfg.peers != [] && k <= |ws| == |cfg.meta.chunks|
    requires forall i :: 0 <= i < k ==> !HasDelivered(ws[i])
    ensures Delivered(sha, cfg, ws, k) == multiset{}
  {
    if k > 0 {
      NothingDelivered(sha, cfg, ws, k - 1);
    }
  }

  lemma InitInv(sha: HashFunction, cfg: Config)
    requires Launchable(cfg) && CapacityAccepted(cfg)
    ensures Inv(sha, cfg, Init(cfg))
  {
    var s := Init(cfg);
    TotalOfCopies(Owes, s.workers, Unlaunched);
    NothingDelivered(sha, cfg, s.workers, |s.workers|);
  }

  lemma AllExited(s: State)
    requires Total(Owes, s.workers) == 0
    requires forall k :: 0 <= k < |s.workers| ==> !s.workers[k].Unlaunched?
    ensures forall k :: 0 <= k < |s.workers| ==> s.workers[k].Exited?
  {
    forall k | 0 <= k < |s.workers| ensures s.workers[k].Exited? {
      TotalPositive(Owes, s.workers, k);
    }
  }

  lemma StepKeepsLauncher(sha: HashFunction, cfg: Config, s: State, e: Event)
    requires Inv(sha, cfg, s) && Enabled(cfg, s, e)
    ensures LauncherControl(Step(sha, cfg, s, e))
  {
  }

  lemma StepKeepsCloser(sha: HashFunction, cfg: Config, s: State, e: Event)
    requires Inv(sha, cfg, s) && Enabled(cfg, s, e)
    ensures CloserControl(Step(sha, cfg, s, e))
  {
    if e.WaitReturns? {
      AllExited(s);
    }
  }

  /** No step of an undamaged state panics, and control stays consistent. */
  lemma StepKeepsControl(sha: HashFunction, cfg: Config, s: State, e: Event)
    requires Inv(sha, cfg, s) && Enabled(cfg, s, e)
    ensures Control(cfg, Step(sha, cfg, s, e))
  {
    StepKeepsLauncher(sha, cfg, s, e);
    StepKeepsCloser(sha, cfg, s, e);
    if e.Exit? {
      TotalPositive(Owes, s.workers, e.w);
    }
  }

  lemma StepKeepsWaitGroup(sha: HashFunction, cfg: Config, s: State, e: Event)
    requires Inv(sha, cfg, s) && Enabled(cfg, s, e)
    ensures var s' := Step(sha, cfg, s, e); s'.wg == Total(Owes, s'.workers)
  {
    var s' := Step(sha, cfg, s, e);
    match e
    case Launch => TotalUpdate(Owes, s.workers, s.main.next, Fetching);
    case Reply(w, r) => TotalUpdate(Owes, s.workers, w, s'.workers[w]);
    case Store(w) => TotalUpdate(Owes, s.workers, w, s'.workers[w]);
    case Send(w) => TotalUpdate(Owes, s.workers, w, Sent(s.workers[w].reply));
    case Exit(w) =>
      TotalPositive(Owes, s.workers, w);
      TotalUpdate(Owes, s.workers, w, Exited(s.workers[w].reply));
    case _ =>
  }

  /** Only Send changes what has been delivered, and it delivers exactly the result it puts into the channel. */
  lemma StepDelivers(sha: HashFunction, cfg: Config, s: State, e: Event)
    requires cfg.peers != [] && Enabled(cfg, s, e) && !s.closed
    requires e.Launch? ==> s.workers[s.main.next].Unlaunched?
    ensures var s' := Step(sha, cfg, s, e);
            && |s'.workers| == |s.workers|
            && Delivered(sha, cfg, s'.workers, |s.workers|)
            == Delivered(sha, cfg, s.workers, |s.workers|) + multiset(Put(sha, cfg, s, e))
  {
    var s' := Step(sha, cfg, s, e);
    if e.Send? {
      DeliveredSend(sha, cfg, s.workers, e.w, |s.workers|);
    } else {
      assert forall k :: 0 <= k < |s.workers| ==> SameDelivery(s.workers[k], s'.workers[k]);
      DeliveredFrame(sha, cfg, s.workers, s'.workers, |s.workers|);
    }
  }

  /** What step `e` puts into the channel. */
  ghost function Put(sha: HashFunction, cfg: Config, s: State, e: Event): seq<ChunkResult>
    requires cfg.peers != [] && Enabled(cfg, s, e)
  {
    if e.Send? then [ResultOf(sha, cfg, e.w, s.workers[e.w].reply)] else []
  }

  /** The channel is first in, first out: received and then queued results stand in the order of the sends. */
  lemma StepMovesResults(sha: HashFunction, cfg: Config, s: State, e: Event)
    requires cfg.peers != [] && Enabled(cfg, s, e) && |s.queue| <= cfg.meta.totalChunks
    requires e.Send? ==> !s.closed
    ensures var s' := Step(sha, cfg, s, e);
            && |s'.queue| <= cfg.meta.totalChunks
            && s'.received + s'.queue == s.received + s.queue + Put(sha, cfg, s, e)
  {
  }

  lemma MovedMultisets<T>(q: seq<T>, r: seq<T>, q': seq<T>, r': seq<T>, p: seq<T>)
    requires r' + q' == r + q + p
    ensures multiset(q') + multiset(r') == multiset(q) + multiset(r) + multiset(p)
  {
    var before, after := r + q + p, r' + q';
    assert multiset(after) == multiset(q') + multiset(r');
    assert multiset(before) == multiset(q) + multiset(r) + multiset(p);
  }

  /** Once the channel is closed the goroutines have all exited and only the collector moves. */
  lemma ClosedStep(sha: HashFunction, cfg: Config, s: State, e: Event)
    requires Control(cfg, s) && s.closed && Enabled(cfg, s, e)
    ensures e.Receive? || e.Drain? || e.Merge? || e.Publish?
    ensures Step(sha, cfg, s, e).workers == s.workers && Step(sha, cfg, s, e).closed
  {
  }

  lemma StepKeepsConserved(sha: HashFunction, cfg: Config, s: State, e: Event)
    requires Inv(sha, cfg, s) && Enabled(cfg, s, e)
    ensures |Step(sha, cfg, s, e).workers| == |cfg.meta.chunks|
    ensures Conserved(sha, cfg, Step(sha, cfg, s, e))
  {
    StepKeepsWaitGroup(sha, cfg, s, e);
    if s.closed {
      ClosedStep(sha, cfg, s, e);
    } else {
      StepDelivers(sha, cfg, s, e);
    }
    StepMovesResults(sha, cfg, s, e);
    var s' := Step(sha, cfg, s, e);
    MovedMultisets(s.queue, s.received, s'.queue, s'.received, Put(sha, cfg, s, e));
  }

  lemma StepKeepsDecided(sha: HashFunction, cfg: Config, s: State, e: Event)
    requires cfg.peers != [] && Decided(cfg, s) && Enabled(cfg, s, e)
    ensures Decided(cfg, Step(sha, cfg, s, e))
  {
  }

  lemma StepKeepsChecked(sha: HashFunction, cfg: Config, s: State, e: Event)
    requires cfg.peers != [] && |s.workers| == |cfg.meta.chunks| && Checked(sha, cfg, s) && Enabled(cfg, s, e)
    ensures |Step(sha, cfg, s, e).workers| == |cfg.meta.chunks| && Checked(sha, cfg, Step(sha, cfg, s, e))
  {
  }

  lemma StepKeepsInv(sha: HashFunction, cfg: Config, s: State, e: Event)
    requires Inv(sha, cfg, s) && Enabled(cfg, s, e)
    ensures Inv(sha, cfg, Step(sha, cfg, s, e))
  {
    StepKeepsControl(sha, cfg, s, e);
    StepKeepsConserved(sha, cfg, s, e);
    StepKeepsDecided(sha, cfg, s, e);
    StepKeepsChecked(sha, cfg, s, e);
  }

  /** The invariant holds at the end of every run, whatever the schedule and whatever the peers answered. */
  lemma {:induction false} RunKeepsInv(sha: HashFunction, cfg: Config, s: State, es: seq<Event>)
    requires Inv(sha, cfg, s) && IsRun(sha, cfg, s, es)
    ensures Inv(sha, cfg, End(sha, cfg, s, es))
    decreases |es|
  {
    if es != [] {
      StepKeepsInv(sha, cfg, s, es[0]);
      RunKeepsInv(sha, cfg, Step(sha, cfg, s, es[0]), es[1..]);
    }
  }
}
