/** A concurrent download agrees with handling the chunks one after another. */
module DownloadRefinement {
  import opened Wrappers
  import opened Collections
  import opened FileMetadata
  import opened Chunking
  import opened DownloadProtocol
  import opened DownloadInvariant
  import opened DownloadProgress
  import opened DownloadSafety
  import opened MergeOrder

  /** The results of a plain loop over `meta.Chunks` that fetches and verifies each chunk in turn. */
  function SequentialResults(sha: HashFunction, cfg: Config, answers: Answers): seq<ChunkResult>
    requires cfg.peers != []
  {
    seq(|cfg.meta.chunks|, k requires 0 <= k < |cfg.meta.chunks| => ResultOf(sha, cfg, k, answers(k)))
  }

  ghost predicate RepliesFollow(s: State, answers: Answers) {
    forall k :: 0 <= k < |s.workers| && !s.workers[k].Unlaunched? && !s.workers[k].Fetching? ==>
      s.workers[k].reply == answers(k)
  }

  lemma StepFollows(sha: HashFunction, cfg: Config, s: State, e: Event, answers: Answers)
    requires Enabled(cfg, s, e) && RepliesFollow(s, answers) && Follows(e, answers)
    ensures RepliesFollow(Step(sha, cfg, s, e), answers)
  {
  }

  lemma {:induction false} RunFollows(sha: HashFunction, cfg: Config, s: State, es: seq<Event>, answers: Answers)
    requires IsRun(sha, cfg, s, es) && RepliesFollow(s, answers)
    requires AllFollow(es, answers)
    ensures RepliesFollow(End(sha, cfg, s, es), answers)
    decreases |es|
  {
    if es != [] {
      StepFollows(sha, cfg, s, es[0], answers);
      RunFollows(sha, cfg, Step(sha, cfg, s, es[0]), es[1..], answers);
    }
  }

  /** Arrival order changes neither the number of errors nor the collected chunks and sources. */
  lemma AccumulatorsPermute(a: seq<ChunkResult>, b: seq<ChunkResult>)
    requires Permutation(a, b)
    ensures Permutation(Chunks(a), Chunks(b)) && |Chunks(a)| == |Chunks(b)|
    ensures Permutation(Sources(a), Sources(b))
    ensures Permutation(Errors(a), Errors(b)) && |Errors(a)| == |Errors(b)|
  {
    FilterMapPermutation(ToChunk, a, b);
    FilterMapPermutation(ToSource, a, b);
    FilterMapPermutation(ToError, a, b);
    assert |multiset(Chunks(a))| == |multiset(Chunks(b))|;
    assert |multiset(Errors(a))| == |multiset(Errors(b))|;
  }

  /** Equal up to the choice of the first error. */
  predicate SameFailure(a: DownloadError, b: DownloadError) {
    match (a, b)
    case (ChunkErrors(m, _), ChunkErrors(n, _)) => m == n
    case (CountMismatch(e, m), CountMismatch(f, n)) => e == f && m == n
    case _ => false
  }

  lemma VerdictPermutes(cfg: Config, a: seq<ChunkResult>, b: seq<ChunkResult>)
    requires Permutation(a, b)
    ensures Verdict(cfg, a).None? <==> Verdict(cfg, b).None?
    ensures Verdict(cfg, a).Some? ==> SameFailure(Verdict(cfg, a).value, Verdict(cfg, b).value)
  {
    AccumulatorsPermute(a, b);
  }

  ghost predicate DistinctIndices(meta: FileMeta) {
    forall i, j :: 0 <= i < j < |meta.chunks| ==> meta.chunks[i].index != meta.chunks[j].index
  }

  lemma {:induction false} AllGoodPrefix(rs: seq<ChunkResult>, k: nat)
    requires k <= |rs| && Errors(rs[..k]) == []
    ensures |Chunks(rs[..k])| == k
    ensures forall i :: 0 <= i < k ==> rs[i].Good? && Chunks(rs[..k])[i] == Chunk(rs[i].index, rs[i].data, ZeroHash())
  {
    if k > 0 {
      assert rs[..k][..k - 1] == rs[..k - 1];
      AllGoodPrefix(rs, k - 1);
    }
  }

  lemma AllGood(rs: seq<ChunkResult>)
    requires Errors(rs) == []
    ensures |Chunks(rs)| == |rs|
    ensures forall i :: 0 <= i < |rs| ==> rs[i].Good? && Chunks(rs)[i] == Chunk(rs[i].index, rs[i].data, ZeroHash())
  {
    assert rs[..|rs|] == rs;
    AllGoodPrefix(rs, |rs|);
  }

  lemma {:induction false} SomeBad(rs: seq<ChunkResult>, i: nat)
    requires i < |rs| && rs[i].Bad?
    ensures Errors(rs) != []
    decreases |rs|
  {
    if i < |rs| - 1 {
      SomeBad(rs[..|rs| - 1], i);
    }
  }

  lemma NoErrorsIffAllPass(sha: HashFunction, cfg: Config, answers: Answers)
    requires cfg.peers != []
    ensures Errors(SequentialResults(sha, cfg, answers)) == []
       <==> forall k :: 0 <= k < |cfg.meta.chunks| ==> Passes(sha, cfg.meta.chunks[k], answers(k))
  {
    var rs := SequentialResults(sha, cfg, answers);
    if Errors(rs) == [] {
      AllGood(rs);
      forall k | 0 <= k < |cfg.meta.chunks| ensures Passes(sha, cfg.meta.chunks[k], answers(k)) {
        assert rs[k].Good?;
      }
    } else if forall k :: 0 <= k < |cfg.meta.chunks| ==> Passes(sha, cfg.meta.chunks[k], answers(k)) {
      assert forall k :: 0 <= k < |rs| ==> rs[k].Good?;
      GoodHasNoErrors(rs);
    }
  }

  lemma {:induction false} GoodHasNoErrors(rs: seq<ChunkResult>)
    requires forall k :: 0 <= k < |rs| ==> rs[k].Good?
    ensures Errors(rs) == []
    decreases |rs|
  {
    if rs != [] {
      GoodHasNoErrors(rs[..|rs| - 1]);
    }
  }

  /** The run follows the given answers and has returned. */
  ghost predicate CompleteRun(sha: HashFunction, cfg: Config, answers: Answers, es: seq<Event>) {
    && IsRun(sha, cfg, Init(cfg), es)
    && AllFollow(es, answers)
    && Final(End(sha, cfg, Init(cfg), es))
  }

  lemma FinalRunCollects(sha: HashFunction, cfg: Config, answers: Answers, es: seq<Event>)
    requires Launchable(cfg) && CompleteRun(sha, cfg, answers, es)
    ensures Permutation(SequentialResults(sha, cfg, answers), End(sha, cfg, Init(cfg), es).received)
    ensures Inv(sha, cfg, End(sha, cfg, Init(cfg), es))
  {
    NeverPanicsIffCapacityAccepted(sha, cfg, es);
    InitInv(sha, cfg);
    RunKeepsInv(sha, cfg, Init(cfg), es);
    RunFollows(sha, cfg, Init(cfg), es, answers);
    var t := End(sha, cfg, Init(cfg), es);
    CollectedAll(sha, cfg, t);
    assert FinalResults(sha, cfg, t.workers) == SequentialResults(sha, cfg, answers);
  }

  lemma ResultIndex(sha: HashFunction, cfg: Config, w: nat, reply: Option<Bytes>)
    requires cfg.peers != [] && w < |cfg.meta.chunks|
    ensures ResultOf(sha, cfg, w, reply).index == cfg.meta.chunks[w].index
  {
  }

  /** Distinct indices in the metadata leave no tie for the sort. */
  lemma DistinctIndicesCommute(sha: HashFunction, cfg: Config, answers: Answers)
    requires cfg.peers != [] && DistinctIndices(cfg.meta)
    requires Errors(SequentialResults(sha, cfg, answers)) == []
    ensures SameIndexCommutes(Chunks(SequentialResults(sha, cfg, answers)))
  {
    var rs := SequentialResults(sha, cfg, answers);
    AllGood(rs);
    forall c, d | c in Chunks(rs) && d in Chunks(rs) && c.index == d.index ensures Commute(c.data, d.data) {
      var i :| 0 <= i < |rs| && Chunks(rs)[i] == c;
      var j :| 0 <= j < |rs| && Chunks(rs)[j] == d;
      assert rs[i].Good? && rs[j].Good?;
      ResultIndex(sha, cfg, i, answers(i));
      ResultIndex(sha, cfg, j, answers(j));
    }
  }

  lemma PermutationCommutes(a: seq<Chunk>, b: seq<Chunk>)
    requires Permutation(a, b)
    ensures SameIndexCommutes(a) <==> SameIndexCommutes(b)
  {
    assert forall c :: c in a <==> c in multiset(a);
    assert forall c :: c in b <==> c in multiset(b);
  }

  lemma SortsAgree(a: seq<Chunk>, b: seq<Chunk>, sorted: seq<Chunk>)
    requires Permutation(a, b) && SameIndexCommutes(a) && SortedPermutation(b, sorted)
    ensures Concat(sorted) == Concat(SortByIndex(a))
  {
    PermutationCommutes(a, sorted);
    CommutingMergesAgree(sorted, SortByIndex(a));
  }

  /**
   Every complete run gives the verdict of the plain loop, the same failure up to which error is named first,
   the same sources up to order, and, when chunks of equal index commute (in particular when the indices in the
   metadata are distinct), the same bytes.
   */
  lemma ConcurrentRefinesSequential(sha: HashFunction, cfg: Config, answers: Answers, es: seq<Event>)
    requires Launchable(cfg) && CompleteRun(sha, cfg, answers, es)
    ensures var t, rs := End(sha, cfg, Init(cfg), es), SequentialResults(sha, cfg, answers);
            && (t.main.Succeeded? <==> Verdict(cfg, rs).None?)
            && (t.main.Failed? ==> SameFailure(Verdict(cfg, rs).value, t.main.error))
            && Permutation(Sources(rs), Sources(t.received))
            && (t.main.Succeeded? && (DistinctIndices(cfg.meta) || SameIndexCommutes(Chunks(rs))) ==>
                  ResultData(t) == Concat(SortByIndex(Chunks(rs))))
  {
    FinalRunCollects(sha, cfg, answers, es);
    var t, rs := End(sha, cfg, Init(cfg), es), SequentialResults(sha, cfg, answers);
    VerdictPermutes(cfg, rs, t.received);
    AccumulatorsPermute(rs, t.received);
    if t.main.Succeeded? {
      if DistinctIndices(cfg.meta) {
        DistinctIndicesCommute(sha, cfg, answers);
      }
      if SameIndexCommutes(Chunks(rs)) {
        SortsAgree(Chunks(rs), Chunks(t.received), t.main.sorted);
      }
    }
  }

  /** A run that merges the collected chunks in a way that differs from the plain loop. */
  lemma SomeRunDiffers(sha: HashFunction, cfg: Config, answers: Answers) returns (es: seq<Event>)
    requires Launchable(cfg) && CapacityAccepted(cfg)
    requires Verdict(cfg, SequentialResults(sha, cfg, answers)).None?
    requires !SameIndexCommutes(Chunks(SequentialResults(sha, cfg, answers)))
    ensures CompleteRun(sha, cfg, answers, es)
    ensures var t := End(sha, cfg, Init(cfg), es);
            t.main.Succeeded? && ResultData(t) != Concat(SortByIndex(Chunks(SequentialResults(sha, cfg, answers))))
  {
    var first := CanReachMerge(sha, cfg, answers);
    var m := End(sha, cfg, Init(cfg), first);
    var sorted := DifferentMerge(Chunks(SequentialResults(sha, cfg, answers)), Chunks(m.received));
    MergeFrom(sha, cfg, answers, first, sorted);
    es := first + [Merge(sorted), Publish];
  }

  /** A run up to the merge, and its completion with a merge of one's choice. */
  lemma CanReachMerge(sha: HashFunction, cfg: Config, answers: Answers) returns (first: seq<Event>)
    requires Launchable(cfg) && CapacityAccepted(cfg)
    requires Verdict(cfg, SequentialResults(sha, cfg, answers)).None?
    ensures IsRun(sha, cfg, Init(cfg), first) && AllFollow(first, answers)
    ensures var m := End(sha, cfg, Init(cfg), first);
            && Inv(sha, cfg, m) && m.main.Merging?
            && Permutation(Chunks(SequentialResults(sha, cfg, answers)), Chunks(m.received))
  {
    InitInv(sha, cfg);
    first := CanCollect(sha, cfg, Init(cfg), answers);
    RunKeepsInv(sha, cfg, Init(cfg), first);
    RunFollows(sha, cfg, Init(cfg), first, answers);
    CollectedResults(sha, cfg, answers, End(sha, cfg, Init(cfg), first));
  }

  lemma MergeFrom(sha: HashFunction, cfg: Config, answers: Answers, first: seq<Event>, sorted: seq<Chunk>)
    requires IsRun(sha, cfg, Init(cfg), first) && AllFollow(first, answers)
    requires var m := End(sha, cfg, Init(cfg), first);
             Inv(sha, cfg, m) && m.main.Merging? && SortedPermutation(Chunks(m.received), sorted)
    ensures CompleteRun(sha, cfg, answers, first + [Merge(sorted), Publish])
    ensures End(sha, cfg, Init(cfg), first + [Merge(sorted), Publish]).main == Succeeded(sorted)
  {
    CanMergeAs(sha, cfg, End(sha, cfg, Init(cfg), first), sorted);
    RunsConcatenate(sha, cfg, Init(cfg), first, [Merge(sorted), Publish]);
  }

  /** Past the collector loop the collected chunks are those of the plain loop, up to order, and so is the verdict. */
  lemma CollectedResults(sha: HashFunction, cfg: Config, answers: Answers, m: State)
    requires Inv(sha, cfg, m) && RepliesFollow(m, answers) && Fetched(m)
    ensures Permutation(Chunks(SequentialResults(sha, cfg, answers)), Chunks(m.received))
    ensures Verdict(cfg, SequentialResults(sha, cfg, answers)).None? <==> !m.main.Failed?
  {
    CollectedAll(sha, cfg, m);
    var rs := SequentialResults(sha, cfg, answers);
    assert FinalResults(sha, cfg, m.workers) == rs;
    VerdictPermutes(cfg, rs, m.received);
    AccumulatorsPermute(rs, m.received);
  }

  lemma DifferentMerge(a: seq<Chunk>, b: seq<Chunk>) returns (sorted: seq<Chunk>)
    requires Permutation(a, b) && !SameIndexCommutes(a)
    ensures SortedPermutation(b, sorted) && Concat(sorted) != Concat(SortByIndex(a))
  {
    PermutationCommutes(a, b);
    DeterminedIffCommuting(b);
    var s, s' :| SortedPermutation(b, s) && SortedPermutation(b, s') && Concat(s) != Concat(s');
    sorted := if Concat(s) != Concat(SortByIndex(a)) then s else s';
  }

  /**
   Exactly when the bytes of a successful download do not depend on the schedule or on the sort: when the fetched
   chunks that share an index can be concatenated in either order.
   */
  lemma DataIsDeterminedIff(sha: HashFunction, cfg: Config, answers: Answers)
    requires Launchable(cfg) && CapacityAccepted(cfg)
    requires Verdict(cfg, SequentialResults(sha, cfg, answers)).None?
    ensures var rs := SequentialResults(sha, cfg, answers);
            SameIndexCommutes(Chunks(rs)) <==>
              forall es :: CompleteRun(sha, cfg, answers, es) ==>
                var t := End(sha, cfg, Init(cfg), es);
                t.main.Succeeded? && ResultData(t) == Concat(SortByIndex(Chunks(rs)))
  {
    var rs := SequentialResults(sha, cfg, answers);
    if SameIndexCommutes(Chunks(rs)) {
      forall es | CompleteRun(sha, cfg, answers, es)
        ensures var t := End(sha, cfg, Init(cfg), es);
                t.main.Succeeded? && ResultData(t) == Concat(SortByIndex(Chunks(rs)))
      {
        ConcurrentRefinesSequential(sha, cfg, answers, es);
      }
    } else {
      var es := SomeRunDiffers(sha, cfg, answers);
    }
  }

  /** A complete run succeeds if and only if every answer has the announced hash and the announced count is right. */
  lemma SucceedsIffAllPass(sha: HashFunction, cfg: Config, answers: Answers, es: seq<Event>)
    requires Launchable(cfg) && CompleteRun(sha, cfg, answers, es)
    ensures End(sha, cfg, Init(cfg), es).main.Succeeded?
       <==> && cfg.meta.totalChunks == |cfg.meta.chunks|
            && forall k :: 0 <= k < |cfg.meta.chunks| ==> Passes(sha, cfg.meta.chunks[k], answers(k))
  {
    ConcurrentRefinesSequential(sha, cfg, answers, es);
    NoErrorsIffAllPass(sha, cfg, answers);
    var rs := SequentialResults(sha, cfg, answers);
    if Errors(rs) == [] {
      AllGood(rs);
    }
  }
}
