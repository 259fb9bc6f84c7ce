/** What a download that fails reports, in terms of the answers its goroutines got. */
module DownloadFailure {
  import opened Collections
  import opened FileMetadata
  import opened DownloadProtocol
  import opened DownloadProgress
  import opened DownloadRefinement

  /** The entries among the first `n` whose answer is missing or has the wrong hash. */
  ghost function Failing(sha: HashFunction, cfg: Config, answers: Answers, n: nat): set<nat>
    requires n <= |cfg.meta.chunks|
  {
    set k: nat | k < n && !Passes(sha, cfg.meta.chunks[k], answers(k))
  }

  /** `r` reports entry `k`: its index, and whether the answer was missing or damaged. */
  predicate Reports(cfg: Config, answers: Answers, r: ChunkResult, k: nat) {
    && k < |cfg.meta.chunks|
    && r == Bad(cfg.meta.chunks[k].index, if answers(k).None? then FetchFailed else IntegrityFailed)
  }

  /** `first` is the earliest failure among the received results. */
  ghost predicate FirstFailure(rs: seq<ChunkResult>, first: ChunkResult) {
    exists i :: 0 <= i < |rs| && rs[i] == first && first.Bad? && forall j :: 0 <= j < i ==> rs[j].Good?
  }

  lemma {:induction false} FirstErrorIsFirst(rs: seq<ChunkResult>)
    requires Errors(rs) != []
    ensures FirstFailure(rs, Errors(rs)[0])
    decreases |rs|
  {
    var n := |rs| - 1;
    if Errors(rs[..n]) != [] {
      FirstErrorIsFirst(rs[..n]);
      var i :| 0 <= i < n && rs[..n][i] == Errors(rs[..n])[0] && forall j :: 0 <= j < i ==> rs[..n][j].Good?;
      assert rs[i] == Errors(rs)[0];
      forall j | 0 <= j < i ensures rs[j].Good? {
        assert rs[..n][j].Good?;
      }
    } else {
      AllGood(rs[..n]);
      forall j | 0 <= j < n ensures rs[j].Good? {
        assert rs[..n][j].Good?;
      }
      assert rs[n] == Errors(rs)[0];
    }
  }

  lemma {:induction false} ErrorsCountFailing(sha: HashFunction, cfg: Config, answers: Answers, n: nat)
    requires cfg.peers != [] && n <= |cfg.meta.chunks|
    ensures |Errors(SequentialResults(sha, cfg, answers)[..n])| == |Failing(sha, cfg, answers, n)|
  {
    var rs := SequentialResults(sha, cfg, answers);
    if n == 0 {
      assert Failing(sha, cfg, answers, 0) == {};
    } else {
      ErrorsCountFailing(sha, cfg, answers, n - 1);
      assert rs[..n][..n - 1] == rs[..n - 1];
      if Passes(sha, cfg.meta.chunks[n - 1], answers(n - 1)) {
        assert Failing(sha, cfg, answers, n) == Failing(sha, cfg, answers, n - 1);
      } else {
        assert Failing(sha, cfg, answers, n) == Failing(sha, cfg, answers, n - 1) + {n - 1};
      }
    }
  }

  /** A failed result stands for an entry whose answer does not pass. */
  lemma BadResultReports(sha: HashFunction, cfg: Config, answers: Answers, rs: seq<ChunkResult>, r: ChunkResult)
    returns (k: nat)
    requires cfg.peers != [] && Permutation(SequentialResults(sha, cfg, answers), rs) && r in rs && r.Bad?
    ensures k in Failing(sha, cfg, answers, |cfg.meta.chunks|) && Reports(cfg, answers, r, k)
  {
    var all := SequentialResults(sha, cfg, answers);
    assert r in multiset(all);
    k :| 0 <= k < |all| && all[k] == r;
  }

  lemma CountsOfResults(sha: HashFunction, cfg: Config, answers: Answers, rs: seq<ChunkResult>)
    requires cfg.peers != [] && Permutation(SequentialResults(sha, cfg, answers), rs)
    ensures |Errors(rs)| == |Failing(sha, cfg, answers, |cfg.meta.chunks|)|
    ensures Errors(rs) == [] ==> |Chunks(rs)| == |cfg.meta.chunks|
  {
    var all := SequentialResults(sha, cfg, answers);
    AccumulatorsPermute(all, rs);
    assert all[..|all|] == all;
    ErrorsCountFailing(sha, cfg, answers, |all|);
    if Errors(rs) == [] {
      AllGood(all);
    }
  }

  /**
   The answer of a download that fails, for every schedule. Failed chunks are reported before a wrong count: there are
   exactly as many as there are answers that do not pass, and the error named is the first one the collector received,
   which tells a missing chunk from a damaged one. The count is compared only when every chunk arrived intact.
   */
  lemma FailureIsExact(sha: HashFunction, cfg: Config, answers: Answers, es: seq<Event>)
    requires Launchable(cfg) && CompleteRun(sha, cfg, answers, es)
    ensures var t, failing := End(sha, cfg, Init(cfg), es), Failing(sha, cfg, answers, |cfg.meta.chunks|);
            && (t.main.Failed? && t.main.error.ChunkErrors? <==> failing != {})
            && (t.main.Failed? && t.main.error.ChunkErrors? ==>
                  && t.main.error.failed == |failing|
                  && FirstFailure(t.received, t.main.error.first)
                  && exists k :: k in failing && Reports(cfg, answers, t.main.error.first, k))
            && (t.main.Failed? && t.main.error.CountMismatch? <==>
                  failing == {} && cfg.meta.totalChunks != |cfg.meta.chunks|)
            && (t.main.Failed? && t.main.error.CountMismatch? ==>
                  t.main.error == CountMismatch(cfg.meta.totalChunks, |cfg.meta.chunks|))
  {
    var t, failing := End(sha, cfg, Init(cfg), es), Failing(sha, cfg, answers, |cfg.meta.chunks|);
    FinalRunCollects(sha, cfg, answers, es);
    CountsOfResults(sha, cfg, answers, t.received);
    if Errors(t.received) != [] {
      FirstErrorIsFirst(t.received);
      var k := BadResultReports(sha, cfg, answers, t.received, Errors(t.received)[0]);
    }
  }
}
