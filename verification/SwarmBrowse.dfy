/** The browse page in a running swarm: what it shows is what a download would use. */
module SwarmBrowse {
  import opened Wrappers
  import opened Collections
  import opened FileMetadata
  import opened Peers
  import opened Browse
  import opened Protocol
  import DL = Downloader
  import TR = TcpRpc
  import S = Swarm
  import SD = SwarmDelivery
  import ST = SwarmTrap

  function States(s: S.System): map<S.Addr, PeerState> {
    map a | a in s.nodes :: s.nodes[a].state
  }

  /** What every peer of the swarm lists if it is asked now, each in an order `keys` that its map chooses. */
  function ListsAt(s: S.System, keys: S.Addr -> seq<string>): FileLists {
    (a: S.Addr) => if a in s.nodes then Some(TR.FilesIn(s.nodes[a].state.shared, keys(a))) else None
  }

  ghost predicate Iterations(s: S.System, keys: S.Addr -> seq<string>) {
    forall a :: a in s.nodes ==> TR.IsIteration(keys(a), s.nodes[a].state.shared)
  }

  /** When every shared file bears the name it is shared under, a file list shows each of them once. */
  lemma ListEnumerates(shared: map<string, FileMeta>, keys: seq<string>)
    requires TR.IsIteration(keys, shared) && forall name :: name in shared ==> shared[name].fileName == name
    ensures Enumerates(TR.FilesIn(shared, keys), shared)
  {
    TR.FilesInOrder(shared, keys);
    var files := TR.FilesIn(shared, keys);
    forall name | name in shared ensures exists i :: 0 <= i < |files| && files[i].fileName == name {
      assert name in keys;
      var i :| 0 <= i < |keys| && keys[i] == name;
      assert files[i].fileName == name;
    }
  }

  /** What the caller decodes from the reply to a file list request shows each shared file once. */
  lemma FetchedListEnumerates(c: TR.Codec, allowed: string -> bool, v: TR.View, keys: seq<string>, m: Message,
      room: nat)
    requires TR.Faithful(c) && m.msgType == MSG_FILE_LIST && TR.IsIteration(keys, v.state.shared)
    requires forall name :: name in v.state.shared ==> v.state.shared[name].fileName == name
    requires TR.Delivers(TR.Reply(c, allowed, v, keys, m), room)
    ensures var arrived := TR.Arrives(TR.Reply(c, allowed, v, keys, m), room);
            && arrived.Some? && c.decodeFiles(arrived.value).Some?
            && Enumerates(c.decodeFiles(arrived.value).value, v.state.shared)
  {
    TR.ArrivesIffFits(TR.Reply(c, allowed, v, keys, m), room);
    ListEnumerates(v.state.shared, keys);
  }

  /** Metadata relayed honestly makes every peer's file list accurate, at every moment of every run. */
  lemma HonestSwarmIsQuiescent(sha: HashFunction, s: S.System, keys: S.Addr -> seq<string>)
    requires SD.AllGenuine(sha, s) && Iterations(s, keys)
    ensures Quiescent(States(s), ListsAt(s, keys))
  {
    forall a | a in s.nodes ensures Enumerates(ListsAt(s, keys)(a).value, s.nodes[a].state.shared) {
      assert SD.GenuinePeer(sha, s.history, s.nodes[a].state);
      ListEnumerates(s.nodes[a].state.shared, keys(a));
    }
  }

  /**
   From freshly started peers, after any run with honestly relayed metadata: for every file the browse page shows, the
   count is the number of peers that an undisturbed download from the address shown would use at that moment.
   */
  lemma BrowseAgreesInSwarm(sha: HashFunction, s0: S.System, es: seq<S.Event>, at: S.Addr, keys: S.Addr -> seq<string>,
      name: string)
    requires S.Initial(s0) && S.IsRun(sha, s0, es) && SD.HonestRun(sha, {}, s0, es)
    requires var s := S.End(sha, s0, es);
             && Iterations(s, keys) && at in s.nodes && NoDuplicates(s.nodes[at].registry)
             && name != "" && name in Seen(Listed(s.nodes[at].selfAddr, s.nodes[at].registry, ListsAt(s, keys)))
    ensures var s := S.End(sha, s0, es);
            var node := s.nodes[at];
            var shown := Seen(Listed(node.selfAddr, node.registry, ListsAt(s, keys)))[name];
            shown.peersCount ==
              |DL.Available(node.selfAddr, shown.peerAddress, node.registry, a => Probe(States(s), name, a))|
  {
    SD.HonestRunStaysGenuine(sha, {}, s0, es);
    var s := S.End(sha, s0, es);
    HonestSwarmIsQuiescent(sha, s, keys);
    BrowseMatchesDownload(s.nodes[at].selfAddr, s.nodes[at].registry, States(s), ListsAt(s, keys), name);
  }

  lemma {:induction false} ProbedDependsOnAnswers(selfAddr: S.Addr, primary: S.Addr, peers: seq<S.Addr>,
      f: S.Addr -> bool, g: S.Addr -> bool)
    requires forall a :: f(a) == g(a)
    ensures DL.Probed(selfAddr, primary, peers, f) == DL.Probed(selfAddr, primary, peers, g)
    decreases |peers|
  {
    if peers != [] {
      ProbedDependsOnAnswers(selfAddr, primary, peers[..|peers| - 1], f, g);
    }
  }

  /** The count shown is the number of peers among which a download launched from the page distributes its chunks. */
  lemma ShownCountIsUsed(sha: HashFunction, s0: S.System, es: seq<S.Event>, at: S.Addr, keys: S.Addr -> seq<string>,
      name: string, id: nat, meta: FileMeta, hasFile: S.Addr -> bool)
    requires S.Initial(s0) && S.IsRun(sha, s0, es) && SD.HonestRun(sha, {}, s0, es)
    requires var s := S.End(sha, s0, es);
             && Iterations(s, keys) && at in s.nodes && NoDuplicates(s.nodes[at].registry)
             && name != "" && name in Seen(Listed(s.nodes[at].selfAddr, s.nodes[at].registry, ListsAt(s, keys)))
             && id !in s.tasks && ST.Truth(s, name, hasFile)
    requires var s := S.End(sha, s0, es);
             var shown := Seen(Listed(s.nodes[at].selfAddr, s.nodes[at].registry, ListsAt(s, keys)))[name];
             SD.MetaAt(s, shown.peerAddress, name) == Some(meta) && meta.totalChunks != 0 && meta.chunks != []
    ensures var s := S.End(sha, s0, es);
            var node := s.nodes[at];
            var shown := Seen(Listed(node.selfAddr, node.registry, ListsAt(s, keys)))[name];
            var launch := ST.LaunchSteps(id, at, name, shown.peerAddress, meta, node.registry, hasFile);
            && S.IsRun(sha, s, launch)
            && S.IsRunning(S.End(sha, s, launch), id)
            && |S.End(sha, s, launch).tasks[id].job.cfg.peers| == shown.peersCount
  {
    var s := S.End(sha, s0, es);
    var node := s.nodes[at];
    var primary := Seen(Listed(node.selfAddr, node.registry, ListsAt(s, keys)))[name].peerAddress;
    BrowseAgreesInSwarm(sha, s0, es, at, keys, name);
    ST.SharersAreUsed(sha, s, id, at, name, primary, meta, hasFile);
    ProbedDependsOnAnswers(node.selfAddr, primary, node.registry, hasFile, a => Probe(States(s), name, a));
  }
}
