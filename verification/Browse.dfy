/** The consolidated file list of the browse page (handler/distribute.go) and its agreement with the downloader. */
module Browse {
  import opened Wrappers
  import opened Collections
  import opened FileMetadata
  import opened Peers
  import opened DownloadProtocol
  import opened Downloader

  datatype PeerFile = PeerFile(peerAddress: Addr, fileName: string, fileSize: int, totalChunks: int, peersCount: nat)

  /** One entry of a peer's file list. */
  datatype Entry = Entry(peer: Addr, file: FileMeta)

  type SeenFiles = map<string, PeerFile>

  /** What FetchFileList answers for each address. */
  type FileLists = Addr -> Option<seq<FileMeta>>

  function AddEntry(seen: SeenFiles, e: Entry): SeenFiles {
    var name := e.file.fileName;
    if name in seen then seen[name := seen[name].(peersCount := seen[name].peersCount + 1)]
    else seen[name := PeerFile(e.peer, name, e.file.fileSize, e.file.totalChunks, 1)]
  }

  function Seen(entries: seq<Entry>): SeenFiles {
    if entries == [] then map[] else AddEntry(Seen(entries[..|entries| - 1]), entries[|entries| - 1])
  }

  function EntriesOf(a: Addr, files: seq<FileMeta>): seq<Entry> {
    seq(|files|, i requires 0 <= i < |files| => Entry(a, files[i]))
  }

  function ListedBy(selfAddr: Addr, a: Addr, lists: FileLists): seq<Entry> {
    if a == selfAddr || lists(a).None? then [] else EntriesOf(a, lists(a).value)
  }

  /** Everything the non-self peers that answer list, in registry order. */
  function Listed(selfAddr: Addr, peers: seq<Addr>, lists: FileLists): seq<Entry> {
    if peers == [] then []
    else Listed(selfAddr, peers[..|peers| - 1], lists) + ListedBy(selfAddr, peers[|peers| - 1], lists)
  }

  lemma SeenAppend(entries: seq<Entry>, e: Entry)
    ensures Seen(entries + [e]) == AddEntry(Seen(entries), e)
  {
    assert (entries + [e])[..|entries|] == entries;
  }

  /** The inner loop: one peer's file list is merged into what was seen before. */
  method CountFiles(seen: SeenFiles, peerAddr: Addr, files: seq<FileMeta>, ghost before: seq<Entry>)
    returns (after: SeenFiles)
    requires seen == Seen(before)
    ensures after == Seen(before + EntriesOf(peerAddr, files))
  {
    after := seen;
    ghost var added := EntriesOf(peerAddr, files);
    assert before + added[..0] == before;
    var j := 0;
    while j < |files|
      invariant 0 <= j <= |files|
      invariant after == Seen(before + added[..j])
    {
      var f := files[j];
      SeenAppend(before + added[..j], Entry(peerAddr, f));
      assert before + added[..j + 1] == before + added[..j] + [Entry(peerAddr, f)];
      if f.fileName in after {
        after := after[f.fileName := after[f.fileName].(peersCount := after[f.fileName].peersCount + 1)];
      } else {
        after := after[f.fileName := PeerFile(peerAddr, f.fileName, f.fileSize, f.totalChunks, 1)];
      }
      j := j + 1;
    }
    assert added[..j] == added;
  }

  lemma ListedNext(selfAddr: Addr, peers: seq<Addr>, lists: FileLists, i: nat)
    requires i < |peers|
    ensures Listed(selfAddr, peers[..i + 1], lists)
         == Listed(selfAddr, peers[..i], lists) + ListedBy(selfAddr, peers[i], lists)
    ensures ListedBy(selfAddr, peers[i], lists) == [] ==>
              Listed(selfAddr, peers[..i + 1], lists) == Listed(selfAddr, peers[..i], lists)
  {
    assert peers[..i + 1][..i] == peers[..i];
  }

  /** The outer loop over the registry. */
  method BrowseFiles(selfAddr: Addr, peers: seq<Addr>, lists: FileLists) returns (seen: SeenFiles)
    ensures seen == Seen(Listed(selfAddr, peers, lists))
  {
    seen := map[];
    var i := 0;
    while i < |peers|
      invariant 0 <= i <= |peers|
      invariant seen == Seen(Listed(selfAddr, peers[..i], lists))
    {
      ListedNext(selfAddr, peers, lists, i);
      var peerAddr := peers[i];
      i := i + 1;
      if peerAddr == selfAddr {
        continue;
      }
      var files := lists(peerAddr);
      if files.None? {
        continue;
      }
      seen := CountFiles(seen, peerAddr, files.value, Listed(selfAddr, peers[..i - 1], lists));
    }
    assert peers[..i] == peers;
  }

  function NameOf(e: Entry): Option<string> {
    Some(e.file.fileName)
  }

  /** The names of all listed entries, with repetitions. */
  function NamesOf(entries: seq<Entry>): seq<string> {
    FilterMap(NameOf, entries)
  }

  /** The counts are the multiplicities of the listed names. */
  lemma {:induction false} CountsAreMultiplicities(entries: seq<Entry>)
    ensures |NamesOf(entries)| == |entries|
    ensures forall name :: name in Seen(entries) <==> name in NamesOf(entries)
    ensures forall name :: name in Seen(entries) ==>
              Seen(entries)[name].peersCount == multiset(NamesOf(entries))[name] > 0
    decreases |entries|
  {
    if entries != [] {
      CountsAreMultiplicities(entries[..|entries| - 1]);
    }
  }

  /** The sum of the counts shown, the files taken in the order `names`. */
  function TotalCount(seen: SeenFiles, names: seq<string>): nat
    requires forall i :: 0 <= i < |names| ==> names[i] in seen
  {
    if names == [] then 0 else TotalCount(seen, names[..|names| - 1]) + seen[names[|names| - 1]].peersCount
  }

  /** How often the names occur in `xs`. */
  function Occurrences(xs: seq<string>, names: seq<string>): nat {
    if names == [] then 0
    else Occurrences(xs, names[..|names| - 1]) + multiset(xs)[names[|names| - 1]]
  }

  lemma {:induction false} OneMoreOccurrence(xs: seq<string>, x: string, names: seq<string>)
    requires NoDuplicates(names)
    ensures Occurrences(xs + [x], names) == Occurrences(xs, names) + if x in names then 1 else 0
    decreases |names|
  {
    if names != [] {
      var n := |names| - 1;
      OneMoreOccurrence(xs, x, names[..n]);
      assert names == names[..n] + [names[n]];
      assert x == names[n] ==> x !in names[..n];
    }
  }

  lemma {:induction false} OccurrencesOfNothing(names: seq<string>)
    ensures Occurrences([], names) == 0
    decreases |names|
  {
    if names != [] {
      OccurrencesOfNothing(names[..|names| - 1]);
    }
  }

  lemma {:induction false} OccurrencesAddUp(xs: seq<string>, names: seq<string>)
    requires NoDuplicates(names) && forall i :: 0 <= i < |xs| ==> xs[i] in names
    ensures Occurrences(xs, names) == |xs|
    decreases |xs|
  {
    if xs == [] {
      OccurrencesOfNothing(names);
    } else {
      var n := |xs| - 1;
      OccurrencesAddUp(xs[..n], names);
      OneMoreOccurrence(xs[..n], xs[n], names);
      assert xs == xs[..n] + [xs[n]];
    }
  }

  lemma {:induction false} TotalIsOccurrences(entries: seq<Entry>, names: seq<string>)
    requires forall i :: 0 <= i < |names| ==> names[i] in Seen(entries)
    ensures TotalCount(Seen(entries), names) == Occurrences(NamesOf(entries), names)
    decreases |names|
  {
    if names != [] {
      TotalIsOccurrences(entries, names[..|names| - 1]);
      CountsAreMultiplicities(entries);
    }
  }

  /** Conservation: in whatever order the page goes through its map, the counts add up to all listed entries. */
  lemma CountsAddUp(entries: seq<Entry>, names: seq<string>)
    requires NoDuplicates(names) && forall name :: name in names <==> name in Seen(entries)
    ensures (forall i :: 0 <= i < |names| ==> names[i] in Seen(entries))
    ensures TotalCount(Seen(entries), names) == |entries|
  {
    CountsAreMultiplicities(entries);
    TotalIsOccurrences(entries, names);
    OccurrencesAddUp(NamesOf(entries), names);
  }

  /** `i` is the first entry of that name. */
  ghost predicate FirstOfName(entries: seq<Entry>, name: string, i: nat) {
    && i < |entries| && entries[i].file.fileName == name
    && forall j :: 0 <= j < i ==> entries[j].file.fileName != name
  }

  /** What is shown for a file is what its first lister says of it: address, size and number of chunks. */
  lemma {:induction false} ShownIsFirstListed(entries: seq<Entry>, name: string) returns (i: nat)
    requires name in Seen(entries)
    ensures FirstOfName(entries, name, i)
    ensures var shown, file := Seen(entries)[name], entries[i].file;
            && shown.fileName == name && shown.peerAddress == entries[i].peer
            && shown.fileSize == file.fileSize && shown.totalChunks == file.totalChunks
    decreases |entries|
  {
    var n := |entries| - 1;
    if name in Seen(entries[..n]) {
      i := ShownIsFirstListed(entries[..n], name);
      forall j | 0 <= j < i ensures entries[j].file.fileName != name {
        assert entries[j] == entries[..n][j];
      }
    } else {
      i := n;
      CountsAreMultiplicities(entries[..n]);
      forall j | 0 <= j < n ensures entries[j].file.fileName != name {
        NameIsListed(entries[..n], j);
        assert entries[j] == entries[..n][j];
      }
    }
  }

  lemma {:induction false} NameIsListed(entries: seq<Entry>, j: nat)
    requires j < |entries|
    ensures entries[j].file.fileName in NamesOf(entries)
    decreases |entries|
  {
    var n := |entries| - 1;
    if j < n {
      NameIsListed(entries[..n], j);
    }
  }

  /** A file list that shows a peer's shared files, each once and under its own name, in any order. */
  ghost predicate Enumerates(files: seq<FileMeta>, shared: map<string, FileMeta>) {
    && (forall i :: 0 <= i < |files| ==> files[i].fileName in shared && shared[files[i].fileName] == files[i])
    && (forall name :: name in shared ==> exists i :: 0 <= i < |files| && files[i].fileName == name)
    && (forall i, j :: 0 <= i < j < |files| ==> files[i].fileName != files[j].fileName)
  }

  /** In a quiescent swarm every reachable peer lists exactly what it shares. */
  ghost predicate Quiescent(nodes: map<Addr, PeerState>, lists: FileLists) {
    forall a :: (a in nodes <==> lists(a).Some?) && (a in nodes ==> Enumerates(lists(a).value, nodes[a].shared))
  }

  /** The outcome of probing a peer for a file: an empty name is refused. */
  predicate Probe(nodes: map<Addr, PeerState>, name: string, a: Addr) {
    a in nodes && name != "" && name in nodes[a].shared
  }

  /** How many non-self peers answer a probe for the file. */
  function Holders(selfAddr: Addr, peers: seq<Addr>, hasFile: Addr -> bool): nat {
    if peers == [] then 0
    else Holders(selfAddr, peers[..|peers| - 1], hasFile) +
         if peers[|peers| - 1] != selfAddr && hasFile(peers[|peers| - 1]) then 1 else 0
  }

  /** Leaving out the primary leaves out exactly one holder. */
  lemma {:induction false} HoldersWithoutPrimary(selfAddr: Addr, primary: Addr, peers: seq<Addr>, hasFile: Addr -> bool)
    requires NoDuplicates(peers)
    ensures Holders(selfAddr, peers, hasFile) == |Probed(selfAddr, primary, peers, hasFile)| +
              if primary in peers && primary != selfAddr && hasFile(primary) then 1 else 0
    decreases |peers|
  {
    if peers != [] {
      var n := |peers| - 1;
      HoldersWithoutPrimary(selfAddr, primary, peers[..n], hasFile);
      assert peers == peers[..n] + [peers[n]];
      assert Probed(selfAddr, primary, peers, hasFile) ==
             Probed(selfAddr, primary, peers[..n], hasFile) +
             if peers[n] != selfAddr && peers[n] != primary && hasFile(peers[n]) then [peers[n]] else [];
      assert peers[n] !in peers[..n];
    }
  }

  lemma {:induction false} OneEntryPerList(a: Addr, files: seq<FileMeta>, name: string, k: nat)
    requires k <= |files| && forall i, j :: 0 <= i < j < |files| ==> files[i].fileName != files[j].fileName
    ensures multiset(NamesOf(EntriesOf(a, files)[..k]))[name] ==
              if exists i :: 0 <= i < k && files[i].fileName == name then 1 else 0
  {
    if k > 0 {
      OneEntryPerList(a, files, name, k - 1);
      assert EntriesOf(a, files)[..k][..k - 1] == EntriesOf(a, files)[..k - 1];
    }
  }

  lemma OneEntryPerHolder(selfAddr: Addr, a: Addr, nodes: map<Addr, PeerState>, lists: FileLists, name: string)
    requires Quiescent(nodes, lists) && name != ""
    ensures multiset(NamesOf(ListedBy(selfAddr, a, lists)))[name]
         == if a != selfAddr && Probe(nodes, name, a) then 1 else 0
  {
    if a != selfAddr && lists(a).Some? {
      var files := lists(a).value;
      OneEntryPerList(a, files, name, |files|);
      assert EntriesOf(a, files)[..|files|] == EntriesOf(a, files);
      assert Enumerates(files, nodes[a].shared);
    }
  }

  lemma {:induction false} ListedCountsHolders(selfAddr: Addr, peers: seq<Addr>, nodes: map<Addr, PeerState>,
      lists: FileLists, name: string)
    requires Quiescent(nodes, lists) && name != ""
    ensures multiset(NamesOf(Listed(selfAddr, peers, lists)))[name]
         == Holders(selfAddr, peers, a => Probe(nodes, name, a))
    decreases |peers|
  {
    if peers != [] {
      var n := |peers| - 1;
      ListedCountsHolders(selfAddr, peers[..n], nodes, lists, name);
      OneEntryPerHolder(selfAddr, peers[n], nodes, lists, name);
      FilterMapConcat(NameOf, Listed(selfAddr, peers[..n], lists), ListedBy(selfAddr, peers[n], lists));
    }
  }

  /** An entry shown by the browse page names a registered, reachable peer that really shares the file. */
  lemma {:induction false} ListedPeers(selfAddr: Addr, peers: seq<Addr>, nodes: map<Addr, PeerState>, lists: FileLists,
      i: nat)
    requires Quiescent(nodes, lists) && i < |Listed(selfAddr, peers, lists)|
    ensures var e := Listed(selfAddr, peers, lists)[i];
            e.peer in peers && e.peer != selfAddr && e.peer in nodes && e.file.fileName in nodes[e.peer].shared
    decreases |peers|
  {
    var n := |peers| - 1;
    var before := Listed(selfAddr, peers[..n], lists);
    if i < |before| {
      ListedPeers(selfAddr, peers[..n], nodes, lists, i);
    }
  }

  /**
   Browse and download agree: in a quiescent swarm with a duplicate-free registry the count shown for a file is the
   number of peers a download from the address shown would use.
   */
  lemma BrowseMatchesDownload(selfAddr: Addr, peers: seq<Addr>, nodes: map<Addr, PeerState>, lists: FileLists,
      name: string)
    requires Quiescent(nodes, lists) && NoDuplicates(peers)
    requires name != "" && name in Seen(Listed(selfAddr, peers, lists))
    ensures var shown := Seen(Listed(selfAddr, peers, lists))[name];
            shown.peersCount == |Available(selfAddr, shown.peerAddress, peers, a => Probe(nodes, name, a))|
  {
    var entries := Listed(selfAddr, peers, lists);
    var shown := Seen(entries)[name];
    CountsAreMultiplicities(entries);
    var i := ShownIsFirstListed(entries, name);
    ListedPeers(selfAddr, peers, nodes, lists, i);
    ListedCountsHolders(selfAddr, peers, nodes, lists, name);
    HoldersWithoutPrimary(selfAddr, shown.peerAddress, peers, a => Probe(nodes, name, a));
  }
}
