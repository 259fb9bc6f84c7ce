# A verified model of the P2P file sharer

The program splits an uploaded file into 1 MiB chunks, hashes them, publishes the metadata, and lets other peers fetch
the chunks concurrently from several holders, verify, merge and re-publish them. This project models that core and
proves properties of it with Dafny 4.11. `dafny verify dfyconfig.toml` checks everything.

How the model is laid out:

- `DownloadProtocol` is one call of `Download` as a transition system: launcher loop, one goroutine per chunk, bounded
  channel, WaitGroup, closing goroutine, collector, merge, publication. Operations that panic in Go set a flag, so that
  their absence is a theorem. `DownloadInvariant`, `DownloadSafety`, `DownloadProgress`, `DownloadRefinement`,
  `DownloadFailure` and `DownloadOutcome` hold what every interleaving keeps, termination and absence of deadlock, agreement with a sequential
  loop, what a failure reports, and what a success returns. `Downloader` is the code that one goroutine runs without interruption.
- `Swarm` puts any number of such downloads, uploads and registrations on any number of peers. `SwarmSeeding`,
  `SwarmPublication`, `SwarmDelivery`, `SwarmCompleteness`, `SwarmAvailability`, `SwarmTrap`, `SwarmSequential` and `SwarmBrowse` are the
  theorems about its runs. Where they speak of truthful answers, an answer may have been looked up at any moment since
  it was asked for, so whatever happens while it is in flight is covered.
- `FileMetadata`, `FloatCeiling`, `Chunking`, `MergeOrder`, `Peers`, `Upload`, `Registry` and `Browse` are the sequential parts.
- `Protocol`, `Framing` and `TcpRpc` are the wire format and one request with its response.
- `Sessions` and `UserStore` are the login state; `SessionMachine` and `PersistenceMachine` interleave their critical
  sections, and `SessionLedger` reads off the calls who is logged in.

SHA-256, float64 rounding, JSON, bcrypt results, clocks, tokens and network answers are parameters. SHA-256 is any
function to 32 bytes. It is never assumed injective, because no such function exists: theorems about content conclude
"the original bytes, or these two different byte strings with the same hash were seen".

Where the code differs from its own comments or documentation, the model follows the code:

- A failed save leaves the dirty flag cleared, so the comment that auto-save will catch it (handler/auth_handler.go:123)
  is not true: `PersistenceMachine.FailedWriteLosesAccount`, `PersistenceMachine.TicksNeverRepair`.
- Metadata counts and indices are not checked. A chunk count that is negative or larger than `make` accepts panics, and
  with repeated indices the merged bytes need not be determined: `DownloadSafety.NeverPanicsIffCapacityAccepted`,
  `Chunking.RepeatedIndexIsAmbiguous`, and the exact condition in `MergeOrder.DeterminedIffCommuting`.
- The four-byte length field wraps, so a payload of 2^32 bytes or more can be accepted truncated:
  `Framing.OversizedMessage`, `TcpRpc.CallerSees`, and the exact condition in `TcpRpc.ArrivesIffFits`.
- An empty file is published but cannot be downloaded: `DownloadOutcome.OnlyEmptyUploadsCannotLaunch`.
- "Skip self" (peer/downloader.go:59-62) compares with the HTTP address only, while in TCP mode a peer is known by a
  port that is 1000 higher (main.go:42, main.go:71), so there it is never skipped: `Downloader.SkipSelfWorksForHttpOnly`,
  and the exact condition in `Downloader.OwnAddressIsUsedIff`. In `Swarm` a node's `selfAddr` is therefore independent of
  the address under which others know it.
- A probe asks for a file name and not for its content, so a peer that shares another file under that name is assigned
  chunks it does not have and the download fails although everybody told the truth: `SwarmTrap.SameNameTrap`, reached
  from fresh peers in `SwarmTrap.TrapIsReachable`. The exact condition at launch is
  `SwarmCompleteness.GuaranteedIffWellServed`; one content per name is enough, `SwarmAvailability.PublishedFileIsDelivered`.
- A users file that exists and cannot be read is overwritten by the next save: `PersistenceMachine.OldAccountsAreGone`,
  `PersistenceMachine.UnreadableStartLosesAccounts`.

## Model

| member | source | states |
|---|---|---|
| DownloadInvariant.InitInv | peer/downloader.go:95-99 | with a count that `make` accepts the launch starts in a state satisfying the invariant |
| DownloadInvariant.StepKeepsControl | peer/downloader.go:99-136 | no step panics; the channel is closed only when every goroutine has exited; past the collector loop the channel is closed and empty |
| DownloadInvariant.StepKeepsWaitGroup | peer/downloader.go:96-112 | the WaitGroup counter is at all times the number of goroutines that still owe a Done |
| DownloadInvariant.StepDelivers | peer/downloader.go:174-211 | only a send changes what goroutines have delivered, by exactly the result it puts into the channel |
| DownloadInvariant.StepMovesResults | peer/downloader.go:122-135 | the channel is first in, first out: the collector receives results in the order in which they were sent |
| DownloadInvariant.StepKeepsConserved | peer/downloader.go:95-136 | queued plus received results are exactly those sent, and the queue never exceeds its capacity |
| DownloadInvariant.RunKeepsInv | peer/downloader.go:97-169 | the invariant holds after every run, for every schedule and every answer of the peers |
| DownloadSafety.NeverPanicsIffCapacityAccepted | peer/downloader.go:83-112 | a download never panics if and only if the served TotalChunks is between zero and the largest capacity `make` accepts; otherwise it panics before any goroutine runs |
| DownloadSafety.NothingAfterClose | peer/downloader.go:108-112 | after the close there is no send, no second close and no goroutine step in any run |
| DownloadSafety.ClosedMeansAllDelivered | peer/downloader.go:108-112 | when the channel is closed the results of all list entries have been sent, each once |
| DownloadSafety.CollectorReceivesEachOnce | peer/downloader.go:114-136 | when the collector loop ends it has received exactly one result per entry of meta.Chunks |
| DownloadProgress.StepDecreases | peer/downloader.go:95-169 | every step lowers a measure, including a send into a channel smaller than the number of goroutines |
| DownloadProgress.DownloadTerminates | peer/downloader.go:95-169 | a download of n chunks takes at most 7n + 7 steps under any schedule |
| DownloadProgress.Progress | peer/downloader.go:95-169 | every non-final state has an enabled step consistent with the pending answers |
| DownloadProgress.NoDeadlock | peer/downloader.go:95-169 | a run that cannot continue has returned success or failure |
| DownloadProgress.CanFinish | peer/downloader.go:95-169 | from every reachable state a complete run exists for any given answers |
| DownloadRefinement.VerdictPermutes | peer/downloader.go:138-145 | success or failure, and the number of failed chunks, do not depend on arrival order |
| DownloadRefinement.ConcurrentRefinesSequential | peer/downloader.go:99-153 | every complete run gives the verdict, the sources up to order and, for distinct or commuting indices, the bytes of a plain loop over meta.Chunks |
| DownloadRefinement.CollectedResults | peer/downloader.go:114-145 | past the collector loop the collected chunks and the verdict are those of the plain loop, up to order |
| DownloadRefinement.DataIsDeterminedIff | peer/downloader.go:99-153 | all complete runs return the same bytes exactly when fetched chunks of equal index can be concatenated in either order |
| DownloadRefinement.SucceedsIffAllPass | peer/downloader.go:138-145 | a complete run succeeds if and only if every answer has the announced hash and the announced count is the list length |
| DownloadFailure.FailureIsExact | peer/downloader.go:138-145 | for every schedule: failed chunks are reported exactly when some answer does not pass, with their exact number and with the first failure received, which tells missing from damaged; a wrong count is reported exactly when all answers pass and the announced count is not the list length |
| DownloadOutcome.SuccessMeansAllPassed | peer/downloader.go:188-204 | on success every goroutine verified its chunk |
| DownloadOutcome.HonestMetadataGivesOriginal | peer/downloader.go:114-169 | with uploaded metadata a success returns the uploaded bytes, whatever arrived on the wire, or a hash collision was seen |
| DownloadOutcome.SizeIsAsAnnounced | peer/downloader.go:148-169 | with uploaded metadata a success has the announced file size, or a hash collision was seen |
| DownloadOutcome.SourcesAreRoundRobin | peer/downloader.go:99-130 | on success the recorded sources are, up to order, list position i from peer i mod k, and they number TotalChunks |
| DownloadOutcome.RoundRobinIsBalanced | peer/downloader.go:97-100 | peer j of m gets n/m chunks, plus one if j is below n mod m |
| DownloadOutcome.LoadIsBalanced | peer/downloader.go:118-134 | the chunks counted for each of the distinct peers are floor(n/m) or ceil(n/m), the same for every schedule |
| DownloadOutcome.OnlyEmptyUploadsCannotLaunch | peer/downloader.go:83-85 | exactly the zero-byte uploads cannot be downloaded |
| Downloader.Downloader.FindPeersWithFile | peer/downloader.go:54-71 | the loop returns the primary followed by the other non-self peers that answer the probe |
| Downloader.AvailablePeers | peer/downloader.go:54-71 | with a duplicate-free registry the list is duplicate-free, starts with the primary, is never empty and holds exactly the holders |
| Downloader.OwnAddressIsUsedIff | peer/downloader.go:59-62 | exactly when a peer is assigned chunks of its own: as primary, or registered under an address that is not its HTTP address and answering the probe |
| Downloader.SkipSelfWorksForHttpOnly | peer/downloader.go:54-62 | for every port, "skip self" takes effect for the HTTP address and never for the TCP address |
| Downloader.Downloader.DownloadChunk | peer/downloader.go:174-211 | one goroutine's result for every answer; the chunk is stored exactly when its hash is the announced one |
| Downloader.Downloader.Collect | peer/downloader.go:114-136 | the accumulators after the collector loop; the count map holds the multiplicity of each serving peer |
| Downloader.Downloader.Finish | peer/downloader.go:138-169 | which of the two checks fails, with the first error received, or else the merge and the publication; a failure leaves the shared files unchanged |
| SwarmSeeding.StepKeepsPeers | handler/upload.go:57-71 | every step keeps each peer able to serve what it shares and loses no stored chunk |
| SwarmSeeding.PublishableIsServed | peer/downloader.go:160-163 | when a download publishes, every chunk of the metadata is in the local store |
| SwarmSeeding.RunKeepsInv | peer/downloader.go:189-204 | the swarm invariant holds after every run with arbitrary metadata and replies |
| SwarmSeeding.StoresGrow | peer/downloader.go:200-204 | over any run a store loses no key and every value in it hashes to its key |
| SwarmSeeding.EveryPeerServesWhatItAdvertises | handler/upload.go:57-71 | from fresh peers, after any interleaving, every advertised chunk is stored under its hash with matching content |
| SwarmSeeding.UnsuccessfulDownloadKeepsShared | peer/downloader.go:138-145 | a download that does not succeed leaves the shared files unchanged while the store only grows |
| SwarmPublication.PublishShares | peer/downloader.go:160-163 | the publication of a download maps the requested name to the served metadata in the shared files of its own peer and changes nothing else in the swarm |
| SwarmPublication.StoreAddsChunk | peer/downloader.go:200-204 | a verified chunk is put under its announced hash into the store of the downloading peer, and nothing else changes |
| SwarmPublication.SuccessIsAdvertised | peer/downloader.go:160-163 | from fresh peers, over any run, a download that has succeeded has left its name among the shared files of its peer |
| SwarmPublication.SuccessfulDownloadShares | peer/downloader.go:160-163 | with no other publisher at the peer, a success changes the shared files by exactly the entry for the requested name |
| SwarmDelivery.DownloadReturnsUploadedFile | peer/downloader.go:76-169 | end to end: when every metadata reply is something the primary shared at some moment of the run, and with arbitrary chunk replies, a success returns the bytes of a published upload of that name, or a collision was seen |
| SwarmCompleteness.LookupPasses | handler/tcp_listener.go:192-204 | a faithful holder's answer always has the announced hash |
| SwarmCompleteness.EveryScheduleSucceeds | peer/downloader.go:88-169 | if each chunk is held at launch by the peer it is assigned to and these peers answer with what they looked up at any moment since, every schedule of the swarm ends the download in success within 7n + 7 of its steps |
| SwarmCompleteness.GuaranteedIffWellServed | peer/downloader.go:88-169 | every faithful schedule is free of panic, failure and deadlock if and only if at launch the metadata counts its chunks correctly, `make` accepts the count, and each chunk is held by the peer it is assigned to |
| SwarmCompleteness.WellServedIsNeeded | peer/downloader.go:88-206 | without that condition at launch some faithful schedule reaches a state from which no continuation of the swarm lets the download succeed |
| SwarmCompleteness.SuccessNeedsHolders | peer/downloader.go:99-206 | in every faithful run that succeeds each chunk is in the end held by the peer it was assigned to, whatever these peers came to hold meanwhile |
| SwarmCompleteness.SpoiltNeverSucceeds | peer/downloader.go:138-141 | after one missing or wrong answer no continuation of the swarm makes the download succeed |
| SwarmAvailability.SharedIsTheFile | handler/upload.go:57-71 | with one content published under a name, whoever shares the name shares that metadata and can serve all of it |
| SwarmAvailability.FoundPeersServe | peer/downloader.go:54-71 | then the peers found by truthful probes serve every chunk they can be assigned |
| SwarmAvailability.RunStaysOnCourse | peer/downloader.go:76-169 | truthful runs of the whole swarm keep a download on course from its request on, and bound its remaining steps |
| SwarmAvailability.PublishedFileIsDelivered | peer/downloader.go:76-169 | a file published with one content is delivered to any peer that asks a sharer and can make the channel: never rejected, failed or stuck, within 7n + 9 steps and one per known peer, and with the right bytes or a collision |
| SwarmAvailability.DownloaderBecomesSource | peer/downloader.go:160-163 | under the same hypotheses the peer of a finished download answers a request for the name with the upload's own metadata and holds all its chunks |
| SwarmAvailability.FaithfulAnswerIsFetched | transport/tcp_transport.go:142-154 | a faithful chunk answer of the swarm is what FetchChunk returns, exactly when the response fits the limit and the connection |
| SwarmAvailability.TruthfulMetaIsFetched | transport/tcp_transport.go:121-137 | a truthful metadata answer of the swarm is what FetchFileMeta returns when the response fits |
| SwarmTrap.SharersAreUsed | peer/downloader.go:54-100 | for any registry, an undisturbed and truthful launch uses exactly the peers of findPeersWithFile, so whoever shares anything under the name is used |
| SwarmTrap.SameNameTrap | peer/downloader.go:54-141 | for any registry, if the j-th peer found lacks the j-th chunk, the launched download can fail, and it succeeds only if that peer has meanwhile come to hold the chunk |
| SwarmTrap.TrapIsReachable | peer/downloader.go:54-141 | from fresh peers, two uploads under one name with different chunks, one registration and truthful answers lead to a download that fails |
| SwarmSequential.UndisturbedUpload | handler/upload.go:40-71 | the interleavable upload steps, run without interruption, do to the whole swarm what the upload handler does to its peer |
| SwarmSequential.ProbingFindsAvailablePeers | peer/downloader.go:54-71 | the interleavable probes, run with fixed answers, find what findPeersWithFile returns |
| SwarmSequential.MetaReplyDecides | peer/downloader.go:78-88 | metadata without chunks, by count or by list, rejects the download; otherwise probing starts over the registry of that moment |
| Chunking.SplitFile | file/chunking.go:17-43 | an error for non-positive sizes, otherwise the chunks of the specification, through the float64 count |
| Chunking.CutChunk | file/chunking.go:25-39 | one iteration, with slice bounds that fit 64 bits and stay inside the data |
| Chunking.SplitShape | file/chunking.go:25-39 | no chunk is empty, all but the last have the chunk size, chunk i has index i, its own hash and its place in the data |
| Chunking.SortInPlace | file/chunking.go:47-50 | the array is permuted into index order; stability is not promised |
| Chunking.MergeChunks | file/chunking.go:46-58 | sorts in place and returns the concatenation of the sorted chunks |
| Chunking.SplitMergeRoundTrip | file/chunking.go:17-58 | split, any arrival order, any sort, merge gives back the data |
| Chunking.RepeatedIndexIsAmbiguous | file/chunking.go:48-50 | with a repeated index two different merges are both possible |
| MergeOrder.DeterminedIffCommuting | file/chunking.go:46-58 | for every chunk list the merged bytes are independent of the unstable sort exactly when data of equal index commute |
| FloatCeiling.FloatCeilingIsExact | file/chunking.go:22 | for lengths below 2^53 and every positive 64-bit size the float64 count is the integer ceiling |
| FloatCeiling.LengthBoundIsNeeded | file/chunking.go:22 | at length 2^53 + 1 the float64 count loses a chunk |
| FloatCeiling.SliceBoundsFit | file/chunking.go:25-30 | start and start + chunkSize never overflow a signed 64-bit integer |
| FileMetadata.ChunkMetaRecord.UnmarshalJSON | file/filemeta.go:31-47 | succeeds exactly on 64 hex digits; on a bad hash the index is already overwritten and the hash is kept |
| FileMetadata.ParseHashAccepts | file/filemeta.go:38-45 | hash text is accepted if and only if it is 64 hexadecimal digits |
| FileMetadata.UnhexIsCanonical | file/filemeta.go:38-45 | accepted text is, up to case, the text the program writes for the decoded bytes |
| FileMetadata.ChunkMetaJsonRoundTrip | file/filemeta.go:23-47 | a chunk's metadata survives marshalling and unmarshalling |
| FileMetadata.HexInjective | peer/downloader.go:175 | store keys are equal exactly when the hashes are |
| FileMetadata.HexDigits | file/filemeta.go:23-29 | each byte is written as two digits, the more significant first |
| Peers.Peer.AddFile | peer/peer.go:37-39 | shares the file under the name in its metadata and changes nothing else |
| Upload.UploadFile | handler/upload.go:40-71 | the peer afterwards holds every chunk under its hash and shares the metadata |
| Upload.UploadKeepsSeeding | handler/upload.go:57-71 | an upload keeps the peer able to serve everything it shares |
| Upload.MetaForShape | handler/upload.go:48-62 | published metadata counts its chunks correctly, indices are list positions, only an empty file has no chunk |
| Upload.MetaGeometry | handler/upload.go:40-62 | cut by the announced chunk size of 1 MiB the data gives the announced hashes; all pieces but the last are full, their lengths add up to the announced file size, and the count is the smallest that covers it |
| Registry.PeerRegistry.AddPeer | registry/registry.go:14-24 | the scan appends an address exactly when it is not yet there |
| Registry.FirstArrivalOrder | registry/registry.go:14-24 | after any registrations the list is duplicate-free, complete and in order of first arrival |
| Registry.SnapshotsGrow | registry/registry.go:26-33 | an earlier copy of the list is a prefix of every later one |
| Protocol.Conn.ReadFull | transport/protocol.go:73 | fills the buffer from any sequence of short reads, or fails exactly when the stream is too short |
| Protocol.WriteMessage | transport/protocol.go:49-66 | sends the frame, or reports an error after a strict prefix of it |
| Protocol.ReadMessage | transport/protocol.go:70-93 | returns what the parse of the stream prescribes under every fragmentation and leaves exactly the rest |
| Framing.RoundTripIffFits | transport/protocol.go:49-93 | a written message is read back with the exact rest if and only if its payload is at most 64 MiB |
| Framing.OversizedMessage | transport/protocol.go:53-82 | what a reader makes of a larger message, including truncation when the length wraps |
| Framing.FrameLayout | transport/protocol.go:49-66 | type byte, four length bytes with the most significant first and modulo 2^32, payload |
| Framing.WireConstants | transport/protocol.go:25-42 | the type and status bytes on the wire, and the limit of 67108864 bytes |
| Framing.ParseIsCanonical | transport/protocol.go:70-93 | an accepted stream begins with the frame of the message that was read |
| Framing.StrictPrefixRejected | transport/protocol.go:70-93 | no strict prefix of a frame is accepted |
| Framing.FramesPrefixFree | transport/protocol.go:49-93 | different messages never share an encoding or a prefix |
| Framing.StreamRoundTrip | transport/protocol.go:70-93 | reading repeatedly recovers any sequence of messages |
| Framing.StreamIsCanonical | transport/protocol.go:70-93 | a stream that is read cleanly to its end is the concatenation of the frames read |
| Framing.ReadAll | transport/protocol.go:70-93 | the iterated reader over an arbitrarily fragmented connection returns what the specification reads |
| TcpRpc.TcpListener.Dispatch | handler/tcp_listener.go:79-94 | the reply for every request type; only an accepted registration changes the registry |
| TcpRpc.RegistrationIsExact | handler/tcp_listener.go:114-136 | after a request an address is registered exactly when it was before or the request registers it, non-empty and with an allowed password; the old list is a prefix, at most one address is added, and exactly accepted registrations are confirmed |
| TcpRpc.RefusedExactly | handler/tcp_listener.go:79-101 | exactly which requests are answered with an error, by type, content and state of the peer |
| TcpRpc.RequestsRegisterInOrder | handler/tcp_listener.go:114-136 | after any sequence of requests the registry holds exactly the accepted addresses, each once, in the order of their first accepted request |
| TcpRpc.TcpTransport.RegisterWithPeer | transport/tcp_transport.go:76-89 | what registering with a peer does to its registry and what the caller learns, for every cut of the two connections |
| TcpRpc.TcpTransport.FetchPeerInfo | transport/tcp_transport.go:91-104 | the server's name when the response arrives, and never another |
| TcpRpc.TcpTransport.FetchFileList | transport/tcp_transport.go:107-118 | the server's shared files, each once, when the response arrives |
| TcpRpc.TcpListener.HandleFileList | handler/tcp_listener.go:149-158 | lists every shared file once, in some order |
| TcpRpc.TcpListener.HandleConnection | handler/tcp_listener.go:70-110 | one complete request gets one response; anything else changes and sends nothing |
| TcpRpc.TcpTransport.RoundTrip | transport/tcp_transport.go:45-75 | the exchange over cut connections: the server acts at most once and the caller sees what arrives of the response |
| TcpRpc.TcpTransport.FetchChunk | transport/tcp_transport.go:142-154 | for every stored chunk, every size and every cut of the two connections, exactly what arrives of the chunk |
| TcpRpc.TcpTransport.FetchFileMeta | transport/tcp_transport.go:121-137 | for every shared file and every cut of the two connections, exactly what the arriving bytes decode to |
| TcpRpc.CallerSees | transport/tcp_transport.go:62-72 | the caller gets the handler's payload exactly when there is one of at most 64 MiB, and never more than a prefix of it |
| TcpRpc.ResponseArrives | handler/tcp_listener.go:96-109 | what the caller makes of any response over any connection is what arrives of its payload: all of it, nothing, or the prefix that a wrapped length announces |
| TcpRpc.ArrivesIffFits | transport/protocol.go:49-93 | the payload arrives exactly if and only if it is within the limit and the connection takes all of it; below 4 GiB it arrives exactly or not at all |
| TcpRpc.UploadedChunksAreDelivered | handler/upload.go:41-67 | whatever the peer held before, every chunk of every upload is found and fits a response, and what is found is a piece of the data with that hash: the chunk itself or a collision |
| Browse.BrowseFiles | handler/distribute.go:48-77 | the nested loops merge the lists of the non-self peers that answer |
| Browse.ShownIsFirstListed | handler/distribute.go:65-76 | address, size and number of chunks shown for a name are those of the first entry listed under it |
| Browse.CountsAreMultiplicities | handler/distribute.go:65-76 | PeersCount is the number of listed entries of that name |
| Browse.CountsAddUp | handler/distribute.go:65-83 | in whatever order the page goes through its map, the counts add up to the number of listed entries |
| Browse.BrowseMatchesDownload | handler/distribute.go:42-77 | in a quiescent swarm PeersCount is the number of peers a download from the shown address would use |
| SwarmBrowse.HonestSwarmIsQuiescent | handler/tcp_listener.go:149-158 | with metadata relayed honestly every peer's file list shows each file it shares once, under its own name, at every moment |
| SwarmBrowse.FetchedListEnumerates | transport/tcp_transport.go:107-118 | what the caller decodes from a file list response shows each shared file once |
| SwarmBrowse.BrowseAgreesInSwarm | handler/distribute.go:42-83 | after any run from fresh peers with metadata relayed honestly, each count shown is the number of peers a download from the shown address would find |
| SwarmBrowse.ShownCountIsUsed | handler/distribute.go:42-83 | and the download launched from the page distributes its chunks among that many peers |
| Sessions.SessionManager.CreateSession | auth/session.go:54-74 | inserts a session that expires the fixed duration after the clock read |
| Sessions.SessionManager.DestroySession | auth/session.go:97-105 | removes the token and nothing else, whether or not it was there |
| Sessions.SessionManager.ValidateSession | auth/session.go:78-94 | true exactly for a stored, unexpired session; otherwise the token is gone afterwards |
| Sessions.SessionManager.Reap | auth/session.go:121-130 | removes exactly the expired sessions and counts them |
| SessionMachine.UndisturbedValidation | auth/session.go:78-94 | the cut steps of a validation, run without interruption, have the contract of ValidateSession |
| SessionMachine.StepRefines | auth/session.go:54-136 | every step of the real map is matched by the ideal map, up to expired sessions |
| SessionMachine.EvictionIsInvisible | auth/session.go:54-136 | every run gives all validations the answers of the ideal map that never evicts, and both have the same unexpired part |
| SessionMachine.ValidationAnswers | auth/session.go:78-94 | an interleaved validation answers with the session created and not destroyed at its lookup, exactly if it has not expired at its clock read |
| SessionLedger.IdealIsTheLedger | auth/session.go:54-105 | the ideal map holds exactly the sessions that some call created and inserted and no later call destroyed, each expiring the fixed duration after its own call read the clock |
| SessionLedger.ValidationAnswersFromLedger | auth/session.go:78-94 | in every run of the real machine a validation answers with the session created and not destroyed by its lookup, exactly if the clock at its check has not passed its lifetime |
| SessionLedger.UnexpiredIsTheLedger | auth/session.go:54-136 | at every moment the unexpired sessions in the real map are the unexpired ones created and not destroyed |
| SessionLedger.NoLoginAfterLogout | auth/session.go:97-105 | after a logout no validation that looks the token up later succeeds |
| SessionLedger.ReapLeavesUnexpired | auth/session.go:121-130 | a tick of the reaper leaves exactly the sessions whose lifetime the clock has not passed |
| UserStore.Store.RegisterUser | auth/auth.go:80-113 | the first failing check decides; success adds the user and sets the flag |
| PersistenceMachine.RefusalsInOrder | auth/auth.go:80-103 | which error a refused registration gets: the first violated condition, with the length limits 2 and 6 |
| PersistenceMachine.AccountsAreFirstRequests | auth/auth.go:80-113 | after any run the accounts are those from before, unchanged, and for every other name its first acceptable request, with its hash and with the user name as default display name |
| UserStore.Store.SaveToFile | auth/auth.go:154-169 | the flag is cleared whether or not the write succeeds |
| UserStore.Store.AutoSave | auth/auth.go:197-209 | writes only when the flag is set |
| PersistenceMachine.UndisturbedTick | auth/auth.go:197-209 | the cut steps of a tick, run without interruption, have the contract of AutoSave |
| PersistenceMachine.UndisturbedSave | auth/auth.go:154-169 | the cut steps of a call to save, run without interruption, have the contract of SaveToFile |
| PersistenceMachine.DiskIsAPastSnapshot | auth/auth.go:80-169 | whatever fails or overlaps, a file with accounts is a past value of the user map and a subset of it; after a start that could not read the file this holds from the first write that reaches it |
| PersistenceMachine.OldAccountsAreGone | auth/auth.go:154-190 | after a start that could not read the users file, once a write has reached it every account on it was registered in this run |
| PersistenceMachine.UnreadableStartLosesAccounts | auth/auth.go:154-180 | after a start that could not read the file, one registration and save replace every account in it |
| PersistenceMachine.CleanMeansSaved | auth/auth.go:154-210 | after a clean load, with successful non-overlapping writes, a clear flag and no save under way mean disk equals memory |
| PersistenceMachine.SavedIffLastWriteWasFresh | auth/auth.go:154-210 | disk equals memory exactly when the last effective write was a success with a snapshot newer than every registration |
| PersistenceMachine.FailedWriteLosesAccount | auth/auth.go:157-166 | one failed write leaves an account in memory only, with the flag clear |
| PersistenceMachine.OverlappingSavesLoseAccount | auth/auth.go:154-169 | two successful overlapping saves can lose the newer account on disk |
| PersistenceMachine.IdleStoreWritesNothing | auth/auth.go:43-58 | a store that was started and left alone never writes the users file |
| PersistenceMachine.TicksNeverRepair | auth/auth.go:197-209 | no number of auto-save ticks repairs a lost write |

## Left out

- HTTP handlers and transport, multipart parsing, pages, cookies, command line and process wiring: plumbing.
- JSON syntax: marshalling is a codec that is faithful where a theorem says so; strings that JSON would alter are not modelled.
- SHA-256, bcrypt and random tokens themselves: a parameter, a given result, and a freshness condition.
- Display names of logged-in users: the name a peer goes by is fixed here.
- ChunkMap, ReceivedChunks and AddChunkLocation: the protocol does not use them.
- Gossip distribution and per-chunk availability queries, which the repository's README announces: not in the code.
- DownloadProtocol.Step: running out of memory is not modelled. The panic of `make` stops that download only, as in the program: it happens on the goroutine of the HTTP handler, which net/http recovers.
- Swarm.Step: AddFile takes no lock in the code and is one atomic step here; metadata arrival and the copy of the registry are one step.
- Chunking.SplitFile: takes data of fewer than 2^53 bytes, more than fits in memory; the bound is shown to be needed.
- Upload.UploadFile: the same bound, through SplitFile.
- Chunking.SortInPlace: an insertion sort stands for the sort of Go's library; only what holds for every sort is promised.
- UserStore.Store.WriteFile: a write is one step that succeeds, fails without effect or damages the file; bytes of two overlapping writes do not mix.
- SessionMachine.Step: tokens are fresh and the clock does not go back, as hypotheses on the run.
- AuthenticateUser, GetUser and UserCount: single lookups in the user map.
- Usernames and passwords are measured in characters, each standing for one byte.
