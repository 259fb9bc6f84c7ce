/**
 One request and its response over TCP: the listening side (handler/tcp_listener.go) and the calling side
 (transport/tcp_transport.go). JSON is a codec about which only faithfulness is assumed, and only where it is needed.
 */
module TcpRpc {
  import opened Wrappers
  import opened Collections
  import opened FileMetadata
  import opened Chunking
  import opened Peers
  import opened Upload
  import opened Protocol
  import opened Framing
  import opened Registry

  datatype RegisterRequest = RegisterRequest(address: string, networkPassword: string)

  /** The JSON encodings in use, and the text of an error response to a request. */
  datatype Codec = Codec(
    encodeName: string -> Bytes, decodeName: Bytes -> Option<string>,
    encodeHash: string -> Bytes, decodeHash: Bytes -> Option<string>,
    encodeMeta: FileMeta -> Bytes, decodeMeta: Bytes -> Option<FileMeta>,
    encodeFiles: seq<FileMeta> -> Bytes, decodeFiles: Bytes -> Option<seq<FileMeta>>,
    encodeRegister: RegisterRequest -> Bytes, decodeRegister: Bytes -> Option<RegisterRequest>,
    registered: Bytes, errorText: Message -> Bytes)

  /** Marshalling and unmarshalling copies what was marshalled. */
  ghost predicate Faithful(c: Codec) {
    && (forall x :: c.decodeName(c.encodeName(x)) == Some(x))
    && (forall x :: c.decodeHash(c.encodeHash(x)) == Some(x))
    && (forall x :: c.decodeMeta(c.encodeMeta(x)) == Some(x))
    && (forall x :: c.decodeFiles(c.encodeFiles(x)) == Some(x))
    && (forall x :: c.decodeRegister(c.encodeRegister(x)) == Some(x))
  }

  /** What a listener reads and changes: its peer's state, its registry and its display name. */
  datatype View = View(state: PeerState, registry: seq<string>, name: string)

  /** The reply of each handler; None stands for its error. Map iteration gives the file list in the order `keys`. */
  function Reply(c: Codec, allowed: string -> bool, v: View, keys: seq<string>, m: Message): Option<Bytes> {
    if m.msgType == MSG_REGISTER then
      if MayRegister(c, allowed, m).Some? then Some(c.registered) else None
    else if m.msgType == MSG_PEER_INFO then Some(c.encodeName(v.name))
    else if m.msgType == MSG_FILE_LIST then Some(c.encodeFiles(FilesIn(v.state.shared, keys)))
    else if m.msgType == MSG_FILE_META then
      match FindFile(v.state.shared, c.decodeName(m.payload))
      case Some(meta) => Some(c.encodeMeta(meta))
      case None => None
    else if m.msgType == MSG_CHUNK then FindChunk(v.state.store, c.decodeHash(m.payload))
    else None
  }

  /** The address a registration request may add. */
  function MayRegister(c: Codec, allowed: string -> bool, m: Message): Option<string> {
    match c.decodeRegister(m.payload)
    case Some(r) => if r.address != "" && allowed(r.networkPassword) then Some(r.address) else None
    case None => None
  }

  function FindFile(shared: map<string, FileMeta>, name: Option<string>): Option<FileMeta> {
    if name.Some? && name.value != "" && name.value in shared then Some(shared[name.value]) else None
  }

  function FindChunk(store: map<string, Bytes>, hash: Option<string>): Option<Bytes> {
    if hash.Some? && hash.value != "" && hash.value in store then Some(store[hash.value]) else None
  }

  function FilesIn(shared: map<string, FileMeta>, keys: seq<string>): seq<FileMeta> {
    FilterMap((k: string) => if k in shared then Some(shared[k]) else None, keys)
  }

  ghost predicate IsIteration(keys: seq<string>, shared: map<string, FileMeta>) {
    NoDuplicates(keys) && forall k :: k in keys <==> k in shared
  }

  /** `m` is a request to register `address`, and one that the server accepts. */
  predicate IsAccepted(c: Codec, allowed: string -> bool, m: Message, address: string) {
    && m.msgType == MSG_REGISTER && address != ""
    && match c.decodeRegister(m.payload)
       case Some(r) => r.address == address && allowed(r.networkPassword)
       case None => false
  }

  /** Only an accepted registration changes the server. */
  function RegistryAfter(c: Codec, allowed: string -> bool, v: View, m: Message): seq<string> {
    if m.msgType == MSG_REGISTER && MayRegister(c, allowed, m).Some?
    then Add(v.registry, MayRegister(c, allowed, m).value) else v.registry
  }

  /**
   What a request does to the registry: an accepted registration puts its address at the end unless it is there already,
   anything else changes nothing, and a registration is confirmed exactly when it was accepted.
   */
  lemma RegistrationIsExact(c: Codec, allowed: string -> bool, v: View, keys: seq<string>, m: Message)
    ensures var after := RegistryAfter(c, allowed, v, m);
            && (forall a :: a in after <==> a in v.registry || IsAccepted(c, allowed, m, a))
            && v.registry <= after && |after| <= |v.registry| + 1
            && (NoDuplicates(v.registry) ==> NoDuplicates(after))
    ensures m.msgType == MSG_REGISTER ==>
              (Reply(c, allowed, v, keys, m).Some? <==> exists a :: IsAccepted(c, allowed, m, a))
  {
    if m.msgType == MSG_REGISTER && c.decodeRegister(m.payload).Some? {
      var a := c.decodeRegister(m.payload).value.address;
      assert MayRegister(c, allowed, m).Some? <==> IsAccepted(c, allowed, m, a);
    }
  }

  /**
   Exactly the requests that are answered with an error: an unknown type, a registration that is not accepted, and a
   question for a file or a chunk that cannot be decoded, names nothing, or names what the peer does not have.
   */
  lemma RefusedExactly(c: Codec, allowed: string -> bool, v: View, keys: seq<string>, m: Message)
    ensures Reply(c, allowed, v, keys, m).None? <==>
              match m.msgType
              case 1 => forall a :: !IsAccepted(c, allowed, m, a)
              case 2 => false
              case 3 => false
              case 4 => forall name :: c.decodeName(m.payload) == Some(name) ==> name == "" || name !in v.state.shared
              case 5 => forall hash :: c.decodeHash(m.payload) == Some(hash) ==> hash == "" || hash !in v.state.store
              case _ => true
  {
    RegistrationIsExact(c, allowed, v, keys, m);
  }

  /** The registry after the requests took their turn in this order. */
  function AfterRequests(c: Codec, allowed: string -> bool, v: View, ms: seq<Message>): seq<string> {
    if ms == [] then v.registry
    else RegistryAfter(c, allowed, v.(registry := AfterRequests(c, allowed, v, ms[..|ms| - 1])), ms[|ms| - 1])
  }

  /** `p` is the first request that registers `a`. */
  ghost predicate FirstAccepted(c: Codec, allowed: string -> bool, ms: seq<Message>, a: string, p: nat) {
    p < |ms| && IsAccepted(c, allowed, ms[p], a) && forall k :: 0 <= k < p ==> !IsAccepted(c, allowed, ms[k], a)
  }

  /** The peers registered by requests, in the order of their first accepted request. */
  ghost predicate InRequestOrder(c: Codec, allowed: string -> bool, ms: seq<Message>, peers: seq<string>) {
    && NoDuplicates(peers)
    && (forall a :: a in peers <==> exists p: nat :: FirstAccepted(c, allowed, ms, a, p))
    && (forall i, j, p: nat, q: nat ::
          0 <= i < j < |peers| &&
          FirstAccepted(c, allowed, ms, peers[i], p) && FirstAccepted(c, allowed, ms, peers[j], q) ==>
            p < q)
  }

  lemma FirstAcceptedNext(c: Codec, allowed: string -> bool, ms: seq<Message>, a: string, p: nat)
    requires ms != []
    ensures var init, n := ms[..|ms| - 1], |ms| - 1;
            FirstAccepted(c, allowed, ms, a, p) <==>
              FirstAccepted(c, allowed, init, a, p) ||
              (p == n && IsAccepted(c, allowed, ms[n], a) && forall q: nat :: !FirstAccepted(c, allowed, init, a, q))
  {
    var init, n := ms[..|ms| - 1], |ms| - 1;
    if p == n && IsAccepted(c, allowed, ms[n], a) && (forall q: nat :: !FirstAccepted(c, allowed, init, a, q)) {
      forall k | 0 <= k < n ensures !IsAccepted(c, allowed, ms[k], a) {
        NoneAccepted(c, allowed, init, a, k);
        assert init[k] == ms[k];
      }
    }
  }

  lemma {:induction false} NoneAccepted(c: Codec, allowed: string -> bool, ms: seq<Message>, a: string, k: nat)
    requires k < |ms| && forall q: nat :: !FirstAccepted(c, allowed, ms, a, q)
    ensures !IsAccepted(c, allowed, ms[k], a)
  {
    forall j | 0 <= j < k ensures !IsAccepted(c, allowed, ms[j], a) {
      NoneAccepted(c, allowed, ms, a, j);
    }
    assert !FirstAccepted(c, allowed, ms, a, k);
  }

  /** However many requests come in, accepted or refused, the registry lists the accepted addresses by first arrival. */
  lemma {:induction false} RequestsRegisterInOrder(c: Codec, allowed: string -> bool, v: View, ms: seq<Message>)
    requires v.registry == []
    ensures InRequestOrder(c, allowed, ms, AfterRequests(c, allowed, v, ms))
    decreases |ms|
  {
    if ms != [] {
      var n := |ms| - 1;
      RequestsRegisterInOrder(c, allowed, v, ms[..n]);
      var before := AfterRequests(c, allowed, v, ms[..n]);
      OneMoreRequest(c, allowed, v.(registry := before), ms);
    }
  }

  lemma OneMoreRequest(c: Codec, allowed: string -> bool, v: View, ms: seq<Message>)
    requires ms != [] && InRequestOrder(c, allowed, ms[..|ms| - 1], v.registry)
    ensures InRequestOrder(c, allowed, ms, RegistryAfter(c, allowed, v, ms[|ms| - 1]))
  {
    var n, before, after := |ms| - 1, v.registry, RegistryAfter(c, allowed, v, ms[|ms| - 1]);
    RegistrationIsExact(c, allowed, v, [], ms[n]);
    forall a ensures a in after <==> exists p: nat :: FirstAccepted(c, allowed, ms, a, p) {
      FirstAcceptedNext(c, allowed, ms, a, n);
      if a in before {
        var p: nat :| FirstAccepted(c, allowed, ms[..n], a, p);
        FirstAcceptedNext(c, allowed, ms, a, p);
      }
      forall p: nat | FirstAccepted(c, allowed, ms, a, p) ensures a in after {
        FirstAcceptedNext(c, allowed, ms, a, p);
      }
    }
    forall i, j, p: nat, q: nat | 0 <= i < j < |after| && FirstAccepted(c, allowed, ms, after[i], p) &&
      FirstAccepted(c, allowed, ms, after[j], q)
      ensures p < q
    {
      FirstAcceptedNext(c, allowed, ms, after[i], p);
      FirstAcceptedNext(c, allowed, ms, after[j], q);
      assert after[i] == before[i];
    }
  }

  lemma {:induction false} FilesInOrder(shared: map<string, FileMeta>, keys: seq<string>)
    requires forall i :: 0 <= i < |keys| ==> keys[i] in shared
    ensures |FilesIn(shared, keys)| == |keys|
    ensures forall i :: 0 <= i < |keys| ==> FilesIn(shared, keys)[i] == shared[keys[i]]
    decreases |keys|
  {
    if keys != [] {
      FilesInOrder(shared, keys[..|keys| - 1]);
    }
  }

  function Response(c: Codec, m: Message, reply: Option<Bytes>): Message {
    match reply
    case Some(payload) => Message(STATUS_OK, payload)
    case None => Message(STATUS_ERROR, c.errorText(m))
  }

  function Prefix(b: Bytes, k: nat): Bytes {
    if k < |b| then b[..k] else b
  }

  class TcpListener {
    const peer: Peer
    const registry: PeerRegistry
    const codec: Codec
    const allowed: string -> bool
    const name: string

    constructor (peer: Peer, registry: PeerRegistry, codec: Codec, allowed: string -> bool, name: string)
      ensures this.peer == peer && this.registry == registry && this.codec == codec
      ensures this.allowed == allowed && this.name == name
    {
      this.peer, this.registry, this.codec, this.allowed, this.name := peer, registry, codec, allowed, name;
    }

    function Look(): View
      reads peer, registry
    {
      View(peer.State(), registry.peers, name)
    }

    method HandleRegister(m: Message) returns (reply: Option<Bytes>)
      requires m.msgType == MSG_REGISTER
      modifies registry
      ensures reply == Reply(codec, allowed, old(Look()), [], m)
      ensures registry.peers == RegistryAfter(codec, allowed, old(Look()), m)
    {
      var request := codec.decodeRegister(m.payload);
      if request.None? || request.value.address == "" {
        return None;
      }
      if !allowed(request.value.networkPassword) {
        return None;
      }
      registry.AddPeer(request.value.address);
      return Some(codec.registered);
    }

    /** Ranges over the shared files in an order the map chooses. */
    method HandleFileList() returns (reply: Option<Bytes>, ghost keys: seq<string>)
      ensures IsIteration(keys, peer.sharedFiles)
      ensures reply == Some(codec.encodeFiles(FilesIn(peer.sharedFiles, keys)))
    {
      var files, todo := [], peer.sharedFiles.Keys;
      keys := [];
      while todo != {}
        invariant todo <= peer.sharedFiles.Keys
        invariant NoDuplicates(keys)
        invariant forall k :: k in keys <==> k in peer.sharedFiles && k !in todo
        invariant files == FilesIn(peer.sharedFiles, keys)
        decreases todo
      {
        var k :| k in todo;
        files := files + [peer.sharedFiles[k]];
        assert (keys + [k])[..|keys|] == keys;
        keys := keys + [k];
        todo := todo - {k};
      }
      reply := Some(codec.encodeFiles(files));
    }

    method Dispatch(m: Message) returns (reply: Option<Bytes>, ghost keys: seq<string>)
      modifies registry
      ensures m.msgType == MSG_FILE_LIST ==> IsIteration(keys, peer.sharedFiles)
      ensures reply == Reply(codec, allowed, old(Look()), keys, m)
      ensures registry.peers == RegistryAfter(codec, allowed, old(Look()), m)
    {
      keys := [];
      if m.msgType == MSG_REGISTER {
        reply := HandleRegister(m);
      } else if m.msgType == MSG_PEER_INFO {
        reply := Some(codec.encodeName(name));
      } else if m.msgType == MSG_FILE_LIST {
        reply, keys := HandleFileList();
      } else if m.msgType == MSG_FILE_META {
        var request := codec.decodeName(m.payload);
        if request.None? || request.value == "" || request.value !in peer.sharedFiles {
          return None, keys;
        }
        reply := Some(codec.encodeMeta(peer.sharedFiles[request.value]));
      } else if m.msgType == MSG_CHUNK {
        var request := codec.decodeHash(m.payload);
        if request.None? || request.value == "" || request.value !in peer.chunkDataStorage {
          return None, keys;
        }
        reply := Some(peer.chunkDataStorage[request.value]);
      } else {
        reply := None;
      }
    }

    /**
     Reads one request and writes one response. Without a complete request nothing is written and nothing changes;
     otherwise as much of the response leaves as the connection takes.
     */
    method HandleConnection(conn: Conn) returns (ghost reply: Option<Bytes>, ghost keys: seq<string>)
      modifies conn, registry
      ensures var r := Parse(old(conn.incoming)).0;
              && (r.Received? && r.message.msgType == MSG_FILE_LIST ==> IsIteration(keys, peer.sharedFiles))
              && (!r.Received? ==> conn.outgoing == old(conn.outgoing) && registry.peers == old(registry.peers))
              && (r.Received? ==>
                    && reply == Reply(codec, allowed, old(Look()), keys, r.message)
                    && registry.peers == RegistryAfter(codec, allowed, old(Look()), r.message)
                    && conn.outgoing == old(conn.outgoing) +
                                        Prefix(Frame(Response(codec, r.message, reply)), old(conn.room)))
    {
      reply, keys := None, [];
      var r := ReadMessage(conn);
      if !r.Received? {
        return;
      }
      var answer, order := Dispatch(r.message);
      reply, keys := answer, order;
      var ok;
      if answer.None? {
        ok := WriteMessage(conn, Message(STATUS_ERROR, codec.errorText(r.message)));
      } else {
        ok := WriteMessage(conn, Message(STATUS_OK, answer.value));
      }
    }
  }

  /** What roundTrip makes of the bytes that come back. */
  function ClientResult(b: Bytes): Option<Bytes> {
    match Parse(b).0
    case Received(m) => if m.msgType == STATUS_ERROR then None else Some(m.payload)
    case _ => None
  }

  class TcpTransport {
    const networkPassword: string

    constructor (networkPassword: string)
      ensures this.networkPassword == networkPassword
    {
      this.networkPassword := networkPassword;
    }

    /** The receiving half of roundTrip. */
    method ReceiveResponse(conn: Conn) returns (result: Option<Bytes>)
      modifies conn
      ensures result == ClientResult(old(conn.incoming))
    {
      var r := ReadMessage(conn);
      if !r.Received? || r.message.msgType == STATUS_ERROR {
        return None;
      }
      return Some(r.message.payload);
    }

    /**
     The server sees whatever part of the request leaves; it acts once on a complete request and not at all otherwise.
     The caller gets an error if its own write failed, and else what arrives of the response.
     */
    method RoundTrip(server: TcpListener, m: Message, clientRoom: nat, serverRoom: nat)
      returns (result: Option<Bytes>, ghost reply: Option<Bytes>, ghost keys: seq<string>)
      modifies server.registry
      ensures var arrived := Parse(Prefix(Frame(m), clientRoom)).0;
              && (!arrived.Received? ==> result.None? && server.registry.peers == old(server.registry.peers))
              && (arrived.Received? ==>
                    && (arrived.message.msgType == MSG_FILE_LIST ==> IsIteration(keys, server.peer.sharedFiles))
                    && reply == Reply(server.codec, server.allowed, old(server.Look()), keys, arrived.message)
                    && server.registry.peers ==
                         RegistryAfter(server.codec, server.allowed, old(server.Look()), arrived.message)
                    && result == if |Frame(m)| > clientRoom then None
                                 else ClientResult(
                                   Prefix(Frame(Response(server.codec, arrived.message, reply)), serverRoom)))
    {
      var client := new Conn([], clientRoom);
      var ok := WriteMessage(client, m);
      assert client.outgoing == Prefix(Frame(m), clientRoom);
      var remote := new Conn(client.outgoing, serverRoom);
      reply, keys := server.HandleConnection(remote);
      if !ok {
        return None, reply, keys;
      }
      client.incoming := remote.outgoing;
      ghost var arrived := Parse(Prefix(Frame(m), clientRoom)).0;
      assert arrived.Received? ==>
        remote.outgoing == Prefix(Frame(Response(server.codec, arrived.message, reply)), serverRoom);
      assert !arrived.Received? ==> remote.outgoing == [];
      result := ReceiveResponse(client);
    }

    /**
     A request that arrives registers a non-empty address exactly when the password is allowed; the caller is told so
     unless the response is lost. A request that does not arrive whole changes nothing and is an error.
     */
    method RegisterWithPeer(server: TcpListener, selfAddress: string, clientRoom: nat, serverRoom: nat)
      returns (ok: bool)
      requires Faithful(server.codec)
      requires |server.codec.encodeRegister(RegisterRequest(selfAddress, networkPassword))| <= MAX_PAYLOAD_SIZE
      modifies server.registry
      ensures var request := server.codec.encodeRegister(RegisterRequest(selfAddress, networkPassword));
              var accepted := |request| + 5 <= clientRoom && selfAddress != "" && server.allowed(networkPassword);
              && (forall a :: a in server.registry.peers <==>
                    a in old(server.registry.peers) || (accepted && a == selfAddress))
              && old(server.registry.peers) <= server.registry.peers
              && |server.registry.peers| <= |old(server.registry.peers)| + 1
              && (ok ==> accepted)
              && (accepted && Delivers(Some(server.codec.registered), serverRoom) ==> ok)
    {
      var m := Message(MSG_REGISTER, server.codec.encodeRegister(RegisterRequest(selfAddress, networkPassword)));
      RequestArrives(m, clientRoom);
      ghost var before := server.Look();
      var result, reply, keys := RoundTrip(server, m, clientRoom, serverRoom);
      RegistrationIsExact(server.codec, server.allowed, before, keys, m);
      ResponseArrives(server.codec, m, reply, serverRoom);
      ArrivesIffFits(reply, serverRoom);
      return result.Some?;
    }

    /** The name the server goes by, if the response arrives. */
    method FetchPeerInfo(server: TcpListener, clientRoom: nat, serverRoom: nat) returns (info: Option<string>)
      requires Faithful(server.codec)
      modifies server.registry
      ensures server.registry.peers == old(server.registry.peers)
      ensures clientRoom < 5 ==> info.None?
      ensures clientRoom >= 5 && Delivers(Some(server.codec.encodeName(server.name)), serverRoom) ==>
                info == Some(server.name)
      ensures |server.codec.encodeName(server.name)| < TWO32 ==> info.None? || info == Some(server.name)
    {
      var m := Message(MSG_PEER_INFO, []);
      RequestArrives(m, clientRoom);
      var result, reply, _ := RoundTrip(server, m, clientRoom, serverRoom);
      ResponseArrives(server.codec, m, reply, serverRoom);
      ArrivesIffFits(Some(server.codec.encodeName(server.name)), serverRoom);
      if result.None? {
        return None;
      }
      return server.codec.decodeName(result.value);
    }

    /** The server's shared files, each once, in the order in which its map yielded them, if the response arrives. */
    method FetchFileList(server: TcpListener, clientRoom: nat, serverRoom: nat)
      returns (files: Option<seq<FileMeta>>, ghost keys: seq<string>)
      requires Faithful(server.codec)
      modifies server.registry
      ensures server.registry.peers == old(server.registry.peers)
      ensures clientRoom < 5 ==> files.None?
      ensures clientRoom >= 5 ==> IsIteration(keys, server.peer.sharedFiles)
      ensures var encoded := server.codec.encodeFiles(FilesIn(server.peer.sharedFiles, keys));
              && (clientRoom >= 5 && Delivers(Some(encoded), serverRoom) ==> files.Some?)
              && (|encoded| < TWO32 && files.Some? ==>
                    && |files.value| == |keys|
                    && forall i :: 0 <= i < |keys| ==>
                         keys[i] in server.peer.sharedFiles && files.value[i] == server.peer.sharedFiles[keys[i]])
    {
      var m := Message(MSG_FILE_LIST, []);
      RequestArrives(m, clientRoom);
      var result, reply, order := RoundTrip(server, m, clientRoom, serverRoom);
      keys := order;
      ResponseArrives(server.codec, m, reply, serverRoom);
      ArrivesIffFits(Some(server.codec.encodeFiles(FilesIn(server.peer.sharedFiles, keys))), serverRoom);
      if result.None? {
        return None, keys;
      }
      FilesInOrder(server.peer.sharedFiles, keys);
      files := server.codec.decodeFiles(result.value);
    }

    /** Refines the lookup in the store: the caller gets what arrives of the stored chunk, and that only. */
    method FetchChunk(server: TcpListener, hash: string, clientRoom: nat, serverRoom: nat)
      returns (data: Option<Bytes>)
      requires Faithful(server.codec) && |server.codec.encodeHash(hash)| <= MAX_PAYLOAD_SIZE
      modifies server.registry
      ensures server.registry.peers == old(server.registry.peers)
      ensures data == if |server.codec.encodeHash(hash)| + 5 > clientRoom then None
                      else Arrives(FindChunk(server.peer.chunkDataStorage, Some(hash)), serverRoom)
      ensures hash == "" || hash !in server.peer.chunkDataStorage ==> data.None?
      ensures hash != "" && hash in server.peer.chunkDataStorage &&
              |server.codec.encodeHash(hash)| + 5 <= clientRoom &&
              Delivers(Some(server.peer.chunkDataStorage[hash]), serverRoom) ==>
                data == Some(server.peer.chunkDataStorage[hash])
    {
      var m := Message(MSG_CHUNK, server.codec.encodeHash(hash));
      RequestArrives(m, clientRoom);
      var result, reply, _ := RoundTrip(server, m, clientRoom, serverRoom);
      ResponseArrives(server.codec, m, reply, serverRoom);
      ArrivesIffFits(FindChunk(server.peer.chunkDataStorage, Some(hash)), serverRoom);
      return result;
    }

    /** The metadata is what the arriving bytes decode to: the shared metadata itself when its encoding fits. */
    method FetchFileMeta(server: TcpListener, name: string, clientRoom: nat, serverRoom: nat)
      returns (meta: Option<FileMeta>)
      requires Faithful(server.codec) && |server.codec.encodeName(name)| <= MAX_PAYLOAD_SIZE
      modifies server.registry
      ensures server.registry.peers == old(server.registry.peers)
      ensures meta == if |server.codec.encodeName(name)| + 5 > clientRoom then None
                      else MetaArrives(server.codec, FindFile(server.peer.sharedFiles, Some(name)), serverRoom)
      ensures name == "" || name !in server.peer.sharedFiles ==> meta.None?
      ensures name != "" && name in server.peer.sharedFiles &&
              |server.codec.encodeName(name)| + 5 <= clientRoom &&
              Delivers(Some(server.codec.encodeMeta(server.peer.sharedFiles[name])), serverRoom) ==>
                meta == Some(server.peer.sharedFiles[name])
    {
      var m := Message(MSG_FILE_META, server.codec.encodeName(name));
      RequestArrives(m, clientRoom);
      var result, reply, _ := RoundTrip(server, m, clientRoom, serverRoom);
      ResponseArrives(server.codec, m, reply, serverRoom);
      ArrivesIffFits(reply, serverRoom);
      if result.None? {
        return None;
      }
      return server.codec.decodeMeta(result.value);
    }
  }

  /**
   What the caller gets of a handler's reply over a connection that takes `room` bytes. The length field wraps, so of
   a payload beyond 2^32 - 1 bytes a prefix may be taken for all of it; nothing else is ever cut.
   */
  function Arrives(reply: Option<Bytes>, room: nat): Option<Bytes> {
    if reply.None? then None
    else
      var n := |reply.value| % TWO32;
      if n <= MAX_PAYLOAD_SIZE && n + 5 <= room then Some(reply.value[..n]) else None
  }

  function MetaArrives(c: Codec, found: Option<FileMeta>, room: nat): Option<FileMeta> {
    match Arrives(if found.Some? then Some(c.encodeMeta(found.value)) else None, room)
    case Some(bytes) => c.decodeMeta(bytes)
    case None => None
  }

  /** The response fits the limit and the connection; an error always counts as delivered. */
  predicate Delivers(reply: Option<Bytes>, room: nat) {
    reply.Some? ==> |reply.value| <= MAX_PAYLOAD_SIZE && |reply.value| + 5 <= room
  }

  /**
   The caller gets exactly the handler's reply if and only if the reply fits. Below 4 GiB it gets that or an error;
   beyond, a payload can be lost or cut to a prefix.
   */
  lemma ArrivesIffFits(reply: Option<Bytes>, room: nat)
    ensures Arrives(reply, room) == reply <==> Delivers(reply, room)
    ensures Arrives(reply, room).Some? ==> reply.Some? && Arrives(reply, room).value <= reply.value
    ensures reply.Some? && |reply.value| < TWO32 ==> Arrives(reply, room) == reply || Arrives(reply, room).None?
  {
    if reply.Some? && |reply.value| < TWO32 {
      assert reply.value[..|reply.value|] == reply.value;
    }
  }

  /** A request within the limit reaches the server exactly when the connection takes all of it. */
  lemma RequestArrives(m: Message, room: nat)
    requires Fits(m)
    ensures Parse(Prefix(Frame(m), room)).0.Received? <==> |Frame(m)| <= room
    ensures |Frame(m)| <= room ==> Parse(Prefix(Frame(m), room)).0 == Received(m)
  {
    if room < |Frame(m)| {
      StrictPrefixRejected(m, room);
    } else {
      assert Frame(m) + [] == Frame(m);
      RoundTripIffFits(m, []);
    }
  }

  /** On a connection that takes the whole response, exactly what the caller gets for every reply of the handler. */
  lemma CallerSees(c: Codec, m: Message, reply: Option<Bytes>)
    ensures var result := ClientResult(Frame(Response(c, m, reply)));
            && (result.Some? <==> reply.Some? && |reply.value| % TWO32 <= MAX_PAYLOAD_SIZE)
            && (result == reply <==> reply.None? || |reply.value| <= MAX_PAYLOAD_SIZE)
            && (result.Some? ==> result.value <= reply.value)
  {
    var response := Response(c, m, reply);
    assert Frame(response) + [] == Frame(response);
    RoundTripIffFits(response, []);
    if !Fits(response) {
      OversizedMessage(response, []);
    }
  }

  lemma FrameParts(m: Message, room: nat)
    requires 5 <= room
    ensures var b, n := Prefix(Frame(m), room), |m.payload| % TWO32;
            && |b| >= 5 && b[0] == m.msgType && FromBigEndian(b[1..5]) == n && b[5..] == Prefix(m.payload, room - 5)
  {
    HeaderFields(m, []);
    assert Frame(m) + [] == Frame(m) && m.payload + [] == m.payload;
    assert Prefix(Frame(m), room)[1..5] == Frame(m)[1..5];
  }

  /** What arrives of a response, for every payload and every connection. */
  lemma ResponseArrives(c: Codec, m: Message, reply: Option<Bytes>, room: nat)
    ensures ClientResult(Prefix(Frame(Response(c, m, reply)), room)) == Arrives(reply, room)
  {
    var response := Response(c, m, reply);
    var b, n := Prefix(Frame(response), room), |response.payload| % TWO32;
    if room >= 5 {
      FrameParts(response, room);
      if n <= MAX_PAYLOAD_SIZE && n + 5 <= room {
        assert b[5..5 + n] == b[5..][..n] == response.payload[..n];
      }
    }
  }

  /** Every stored chunk is at most one upload chunk long. */
  ghost predicate SmallChunks(store: map<string, Bytes>) {
    forall key :: key in store ==> |store[key]| <= CHUNK_SIZE
  }

  lemma {:induction false} StoreAllKeepsSmall(p: PeerState, chunks: seq<Chunk>, k: nat)
    requires k <= |chunks| && SmallChunks(p.store)
    requires forall i :: 0 <= i < |chunks| ==> |chunks[i].data| <= CHUNK_SIZE
    ensures SmallChunks(StoreAll(p, chunks, k).store)
  {
    if k > 0 {
      StoreAllKeepsSmall(p, chunks, k - 1);
    }
  }

  /** Uploads keep stored chunks small. */
  lemma UploadKeepsSmall(sha: HashFunction, p: PeerState, name: string, data: Bytes)
    requires SmallChunks(p.store)
    ensures SmallChunks(Uploaded(sha, p, name, data).store)
  {
    var chunks := Split(sha, data, CHUNK_SIZE);
    forall k | 0 <= k < |chunks| ensures |chunks[k].data| <= CHUNK_SIZE {
      SplitShape(sha, data, CHUNK_SIZE, k);
    }
    StoreAllKeepsSmall(p, chunks, |chunks|);
  }

  /**
   Whatever the peer held before, after an upload each of its chunks is found and fits a response. What is found is that
   piece of the data, or another piece of it with the same hash.
   */
  lemma UploadedChunksAreDelivered(sha: HashFunction, p: PeerState, name: string, data: Bytes, i: nat, room: nat)
    requires i < |MetaFor(sha, name, data).chunks| && room >= CHUNK_SIZE + 5
    ensures var hash := MetaFor(sha, name, data).chunks[i].hash;
            var found := FindChunk(Uploaded(sha, p, name, data).store, Some(Hex(hash)));
            && found.Some? && Delivers(found, room) && sha(found.value) == hash
            && exists j :: i <= j < |MetaFor(sha, name, data).chunks| && found.value == Piece(data, CHUNK_SIZE, j)
  {
    var chunks := Split(sha, data, CHUNK_SIZE);
    var j := StoredValue(p, chunks, |chunks|, i);
    SplitShape(sha, data, CHUNK_SIZE, j);
    HexInjective(chunks[j].hash, chunks[i].hash);
    assert chunks[j].data == Piece(data, CHUNK_SIZE, j);
  }
}
