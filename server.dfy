/** The peer node of src/p2p-network/p2p-server.js: its registry, connection
    table and message logs, and the operations that update them.

    The environment enters as parameters: `deriveId` is `uuid3(_, uuid3.URL)`,
    `open` is the set of sockets whose `readyState` is `ws.OPEN` at the time of
    the call, `dial` answers, for a URL, with the socket that the transport
    opened to it (None when nothing listens there or the socket never opened),
    `store` is the content of databases/<UUID>/peers.json (None when the
    database directory does not exist), and every `socket.send` appends a
    frame to `outbox`. */
module Server {
  import opened Wrappers
  import opened Strings
  import opened Registry
  import opened Connections

  /** The answer of `send_MESSAGE`. */
  datatype Status = Success | NotOnline | NonExistent

  /** An entry `{recipient, message}` of `sentMessages`. */
  datatype SentEntry = SentEntry(recipient: string, message: string)

  /** An entry `{sender, message}` of `receivedMessages`. */
  datatype ReceivedEntry = ReceivedEntry(sender: string, message: string)

  class P2PServer {
    const deriveId: string -> Uuid
    const url: string
    const uuid: Uuid
    var store: Option<seq<PeerRecord>>
    var peers: seq<PeerRecord>
    var sockets: seq<SocketEntry>
    var receivedMessages: seq<ReceivedEntry>
    var sentMessages: seq<SentEntry>
    var outbox: seq<Frame>

    /** `ws://ADDRESS:P2P_PORT` with localhost rewritten, and the UUID derived from it. */
    constructor (address: string, port: string, deriveId: string -> Uuid, store: Option<seq<PeerRecord>>)
      ensures this.deriveId == deriveId && this.store == store
      ensures url == Normalise(WsScheme + address + ":" + port) && uuid == deriveId(url)
      ensures peers == [] && sockets == [] && receivedMessages == [] && sentMessages == [] && outbox == []
    {
      var own := Normalise(WsScheme + address + ":" + port);
      this.deriveId := deriveId;
      url := own;
      uuid := deriveId(own);
      this.store := store;
      peers, sockets, receivedMessages, sentMessages, outbox := [], [], [], [], [];
    }

    /** The node's own record `{UUID, URL}`. */
    function Self(): PeerRecord
    {
      PeerRecord(uuid, url)
    }

    /** The handshake `send_CONNECTION(kind, socket)` writes. */
    function Hello(kind: ConnectionKind): Msg
    {
      Connection(kind, uuid, url)
    }

    /** `loadPeersDatabase`: read the file into `this.peers`. A missing file
        makes `fs.readFile` fail; the error is thrown inside the callback and
        nothing catches it, so the process stops there. `ok` false marks that
        point, with the state it had when it stopped. */
    method LoadPeersDatabase() returns (ok: bool)
      modifies this`peers
      ensures ok == store.Some?
      ensures peers == if ok then store.value else old(peers)
    {
      ok := store.Some?;
      if ok {
        peers := store.value;
      }
    }

    /** `createPeersDatabase`: make the database directory and write `data`
        into it. `fs.mkdir` fails if the directory is already there; that
        error is thrown uncaught, and `ok` false marks the point the process
        stops, with nothing written. */
    method CreatePeersDatabase(data: seq<PeerRecord>) returns (ok: bool)
      modifies this`store
      ensures ok == old(store).None?
      ensures store == if ok then Some(data) else old(store)
    {
      ok := store.None?;
      if ok {
        store := Some(data);
      }
    }

    /** `updatePeersDatabase`: reload, append the records of `data` whose UUID
        is not yet registered, and write the registry back. */
    method UpdatePeersDatabase(data: seq<PeerRecord>) returns (ok: bool)
      modifies this`peers, this`store
      ensures ok == old(store).Some?
      ensures ok ==> peers == Merge(old(store).value, data) && store == Some(peers)
      ensures !ok ==> peers == old(peers) && store == old(store)
    {
      ok := LoadPeersDatabase();
      if !ok {
        return;
      }
      var i := 0;
      while i < |data|
        invariant 0 <= i <= |data|
        invariant store == old(store)
        invariant Merge(peers, data[i..]) == Merge(old(store).value, data)
      {
        assert data[i..][1..] == data[i + 1..];
        if !HasUuid(peers, data[i].uuid) {
          peers := peers + [data[i]];
        }
        i := i + 1;
      }
      store := Some(peers);
    }

    /** `broadcastPeer`: send `{type, peer}` on every open socket of the table;
        the table itself is not changed. */
    method BroadcastPeer(kind: NoticeKind, peer: PeerRecord, open: set<SocketId>)
      modifies this`outbox
      ensures outbox == old(outbox) + BroadcastFrames(sockets, open, PeerNotice(kind, peer))
    {
      var msg := PeerNotice(kind, peer);
      var i := 0;
      while i < |sockets|
        invariant 0 <= i <= |sockets|
        invariant outbox == old(outbox) + BroadcastFrames(sockets[..i], open, msg)
      {
        assert sockets[..i + 1][..i] == sockets[..i];
        if sockets[i].socket in open {
          outbox := outbox + [Frame(sockets[i].socket, msg)];
        }
        i := i + 1;
      }
      assert sockets[..|sockets|] == sockets;
    }

    /** The open socket `sockets.find` picks for a UUID. */
    method FindOpenSocket(id: Uuid, open: set<SocketId>) returns (r: Option<SocketId>)
      ensures r == FirstOpenSocket(sockets, id, open)
    {
      var i := 0;
      while i < |sockets|
        invariant 0 <= i <= |sockets|
        invariant FirstOpenSocket(sockets[i..], id, open) == FirstOpenSocket(sockets, id, open)
      {
        assert sockets[i..][1..] == sockets[i + 1..];
        if OpenFor(sockets[i], id, open) {
          return Some(sockets[i].socket);
        }
        i := i + 1;
      }
      return None;
    }

    /** `getOnlinePeers`: the node itself, then every registry record that has
        an open socket tagged with its UUID, in registry order. */
    method GetOnlinePeers(open: set<SocketId>) returns (r: seq<PeerRecord>)
      ensures r == [Self()] + OnlinePeers(peers, sockets, open)
      ensures |r| <= |peers| + 1
      ensures forall x :: x in r[1..] <==> x in peers && IsOnline(sockets, x.uuid, open)
    {
      r := [Self()];
      var i := 0;
      while i < |peers|
        invariant 0 <= i <= |peers|
        invariant r == [Self()] + OnlinePeers(peers[..i], sockets, open)
      {
        assert peers[..i + 1][..i] == peers[..i];
        var socket := FindOpenSocket(peers[i].uuid, open);
        if socket.Some? {
          r := r + [peers[i]];
        }
        i := i + 1;
      }
      assert peers[..|peers|] == peers;
      OnlinePeersMembers(peers, sockets, open);
      assert r[1..] == OnlinePeers(peers, sockets, open);
    }

    /** `send_MESSAGE`: derive the recipient's UUID from its address; an
        unregistered UUID gives NON_EXISTENT, a registered one without an open
        socket NOT_ONLINE; otherwise the message goes out on the first open
        socket and is logged, most recent first. */
    method SendMessage(recipient: string, message: string, open: set<SocketId>) returns (status: Status)
      modifies this`outbox, this`sentMessages
      ensures var address := RecipientAddress(recipient);
        var id := deriveId(address);
        (status == NonExistent <==> !HasUuid(peers, id)) &&
        (status == NotOnline <==> HasUuid(peers, id) && !IsOnline(sockets, id, open)) &&
        (status == Success ==>
          sentMessages == [SentEntry(address, message)] + old(sentMessages) &&
          outbox == old(outbox) + [Frame(FirstOpenSocket(sockets, id, open).value, Message(url, message))]) &&
        (status != Success ==> sentMessages == old(sentMessages) && outbox == old(outbox))
    {
      var address := RecipientAddress(recipient);
      var id := deriveId(address);
      if HasUuid(peers, id) {
        var socket := FindOpenSocket(id, open);
        if socket.None? {
          return NotOnline;
        }
        outbox := outbox + [Frame(socket.value, Message(url, message))];
        sentMessages := [SentEntry(address, message)] + sentMessages;
        return Success;
      } else {
        return NonExistent;
      }
    }

    /** `connect_to_broadcasted_peer`: if a socket to the announced peer opens,
        tag it with the announced UUID and send `ADMITTANCE` on it. */
    method ConnectToBroadcastedPeer(peer: PeerRecord, dial: string -> Option<SocketId>)
      modifies this`sockets, this`outbox
      ensures var link := dial(peer.url);
        sockets == old(sockets) + (if link.Some? then [SocketEntry(peer.uuid, link.value)] else []) &&
        outbox == old(outbox) + (if link.Some? then [Frame(link.value, Hello(Admittance))] else [])
    {
      var link := dial(peer.url);
      if link.Some? {
        sockets := sockets + [SocketEntry(peer.uuid, link.value)];
        outbox := outbox + [Frame(link.value, Hello(Admittance))];
      }
    }

    /** `connect_to_online_peers`: reload the registry and, for every record
        other than the node itself whose socket opens, register the socket
        under the UUID derived from the record's URL and send `NO_TARGET`. */
    method ConnectToOnlinePeers(dial: string -> Option<SocketId>) returns (ok: bool)
      modifies this`peers, this`sockets, this`outbox
      ensures ok == store.Some?
      ensures ok ==> (peers == store.value &&
        sockets == old(sockets) + RejoinEntries(peers, url, dial, deriveId) &&
        outbox == old(outbox) + RejoinFrames(peers, url, dial, Hello(NoTarget)))
      ensures !ok ==> peers == old(peers) && sockets == old(sockets) && outbox == old(outbox)
    {
      ok := LoadPeersDatabase();
      if !ok {
        return;
      }
      var i := 0;
      while i < |peers|
        invariant 0 <= i <= |peers|
        invariant peers == store.value
        invariant sockets == old(sockets) + RejoinEntries(peers[..i], url, dial, deriveId)
        invariant outbox == old(outbox) + RejoinFrames(peers[..i], url, dial, Hello(NoTarget))
      {
        assert peers[..i + 1][..i] == peers[..i];
        var p := peers[i];
        var link := dial(p.url);
        if link.Some? && p.url != url {
          sockets := sockets + [SocketEntry(deriveId(p.url), link.value)];
          outbox := outbox + [Frame(link.value, Hello(NoTarget))];
        }
        i := i + 1;
      }
      assert peers[..|peers|] == peers;
    }

    /** The start-up of `listen`: with a target, open a socket to it, register
        it under the target's UUID and send `TARGET`; without one, rejoin the
        network from an existing registry, or found a new network whose
        registry holds only the node itself. */
    method Listen(targetPeer: string, dial: string -> Option<SocketId>) returns (ok: bool)
      modifies this`peers, this`store, this`sockets, this`outbox
      ensures targetPeer != [] ==> (ok && peers == old(peers) && store == old(store) &&
        var targetUrl := WsScheme + Normalise(targetPeer);
        var link := dial(targetUrl);
        sockets == old(sockets) + (if link.Some? then [SocketEntry(deriveId(targetUrl), link.value)] else []) &&
        outbox == old(outbox) + (if link.Some? then [Frame(link.value, Hello(Target))] else []))
      ensures targetPeer == [] && old(store).None? ==>
        ok && store == Some([Self()]) && peers == [Self()] && sockets == old(sockets) && outbox == old(outbox)
      ensures targetPeer == [] && old(store).Some? ==>
        ok && store == old(store) && peers == old(store).value &&
        sockets == old(sockets) + RejoinEntries(peers, url, dial, deriveId) &&
        outbox == old(outbox) + RejoinFrames(peers, url, dial, Hello(NoTarget))
    {
      if targetPeer != [] {
        var targetUrl := WsScheme + Normalise(targetPeer);
        var link := dial(targetUrl);
        if link.Some? {
          sockets := sockets + [SocketEntry(deriveId(targetUrl), link.value)];
          outbox := outbox + [Frame(link.value, Hello(Target))];
        }
        ok := true;
      } else if store.Some? {
        ok := ConnectToOnlinePeers(dial);
      } else {
        ok := CreatePeersDatabase([Self()]);
        ok := LoadPeersDatabase();
      }
    }

    /** The `TARGET` handshake: reload the registry; a known sender gets the
        registry and is announced as `RECONNECTED`, an unknown one is merged in
        first and announced as `NEW`. The sender's socket is registered only
        after the broadcast, so it never receives its own announcement. */
    method HandleTarget(socket: SocketId, remoteUuid: Uuid, remoteUrl: string, open: set<SocketId>) returns (ok: bool)
      modifies this`peers, this`store, this`outbox, this`sockets
      ensures ok == old(store).Some?
      ensures !ok ==> peers == old(peers) && store == old(store) && outbox == old(outbox) && sockets == old(sockets)
      ensures ok ==>
        var known := HasUuid(old(store).value, remoteUuid);
        var rec := PeerRecord(remoteUuid, remoteUrl);
        peers == (if known then old(store).value else old(store).value + [rec]) &&
        store == Some(peers) &&
        outbox == old(outbox) + [Frame(socket, PeersDatabase(peers))] +
          BroadcastFrames(old(sockets), open, PeerNotice(if known then Reconnected else New, rec)) &&
        sockets == old(sockets) + [SocketEntry(remoteUuid, socket)]
      ensures ok && !Tracks(old(sockets), socket) ==>
        forall k :: |old(outbox)| < k < |outbox| ==> outbox[k].socket != socket
    {
      ok := LoadPeersDatabase();
      if !ok {
        return;
      }
      var rec := PeerRecord(remoteUuid, remoteUrl);
      var notice: NoticeKind;
      if HasUuid(peers, remoteUuid) {
        outbox := outbox + [Frame(socket, PeersDatabase(peers))];
        notice := Reconnected;
      } else {
        var stored := UpdatePeersDatabase([rec]);
        MergeOne(old(store).value, rec);
        outbox := outbox + [Frame(socket, PeersDatabase(peers))];
        notice := New;
      }
      ghost var before := outbox;
      BroadcastPeer(notice, rec, open);
      sockets := sockets + [SocketEntry(remoteUuid, socket)];
      if !Tracks(old(sockets), socket) {
        BroadcastSkipsUntracked(old(sockets), open, PeerNotice(notice, rec), socket);
        assert outbox[|before|..] == BroadcastFrames(old(sockets), open, PeerNotice(notice, rec));
        forall k | |old(outbox)| < k < |outbox| ensures outbox[k].socket != socket {
          assert outbox[k] == outbox[|before|..][k - |before|];
        }
      }
    }

    /** `messageHandler`: the transition taken for one message received on
        `socket`. `ok` is false when the message needs the registry file and
        it does not exist: the read error is thrown uncaught and the process
        stops before anything has changed. */
    method MessageHandler(socket: SocketId, msg: Msg, open: set<SocketId>, dial: string -> Option<SocketId>) returns (ok: bool)
      modifies this`peers, this`store, this`sockets, this`outbox, this`receivedMessages
      ensures ok <==> old(store).Some? || (!(msg.Connection? && msg.kind == Target) && !(msg.PeerNotice? && msg.notice == New))
      ensures !ok ==> peers == old(peers) && store == old(store) && sockets == old(sockets) && outbox == old(outbox)
      ensures msg.Message? ==> receivedMessages == [ReceivedEntry(msg.sender, msg.message)] + old(receivedMessages)
      ensures !msg.Message? ==> receivedMessages == old(receivedMessages)
      ensures msg.Connection? && msg.kind != Target ==> sockets == old(sockets) + [SocketEntry(msg.remoteUuid, socket)]
      ensures msg.Connection? && msg.kind == Target && ok ==> sockets == old(sockets) + [SocketEntry(msg.remoteUuid, socket)]
      ensures msg.Connection? && msg.kind == Target && ok ==>
        var rec := PeerRecord(msg.remoteUuid, msg.remoteUrl);
        var known := HasUuid(old(store).value, msg.remoteUuid);
        peers == Merge(old(store).value, [rec]) && store == Some(peers) &&
        outbox == old(outbox) + [Frame(socket, PeersDatabase(peers))] +
          BroadcastFrames(old(sockets), open, PeerNotice(if known then Reconnected else New, rec))
      ensures msg.Connection? && msg.kind == NoTarget ==> outbox == old(outbox) + [Frame(socket, PeersDatabase(peers))]
      ensures msg.Connection? && msg.kind == Admittance ==> outbox == old(outbox)
      ensures msg.Connection? && msg.kind != Target ==> peers == old(peers) && store == old(store)
      ensures msg.PeersDatabase? ==> sockets == old(sockets) && outbox == old(outbox)
      ensures msg.PeerNotice? && ok ==> var link := dial(msg.peer.url);
        sockets == old(sockets) + (if link.Some? then [SocketEntry(msg.peer.uuid, link.value)] else []) &&
        outbox == old(outbox) + (if link.Some? then [Frame(link.value, Hello(Admittance))] else [])
      ensures msg.PeersDatabase? ==> if old(store).Some?
        then peers == Merge(old(store).value, msg.peers) && store == Some(peers)
        else peers == old(peers) && store == Some(msg.peers)
      ensures msg.PeerNotice? && msg.notice == New && ok ==>
        peers == Merge(old(store).value, [msg.peer]) && store == Some(peers)
      ensures msg.PeerNotice? && msg.notice == Reconnected ==> peers == old(peers) && store == old(store)
      ensures msg.Message? || msg.Unrecognised? ==>
        peers == old(peers) && store == old(store) && sockets == old(sockets) && outbox == old(outbox)
      ensures old(sockets) <= sockets && old(outbox) <= outbox
      ensures old(store).Some? ==> store.Some? && old(store).value <= store.value
      ensures old(store).Some? && UniqueUuids(old(store).value) ==> UniqueUuids(store.value)
    {
      match msg {
        case Connection(kind, remoteUuid, remoteUrl) =>
          match kind {
            case Target =>
              ok := HandleTarget(socket, remoteUuid, remoteUrl, open);
              if ok {
                MergeOne(old(store).value, PeerRecord(remoteUuid, remoteUrl));
                if UniqueUuids(old(store).value) {
                  MergeKeepsUuidsUnique(old(store).value, [PeerRecord(remoteUuid, remoteUrl)]);
                }
              }
            case NoTarget =>
              outbox := outbox + [Frame(socket, PeersDatabase(peers))];
              sockets := sockets + [SocketEntry(remoteUuid, socket)];
              ok := true;
            case Admittance =>
              sockets := sockets + [SocketEntry(remoteUuid, socket)];
              ok := true;
          }
        case PeersDatabase(batch) =>
          if store.Some? {
            ok := UpdatePeersDatabase(batch);
            if UniqueUuids(old(store).value) {
              MergeKeepsUuidsUnique(old(store).value, batch);
            }
          } else {
            ok := CreatePeersDatabase(batch);
          }
        case PeerNotice(notice, peer) =>
          if notice == New {
            ok := UpdatePeersDatabase([peer]);
            if ok {
              if UniqueUuids(old(store).value) {
                MergeKeepsUuidsUnique(old(store).value, [peer]);
              }
              ConnectToBroadcastedPeer(peer, dial);
            }
          } else {
            ConnectToBroadcastedPeer(peer, dial);
            ok := true;
          }
        case Message(sender, message) =>
          receivedMessages := [ReceivedEntry(sender, message)] + receivedMessages;
          ok := true;
        case Unrecognised(_) =>
          ok := true;
      }
    }
  }
}
