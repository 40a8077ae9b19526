/** A node founding a network and a second node joining it through the
    founder, seen from the founder: the joiner is registered, receives the
    registry, is listed as online and can be messaged. */
module Scenarios {
  import opened Wrappers
  import opened Strings
  import opened Registry
  import opened Connections
  import opened Server

  /** A node at `ws://address:port` started without target and without a
      registry founds a network: its registry holds only itself. */
  method Found(address: string, port: string, deriveId: string -> Uuid) returns (node: P2PServer)
    ensures fresh(node) && node.deriveId == deriveId
    ensures node.url == Normalise(WsScheme + address + ":" + port) && node.uuid == deriveId(node.url)
    ensures node.store == Some([node.Self()]) && node.peers == [node.Self()]
    ensures node.sockets == [] && node.outbox == [] && node.sentMessages == []
  {
    node := new P2PServer(address, port, deriveId, None);
    var started := node.Listen([], _ => None);
  }

  /** The founder receives a `TARGET` handshake on socket `link` from an
      unregistered node: it registers the joiner, sends it the two-record
      registry and starts tracking its socket. */
  method Join(node: P2PServer, joiner: PeerRecord, link: SocketId)
    requires node.store == Some([node.Self()]) && node.peers == [node.Self()]
    requires node.sockets == [] && node.outbox == []
    requires joiner.uuid != node.uuid
    modifies node
    ensures node.peers == [node.Self(), joiner] && node.store == Some(node.peers)
    ensures node.sockets == [SocketEntry(joiner.uuid, link)]
    ensures node.outbox == [Frame(link, PeersDatabase([node.Self(), joiner]))]
    ensures node.sentMessages == old(node.sentMessages)
  {
    assert !HasUuid([node.Self()], joiner.uuid);
    var handled := node.HandleTarget(link, joiner.uuid, joiner.url, {link});
  }

  /** A node founds a network, the node whose address is `recipient` joins
      it, and the founder lists both as online and sends the joiner a
      message. The two addresses must give different UUIDs. */
  method FoundAndJoin(address: string, port: string, deriveId: string -> Uuid,
                      recipient: string, link: SocketId)
    returns (snapshot: seq<Frame>, online: seq<PeerRecord>, status: Status, sent: seq<SentEntry>)
    requires deriveId(RecipientAddress(recipient)) != deriveId(Normalise(WsScheme + address + ":" + port))
    ensures var founderUrl := Normalise(WsScheme + address + ":" + port);
      var founder := PeerRecord(deriveId(founderUrl), founderUrl);
      var joiner := PeerRecord(deriveId(RecipientAddress(recipient)), RecipientAddress(recipient));
      snapshot == [Frame(link, PeersDatabase([founder, joiner]))] &&
      online == [founder, joiner] &&
      status == Success &&
      sent == [SentEntry(RecipientAddress(recipient), "hello")]
  {
    var node := Found(address, port, deriveId);
    var joiner := PeerRecord(deriveId(RecipientAddress(recipient)), RecipientAddress(recipient));
    Join(node, joiner, link);
    snapshot := node.outbox;
    OnlineAfterJoin(node.Self(), joiner, link);
    online := node.GetOnlinePeers({link});
    assert node.peers[1].uuid == joiner.uuid;
    status := node.SendMessage(recipient, "hello", {link});
    sent := node.sentMessages;
  }

  /** With one open socket, tagged with the joiner's UUID, only the joiner is online. */
  lemma OnlineAfterJoin(founder: PeerRecord, joiner: PeerRecord, link: SocketId)
    requires founder.uuid != joiner.uuid
    ensures OnlinePeers([founder, joiner], [SocketEntry(joiner.uuid, link)], {link}) == [joiner]
    ensures FirstOpenSocket([SocketEntry(joiner.uuid, link)], joiner.uuid, {link}) == Some(link)
  {
    var entries := [SocketEntry(joiner.uuid, link)];
    assert OpenFor(entries[0], joiner.uuid, {link});
    assert !IsOnline(entries, founder.uuid, {link});
    assert [founder, joiner][..1] == [founder];
  }
}
