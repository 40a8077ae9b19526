/** The connection table `this.sockets`, the protocol messages the node sends
    over websockets, and the specifications of what broadcasting, the online
    query and rejoining from the registry produce. */
module Connections {
  import opened Wrappers
  import opened Sequences
  import opened Registry

  /** An opaque handle for one websocket. */
  type SocketId = nat

  /** The `{type, remote_UUID, remote_URL}` handshakes of `send_CONNECTION`. */
  datatype ConnectionKind = Target | NoTarget | Admittance

  /** The `{type, peer}` announcements of `send_PEER`. */
  datatype NoticeKind = New | Reconnected

  /** A protocol message, as parsed from the JSON text of a websocket frame. */
  datatype Msg =
    | Connection(kind: ConnectionKind, remoteUuid: Uuid, remoteUrl: string)
    | PeersDatabase(peers: seq<PeerRecord>)
    | PeerNotice(notice: NoticeKind, peer: PeerRecord)
    | Message(sender: string, message: string)
    | Unrecognised(tag: string)

  /** One `socket.send(...)`: the socket written to and the message written. */
  datatype Frame = Frame(socket: SocketId, msg: Msg)

  /** One `{UUID, socket}` entry of the connection table. */
  datatype SocketEntry = SocketEntry(uuid: Uuid, socket: SocketId)

  /** The entry is tagged `id` and its socket is open (`readyState == ws.OPEN`). */
  predicate OpenFor(e: SocketEntry, id: Uuid, open: set<SocketId>)
  {
    e.uuid == id && e.socket in open
  }

  /** Some open socket of the table is tagged `id`: the peer is online. */
  predicate IsOnline(entries: seq<SocketEntry>, id: Uuid, open: set<SocketId>)
  {
    exists i :: 0 <= i < |entries| && OpenFor(entries[i], id, open)
  }

  /** The socket appears somewhere in the table. */
  predicate Tracks(entries: seq<SocketEntry>, s: SocketId)
  {
    exists i :: 0 <= i < |entries| && entries[i].socket == s
  }

  /** `sockets.find(x => x.UUID === id && x.socket.readyState == ws.OPEN)`:
      the socket of the first open entry tagged `id`, if there is one. */
  function FirstOpenSocket(entries: seq<SocketEntry>, id: Uuid, open: set<SocketId>): (r: Option<SocketId>)
    ensures r.None? <==> !IsOnline(entries, id, open)
    ensures r.Some? ==> exists i :: (0 <= i < |entries| && entries[i] == SocketEntry(id, r.value) &&
      r.value in open && forall j :: 0 <= j < i ==> !OpenFor(entries[j], id, open))
    decreases |entries|
  {
    if entries == [] then None
    else if OpenFor(entries[0], id, open) then Some(entries[0].socket)
    else
      var r := FirstOpenSocket(entries[1..], id, open);
      assert forall i :: 0 <= i < |entries| - 1 ==> entries[1..][i] == entries[i + 1];
      assert IsOnline(entries, id, open) ==> IsOnline(entries[1..], id, open);
      if r.Some? then
        var i :| 0 <= i < |entries| - 1 && entries[1..][i] == SocketEntry(id, r.value) &&
          r.value in open && forall j :: 0 <= j < i ==> !OpenFor(entries[1..][j], id, open);
        assert entries[i + 1] == SocketEntry(id, r.value);
        assert forall j :: 0 <= j < i + 1 ==> !OpenFor(entries[j], id, open);
        r
      else r
  }

  /** The number of entries of the table for socket `s`. */
  function EntriesFor(entries: seq<SocketEntry>, s: SocketId): nat
  {
    if entries == [] then 0
    else EntriesFor(entries[..|entries| - 1], s) + (if entries[|entries| - 1].socket == s then 1 else 0)
  }

  /** The frames `broadcastPeer` sends: one `msg` per entry of the table whose
      socket is open, in table order. */
  function BroadcastFrames(entries: seq<SocketEntry>, open: set<SocketId>, msg: Msg): (r: seq<Frame>)
    ensures |r| <= |entries|
    ensures forall k :: 0 <= k < |r| ==> r[k].msg == msg && r[k].socket in open
    decreases |entries|
  {
    if entries == [] then []
    else
      var last := entries[|entries| - 1];
      BroadcastFrames(entries[..|entries| - 1], open, msg) +
        (if last.socket in open then [Frame(last.socket, msg)] else [])
  }

  /** Each open socket receives the broadcast once per table entry it has,
      and a closed socket receives nothing. */
  lemma {:induction false} BroadcastMultiplicity(entries: seq<SocketEntry>, open: set<SocketId>, msg: Msg, s: SocketId)
    ensures multiset(BroadcastFrames(entries, open, msg))[Frame(s, msg)] ==
      if s in open then EntriesFor(entries, s) else 0
    decreases |entries|
  {
    if entries != [] {
      BroadcastMultiplicity(entries[..|entries| - 1], open, msg, s);
    }
  }

  /** Every frame of the broadcast goes to a socket of the table. */
  lemma {:induction false} BroadcastTargetsTable(entries: seq<SocketEntry>, open: set<SocketId>, msg: Msg)
    ensures forall k :: 0 <= k < |BroadcastFrames(entries, open, msg)| ==>
      Tracks(entries, BroadcastFrames(entries, open, msg)[k].socket)
    decreases |entries|
  {
    if entries != [] {
      var init := entries[..|entries| - 1];
      BroadcastTargetsTable(init, open, msg);
      var r := BroadcastFrames(entries, open, msg);
      forall k | 0 <= k < |r| ensures Tracks(entries, r[k].socket) {
        if k < |BroadcastFrames(init, open, msg)| {
          var i :| 0 <= i < |init| && init[i].socket == r[k].socket;
          assert entries[i] == init[i];
        } else {
          assert r[k].socket == entries[|entries| - 1].socket;
        }
      }
    }
  }

  /** A socket missing from the table receives nothing from the broadcast. */
  lemma BroadcastSkipsUntracked(entries: seq<SocketEntry>, open: set<SocketId>, msg: Msg, s: SocketId)
    requires !Tracks(entries, s)
    ensures forall k :: 0 <= k < |BroadcastFrames(entries, open, msg)| ==>
      BroadcastFrames(entries, open, msg)[k].socket != s
  {
    BroadcastTargetsTable(entries, open, msg);
  }

  /** The registry records `getOnlinePeers` lists after the node itself: those
      with an open socket tagged with their UUID, in registry order. */
  function OnlinePeers(peers: seq<PeerRecord>, entries: seq<SocketEntry>, open: set<SocketId>): (r: seq<PeerRecord>)
    ensures |r| <= |peers|
    decreases |peers|
  {
    if peers == [] then []
    else
      var last := peers[|peers| - 1];
      OnlinePeers(peers[..|peers| - 1], entries, open) +
        (if IsOnline(entries, last.uuid, open) then [last] else [])
  }

  /** A record is listed exactly when it is in the registry and online. */
  lemma {:induction false} OnlinePeersMembers(peers: seq<PeerRecord>, entries: seq<SocketEntry>, open: set<SocketId>)
    ensures forall x :: x in OnlinePeers(peers, entries, open) <==> x in peers && IsOnline(entries, x.uuid, open)
    decreases |peers|
  {
    if peers != [] {
      var init := peers[..|peers| - 1];
      OnlinePeersMembers(init, entries, open);
      assert peers == init + [peers[|peers| - 1]];
    }
  }

  /** The listed records keep their registry order. */
  lemma {:induction false} OnlinePeersInOrder(peers: seq<PeerRecord>, entries: seq<SocketEntry>, open: set<SocketId>)
    ensures IsSubsequence(OnlinePeers(peers, entries, open), peers)
    decreases |peers|
  {
    if peers != [] {
      var init := peers[..|peers| - 1];
      var last := peers[|peers| - 1];
      OnlinePeersInOrder(init, entries, open);
      assert peers == init + [last];
      if IsOnline(entries, last.uuid, open) {
        SubsequenceSnoc(OnlinePeers(init, entries, open), init, last);
      } else {
        assert OnlinePeers(peers, entries, open) == OnlinePeers(init, entries, open);
        SubsequenceExtend(OnlinePeers(init, entries, open), init, last);
      }
    }
  }

  /** Whether `connect_to_online_peers` opens a socket for this record: the
      transport reports something bound at its URL and the socket opened
      (`dial`), and the URL is not the node's own. */
  predicate Rejoins(p: PeerRecord, selfUrl: string, dial: string -> Option<SocketId>)
  {
    p.url != selfUrl && dial(p.url).Some?
  }

  /** The entries `connect_to_online_peers` adds to the table: for each
      rejoined record, its socket tagged with the UUID derived from its URL. */
  function RejoinEntries(peers: seq<PeerRecord>, selfUrl: string, dial: string -> Option<SocketId>,
                         deriveId: string -> Uuid): (r: seq<SocketEntry>)
    ensures |r| <= |peers|
    decreases |peers|
  {
    if peers == [] then []
    else
      var last := peers[|peers| - 1];
      RejoinEntries(peers[..|peers| - 1], selfUrl, dial, deriveId) +
        (if Rejoins(last, selfUrl, dial) then [SocketEntry(deriveId(last.url), dial(last.url).value)] else [])
  }

  /** The `NO_TARGET` handshakes `connect_to_online_peers` sends, one per added entry. */
  function RejoinFrames(peers: seq<PeerRecord>, selfUrl: string, dial: string -> Option<SocketId>,
                        hello: Msg): (r: seq<Frame>)
    ensures |r| <= |peers|
    ensures forall k :: 0 <= k < |r| ==>
      (r[k].msg == hello && exists p :: p in peers && Rejoins(p, selfUrl, dial) && r[k].socket == dial(p.url).value)
    decreases |peers|
  {
    if peers == [] then []
    else
      var last := peers[|peers| - 1];
      RejoinFrames(peers[..|peers| - 1], selfUrl, dial, hello) +
        (if Rejoins(last, selfUrl, dial) then [Frame(dial(last.url).value, hello)] else [])
  }

  /** Each added entry comes from a registry record other than the node
      itself, and every such record whose socket opened gets one; the
      handshakes go to exactly the added sockets. */
  lemma {:induction false} RejoinCoversLivePeers(peers: seq<PeerRecord>, selfUrl: string,
                                                 dial: string -> Option<SocketId>, deriveId: string -> Uuid, hello: Msg)
    ensures var r := RejoinEntries(peers, selfUrl, dial, deriveId);
      (forall e :: e in r <==> exists p :: (p in peers && Rejoins(p, selfUrl, dial) &&
         e == SocketEntry(deriveId(p.url), dial(p.url).value))) &&
      |RejoinFrames(peers, selfUrl, dial, hello)| == |r| &&
      forall k :: 0 <= k < |r| ==> RejoinFrames(peers, selfUrl, dial, hello)[k] == Frame(r[k].socket, hello)
    decreases |peers|
  {
    if peers != [] {
      var init := peers[..|peers| - 1];
      RejoinCoversLivePeers(init, selfUrl, dial, deriveId, hello);
      assert peers == init + [peers[|peers| - 1]];
    }
  }
}
