# Peer node of p2p-WebRTC-with-Node, modelled in Dafny

This project models the peer node of a self-organising websocket overlay network. Each node
derives a UUID from its own `ws://host:port` URL. It keeps a registry of known peers
(`{UUID, URL}` records, persisted in `databases/<UUID>/peers.json`) and a connection table of
`{UUID, socket}` entries. It logs the application messages it sends and receives, most
recent first. Nodes join through a target, rejoin from their registry, gossip `NEW` and
`RECONNECTED` announcements to every open socket, and deliver direct messages with a
`SUCCESS` / `NOT_ONLINE` / `NON_EXISTENT` outcome.

Layout, one module per file:

- `wrappers.dfy` (`Wrappers`): `Option`.
- `sequences.dfy` (`Sequences`): order-preserving sub-sequences.
- `strings.dfy` (`Strings`): JavaScript's first-occurrence `String.replace` and the
  `localhost` to `127.0.0.1` rewrite.
- `utils.dfy` (`Utils`): `extract_ADDRESS_and_PORT` over a model of `split` and `join`.
- `registry.dfy` (`Registry`): peer records and the merge done by `updatePeersDatabase`.
- `connections.dfy` (`Connections`): wire messages, the connection table, and the
  specifications of broadcasting, the online query and rejoining.
- `server.dfy` (`Server`): the class `P2PServer`, with the fields `peers`, `sockets`,
  `sentMessages` and `receivedMessages`, and methods that update them in place.
- `scenarios.dfy` (`Scenarios`): a node founds a network, a second node joins it and is
  messaged.

The environment is passed in as parameters:

- `deriveId` stands for `uuid3(url, uuid3.URL)`, the name-based UUID of RFC 4122 section
  4.3. It is any deterministic function; the model assumes nothing else about it.
- `open` is the set of sockets whose `readyState` is `OPEN` at the time of the call.
- `dial` gives, for a URL, the socket that opened to it, or `None`.
- `store` is the content of the registry file; `None` means the database directory does
  not exist.
- Every `socket.send` appends a `Frame` to the field `outbox`.

## Model

| member | source | states |
|---|---|---|
| `Strings.ReplaceFirst` | src/p2p-network/p2p-server.js:281-284 | `replace` either returns the string unchanged or swaps exactly one pattern-long slice for the replacement (also used at lines 13 and 52) |
| `Strings.Normalise` | src/p2p-network/p2p-server.js:13 | the `localhost` to `127.0.0.1` rewrite keeps the length of the address, since both are nine characters |
| `Strings.RecipientAddress` | src/p2p-network/p2p-server.js:281-284 | the recipient address keeps the `ws://` scheme in front of a text as long as the given `host:port` |
| `Strings.ReplaceFirstNoMatch` | src/p2p-network/p2p-server.js:281-284 | `replace` leaves a string without an occurrence of the pattern unchanged |
| `Strings.ReplaceFirstAt` | src/p2p-network/p2p-server.js:281-284 | `replace` rewrites only the first occurrence, keeping the text before and after it |
| `Strings.ReplaceFirstSkipsPrefix` | src/p2p-network/p2p-server.js:281-284 | a prefix without the pattern's first character commutes with the replacement |
| `Strings.SchemeCommutesWithNormalise` | src/app/routes/messages.js:14-17 | the self-send guard (rewrite, then prefix `ws://`) and `send_MESSAGE` (prefix, then rewrite) compute the same recipient address |
| `Strings.NormaliseWithoutLocalhost` | src/p2p-network/p2p-server.js:13 | a URL without `localhost` is kept as it is |
| `Utils.Split` | src/p2p-network/utils.js:22 | `split` yields at least one piece, and no piece contains the separator |
| `Utils.SplitCount` | src/p2p-network/utils.js:22 | there is one more piece than separators, and pieces are made of the string's characters |
| `Utils.SplitJoin` | src/p2p-network/utils.js:27 | joining the pieces with the separator gives the string back |
| `Utils.DoubleSlashPieces` | src/p2p-network/utils.js:21-22 | a URL containing `//` has at least three `/`-pieces, so index 2 always exists |
| `Utils.AddressPiece` | src/p2p-network/utils.js:20-25 | the selected `host:port` piece contains no `/` |
| `Utils.ExtractAddressAndPort` | src/p2p-network/utils.js:14-28 | the result has at least one element, no element contains `/` or `:`, and joining it with `:` rebuilds the selected piece |
| `Utils.ExtractWithoutProtocol` | src/p2p-network/utils.js:23-24 | without `//`, the selected piece is the text before the first `/` |
| `Utils.ExtractWithProtocol` | src/p2p-network/utils.js:21-22 | with `//`, the selected piece is the text between the second and third `/` |
| `Utils.ExtractOfNodeUrl` | src/p2p-network/utils.js:20-27 | for `ws://A:P` with `A` and `P` free of `/` and `:` (the URL built at p2p-server.js:13), the result is exactly `[A, P]` |
| `Registry.HasUuid` | src/p2p-network/p2p-server.js:185 | the front-to-back `some` scan holds exactly when some record carries the UUID (also used at lines 288 and 339) |
| `Registry.AddIfUnseen` | src/p2p-network/p2p-server.js:185-187 | one loop step keeps the registry as a prefix, grows it by one exactly when the UUID was absent, leaves the UUID registered, and keeps UUIDs distinct |
| `Registry.Merge` | src/p2p-network/p2p-server.js:184-188 | the merge keeps every existing record in place and appends at most one record per batch entry |
| `Registry.KnownStaysKnown` | src/p2p-network/p2p-server.js:184-188 | a registered UUID is never dropped by a merge |
| `Registry.MergeAddsOnlyUnseen` | src/p2p-network/p2p-server.js:184-188 | every appended record comes from the batch, and its UUID was absent from the registry |
| `Registry.MergeCoversBatch` | src/p2p-network/p2p-server.js:184-188 | after the merge, every UUID of the batch is registered |
| `Registry.MergeOfKnown` | src/p2p-network/p2p-server.js:184-188 | a batch whose UUIDs are all registered changes nothing |
| `Registry.MergeIdempotent` | src/p2p-network/p2p-server.js:184-188 | merging the same batch twice gives the same registry as merging it once |
| `Registry.MergeKeepsUuidsUnique` | src/p2p-network/p2p-server.js:184-188 | pairwise-distinct UUIDs stay distinct, even when the batch repeats a UUID |
| `Registry.MergeKeepsBatchOrder` | src/p2p-network/p2p-server.js:184-188 | the appended records are a sub-sequence of the batch, in batch order |
| `Registry.MergeOne` | src/p2p-network/p2p-server.js:365-371 | merging one record appends it exactly when its UUID is new |
| `Connections.FirstOpenSocket` | src/p2p-network/p2p-server.js:290-292 | `find` returns nothing exactly when no open socket carries the UUID; otherwise it returns the first open socket tagged with it |
| `Connections.BroadcastFrames` | src/p2p-network/p2p-server.js:206-210 | a broadcast sends at most one frame per table entry, each carrying the announcement, and only on open sockets |
| `Connections.BroadcastMultiplicity` | src/p2p-network/p2p-server.js:206-210 | an open socket receives the announcement once per table entry it has; a closed socket receives nothing |
| `Connections.BroadcastTargetsTable` | src/p2p-network/p2p-server.js:206-210 | every broadcast frame goes to a socket in the table |
| `Connections.BroadcastSkipsUntracked` | src/p2p-network/p2p-server.js:353-359 | a socket not yet in the table receives nothing from the broadcast |
| `Connections.OnlinePeers` | src/p2p-network/p2p-server.js:221-227 | the online filter is no longer than the registry |
| `Connections.OnlinePeersMembers` | src/p2p-network/p2p-server.js:221-227 | a record is listed exactly when it is registered and has an open socket tagged with its UUID |
| `Connections.OnlinePeersInOrder` | src/p2p-network/p2p-server.js:221-227 | listed records keep their registry order |
| `Connections.RejoinFrames` | src/p2p-network/p2p-server.js:118-131 | at most one `NO_TARGET` handshake per registry record, each sent on the socket dialled for a record other than the node itself |
| `Connections.RejoinEntries` | src/p2p-network/p2p-server.js:118-131 | rejoining adds at most one table entry per registry record |
| `Connections.RejoinCoversLivePeers` | src/p2p-network/p2p-server.js:118-131 | each added entry is `{uuid3(URL), socket}` for a registry record whose URL is not the node's own and whose socket opened, and every such record gets one; one `NO_TARGET` is sent per added socket |
| `Server.P2PServer.constructor` | src/p2p-network/p2p-server.js:11-31 | URL is `ws://ADDRESS:PORT` with localhost rewritten, UUID is derived from it, and all collections start empty |
| `Server.P2PServer.LoadPeersDatabase` | src/p2p-network/p2p-server.js:164-175 | the registry is replaced by the file's content; a missing file is an error that changes nothing |
| `Server.P2PServer.CreatePeersDatabase` | src/p2p-network/p2p-server.js:154-162 | the file is created holding the given records; it fails if the database already exists |
| `Server.P2PServer.UpdatePeersDatabase` | src/p2p-network/p2p-server.js:177-198 | reload, then the registry becomes the merge of the file's records with the batch and is written back; a missing file changes nothing |
| `Server.P2PServer.BroadcastPeer` | src/p2p-network/p2p-server.js:202-212 | exactly the broadcast frames over the current table are sent, and the table is not modified |
| `Server.P2PServer.FindOpenSocket` | src/p2p-network/p2p-server.js:222-225 | the loop returns the first open socket tagged with the UUID |
| `Server.P2PServer.GetOnlinePeers` | src/p2p-network/p2p-server.js:216-229 | the node itself comes first, then exactly the registered records with an open socket tagged with their UUID, in registry order; length is at most the registry's plus one |
| `Server.P2PServer.SendMessage` | src/p2p-network/p2p-server.js:275-313 | `NON_EXISTENT` exactly when no record has the recipient's UUID; `NOT_ONLINE` exactly when one has it but no open socket carries it, and then nothing is logged or sent; on `SUCCESS`, one message frame goes out on the first open socket and `{recipient, message}` is put at the head of the sent log |
| `Server.P2PServer.ConnectToBroadcastedPeer` | src/p2p-network/p2p-server.js:138-150 | if a socket to the announced peer opens, it is tagged with the announced UUID and receives `ADMITTANCE`; otherwise nothing changes |
| `Server.P2PServer.ConnectToOnlinePeers` | src/p2p-network/p2p-server.js:111-136 | reload, then the table and outbox grow by exactly the rejoin entries and `NO_TARGET` handshakes; a missing file changes nothing |
| `Server.P2PServer.Listen` | src/p2p-network/p2p-server.js:48-101 | with a target: one socket tagged with the target's UUID, with `TARGET` sent on it. Without target or registry: the registry is created holding only the node. Without target but with a registry: rejoin |
| `Server.P2PServer.HandleTarget` | src/p2p-network/p2p-server.js:326-406 | a known sender leaves the registry unchanged and is announced `RECONNECTED`; an unknown one is appended and announced `NEW`; the snapshot is sent first and the sender's socket is registered last, so a socket not yet in the table receives no announcement |
| `Server.P2PServer.MessageHandler` | src/p2p-network/p2p-server.js:317-505 | per message type: `TARGET` merges exactly the sender's record; `NO_TARGET` and `ADMITTANCE` append exactly one `{remote_UUID, socket}`; `PEERS_DATABASE` merges, or creates the file when there is none; `NEW` merges then dials; `RECONNECTED` only dials; `MESSAGE` puts one `{sender, message}` at the head of the received log. A `TARGET` or `NEW` arriving with no registry file stops the node with registry, table and outbox unchanged. The table and outbox only grow, and the file's records are never removed or overwritten and keep distinct UUIDs |
| `Scenarios.Found` | src/p2p-network/p2p-server.js:82-98 | a node started without target or registry founds a network whose registry holds only itself |
| `Scenarios.Join` | src/p2p-network/p2p-server.js:362-400 | the founder receiving `TARGET` from an unregistered node sends it the two-record registry and tracks its socket |
| `Scenarios.FoundAndJoin` | src/p2p-network/p2p-server.js:216-313 | after founding and one join, the founder lists both nodes as online, and a message to the joiner returns `SUCCESS` and is logged |
| `Scenarios.OnlineAfterJoin` | src/p2p-network/p2p-server.js:221-227 | with one open socket, tagged with the joiner's UUID, only the joiner is online |

## Left out

- The websocket transport (`ws`, `socket.on`, `readyState`, JSON framing) is abstract. A
  socket is a number, open sockets are a set parameter, and a send appends to `outbox`.
- `check_activity` (utils.js:30-47), a local port-bind probe, is not modelled separately.
  Together with opening the socket it is the `dial` oracle. `listen` dials its target
  without probing; the model uses the same oracle there. `dial` is a function, so dialling
  the same URL twice gives the same socket. In the source each `new ws(URL)` (lines 121
  and 143) opens a fresh socket, so two registry records with one URL would get two sockets.
  The model tags one socket twice instead.
- The node stopping is not modelled. A missing database in `loadPeersDatabase`
  (p2p-server.js:172) and an existing directory in `createPeersDatabase` (line 159) throw
  inside an `fs` callback, and nothing catches the error, so Node ends the process. The model
  returns `ok` false with the state the node had at that point, and it can still take further
  messages, which the source cannot.
- File-system errors other than these two are not modelled. These are `fs.stat` codes other
  than `ENOENT` (only logged), and write failures.
- `write_on_database` (utils.js:5-10) and JSON encoding are not modelled. Saving is an
  assignment to `store`.
- Timers (`setTimeout` settle delays) and callback interleavings are not modelled. Each
  handler runs to completion.
- `loadPeersDatabase` calls its callback before it assigns `this.peers` (p2p-server.js:173).
  Every caller that reads `this.peers` delays its continuation with a timer, so the model
  treats the load as complete before the continuation runs. The callback in `listen`
  (lines 93-96) only logs.
- `Server.P2PServer.ConnectToOnlinePeers` registers sockets in registry order. In the
  source the order is whichever socket's `open` event fires first.
- Closed sockets are never removed from `this.sockets`. The source does not remove them
  either.
- uuid3 and MD5 internals are left out. `deriveId` is an arbitrary function, and
  collision-freedom is assumed only where stated, as a precondition of
  `Scenarios.FoundAndJoin`.
- `Server.P2PServer.SendMessage` does not model the self-send guard of the HTTP route
  (routes/messages.js:14-20). The core does not check for its own address;
  `Strings.SchemeCommutesWithNormalise` shows that the guard and `send_MESSAGE` derive the
  same address.
- Out of scope:
  - HTTP routes (src/app);
  - browser UI and video chat (src/js-scripts);
  - `signature-tools.js`, which nothing calls;
  - configuration defaults (src/config);
  - console logging.

Points where the code does less than its comments or names suggest; the model follows the
code:

- The `NO_TARGET` handler (p2p-server.js:412-417) sends the registry and registers the
  socket. Unlike the `TARGET` handler for a known node (lines 342-361), it broadcasts no
  `RECONNECTED` announcement.
- The `RECONNECTED` handler (lines 466-469) only dials the announced peer. It does not touch
  the registry.
- The comment at lines 18-19 says the registry is reloaded before each database action.
  `send_MESSAGE` (line 288) and the `NO_TARGET` reply (line 413) read the in-memory `this.peers`
  without reloading it.
- The comment at line 424 says the received database replaces the registry. Line 431 calls
  `updatePeersDatabase`, which merges.
