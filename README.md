# Group-call signaling server: presence registry and event router

This project models the socket event handlers of a small WebRTC group-call
signaling server (`server.js`) and proves what each handler does to the
server's state and what it sends.

The server keeps two module-level lists:

- `peers`, the users. An entry holds `username` and `socketId`. Entries added
  by a join request also hold `peerId`, `streamId`, `role` and `screenShare`.
- `groupCallRooms`, the active calls. An entry holds `type`, `peerId`,
  `hostName`, `socketId` and `roomId`.

Each inbound socket event changes these lists, may move the sending
connection into or out of a transport room, and emits messages in a fixed
order. A message goes to every connection, to one room, or to the sender.

The model has three modules:

- `Seqs` (`seqs.dfy`): the order-preserving `Filter` that `Array.prototype.filter` performs. It also defines what a subsequence is.
- `Registry` (`registry.dfy`): the `User` and `Room` entries and the rewrites that the handlers apply to the lists. These are the three filters, the two screen-share loops (`MarkSharer` and `ClearSharers`, written as loops like the source's `peers.map` with `a.push`), and the invariants they keep. It also has a replay of register/disconnect traces.
- `Signaling` (`signaling.dfy`): a `Server` class. Its fields are `peers`, `groupCallRooms`, the transport's room membership `members`, the live connections `conns`, and the `outbox` of emitted messages. There is one method per handler. Every emit appends a `Msg` to `outbox`. A `Msg` holds the scope, the set of connections that scope reached at the moment of the emit, the event name and a snapshot of the payload. Taking recipients at emit time is what makes handler order observable. A joining connection does not get its own join request unless it was already in the room. A leaving connection does not get its own `group-call-user-left`.

`Server.Valid()` is the invariant that every handler keeps:

- only live connections are room members;
- every listed room is hosted by a live connection and names a transport room;
- room ids are distinct;
- all users flagged as sharing carry the same socket id.

Quirks of the source kept as they are:

- Users are keyed by the client-supplied `data.socketId`.
- Disconnect filters by the server's own connection id.
- Registering and joining both append, and nothing stops duplicates.
- Entries added by register have no `screenShare` (`None`).
- A share event rewrites the flag of every user, not only the room's members.
- Close-by-host removes rooms by `peerId`, while disconnect removes them by the host's connection id.

One might expect one user entry per connection, and at most one user sharing a
screen. The code gives neither, and the model follows the code:

- The code appends a new entry on every register and join request, so one connection can have several entries.
- The code keeps only the weaker `SharersAgree`: all sharers have the same `socketId`. `AtMostOneSharer` proves "at most one sharer" when socket ids are unique. `DuplicateSocketIdTwoSharers` and `Signaling.DuplicateSharersScenario` show two sharers after a connection registers and then joins under the same socket id.

## Model

| member | source | states |
|---|---|---|
| `Seqs.Filter` | server.js:65 | the order-preserving filter the handlers call: the result is no longer than the input and holds only input elements that satisfy the predicate |
| `Registry.RegisteredUser` | server.js:45-48 | the entry `register-new-user` appends carries the payload's username and socketId, and no peerId, streamId, role or screenShare field |
| `Registry.JoinedUser` | server.js:99-106 | the entry `group-call-join-request` appends carries the payload's username, socketId, peerId, streamId and role, with screenShare false |
| `Registry.PeersWithout` | server.js:65 | the users whose socketId differs from the connection id, no more entries than before |
| `Registry.RoomsWithoutHost` | server.js:71 | the rooms whose socketId differs from the connection id, no more entries than before |
| `Registry.RoomsWithoutPeer` | server.js:169 | the rooms whose peerId differs from the payload's peerId, no more entries than before |
| `Registry.DisconnectUnknownKeepsAll` | server.js:65 | disconnecting a connection id that no user entry carries leaves the user list unchanged |
| `Registry.PeersWithoutExactly` | server.js:65 | the disconnect filter keeps exactly the users whose socketId differs from the connection id, each as often as before, in their original order, and drops every other user |
| `Registry.RoomsWithoutHostExactly` | server.js:71 | the disconnect room filter keeps exactly the rooms whose socketId differs from the connection id, in order, with multiplicities |
| `Registry.RoomsWithoutPeerExactly` | server.js:169 | close-by-host keeps exactly the rooms whose peerId differs from the payload's peerId, in order, with multiplicities |
| `Registry.RegisterThenDisconnect` | server.js:44-65 | a register followed by a disconnect of the same id leaves the user list as if the registration had never happened |
| `Registry.DisconnectKeepsOthers` | server.js:63-65 | disconnecting another connection keeps a just-appended entry, still at the end |
| `Registry.FilterKeepsDistinctRoomIds` | server.js:71 | removing rooms, by either key, keeps room ids pairwise distinct |
| `Registry.AppendFreshRoom` | server.js:79-90 | appending a room with an id that no listed room has keeps room ids distinct |
| `Registry.WithSharer` | server.js:123-133 | after start-share the list has the same length and order; each user's flag is true exactly when its socketId is the sharer's; every other field is unchanged |
| `Registry.WithoutSharers` | server.js:144-150 | after stop-share the list has the same length and order; every flag is false; every other field is unchanged |
| `Registry.MarkSharer` | server.js:124-133 | the start-share loop builds exactly the list `WithSharer` describes |
| `Registry.ClearSharers` | server.js:145-150 | the stop-share loop builds exactly the list `WithoutSharers` describes |
| `Registry.StartShareAgrees` | server.js:125-130 | after start-share a user shares exactly when its socketId is the sharer's, so all sharers agree on one socketId |
| `Registry.StopShareClears` | server.js:146-147 | after stop-share no user shares |
| `Registry.AppendNonSharer` | server.js:99-106 | appending a user that is not sharing (a register entry, or a join entry with screenShare false) keeps the sharers agreeing |
| `Registry.FilterKeepsSharersAgree` | server.js:65 | removing users keeps the sharers agreeing |
| `Registry.AtMostOneSharer` | server.js:125-130 | when socket ids are unique and the sharers agree, at most one user is sharing |
| `Registry.DuplicateSocketIdTwoSharers` | server.js:125-130 | two entries with the same socketId (register then join) both share after one start-share event |
| `Registry.Replay` | server.js:44-65 | replaying register and disconnect events from an empty registry gives at most one entry per event, each of them a register entry |
| `Registry.ReplayNetEffect` | server.js:44-65 | after any trace of register and disconnect events, a user is active exactly when some register created it and no later disconnect of its socket id removed it |
| `Registry.AliceRegistersThenLeaves` | server.js:44-68 | "alice" registering on A gives one entry; A disconnecting then leaves the list empty |
| `Signaling.Server.constructor` | server.js:31-32 | the server starts with empty lists, no rooms, no connections and nothing sent |
| `Signaling.Server.Emit` | server.js:52-55 | an emit appends one message whose recipients are the connections its scope reaches at that moment |
| `Signaling.Server.Connect` | server.js:39-40 | a new connection becomes live and alone receives `connection` with no payload |
| `Signaling.Server.RegisterNewUser` | server.js:44-61 | appends `{username, socketId}` at the end; rooms, membership and connections unchanged; then ACTIVE_USERS with the new list and GROUP_CALL_ROOMS go to all connections, in that order |
| `Signaling.Server.Disconnect` | server.js:63-76 | the connection leaves every room and stops being live; users and rooms whose socketId is its id are removed (others kept in order); ACTIVE_USERS with the filtered users, then GROUP_CALL_ROOMS with the filtered rooms, go to the remaining connections |
| `Signaling.Server.GroupCallRegister` | server.js:78-95 | the sender becomes the only member of a fresh room id; one room {type, peerId, hostName = username, socketId = sender, roomId} is appended; users unchanged; one GROUP_CALL_ROOMS goes to all connections |
| `Signaling.Server.GroupCallJoinRequest` | server.js:97-121 | appends one user with all payload fields and screenShare false; forwards the request to the room's members as they were before the sender joins; then adds the sender to the room; then ACTIVE_USERS goes to all connections |
| `Signaling.Server.StartShareScreen` | server.js:123-142 | the user list becomes `WithSharer`; ACTIVE_USERS goes to all connections, then `group-call-start-share-screen` with the socketId goes to the room |
| `Signaling.Server.StopShareScreen` | server.js:144-158 | the user list becomes `WithoutSharers`; ACTIVE_USERS goes to all connections, then `group-call-stop-share-screen` goes to the room |
| `Signaling.Server.GroupCallUserLeft` | server.js:160-166 | the sender leaves the room; then `group-call-user-left` with the streamId goes to the remaining members only; both lists unchanged |
| `Signaling.Server.GroupCallClosedByHost` | server.js:168-175 | removes the rooms whose peerId is the payload's; users, membership and connections unchanged; one GROUP_CALL_ROOMS goes to all connections |
| `Signaling.AliceScenario` | server.js:44-75 | on a server run, alice's registration on A broadcasts exactly her entry to A and B; after A disconnects, ACTIVE_USERS carries no users and reaches only B |
| `Signaling.RoomScenario` | server.js:78-175 | on a server run, B's join request reaches only the host A, the share notice reaches A and B but not the unrelated C, and closing by host leaves no rooms |
| `Signaling.DuplicateSharersScenario` | server.js:44-133 | on a server run, A registers, hosts and joins under socket id A; the user list then holds two entries for A and one start-share marks both as sharing |

## Left out

- The Express app, its port and its listen logging (server.js:1-14): this is HTTP hosting and I/O.
- The PeerJS server mount and `groupCallHandler.createPeerServerListeners` (server.js:16-22). This is a foreign library, and `groupCallHandler.js` is not part of this model.
- The socket.io construction and its CORS options (server.js:24-29), and the actual delivery of messages over the network. An emit is modelled as an outbox record with its scope and recipients.
- `uuidv4` (server.js:5, 79): a random foreign call. The room id is supplied by the caller, with the requirement that no connection has ever joined a room of that id.
- `console.log` calls: output with no effect on state.
- Transport behaviour that the handlers do not code themselves is modelled from socket.io's documented semantics. A disconnecting socket has already left all its rooms and receives nothing further. Each socket's automatic room named after its own id is not modelled, so `io.to(id)` with a room id equal to a connection id has no special meaning here.
- Missing payload fields, which JavaScript reads as `undefined`. Every payload field is a string parameter, so a handler that reads an absent field cannot be represented. This includes `data.socketId` in `group-call-stop-share-screen`, which clients may omit.
- Object identity: the source mutates user objects in place while building the new list. The model rewrites values. Nothing in the source keeps another reference to those objects, so this does not change what is observable.
- A per-connection state machine (connected, registered, in room) does not exist in the source, and is not added.
