/** The event router of the signaling server: one handler per inbound socket
    event, each of which rewrites the registry lists, may move the sender into
    or out of a room, and emits broadcasts in a fixed order. */
module Signaling {
  import opened Seqs
  import opened Registry

  /** Who an emit is addressed to: `io.sockets` (every live connection),
      `io.to(roomId)` (the members of one room) or `socket` (the sender alone). */
  datatype Scope = AllConnections | InRoom(roomId: string) | OnlySender(conn: string)

  /** The payload an emit carries, as a value taken when it is sent. A `broadcast`
      message carries `ActiveUsers` (its `event` field is "ACTIVE_USERS") or
      `GroupCallRooms` (its `event` field is "GROUP_CALL_ROOMS"). */
  datatype Payload =
    | NoPayload
    | ActiveUsers(activeUsers: seq<User>)
    | GroupCallRooms(groupCallRooms: seq<Room>)
    | JoinRequest(username: string, peerId: string, streamId: string, role: string, socketId: string)
    | ShareScreen(socketId: string)
    | UserLeft(streamId: string)

  /** One outbound message: its scope, the connections that scope reached at the
      moment of the emit, the event name and the payload. */
  datatype Msg = Msg(scope: Scope, recipients: set<string>, event: string, payload: Payload)

  class Server {
    /** The `peers` list. */
    var peers: seq<User>
    /** The `groupCallRooms` list. */
    var groupCallRooms: seq<Room>
    /** The transport's rooms: which connections have joined each room id. */
    var members: map<string, set<string>>
    /** The live transport connections. */
    var conns: set<string>
    /** Every message emitted so far, oldest first. */
    var outbox: seq<Msg>

    /** Only live connections are room members; every listed room is hosted by a live
        connection and names a transport room; room ids are distinct; and all users
        flagged as sharing their screen carry one socket id. */
    ghost predicate Valid()
      reads this
    {
      (forall r :: r in members ==> members[r] <= conns) &&
      (forall room :: room in groupCallRooms ==> room.socketId in conns && room.roomId in members) &&
      DistinctRoomIds(groupCallRooms) &&
      SharersAgree(peers)
    }

    /** The connections that have joined room `roomId`; none for an unknown room. */
    function RoomMembers(roomId: string): set<string>
      reads this
    {
      if roomId in members then members[roomId] else {}
    }

    /** The connections an emit with this scope reaches now. */
    function Recipients(scope: Scope): set<string>
      reads this
    {
      match scope
      case AllConnections => conns
      case InRoom(roomId) => RoomMembers(roomId)
      case OnlySender(conn) => {conn}
    }

    constructor ()
      ensures Valid()
      ensures peers == [] && groupCallRooms == [] && members == map[] && conns == {} && outbox == []
    {
      peers, groupCallRooms, members, conns, outbox := [], [], map[], {}, [];
    }

    /** Sends one message, addressing the connections the scope reaches now. */
    method Emit(scope: Scope, event: string, payload: Payload)
      modifies this`outbox
      ensures outbox == old(outbox) + [Msg(scope, Recipients(scope), event, payload)]
    {
      outbox := outbox + [Msg(scope, Recipients(scope), event, payload)];
    }

    /** A new transport connection: it is acknowledged with `connection` and a null payload. */
    method Connect(conn: string)
      requires Valid()
      requires conn !in conns
      modifies this
      ensures Valid()
      ensures conns == old(conns) + {conn}
      ensures peers == old(peers) && groupCallRooms == old(groupCallRooms) && members == old(members)
      ensures outbox == old(outbox) + [Msg(OnlySender(conn), {conn}, "connection", NoPayload)]
    {
      conns := conns + {conn};
      Emit(OnlySender(conn), "connection", NoPayload);
    }

    /** `register-new-user`: appends `{username, socketId}` and broadcasts both lists. */
    method RegisterNewUser(username: string, socketId: string)
      requires Valid()
      modifies this
      ensures Valid()
      ensures peers == old(peers) + [RegisteredUser(username, socketId)]
      ensures groupCallRooms == old(groupCallRooms) && members == old(members) && conns == old(conns)
      ensures outbox == old(outbox) + [
                Msg(AllConnections, conns, "broadcast", ActiveUsers(peers)),
                Msg(AllConnections, conns, "broadcast", GroupCallRooms(groupCallRooms))]
    {
      AppendNonSharer(peers, RegisteredUser(username, socketId));
      peers := peers + [RegisteredUser(username, socketId)];
      Emit(AllConnections, "broadcast", ActiveUsers(peers));
      Emit(AllConnections, "broadcast", GroupCallRooms(groupCallRooms));
    }

    /** `disconnect`: the transport has already taken the connection out of every room
        and stops delivering to it. The handler drops the users and the rooms keyed by
        the connection's own id and broadcasts each filtered list. */
    method Disconnect(sender: string)
      requires Valid()
      requires sender in conns
      modifies this
      ensures Valid()
      ensures conns == old(conns) - {sender}
      ensures members == map r | r in old(members) :: old(members)[r] - {sender}
      ensures peers == PeersWithout(old(peers), sender)
      ensures groupCallRooms == RoomsWithoutHost(old(groupCallRooms), sender)
      ensures outbox == old(outbox) + [
                Msg(AllConnections, conns, "broadcast", ActiveUsers(peers)),
                Msg(AllConnections, conns, "broadcast", GroupCallRooms(groupCallRooms))]
      ensures sender !in conns
    {
      conns := conns - {sender};
      members := map r | r in members :: members[r] - {sender};
      FilterKeepsSharersAgree(peers, (u: User) => u.socketId != sender);
      peers := PeersWithout(peers, sender);
      Emit(AllConnections, "broadcast", ActiveUsers(peers));
      FilterKeepsDistinctRoomIds(groupCallRooms, (r: Room) => r.socketId != sender);
      groupCallRooms := RoomsWithoutHost(groupCallRooms, sender);
      Emit(AllConnections, "broadcast", GroupCallRooms(groupCallRooms));
    }

    /** `group-call-register`: the sender joins a room under a fresh id (the one `uuidv4`
        would supply), the room is appended and the room list broadcast. */
    method GroupCallRegister(sender: string, roomId: string, callType: string, peerId: string, username: string)
      requires Valid()
      requires sender in conns
      requires roomId !in members
      modifies this
      ensures Valid()
      ensures members == old(members)[roomId := {sender}]
      ensures groupCallRooms == old(groupCallRooms) + [Room(callType, peerId, username, sender, roomId)]
      ensures peers == old(peers) && conns == old(conns)
      ensures outbox == old(outbox) + [Msg(AllConnections, conns, "broadcast", GroupCallRooms(groupCallRooms))]
    {
      // socket.join on a room id nobody has joined: the sender is its only member
      members := members[roomId := {sender}];
      var room := Room(callType, peerId, username, sender, roomId);
      AppendFreshRoom(groupCallRooms, room);
      groupCallRooms := groupCallRooms + [room];
      Emit(AllConnections, "broadcast", GroupCallRooms(groupCallRooms));
    }

    /** `group-call-join-request`: appends the joining user, forwards the request to the
        room as it stood before the sender joins it, then adds the sender to the room and
        broadcasts the user list. */
    method GroupCallJoinRequest(sender: string, roomId: string, username: string, socketId: string,
                                peerId: string, streamId: string, role: string)
      requires Valid()
      requires sender in conns
      modifies this
      ensures Valid()
      ensures peers == old(peers) + [JoinedUser(username, socketId, peerId, streamId, role)]
      ensures members == old(members)[roomId := old(RoomMembers(roomId)) + {sender}]
      ensures groupCallRooms == old(groupCallRooms) && conns == old(conns)
      ensures outbox == old(outbox) + [
                Msg(InRoom(roomId), old(RoomMembers(roomId)), "group-call-join-request",
                    JoinRequest(username, peerId, streamId, role, socketId)),
                Msg(AllConnections, conns, "broadcast", ActiveUsers(peers))]
    {
      AppendNonSharer(peers, JoinedUser(username, socketId, peerId, streamId, role));
      peers := peers + [JoinedUser(username, socketId, peerId, streamId, role)];
      Emit(InRoom(roomId), "group-call-join-request", JoinRequest(username, peerId, streamId, role, socketId));
      members := members[roomId := RoomMembers(roomId) + {sender}];
      Emit(AllConnections, "broadcast", ActiveUsers(peers));
    }

    /** `group-call-start-share-screen`: every user's flag becomes whether its socket id
        is the sharer's; the user list goes to everyone, then the news to the room. */
    method StartShareScreen(socketId: string, roomId: string)
      requires Valid()
      modifies this
      ensures Valid()
      ensures peers == WithSharer(old(peers), socketId)
      ensures groupCallRooms == old(groupCallRooms) && members == old(members) && conns == old(conns)
      ensures outbox == old(outbox) + [
                Msg(AllConnections, conns, "broadcast", ActiveUsers(peers)),
                Msg(InRoom(roomId), RoomMembers(roomId), "group-call-start-share-screen", ShareScreen(socketId))]
    {
      var a := MarkSharer(peers, socketId);
      StartShareAgrees(peers, socketId);
      peers := a;
      Emit(AllConnections, "broadcast", ActiveUsers(peers));
      Emit(InRoom(roomId), "group-call-start-share-screen", ShareScreen(socketId));
    }

    /** `group-call-stop-share-screen`: every user's flag becomes false; the user list
        goes to everyone, then the news to the room. */
    method StopShareScreen(socketId: string, roomId: string)
      requires Valid()
      modifies this
      ensures Valid()
      ensures peers == WithoutSharers(old(peers))
      ensures groupCallRooms == old(groupCallRooms) && members == old(members) && conns == old(conns)
      ensures outbox == old(outbox) + [
                Msg(AllConnections, conns, "broadcast", ActiveUsers(peers)),
                Msg(InRoom(roomId), RoomMembers(roomId), "group-call-stop-share-screen", ShareScreen(socketId))]
    {
      var a := ClearSharers(peers);
      StopShareClears(peers);
      peers := a;
      Emit(AllConnections, "broadcast", ActiveUsers(peers));
      Emit(InRoom(roomId), "group-call-stop-share-screen", ShareScreen(socketId));
    }

    /** `group-call-user-left`: the sender leaves the room first, so the notice reaches
        only the members that remain. Neither registry list changes. */
    method GroupCallUserLeft(sender: string, roomId: string, streamId: string)
      requires Valid()
      requires sender in conns
      modifies this
      ensures Valid()
      ensures members == if roomId in old(members) then old(members)[roomId := old(members)[roomId] - {sender}]
                         else old(members)
      ensures peers == old(peers) && groupCallRooms == old(groupCallRooms) && conns == old(conns)
      ensures outbox == old(outbox) + [
                Msg(InRoom(roomId), old(RoomMembers(roomId)) - {sender}, "group-call-user-left", UserLeft(streamId))]
    {
      if roomId in members {
        members := members[roomId := members[roomId] - {sender}];
      }
      assert RoomMembers(roomId) == old(RoomMembers(roomId)) - {sender};
      Emit(InRoom(roomId), "group-call-user-left", UserLeft(streamId));
    }

    /** `group-call-closed-by-host`: drops every room with the given peer id (not the
        sender's connection id) and broadcasts the room list. */
    method GroupCallClosedByHost(peerId: string)
      requires Valid()
      modifies this
      ensures Valid()
      ensures groupCallRooms == RoomsWithoutPeer(old(groupCallRooms), peerId)
      ensures peers == old(peers) && members == old(members) && conns == old(conns)
      ensures outbox == old(outbox) + [Msg(AllConnections, conns, "broadcast", GroupCallRooms(groupCallRooms))]
    {
      FilterKeepsDistinctRoomIds(groupCallRooms, (r: Room) => r.peerId != peerId);
      groupCallRooms := RoomsWithoutPeer(groupCallRooms, peerId);
      Emit(AllConnections, "broadcast", GroupCallRooms(groupCallRooms));
    }
  }

  /** "alice" registers on connection A while B is connected, then A disconnects.
      The first ACTIVE_USERS broadcast carries exactly alice's entry and reaches both
      connections; the one after the disconnect carries no users and reaches only B. */
  method AliceScenario() returns (registered: Msg, afterDisconnect: Msg)
    ensures registered.event == "broadcast" && registered.recipients == {"A", "B"}
    ensures registered.payload == ActiveUsers([RegisteredUser("alice", "A")])
    ensures afterDisconnect.event == "broadcast" && afterDisconnect.recipients == {"B"}
    ensures afterDisconnect.payload == ActiveUsers([])
  {
    var s := new Server();
    s.Connect("A");
    s.Connect("B");
    s.RegisterNewUser("alice", "A");
    registered := s.outbox[|s.outbox| - 2];
    s.Disconnect("A");
    RegisterThenDisconnect([], "alice", "A");
    afterDisconnect := s.outbox[|s.outbox| - 2];
  }

  /** Alice hosts a call on connection A; B joins the room, C does not. The join
      request reaches only A, the share notice reaches A and B and not C, and after
      the host closes the call the room list is empty. */
  method RoomScenario() returns (joinNotice: Msg, shareNotice: Msg, rooms: seq<Room>)
    ensures joinNotice.event == "group-call-join-request" && joinNotice.recipients == {"A"}
    ensures shareNotice.event == "group-call-start-share-screen" && shareNotice.recipients == {"A", "B"}
    ensures "C" !in shareNotice.recipients
    ensures rooms == []
  {
    var s := new Server();
    s.Connect("A");
    s.Connect("B");
    s.Connect("C");
    s.GroupCallRegister("A", "r1", "video", "p1", "alice");
    s.GroupCallJoinRequest("B", "r1", "bob", "B", "p2", "s2", "guest");
    joinNotice := s.outbox[|s.outbox| - 2];
    s.StartShareScreen("A", "r1");
    shareNotice := s.outbox[|s.outbox| - 1];
    s.GroupCallClosedByHost("p1");
    rooms := s.groupCallRooms;
  }

  /** Connection A registers, hosts a call and then sends a join request for it under
      the same socket id: the user list then holds two entries for A, and one
      start-share event marks both as sharing. */
  method DuplicateSharersScenario() returns (users: seq<User>)
    ensures |users| == 2 && users[0].socketId == "A" && users[1].socketId == "A"
    ensures IsSharing(users[0]) && IsSharing(users[1])
  {
    var s := new Server();
    s.Connect("A");
    s.RegisterNewUser("alice", "A");
    s.GroupCallRegister("A", "r1", "video", "p1", "alice");
    s.GroupCallJoinRequest("A", "r1", "alice", "A", "p1", "s1", "host");
    s.StartShareScreen("A", "r1");
    users := s.peers;
  }
}
