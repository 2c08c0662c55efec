/** The presence registry of the signaling server: the entries of the `peers`
    list (users) and of the `groupCallRooms` list (call rooms), the rewrites
    the event handlers apply to them, and what those rewrites preserve. */
module Registry {
  import opened Seqs

  datatype Option<+T> = None | Some(value: T)

  /** An entry of `peers`. `register-new-user` stores only the name and the
      client-supplied socket id, so the optional fields are `None` there and
      `screenShare` stays absent until a share event sets it. */
  datatype User = User(
    username: string,
    socketId: string,
    peerId: Option<string>,
    streamId: Option<string>,
    role: Option<string>,
    screenShare: Option<bool>)

  /** An entry of `groupCallRooms`; `callType` holds the payload's `type` field. */
  datatype Room = Room(
    callType: string,
    peerId: string,
    hostName: string,
    socketId: string,
    roomId: string)

  /** The entry `register-new-user` appends: name and socket id only, with no
      screen-share field at all. */
  function RegisteredUser(username: string, socketId: string): (u: User)
    ensures u.username == username && u.socketId == socketId
    ensures u.peerId == None && u.streamId == None && u.role == None && u.screenShare == None
  {
    User(username, socketId, None, None, None, None)
  }

  /** The entry `group-call-join-request` appends: every field from the payload,
      not sharing its screen. */
  function JoinedUser(username: string, socketId: string, peerId: string, streamId: string, role: string): (u: User)
    ensures u.username == username && u.socketId == socketId
    ensures u.peerId == Some(peerId) && u.streamId == Some(streamId) && u.role == Some(role)
    ensures u.screenShare == Some(false)
  {
    User(username, socketId, Some(peerId), Some(streamId), Some(role), Some(false))
  }

  predicate IsSharing(u: User)
  {
    u.screenShare == Some(true)
  }

  // ---------------------------------------------------------------------------
  // The three filters of the handlers

  /** The disconnect handler's filter of the user list by the server's own
      connection id (server.js:65). */
  function PeersWithout(users: seq<User>, conn: string): (r: seq<User>)
    ensures |r| <= |users|
    ensures forall u :: u in r <==> u in users && u.socketId != conn
  {
    FilterMembers(users, (u: User) => u.socketId != conn);
    Filter(users, (u: User) => u.socketId != conn)
  }

  /** The disconnect handler's filter of the room list by the host's connection
      id (server.js:71). */
  function RoomsWithoutHost(rooms: seq<Room>, conn: string): (r: seq<Room>)
    ensures |r| <= |rooms|
    ensures forall room :: room in r <==> room in rooms && room.socketId != conn
  {
    FilterMembers(rooms, (room: Room) => room.socketId != conn);
    Filter(rooms, (room: Room) => room.socketId != conn)
  }

  /** The close-by-host handler's filter of the room list by the payload's peer
      id (server.js:169). */
  function RoomsWithoutPeer(rooms: seq<Room>, peerId: string): (r: seq<Room>)
    ensures |r| <= |rooms|
    ensures forall room :: room in r <==> room in rooms && room.peerId != peerId
  {
    FilterMembers(rooms, (room: Room) => room.peerId != peerId);
    Filter(rooms, (room: Room) => room.peerId != peerId)
  }

  /** Disconnect drops every user entry keyed by the connection, keeps every other
      entry as often as it occurred, and keeps their relative order. */
  lemma PeersWithoutExactly(users: seq<User>, conn: string)
    ensures forall u :: multiset(PeersWithout(users, conn))[u] ==
                        if u.socketId != conn then multiset(users)[u] else 0
    ensures forall u :: u in PeersWithout(users, conn) <==> u in users && u.socketId != conn
    ensures IsSubsequence(PeersWithout(users, conn), users)
  {
    var keep := (u: User) => u.socketId != conn;
    FilterCount(users, keep);
    FilterMembers(users, keep);
    FilterSubsequence(users, keep);
  }

  /** Disconnect drops every room hosted by the connection and keeps the others in order. */
  lemma RoomsWithoutHostExactly(rooms: seq<Room>, conn: string)
    ensures forall r :: multiset(RoomsWithoutHost(rooms, conn))[r] ==
                        if r.socketId != conn then multiset(rooms)[r] else 0
    ensures forall r :: r in RoomsWithoutHost(rooms, conn) <==> r in rooms && r.socketId != conn
    ensures IsSubsequence(RoomsWithoutHost(rooms, conn), rooms)
  {
    var keep := (r: Room) => r.socketId != conn;
    FilterCount(rooms, keep);
    FilterMembers(rooms, keep);
    FilterSubsequence(rooms, keep);
  }

  /** Closing by host drops every room with that peer id and keeps the others in order. */
  lemma RoomsWithoutPeerExactly(rooms: seq<Room>, peerId: string)
    ensures forall r :: multiset(RoomsWithoutPeer(rooms, peerId))[r] ==
                        if r.peerId != peerId then multiset(rooms)[r] else 0
    ensures forall r :: r in RoomsWithoutPeer(rooms, peerId) <==> r in rooms && r.peerId != peerId
    ensures IsSubsequence(RoomsWithoutPeer(rooms, peerId), rooms)
  {
    var keep := (r: Room) => r.peerId != peerId;
    FilterCount(rooms, keep);
    FilterMembers(rooms, keep);
    FilterSubsequence(rooms, keep);
  }

  /** Registering and then disconnecting the same connection id leaves the user list
      as the disconnect would have left it without the registration. */
  lemma RegisterThenDisconnect(users: seq<User>, username: string, conn: string)
    ensures PeersWithout(users + [RegisteredUser(username, conn)], conn) == PeersWithout(users, conn)
  {
    FilterSnoc(users, RegisteredUser(username, conn), (u: User) => u.socketId != conn);
  }

  /** A disconnect of some other connection keeps a freshly appended entry, still last. */
  lemma DisconnectKeepsOthers(users: seq<User>, u: User, conn: string)
    requires u.socketId != conn
    ensures PeersWithout(users + [u], conn) == PeersWithout(users, conn) + [u]
  {
    FilterSnoc(users, u, (v: User) => v.socketId != conn);
  }

  /** Disconnecting a connection id that no entry carries leaves the user list as it was. */
  lemma DisconnectUnknownKeepsAll(users: seq<User>, conn: string)
    requires forall u :: u in users ==> u.socketId != conn
    ensures PeersWithout(users, conn) == users
  {
    FilterAllKept(users, (u: User) => u.socketId != conn);
  }

  // ---------------------------------------------------------------------------
  // Room ids

  predicate DistinctRoomIds(rooms: seq<Room>)
  {
    forall i, j :: 0 <= i < j < |rooms| ==> rooms[i].roomId != rooms[j].roomId
  }

  /** Removing rooms, by whatever key, never makes two rooms share an id. */
  lemma {:induction false} FilterKeepsDistinctRoomIds(rooms: seq<Room>, keep: Room -> bool)
    requires DistinctRoomIds(rooms)
    ensures DistinctRoomIds(Filter(rooms, keep))
  {
    if rooms != [] {
      var tail := rooms[1..];
      assert DistinctRoomIds(tail) by {
        forall i, j | 0 <= i < j < |tail| ensures tail[i].roomId != tail[j].roomId {
          assert tail[i] == rooms[i + 1] && tail[j] == rooms[j + 1];
        }
      }
      FilterKeepsDistinctRoomIds(tail, keep);
      if keep(rooms[0]) {
        var r := Filter(rooms, keep);
        var rest := Filter(tail, keep);
        assert r == [rooms[0]] + rest;
        forall i, j | 0 <= i < j < |r| ensures r[i].roomId != r[j].roomId {
          if i == 0 {
            assert r[j] == rest[j - 1];
            assert rest[j - 1] in tail;
            var k :| 0 <= k < |tail| && tail[k] == rest[j - 1];
            assert tail[k] == rooms[k + 1];
          } else {
            assert r[i] == rest[i - 1] && r[j] == rest[j - 1];
          }
        }
      }
    }
  }

  /** Appending a room whose id no existing room has keeps the ids distinct. */
  lemma AppendFreshRoom(rooms: seq<Room>, room: Room)
    requires DistinctRoomIds(rooms)
    requires forall r :: r in rooms ==> r.roomId != room.roomId
    ensures DistinctRoomIds(rooms + [room])
  {
  }

  // ---------------------------------------------------------------------------
  // Screen sharing

  /** The list `group-call-start-share-screen` builds: every entry kept in place,
      its flag set to whether its socket id is the sharer's. */
  function WithSharer(users: seq<User>, sharer: string): (r: seq<User>)
    ensures |r| == |users|
    ensures forall i :: 0 <= i < |r| ==>
              r[i].screenShare == Some(users[i].socketId == sharer) &&
              r[i].(screenShare := users[i].screenShare) == users[i]
  {
    seq(|users|, i requires 0 <= i < |users| => users[i].(screenShare := Some(users[i].socketId == sharer)))
  }

  /** The list `group-call-stop-share-screen` builds: every flag false, nothing else changed. */
  function WithoutSharers(users: seq<User>): (r: seq<User>)
    ensures |r| == |users|
    ensures forall i :: 0 <= i < |r| ==>
              r[i].screenShare == Some(false) &&
              r[i].(screenShare := users[i].screenShare) == users[i]
  {
    seq(|users|, i requires 0 <= i < |users| => users[i].(screenShare := Some(false)))
  }

  /** The loop of `group-call-start-share-screen`: visits each user in order, sets its
      flag and pushes it onto the new list. */
  method MarkSharer(users: seq<User>, sharer: string) returns (a: seq<User>)
    ensures a == WithSharer(users, sharer)
  {
    a := [];
    var i := 0;
    while i < |users|
      invariant 0 <= i <= |users|
      invariant |a| == i
      invariant forall k :: 0 <= k < i ==> a[k] == users[k].(screenShare := Some(users[k].socketId == sharer))
    {
      var user := users[i];
      if user.socketId == sharer {
        user := user.(screenShare := Some(true));
      } else {
        user := user.(screenShare := Some(false));
      }
      a := a + [user];
      i := i + 1;
    }
  }

  /** The loop of `group-call-stop-share-screen`: clears each flag in order. */
  method ClearSharers(users: seq<User>) returns (a: seq<User>)
    ensures a == WithoutSharers(users)
  {
    a := [];
    var i := 0;
    while i < |users|
      invariant 0 <= i <= |users|
      invariant |a| == i
      invariant forall k :: 0 <= k < i ==> a[k] == users[k].(screenShare := Some(false))
    {
      var user := users[i].(screenShare := Some(false));
      a := a + [user];
      i := i + 1;
    }
  }

  /** Every user that is sharing its screen carries the same socket id. This is what
      the handlers keep; it is "at most one sharer" only when socket ids are unique. */
  ghost predicate SharersAgree(users: seq<User>)
  {
    forall u, v :: u in users && v in users && IsSharing(u) && IsSharing(v) ==> u.socketId == v.socketId
  }

  predicate UniqueSocketIds(users: seq<User>)
  {
    forall i, j :: 0 <= i < j < |users| ==> users[i].socketId != users[j].socketId
  }

  /** After a start-share event exactly the entries of the sharer's socket id share,
      so the sharers agree whatever the list held before. */
  lemma StartShareAgrees(users: seq<User>, sharer: string)
    ensures SharersAgree(WithSharer(users, sharer))
    ensures forall u :: u in WithSharer(users, sharer) ==> (IsSharing(u) <==> u.socketId == sharer)
  {
  }

  /** After a stop-share event nobody shares. */
  lemma StopShareClears(users: seq<User>)
    ensures forall u :: u in WithoutSharers(users) ==> !IsSharing(u)
  {
  }

  /** Appending an entry that does not share keeps the sharers agreeing. */
  lemma AppendNonSharer(users: seq<User>, u: User)
    requires SharersAgree(users)
    requires !IsSharing(u)
    ensures SharersAgree(users + [u])
  {
  }

  /** Removing entries keeps the sharers agreeing. */
  lemma FilterKeepsSharersAgree(users: seq<User>, keep: User -> bool)
    requires SharersAgree(users)
    ensures SharersAgree(Filter(users, keep))
  {
  }

  /** With unique socket ids, agreeing sharers means at most one user shares. */
  lemma AtMostOneSharer(users: seq<User>)
    requires UniqueSocketIds(users)
    requires SharersAgree(users)
    ensures forall i, j ::
              0 <= i < |users| && 0 <= j < |users| && IsSharing(users[i]) && IsSharing(users[j]) ==> i == j
  {
  }

  /** Two entries with the same socket id (a connection that registered and then
      joined a call) both share after one start-share event. */
  lemma DuplicateSocketIdTwoSharers()
    ensures var r := WithSharer([RegisteredUser("alice", "A"), JoinedUser("alice", "A", "p", "s", "host")], "A");
            IsSharing(r[0]) && IsSharing(r[1])
  {
  }

  // ---------------------------------------------------------------------------
  // Net effect of register and disconnect events

  datatype PresenceEvent = Register(username: string, socketId: string) | Disconnect(conn: string)

  /** The user list after replaying the events, starting from an empty registry. */
  function Replay(events: seq<PresenceEvent>): (r: seq<User>)
    ensures |r| <= |events|
    ensures forall u :: u in r ==> u == RegisteredUser(u.username, u.socketId)
  {
    if events == [] then []
    else
      var before := Replay(events[..|events| - 1]);
      match events[|events| - 1]
      case Register(name, sid) => before + [RegisteredUser(name, sid)]
      case Disconnect(conn) => PeersWithout(before, conn)
  }

  /** No event after position `i` disconnects `conn`. */
  ghost predicate NotDisconnectedAfter(events: seq<PresenceEvent>, i: int, conn: string)
  {
    forall j :: 0 <= j < |events| && i < j ==> events[j] != Disconnect(conn)
  }

  /** Some event registered exactly `u`, and no later event disconnected its socket id. */
  ghost predicate RegisteredAndKept(events: seq<PresenceEvent>, u: User)
  {
    u == RegisteredUser(u.username, u.socketId) &&
    exists i :: 0 <= i < |events| && events[i] == Register(u.username, u.socketId) &&
                NotDisconnectedAfter(events, i, u.socketId)
  }

  lemma RegisteredAndKeptAfterRegister(init: seq<PresenceEvent>, name: string, sid: string, u: User)
    ensures RegisteredAndKept(init + [Register(name, sid)], u) <==>
              RegisteredAndKept(init, u) || u == RegisteredUser(name, sid)
  {
    var events := init + [Register(name, sid)];
    var n := |init|;
    if RegisteredAndKept(init, u) {
      var i :| 0 <= i < n && init[i] == Register(u.username, u.socketId) &&
               NotDisconnectedAfter(init, i, u.socketId);
      assert events[i] == init[i];
      assert NotDisconnectedAfter(events, i, u.socketId);
    }
    if u == RegisteredUser(name, sid) {
      assert events[n] == Register(u.username, u.socketId);
      assert NotDisconnectedAfter(events, n, u.socketId);
    }
    if RegisteredAndKept(events, u) && u != RegisteredUser(name, sid) {
      var i :| 0 <= i < |events| && events[i] == Register(u.username, u.socketId) &&
               NotDisconnectedAfter(events, i, u.socketId);
      assert i < n;
      assert forall j :: 0 <= j < n ==> init[j] == events[j];
      assert NotDisconnectedAfter(init, i, u.socketId);
    }
  }

  lemma RegisteredAndKeptAfterDisconnect(init: seq<PresenceEvent>, conn: string, u: User)
    ensures RegisteredAndKept(init + [Disconnect(conn)], u) <==>
              RegisteredAndKept(init, u) && u.socketId != conn
  {
    var events := init + [Disconnect(conn)];
    var n := |init|;
    if RegisteredAndKept(init, u) && u.socketId != conn {
      var i :| 0 <= i < n && init[i] == Register(u.username, u.socketId) &&
               NotDisconnectedAfter(init, i, u.socketId);
      assert events[i] == init[i];
      assert NotDisconnectedAfter(events, i, u.socketId);
    }
    if RegisteredAndKept(events, u) {
      var i :| 0 <= i < |events| && events[i] == Register(u.username, u.socketId) &&
               NotDisconnectedAfter(events, i, u.socketId);
      assert i < n;
      assert forall j :: 0 <= j < n ==> init[j] == events[j];
      assert NotDisconnectedAfter(init, i, u.socketId);
      assert events[n] == Disconnect(conn);
    }
  }

  /** A user is active after the events exactly when it was registered by some event
      that no later disconnect of its socket id cancelled. */
  lemma {:induction false} ReplayNetEffect(events: seq<PresenceEvent>, u: User)
    ensures u in Replay(events) <==> RegisteredAndKept(events, u)
  {
    if events != [] {
      var n := |events| - 1;
      var init := events[..n];
      assert events == init + [events[n]];
      ReplayNetEffect(init, u);
      match events[n]
      case Register(name, sid) =>
        RegisteredAndKeptAfterRegister(init, name, sid, u);
      case Disconnect(conn) =>
        PeersWithoutExactly(Replay(init), conn);
        RegisteredAndKeptAfterDisconnect(init, conn, u);
    }
  }

  /** The scenario: "alice" registers on connection A, then A disconnects; the user
      list is empty again. */
  lemma AliceRegistersThenLeaves()
    ensures Replay([Register("alice", "A")]) == [RegisteredUser("alice", "A")]
    ensures Replay([Register("alice", "A"), Disconnect("A")]) == []
  {
  }
}
