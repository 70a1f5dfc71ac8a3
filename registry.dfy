/**
 * The room registry of server.mjs: a map from room name to the connections
 * in the room. A room's member `Set` is a duplicate-free sequence in
 * insertion order, the order in which a chat fans out to its members.
 */
module Registry {
  import opened Seqs

  type RoomId = string
  type ConnId = nat
  type Rooms = map<RoomId, seq<ConnId>>

  /** Every registered room has at least one member, and no member twice. */
  predicate WellFormed(rooms: Rooms) {
    forall r :: r in rooms ==> rooms[r] != [] && NoDup(rooms[r])
  }

  /** The registry after connection id joins room: the room is created if absent, then id added. */
  function Join(rooms: Rooms, room: RoomId, id: ConnId): (r: Rooms)
    ensures r.Keys == rooms.Keys + {room}
    ensures forall x :: x in r[room] <==> x == id || (room in rooms && x in rooms[room])
    ensures room in rooms ==> |r[room]| >= |rooms[room]| && r[room][..|rooms[room]|] == rooms[room]
    ensures forall other :: other in rooms && other != room ==> r[other] == rooms[other]
  {
    var clients := if room in rooms then rooms[room] else [];
    rooms[room := Added(clients, id)]
  }

  /** True when deleting id from clients empties them, the condition for deleting the room. */
  predicate Emptied(clients: seq<ConnId>, id: ConnId) {
    id in clients && Without(clients, id) == []
  }

  /**
   * The registry after connection id closes: id is deleted from every room,
   * and a room is deleted when that deletion left it empty.
   */
  function Leave(rooms: Rooms, id: ConnId): (r: Rooms)
    ensures r.Keys <= rooms.Keys
    ensures forall room :: room in r ==> id !in r[room]
    ensures forall room, x :: room in r ==> (x in r[room] <==> x in rooms[room] && x != id)
    ensures forall room :: room in rooms && id !in rooms[room] ==> room in r && r[room] == rooms[room]
  {
    var r := map room | room in rooms && !Emptied(rooms[room], id) :: Without(rooms[room], id);
    assert forall room :: room in rooms && id !in rooms[room] ==> room in r && r[room] == rooms[room] by {
      forall room | room in rooms && id !in rooms[room] ensures room in r && r[room] == rooms[room] {
        WithoutAbsent(rooms[room], id);
      }
    }
    r
  }

  lemma JoinPreservesWellFormed(rooms: Rooms, room: RoomId, id: ConnId)
    requires WellFormed(rooms)
    ensures WellFormed(Join(rooms, room, id))
  {
    if room in rooms {
      AddedNoDup(rooms[room], id);
    }
  }

  /** A Set ignores a second add: joining twice is joining once. */
  lemma JoinIdempotent(rooms: Rooms, room: RoomId, id: ConnId)
    ensures Join(Join(rooms, room, id), room, id) == Join(rooms, room, id)
  {
  }

  lemma {:induction false} LeavePreservesWellFormed(rooms: Rooms, id: ConnId)
    requires WellFormed(rooms)
    ensures WellFormed(Leave(rooms, id))
  {
    var r := Leave(rooms, id);
    forall room | room in r ensures r[room] != [] && NoDup(r[room]) {
      WithoutNoDup(rooms[room], id);
      if id in rooms[room] {
        WithoutPresent(rooms[room], id);
      } else {
        WithoutAbsent(rooms[room], id);
      }
    }
  }

  /** Close deletes exactly the rooms whose only member was the closing connection. */
  lemma {:induction false} LeaveDeletesSoleRooms(rooms: Rooms, id: ConnId)
    requires WellFormed(rooms)
    ensures forall room :: room in rooms ==> (room !in Leave(rooms, id) <==> rooms[room] == [id])
  {
    forall room | room in rooms ensures room !in Leave(rooms, id) <==> rooms[room] == [id] {
      if id in rooms[room] {
        WithoutPresent(rooms[room], id);
      }
    }
  }

  /** Closing is idempotent: a second removal of the same connection changes nothing. */
  lemma {:induction false} LeaveIdempotent(rooms: Rooms, id: ConnId)
    ensures Leave(Leave(rooms, id), id) == Leave(rooms, id)
  {
    var once := Leave(rooms, id);
    var twice := Leave(once, id);
    assert twice.Keys == once.Keys;
  }

  /** A connection that is in no room leaves the registry as it is. */
  lemma {:induction false} LeaveAbsent(rooms: Rooms, id: ConnId)
    requires forall room :: room in rooms ==> id !in rooms[room]
    ensures Leave(rooms, id) == rooms
  {
    assert Leave(rooms, id).Keys == rooms.Keys;
  }
}
