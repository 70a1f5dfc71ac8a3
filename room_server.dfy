/**
 * server.mjs as a state machine: the module-level `rooms` Map, the
 * connection objects `wss.clients` holds (ids in connection order), and
 * the calls made on them, recorded in order in `effects`. Each method is
 * one callback the transport runs: a new connection, a message, a pong, a
 * close, one heartbeat interval. They run one at a time.
 */
module RoomServer {
  import opened Wrappers
  import opened Seqs
  import opened Socket
  import opened JsValue
  import opened Protocol
  import opened Registry
  import opened Session

  class Server {
    /** `jwt.verify(token, JWT_SECRET)`: the payload, or None where it throws. */
    const verify: Option<string> -> Option<Claims>
    var rooms: Rooms
    var conns: seq<Conn>
    var effects: seq<Effect>

    /**
     * Every room is non-empty and duplicate-free, and its members are
     * accepted connections whose 'close' event has not yet run.
     */
    ghost predicate Valid()
      reads this
    {
      && WellFormed(rooms)
      && forall r :: r in rooms ==>
           forall m :: m in rooms[r] ==> m < |conns| && conns[m].user.Some? && conns[m].state != Closed
    }

    constructor (verify: Option<string> -> Option<Claims>)
      ensures Valid()
      ensures this.verify == verify && rooms == map[] && conns == [] && effects == []
    {
      this.verify := verify;
      rooms, conns, effects := map[], [], [];
    }

    /**
     * The 'connection' handler: a refused token gets one Unauthorized error
     * and a terminate, and no handler; an accepted one is marked alive and
     * welcomed with its user id.
     */
    method OnConnection(token: Option<string>, now: int) returns (id: ConnId)
      requires Valid()
      modifies this
      ensures Valid()
      ensures id == |old(conns)| && rooms == old(rooms)
      ensures verify(token).None? ==>
        && conns == old(conns) + [Conn(None, false, Closing)]
        && effects == old(effects) + [Send(id, Error(UnauthorizedText)), Terminate(id)]
      ensures verify(token).Some? ==>
        && conns == old(conns) + [Conn(verify(token), true, Open)]
        && effects == old(effects) + [Send(id, Welcome(verify(token).value.id, now))]
    {
      id := |conns|;
      var user := verify(token);
      if user.None? {
        conns := conns + [Conn(None, false, Open)];
        effects := effects + [Send(id, Error(UnauthorizedText))];
        conns := conns[id := conns[id].(state := Terminated(conns[id].state))];
        effects := effects + [Terminate(id)];
        return;
      }
      conns := conns + [Conn(user, true, Open)];
      effects := effects + [Send(id, Welcome(user.value.id, now))];
    }

    /**
     * The 'message' handler. A refused connection has none. Otherwise the
     * frame is classified and: malformed and unknown types get an error
     * back, a join updates the registry and is confirmed to the sender
     * only, a signal does nothing, and a chat to a missing room gets an
     * error while one to an existing room fans out to the open peers.
     * `threw` reports a TypeError from `String()` escaping the handler,
     * which then has sent nothing and changed nothing.
     */
    method OnMessage(id: ConnId, msg: Inbound, now: int) returns (threw: bool)
      requires Valid() && id < |conns| && conns[id].state != Closed
      modifies this`rooms, this`effects
      ensures Valid()
      ensures threw <==>
        && conns[id].user.Some?
        && (|| Classify(msg).Throws?
            || (Classify(msg).ChatIn? && Classify(msg).room in old(rooms) && Classify(msg).text.None?))
      ensures threw ==> rooms == old(rooms) && effects == old(effects)
      ensures conns[id].user.None? ==> rooms == old(rooms) && effects == old(effects)
      ensures conns[id].user.Some? && Classify(msg).Malformed? ==>
        rooms == old(rooms) && effects == old(effects) + [Send(id, Error(InvalidFormatText))]
      ensures conns[id].user.Some? && Classify(msg).JoinRoom? ==>
        && rooms == Join(old(rooms), Classify(msg).room, id)
        && effects == old(effects) + [Send(id, Joined(Classify(msg).room))]
      ensures conns[id].user.Some? && Classify(msg).Signal? ==>
        rooms == old(rooms) && effects == old(effects)
      ensures conns[id].user.Some? && Classify(msg).ChatIn? && Classify(msg).room !in old(rooms) ==>
        rooms == old(rooms) && effects == old(effects) + [Send(id, Error(RoomNotFoundText))]
      ensures conns[id].user.Some? && Classify(msg).ChatIn? && Classify(msg).room in old(rooms) && Classify(msg).text.Some? ==>
        && rooms == old(rooms)
        && effects == old(effects)
             + ChatEffects(old(rooms)[Classify(msg).room], conns, id, Chat(conns[id].user.value.id, Classify(msg).text.value, now))
      ensures conns[id].user.Some? && Classify(msg).UnknownType? ==>
        rooms == old(rooms) && effects == old(effects) + [Send(id, Error(UnknownTypeText))]
    {
      threw := false;
      var user := conns[id].user;
      if user.None? {
        return;
      }
      match Classify(msg)
      case Malformed =>
        effects := effects + [Send(id, Error(InvalidFormatText))];
      case Throws =>
        threw := true;
      case JoinRoom(room) =>
        HandleJoin(id, room);
      case Signal =>
      case ChatIn(room, text) =>
        threw := HandleChat(id, room, text, user.value.id, now);
      case UnknownType(_) =>
        effects := effects + [Send(id, Error(UnknownTypeText))];
    }

    /** The `join` case: create the room if it is missing, add the sender, confirm to the sender. */
    method HandleJoin(id: ConnId, room: RoomId)
      requires Valid() && id < |conns| && conns[id].user.Some? && conns[id].state != Closed
      modifies this`rooms, this`effects
      ensures Valid()
      ensures rooms == Join(old(rooms), room, id)
      ensures effects == old(effects) + [Send(id, Joined(room))]
    {
      JoinPreservesWellFormed(rooms, room, id);
      if room !in rooms {
        rooms := rooms[room := []];
      }
      rooms := rooms[room := Added(rooms[room], id)];
      effects := effects + [Send(id, Joined(room))];
    }

    /**
     * The `chat` case: an error for a missing room; otherwise the text is
     * converted (None: the conversion throws and nothing is sent) and fanned
     * out to the room's members as a chat from `from`.
     */
    method HandleChat(id: ConnId, room: RoomId, text: Option<string>, from: Value, now: int) returns (threw: bool)
      modifies this`effects
      ensures threw <==> room in rooms && text.None?
      ensures room !in rooms ==> effects == old(effects) + [Send(id, Error(RoomNotFoundText))]
      ensures room in rooms && text.None? ==> effects == old(effects)
      ensures room in rooms && text.Some? ==>
        effects == old(effects) + ChatEffects(rooms[room], conns, id, Chat(from, text.value, now))
    {
      threw := false;
      if room !in rooms {
        effects := effects + [Send(id, Error(RoomNotFoundText))];
      } else if text.None? {
        threw := true;
      } else {
        FanOut(rooms[room], id, Chat(from, text.value, now));
      }
    }

    /** The chat loop: `peer.send(msg)` for each member that is not the sender and is OPEN. */
    method FanOut(members: seq<ConnId>, sender: ConnId, msg: Out)
      modifies this`effects
      ensures effects == old(effects) + ChatEffects(members, conns, sender, msg)
    {
      var i := 0;
      while i < |members|
        invariant 0 <= i <= |members|
        invariant effects == old(effects) + ChatEffects(members[..i], conns, sender, msg)
      {
        var peer := members[i];
        assert members[..i + 1][..i] == members[..i];
        if peer != sender && peer < |conns| && conns[peer].state == Open {
          effects := effects + [Send(peer, msg)];
        }
        i := i + 1;
      }
      assert members[..i] == members;
    }

    /** The pong handler, attached only to accepted connections, sets the heartbeat flag. */
    method OnPong(id: ConnId)
      requires Valid() && id < |conns| && conns[id].state != Closed
      modifies this`conns
      ensures Valid()
      ensures conns == old(conns)[id := Revived(old(conns)[id])]
    {
      if conns[id].user.Some? {
        conns := conns[id := conns[id].(isAlive := true)];
      }
    }

    /**
     * The transport's 'close' event: the socket is CLOSED and, for an
     * accepted connection, the close handler deletes it from every room,
     * deleting each room it leaves empty.
     */
    method OnClose(id: ConnId)
      requires Valid() && id < |conns| && conns[id].state != Closed
      modifies this`rooms, this`conns
      ensures Valid()
      ensures conns == old(conns)[id := old(conns)[id].(state := Closed)]
      ensures rooms == Leave(old(rooms), id)
      ensures forall r :: r in rooms ==> id !in rooms[r]
    {
      var accepted := conns[id].user.Some?;
      conns := conns[id := conns[id].(state := Closed)];
      if !accepted {
        LeaveAbsent(rooms, id);
        return;
      }
      ghost var before := rooms;
      var pending := rooms.Keys;
      while pending != {}
        modifies this`rooms
        invariant pending <= before.Keys && rooms.Keys <= before.Keys
        invariant forall r :: r in pending ==> r in rooms && rooms[r] == before[r]
        invariant forall r :: r in before && r !in pending ==>
          (r in rooms <==> r in Leave(before, id)) && (r in rooms ==> rooms[r] == Leave(before, id)[r])
        decreases pending
      {
        var room :| room in pending;
        var clients := rooms[room];
        if id in clients {
          var rest := Without(clients, id);
          if rest == [] {
            rooms := rooms - {room};
          } else {
            rooms := rooms[room := rest];
          }
        } else {
          WithoutAbsent(clients, id);
        }
        pending := pending - {room};
      }
      assert rooms.Keys == Leave(before, id).Keys;
      LeavePreservesWellFormed(before, id);
    }

    /** The peer begins a closing handshake: readyState goes from OPEN to CLOSING. */
    method ClosingHandshake(id: ConnId)
      requires Valid() && id < |conns| && conns[id].state != Closed
      modifies this`conns
      ensures Valid()
      ensures conns == old(conns)[id := old(conns)[id].(state := Closing)]
    {
      conns := conns[id := conns[id].(state := Closing)];
    }

    /**
     * One heartbeat interval over `wss.clients` (the connections not yet
     * CLOSED, in connection order): terminate each whose flag is false,
     * otherwise clear the flag and ping it.
     */
    method HeartbeatTick()
      requires Valid()
      modifies this`conns, this`effects
      ensures Valid()
      ensures |conns| == |old(conns)|
      ensures forall k :: 0 <= k < |conns| ==> conns[k] == Tick(old(conns)[k])
      ensures effects == old(effects) + TickEffects(old(conns), |conns|)
    {
      for i := 0 to |conns|
        invariant |conns| == |old(conns)|
        invariant forall k :: 0 <= k < i ==> conns[k] == Tick(old(conns)[k])
        invariant forall k :: i <= k < |conns| ==> conns[k] == old(conns)[k]
        invariant effects == old(effects) + TickEffects(old(conns), i)
        invariant Valid()
      {
        var c := conns[i];
        if c.state == Closed {
          continue;
        }
        if !c.isAlive {
          conns := conns[i := c.(state := Terminated(c.state))];
          effects := effects + [Terminate(i)];
          continue;
        }
        conns := conns[i := c.(isAlive := false)];
        effects := effects + [Ping(i)];
      }
    }
  }

  /** How the two frames of `JoinThenChat` are classified. */
  lemma JoinAndChatFrames()
    ensures Classify(Parsed(Str("join"), Str("r1"), Undefined)) == JoinRoom("r1")
    ensures Classify(Parsed(Str("chat"), Str("r1"), Str("hi"))) == ChatIn("r1", Some("hi"))
  {
  }

  /** In a room of two, a chat from the first member reaches the second when it is OPEN. */
  lemma ChatToOther(a: ConnId, b: ConnId, conns: seq<Conn>, msg: Out)
    requires a != b && b < |conns| && conns[b].state == Open
    ensures ChatEffects([a, b], conns, a, msg) == [Send(b, msg)]
  {
    assert [a, b][..1] == [a] && [a][..0] == [];
    assert ChatEffects([a], conns, a, msg) == [];
  }

  /**
   * Two accepted clients join room "r1", then the first says "hi": the
   * second client is the only one to receive anything, a chat from the
   * first client's user id.
   */
  method JoinThenChat(verify: Option<string> -> Option<Claims>, tokenA: Option<string>, tokenB: Option<string>, now: int)
    returns (a: ConnId, b: ConnId, delivered: seq<Effect>)
    requires verify(tokenA).Some? && verify(tokenB).Some?
    ensures a != b
    ensures delivered == [Send(b, Chat(verify(tokenA).value.id, "hi", now))]
  {
    var server := new Server(verify);
    a := server.OnConnection(tokenA, now);
    b := server.OnConnection(tokenB, now);
    assert server.conns == [Conn(verify(tokenA), true, Open), Conn(verify(tokenB), true, Open)];
    var join := Parsed(Str("join"), Str("r1"), Undefined);
    var hi := Parsed(Str("chat"), Str("r1"), Str("hi"));
    JoinAndChatFrames();
    var threw := server.OnMessage(a, join, now);
    assert server.rooms == map["r1" := [a]];
    assert Join(map["r1" := [a]], "r1", b) == map["r1" := [a, b]] by {
      assert a != b && b !in [a];
      assert Added([a], b) == [a, b];
    }
    threw := server.OnMessage(b, join, now);
    var mark := |server.effects|;
    assert server.rooms == map["r1" := [a, b]];
    ChatToOther(a, b, server.conns, Chat(verify(tokenA).value.id, "hi", now));
    threw := server.OnMessage(a, hi, now);
    delivered := server.effects[mark..];
  }
}
