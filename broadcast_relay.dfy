/**
 * server.js: a flat relay. Every accepted socket is appended to the
 * `connections` array; each message a socket sends is forwarded unchanged
 * to every other OPEN socket in the array; a closed socket is filtered out.
 */
module BroadcastRelay {
  import opened Seqs
  import opened Socket

  type ConnId = nat
  newtype byte = x: int | 0 <= x < 256

  /** One `conn.send(message)` call: the recipient and the bytes handed over. */
  datatype Delivery = Delivery(to: ConnId, data: seq<byte>)

  /** A socket that gets the sender's message: another socket whose readyState is OPEN. */
  predicate RelayPeer(states: seq<ReadyState>, sender: ConnId, c: ConnId) {
    c != sender && c < |states| && states[c] == Open
  }

  /** The `forEach` over connections: the sends, in array order. */
  function Deliveries(connections: seq<ConnId>, states: seq<ReadyState>, sender: ConnId, data: seq<byte>): (r: seq<Delivery>)
    ensures |r| <= |connections|
    ensures forall d :: d in r ==> d.data == data && d.to in connections && RelayPeer(states, sender, d.to)
  {
    if connections == [] then []
    else
      var c := connections[|connections| - 1];
      Deliveries(connections[..|connections| - 1], states, sender, data)
        + (if RelayPeer(states, sender, c) then [Delivery(c, data)] else [])
  }

  /**
   * A message reaches exactly the OPEN connections other than the sender,
   * byte for byte as it came in.
   */
  lemma {:induction false} DeliveriesExact(connections: seq<ConnId>, states: seq<ReadyState>, sender: ConnId, data: seq<byte>)
    ensures forall d :: d in Deliveries(connections, states, sender, data) ==> d.data == data
    ensures forall c: ConnId :: Delivery(c, data) in Deliveries(connections, states, sender, data) <==>
      c in connections && RelayPeer(states, sender, c)
  {
    if connections != [] {
      var init := connections[..|connections| - 1];
      DeliveriesExact(init, states, sender, data);
      assert connections == init + [connections[|connections| - 1]];
    }
  }

  /** Each recipient gets the message once, because a socket is in the array once. */
  lemma {:induction false} DeliveriesOnce(connections: seq<ConnId>, states: seq<ReadyState>, sender: ConnId, data: seq<byte>)
    requires NoDup(connections)
    ensures NoDup(Deliveries(connections, states, sender, data))
  {
    if connections != [] {
      var init := connections[..|connections| - 1];
      var c := connections[|connections| - 1];
      assert NoDup(init);
      DeliveriesOnce(init, states, sender, data);
      DeliveriesExact(init, states, sender, data);
      assert c !in init;
      assert Delivery(c, data) !in Deliveries(init, states, sender, data);
    }
  }

  class Relay {
    /** The `connections` array. */
    var connections: seq<ConnId>
    /** readyState of every socket ever accepted, indexed by id. */
    var states: seq<ReadyState>
    /** Every `conn.send` call so far, in order. */
    var outbox: seq<Delivery>

    /** `connections` holds each socket whose 'close' has not run, once. */
    ghost predicate Valid()
      reads this
    {
      && NoDup(connections)
      && (forall c :: c in connections ==> c < |states|)
      && (forall c :: 0 <= c < |states| ==> (c in connections <==> states[c] != Closed))
    }

    constructor ()
      ensures Valid() && connections == [] && states == [] && outbox == []
    {
      connections, states, outbox := [], [], [];
    }

    /** The 'connection' handler: the new socket goes to the end of the array. */
    method OnConnection() returns (id: ConnId)
      requires Valid()
      modifies this`connections, this`states
      ensures Valid()
      ensures id == |old(states)| && id !in old(connections)
      ensures states == old(states) + [Open]
      ensures connections == old(connections) + [id]
      ensures outbox == old(outbox)
    {
      id := |states|;
      assert id !in connections;
      AddedNoDup(connections, id);
      states := states + [Open];
      connections := connections + [id];
    }

    /** The 'message' handler: forward the message to every other OPEN socket. */
    method OnMessage(id: ConnId, data: seq<byte>)
      requires Valid() && id < |states| && states[id] != Closed
      modifies this`outbox
      ensures Valid()
      ensures connections == old(connections) && states == old(states)
      ensures outbox == old(outbox) + Deliveries(connections, states, id, data)
    {
      var i := 0;
      while i < |connections|
        invariant 0 <= i <= |connections|
        invariant outbox == old(outbox) + Deliveries(connections[..i], states, id, data)
      {
        var conn := connections[i];
        assert connections[..i + 1][..i] == connections[..i];
        if conn != id && conn < |states| && states[conn] == Open {
          outbox := outbox + [Delivery(conn, data)];
        }
        i := i + 1;
      }
      assert connections[..i] == connections;
    }

    /** The peer begins a closing handshake: readyState goes to CLOSING. */
    method ClosingHandshake(id: ConnId)
      requires Valid() && id < |states| && states[id] != Closed
      modifies this`states
      ensures Valid()
      ensures states == old(states)[id := Closing]
    {
      states := states[id := Closing];
    }

    /** The 'close' event: the socket is CLOSED and filtered out of the array. */
    method OnClose(id: ConnId)
      requires Valid() && id < |states| && states[id] != Closed
      modifies this`connections, this`states
      ensures Valid()
      ensures states == old(states)[id := Closed]
      ensures connections == Without(old(connections), id)
      ensures outbox == old(outbox)
    {
      states := states[id := Closed];
      WithoutNoDup(connections, id);
      connections := Without(connections, id);
    }
  }
}
