/**
 * Per-connection bookkeeping of server.mjs: the connection record, the
 * transport calls the server makes (send, ping, terminate), the chat
 * fan-out and one heartbeat tick, as functions of the current records.
 */
module Session {
  import opened Wrappers
  import opened Seqs
  import opened Socket
  import opened Protocol

  type ConnId = nat

  /**
   * One WebSocket connection. `user` is the verified payload (`ws.user`),
   * None for a connection whose token was refused. `isAlive` is the
   * heartbeat flag; a refused connection never had it set, which reads as
   * false.
   */
  datatype Conn = Conn(user: Option<Claims>, isAlive: bool, state: ReadyState)

  /** A call the server makes on a connection: `ws.send(m)`, `ws.ping()` or `ws.terminate()`. */
  datatype Effect =
    | Send(to: ConnId, msg: Out)
    | Ping(to: ConnId)
    | Terminate(to: ConnId)

  /** A member that receives a chat: not the sender, and its readyState is OPEN. */
  predicate ChatPeer(conns: seq<Conn>, sender: ConnId, p: ConnId) {
    p != sender && p < |conns| && conns[p].state == Open
  }

  /** The sends of one chat fan-out over a room's members, in member order. */
  function ChatEffects(members: seq<ConnId>, conns: seq<Conn>, sender: ConnId, msg: Out): (r: seq<Effect>)
    ensures |r| <= |members|
    ensures forall e :: e in r ==> e == Send(e.to, msg) && e.to in members && ChatPeer(conns, sender, e.to)
  {
    if members == [] then []
    else
      var p := members[|members| - 1];
      ChatEffects(members[..|members| - 1], conns, sender, msg)
        + (if ChatPeer(conns, sender, p) then [Send(p, msg)] else [])
  }

  /**
   * A chat reaches exactly the open members other than the sender (so never
   * the sender), and every effect of it is that chat message.
   */
  lemma {:induction false} ChatEffectsExact(members: seq<ConnId>, conns: seq<Conn>, sender: ConnId, msg: Out)
    ensures forall e :: e in ChatEffects(members, conns, sender, msg) ==> e == Send(e.to, msg)
    ensures forall p: ConnId :: Send(p, msg) in ChatEffects(members, conns, sender, msg) <==> p in members && ChatPeer(conns, sender, p)
  {
    if members != [] {
      var init := members[..|members| - 1];
      ChatEffectsExact(init, conns, sender, msg);
      assert members == init + [members[|members| - 1]];
    }
  }

  /** Each recipient of a chat gets it once: a room's members are distinct. */
  lemma {:induction false} ChatEffectsOnce(members: seq<ConnId>, conns: seq<Conn>, sender: ConnId, msg: Out)
    requires NoDup(members)
    ensures NoDup(ChatEffects(members, conns, sender, msg))
  {
    if members != [] {
      var init := members[..|members| - 1];
      var p := members[|members| - 1];
      assert NoDup(init);
      ChatEffectsOnce(init, conns, sender, msg);
      ChatEffectsExact(init, conns, sender, msg);
      assert p !in init;
      var before := ChatEffects(init, conns, sender, msg);
      assert forall e :: e in before ==> e.to != p;
    }
  }

  /** One heartbeat tick on one connection: kill it if it missed the last ping, else clear the flag. */
  function Tick(c: Conn): (r: Conn)
    ensures r.user == c.user
    ensures r.state == Closed <==> c.state == Closed
    ensures c.state != Closed ==> !r.isAlive
    ensures c.state != Closed && !c.isAlive ==> r.state != Open
    ensures c.isAlive ==> r.state == c.state
  {
    if c.state == Closed then c
    else if !c.isAlive then c.(state := Terminated(c.state))
    else c.(isAlive := false)
  }

  /** The calls one tick makes on connection id; a CLOSED connection is no longer among the clients. */
  function TickEffect(id: ConnId, c: Conn): (r: seq<Effect>)
    ensures r == [] <==> c.state == Closed
    ensures |r| <= 1
    ensures forall e :: e in r ==> e.to == id && !e.Send? && (e.Terminate? <==> !c.isAlive)
  {
    if c.state == Closed then []
    else if !c.isAlive then [Terminate(id)]
    else [Ping(id)]
  }

  /** The calls one tick makes on the first n connections, in connection order. */
  function TickEffects(conns: seq<Conn>, n: nat): (r: seq<Effect>)
    requires n <= |conns|
    ensures |r| <= n
    ensures forall e :: e in r ==> !e.Send? && e.to < n
  {
    if n == 0 then [] else TickEffects(conns, n - 1) + TickEffect(n - 1, conns[n - 1])
  }

  /** A tick terminates exactly the clients whose flag is false and sends no message. */
  lemma {:induction false} TickTerminates(conns: seq<Conn>, n: nat)
    requires n <= |conns|
    ensures forall k: ConnId :: Terminate(k) in TickEffects(conns, n) <==> k < n && conns[k].state != Closed && !conns[k].isAlive
    ensures forall e :: e in TickEffects(conns, n) ==> !e.Send? && e.to < n
  {
    if n > 0 {
      TickTerminates(conns, n - 1);
    }
  }

  /** A tick pings exactly the clients whose flag is true. */
  lemma {:induction false} TickPings(conns: seq<Conn>, n: nat)
    requires n <= |conns|
    ensures forall k: ConnId :: Ping(k) in TickEffects(conns, n) <==> k < n && conns[k].state != Closed && conns[k].isAlive
  {
    if n > 0 {
      TickPings(conns, n - 1);
      TickTerminates(conns, n - 1);
    }
  }

  /** A tick acts on each client at most once. */
  lemma {:induction false} TickOnce(conns: seq<Conn>, n: nat)
    requires n <= |conns|
    ensures NoDup(TickEffects(conns, n))
  {
    if n > 0 {
      TickOnce(conns, n - 1);
      TickTerminates(conns, n - 1);
    }
  }

  /** The pong handler: only an accepted connection has one, and it sets the flag. */
  function Revived(c: Conn): (r: Conn)
    ensures r.user == c.user && r.state == c.state
    ensures r.isAlive <==> c.isAlive || c.user.Some?
  {
    if c.user.Some? then c.(isAlive := true) else c
  }

  /** Without a pong in between, a live client is terminated by the second of two ticks. */
  lemma TwoTicksTerminate(id: ConnId, c: Conn)
    requires c.state != Closed
    ensures Tick(Tick(c)).state == Closing
    ensures TickEffect(id, Tick(c)) == [Terminate(id)]
  {
  }

  /** An accepted, open client that answers the ping between two ticks survives both. */
  lemma PongKeepsAlive(c: Conn)
    requires c.state == Open && c.user.Some? && c.isAlive
    ensures Tick(Revived(Tick(c))).state == Open
  {
  }
}
