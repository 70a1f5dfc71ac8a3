# Signaling relay: room and connection bookkeeping

A Dafny model of the in-memory state of two WebSocket relays. Both are
driven by transport callbacks that run one at a time.

- `server.mjs` authenticates each connection with a signed token and keeps
  a registry of rooms: a `Map` from room name to the `Set` of connections in
  it. A message is a `join`, a `signal` or a `chat`. A chat fans out to the
  other open members of its room, and a heartbeat interval terminates
  clients that did not answer the previous ping. Modules: `Registry`
  (registry.dfy), `Protocol` (protocol.dfy), `Session` (session.dfy) and
  the class `RoomServer.Server` (room_server.dfy).
- `server.js` keeps a flat `connections` array and forwards every message
  unchanged to every other open socket. Module: `BroadcastRelay`
  (broadcast_relay.dfy).

Shared pieces:
- `Seqs` models a JavaScript `Set` as a duplicate-free sequence in
  insertion order. Insertion order is the order of a chat fan-out.
  `Added` is `Set.add`. `Without` is both `Set.delete` and
  `filter(c => c !== ws)`.
- `JsValue` models `String(v || '')`, which can throw, and `slice(0, n)`.
- `Socket` models `readyState`.
- `Wrappers` holds `Option`.

How the model is laid out:
- Connections are numbered in the order they arrive. That is also the
  iteration order of `wss.clients`.
- `Server.conns[i]` is connection i's record: the verified user (None when
  the token was refused), the `isAlive` flag and the `readyState`.
- `Server.effects` and `Relay.outbox` record, in order, every `send`,
  `ping` and `terminate` call the server makes.
- `terminate()` moves a socket to CLOSING. The later 'close' event is a
  separate transport callback (`OnClose`). It marks the socket CLOSED and
  runs the close handler, if one was attached.
- `ClosingHandshake` in both classes stands for the peer starting to close
  (OPEN to CLOSING). It is a transport event, not code of either file. It
  is there so that the `readyState === OPEN` checks can fail.
- `jwt.verify(token, JWT_SECRET)` is the `verify` function the server is
  constructed with.
- `Date.now()` is the `now` parameter of each callback.
- The transport runs no callback for a connection after its 'close'
  event, so every callback method requires a connection not yet CLOSED.
- Inbound frames arrive already parsed (`Inbound`). Outbound messages are
  `Out` values.

The class invariants: every registered room has at least one member and
no member twice. Every member is an accepted connection whose 'close' has
not run. In `server.js`, `connections` holds exactly the sockets not yet
closed, each once.

The code has no room capacity, rate limiting, protocol-version check,
schema validation, sweep of idle rooms or static shared secret:
- a join always succeeds;
- `signal` does nothing;
- errors carry the texts "Unauthorized", "Invalid message format",
  "Room not found" and "Unknown type", and no code;
- an unknown `type` gets the "Unknown type" error back.

`String(msg.room || '')` and `String(msg.text || '')` (server.mjs:81, 93,
98) run outside the `try` of server.mjs:71-77. For an object or array whose
`String()` throws (an object with its own `toString` that is not a
function, such as `{"toString":0}`, or an array holding one), the TypeError
leaves the handler. The model has such a field as `Unprintable`, and
`OnMessage` reports the escape as `threw`:
- a join with such a room sends nothing and leaves the registry unchanged;
- a chat with such a room sends nothing, because the room is converted
  before the room check;
- a chat with such a text to a missing room still gets "Room not found",
  because the text is converted after the room check;
- the same chat to an existing room sends nothing.

The code also does not check that a chat's sender is a member of the room
it addresses. `ChatEffectsExact` holds whether or not the sender is in
`members`.

## Model

| member | source | states |
|---|---|---|
| `Seqs.Without` | server.js:16 | the result holds every element other than the removed one, and never the removed one |
| `Seqs.WithoutConcat` | server.js:16 | removal works piecewise over a concatenation, so the remaining connections keep their relative order |
| `Seqs.WithoutMultiset` | server.js:16 | exactly the occurrences of the closed socket are removed; every other element keeps its multiplicity |
| `Seqs.WithoutAbsent` | server.mjs:63 | deleting a connection that is not in a room's set changes nothing |
| `Seqs.WithoutPresent` | server.mjs:63 | deleting a present member shrinks the set by one, and empties it exactly when it was the only member |
| `Seqs.Added` | server.mjs:83 | after `add` the connection is a member, the members are the old ones plus it, and the old members keep their order |
| `Seqs.AddedNoDup` | server.mjs:83 | `add` never creates a duplicate member |
| `Socket.Terminated` | server.mjs:118 | `terminate()` leaves a socket not OPEN, and CLOSED only if it already was |
| `JsValue.OrEmpty` | server.mjs:81 | converting a field to a room name or text fails exactly for a field whose `String()` throws; otherwise it gives "" for a falsy value; a string field is kept as it is; an integer is named by a canonical decimal text (no leading zero, no "-0") that reads back as the integer, which makes it `String(n)`; `true` becomes "true"; an array or object becomes its rendering |
| `JsValue.DecimalRoundTrip` | server.mjs:81 | every integer is recovered from the text `String(n)` gives it |
| `JsValue.DecimalOfParse` | server.mjs:81 | every canonical decimal text is the text of the integer it reads as, so an integer has exactly one such text |
| `JsValue.NumberNamesItsText` | server.mjs:81-83 | a non-zero number and a string name the same room exactly when the string is the number's decimal text (`7` and `"7"` do, `"07"` does not) |
| `JsValue.DecimalInjective` | server.mjs:81 | distinct integer values, as parsed, have distinct decimal texts, so they name distinct rooms |
| `JsValue.Truncate` | server.mjs:98 | `slice(0, n)` is a prefix of at most n characters; it is the whole text when that fits, and exactly n characters otherwise |
| `Protocol.Classify` | server.mjs:70-108 | a parse failure or a non-string `type` is malformed; "join", "signal" and "chat" select their cases and every other string is unknown, carrying its name; a join or chat whose `room` cannot be converted throws; otherwise join and chat take the room name from the converted `room` field; a chat's text is missing exactly when the `text` field cannot be converted, and is otherwise a prefix of the converted text, the whole text when it has at most 1000 characters and exactly 1000 characters when it is longer |
| `Registry.Join` | server.mjs:81-83 | the room exists afterwards; its members are the old ones plus the joiner, with the old order kept; no other room changes |
| `Registry.JoinIdempotent` | server.mjs:83 | joining the same room twice is the same as joining once |
| `Registry.JoinPreservesWellFormed` | server.mjs:82-83 | a join keeps every room non-empty and duplicate-free |
| `Registry.Leave` | server.mjs:61-67 | after close the connection is in no room; every remaining room holds exactly its old members minus the connection; rooms the connection was not in are untouched; no room is added |
| `Registry.LeaveDeletesSoleRooms` | server.mjs:63-64 | close deletes exactly the rooms whose only member was the closing connection |
| `Registry.LeavePreservesWellFormed` | server.mjs:62-65 | close keeps every room non-empty and duplicate-free |
| `Registry.LeaveIdempotent` | server.mjs:61-67 | removing the same connection a second time changes nothing |
| `Registry.LeaveAbsent` | server.mjs:61-67 | closing a connection that is in no room leaves the registry as it was |
| `Session.ChatEffects` | server.mjs:99-103 | the chat loop makes no more sends than the room has members, and each is the chat message to a member that is not the sender and is OPEN |
| `Session.ChatEffectsExact` | server.mjs:99-103 | a chat is sent to a connection exactly when it is a member, is not the sender and is OPEN; every send carries the same chat message |
| `Session.ChatEffectsOnce` | server.mjs:99-103 | no recipient gets the same chat twice |
| `Session.Tick` | server.mjs:117-121 | a tick never changes the user, makes a socket CLOSED only if it already was, clears the flag of every client it goes over, leaves a client that missed the ping not OPEN, and leaves an answering client's readyState alone |
| `Session.TickEffect` | server.mjs:117-122 | a tick makes no call on a CLOSED socket and exactly one call on any other: terminate when its flag is false, ping otherwise; never a send |
| `Session.TickEffects` | server.mjs:116-123 | the interval makes no more calls than it goes over clients, never a send, and only on the clients it went over |
| `Session.TickTerminates` | server.mjs:116-120 | a tick terminates exactly the clients whose `isAlive` is false; it sends no message and addresses only the clients it went over |
| `Session.TickPings` | server.mjs:121-122 | a tick pings exactly the clients whose `isAlive` is true |
| `Session.TickOnce` | server.mjs:116-123 | a tick acts on each client at most once |
| `Session.Revived` | server.mjs:34 | a pong sets `isAlive` on an accepted connection and changes nothing else |
| `Session.TwoTicksTerminate` | server.mjs:115-124 | with no pong between two ticks, any client not yet closed is terminated by the second tick at the latest, and that tick's call on it is a terminate |
| `Session.PongKeepsAlive` | server.mjs:34 | an open, accepted client that answers the ping between two ticks is still OPEN after both |
| `RoomServer.Server.constructor` | server.mjs:37 | the server starts with no rooms, no connections and nothing sent |
| `RoomServer.Server.OnConnection` | server.mjs:39-113 | a refused token gets exactly one "Unauthorized" error and a terminate, and no handler; an accepted one is alive, OPEN and gets a welcome carrying its user id; rooms are unchanged |
| `RoomServer.Server.OnMessage` | server.mjs:69-110 | per request kind: the error reply, the join (registry updated, "joined" to the sender only), nothing for signal, "Room not found" without touching peers, or the chat fan-out; only a join changes the registry; a refused connection's frames change nothing; the handler throws exactly for a join or chat whose room cannot be converted, or a chat to an existing room whose text cannot be converted, and then sends nothing and changes nothing |
| `RoomServer.Server.HandleJoin` | server.mjs:80-86 | the registry becomes the registry after the join and the sender alone gets "joined" with the room name; the invariant is kept |
| `RoomServer.Server.HandleChat` | server.mjs:92-105 | a chat to a room not in the registry sends only "Room not found" to the sender, whatever its text; for a room in the registry a text that cannot be converted throws and sends nothing, and any other text is fanned out over that room's members |
| `RoomServer.Server.FanOut` | server.mjs:99-103 | the loop's sends are exactly the chat fan-out, in member order |
| `RoomServer.Server.OnPong` | server.mjs:55 | the pong handler revives only accepted connections |
| `RoomServer.Server.OnClose` | server.mjs:61-67 | the socket is CLOSED and the registry is the registry after close, so the connection is in no room |
| `RoomServer.Server.HeartbeatTick` | server.mjs:115-124 | each connection is ticked and the calls made are those of the tick, in connection order; the registry is unchanged |
| `RoomServer.JoinThenChat` | server.mjs:80-103 | two accepted clients join "r1" and the first chats "hi": the only effect of the chat is one send to the second client, from the first client's user id |
| `BroadcastRelay.Deliveries` | server.js:9-13 | the `forEach` makes no more sends than there are connections, each to an OPEN connection in the array other than the sender, carrying the received bytes |
| `BroadcastRelay.DeliveriesExact` | server.js:9-13 | a message is sent to a socket exactly when it is in `connections`, is not the sender and is OPEN, and every send carries the received bytes unchanged |
| `BroadcastRelay.DeliveriesOnce` | server.js:9-13 | no recipient gets the same message twice |
| `BroadcastRelay.Relay.constructor` | server.js:4 | the relay starts with no connections |
| `BroadcastRelay.Relay.OnConnection` | server.js:7 | the new socket is appended as the last element and the earlier elements are unchanged |
| `BroadcastRelay.Relay.OnMessage` | server.js:8-14 | the sends are exactly the deliveries above, `connections` does not change and the invariant is kept |
| `BroadcastRelay.Relay.OnClose` | server.js:15-17 | the socket is CLOSED and filtered out of `connections` |

## Left out

- The HTTP server, the WebSocket library, the handshake and URL/query parsing (server.mjs:20-30, 40-43; server.js:1-2): transport plumbing. The token is an input value.
- `jwt.verify` (server.mjs:47): a cryptographic library call. It is the `verify` function the server is constructed with.
- `JSON.parse` and `JSON.stringify`: library calls. Frames arrive as `Inbound` values and leave as `Out` values.
- `Date.now()` (server.mjs:101, 112): each callback takes one `now`. The source reads the clock again for every chat send, so recipients of one chat may see different `ts` values.
- Configuration, `process.exit`, logging, the 'error' handler (which only logs), the `shutdown` function and `server.listen` (server.mjs:10-18, 57-59, 126-149; server.js:20): I/O and process lifecycle.
- `setInterval` scheduling: one interval is one call of `HeartbeatTick`.
- Delivery: `effects` and `outbox` record calls. The library silently drops a send or ping to a socket that is no longer OPEN. The 'close' event does not come from the server's own code: the caller of `OnClose` decides when it happens.
- The frame opcode: in `server.js` a forwarded `Buffer` goes out as a binary frame. The model keeps only the bytes.
- `maxPayload` (server.mjs:11-12, 29): enforced by the library before a frame reaches the handler.
- JsValue.OrEmpty: only integer numbers are modelled. `Num(n)` is the number `JSON.parse` produced, not the digits in the frame. A JavaScript number is a double, so integers beyond 2^53 in magnitude are not modelled faithfully: two different digit strings can parse to one number (9007199254740992 and 9007199254740993), and `String()` prints such a number rounded (2^64 prints as 18446744073709552000) or, from 10^21 upward, in exponent form. `Decimal(n)` is `String(n)` only for integers up to 2^53 in magnitude. An array or object carries the text `String()` gives it rather than its structure.
- The TypeError that escapes the 'message' handler (server.mjs:81, 93, 98) is not caught in server.mjs. The model records that it was thrown (`threw`) and that nothing was sent or changed before it. What the WebSocket library and the Node.js process then do with the exception is not part of this model.
- JsValue.Truncate: counts Dafny characters (Unicode scalar values). JavaScript's `slice` counts UTF-16 code units, so text with characters outside the Basic Multilingual Plane is cut at a different place.
