/**
 * The part of a WebSocket connection's life that both relays look at: its
 * readyState. A socket is OPEN once accepted, CLOSING after `terminate()` or
 * once a closing handshake has begun, and CLOSED when the transport emits
 * its 'close' event.
 */
module Socket {
  datatype ReadyState = Open | Closing | Closed

  /** readyState after `ws.terminate()`: a closed socket stays closed, any other starts closing. */
  function Terminated(s: ReadyState): (r: ReadyState)
    ensures r != Open
    ensures s == Closed <==> r == Closed
  {
    if s == Closed then Closed else Closing
  }
}
