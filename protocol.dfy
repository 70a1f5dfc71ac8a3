/**
 * The message protocol of server.mjs: what an inbound text frame is once
 * parsed, what the dispatcher makes of it, and the outbound messages.
 * JSON parsing and serialising are not modelled: an inbound frame arrives
 * already parsed (or as a parse failure), an outbound one as an `Out` value.
 */
module Protocol {
  import opened Wrappers
  import opened JsValue

  type RoomId = string

  /** Chat text is cut to this many characters. */
  const MaxChatLength: nat := 1000

  const UnauthorizedText := "Unauthorized"
  const InvalidFormatText := "Invalid message format"
  const RoomNotFoundText := "Room not found"
  const UnknownTypeText := "Unknown type"

  /** The verified token's payload; only its `id` claim is used. */
  datatype Claims = Claims(id: Value)

  /**
   * An inbound frame after `JSON.parse`. A frame that parses to something
   * other than an object has every field `Undefined`.
   */
  datatype Inbound =
    | Unparsable
    | Parsed(msgType: Value, room: Value, text: Value)

  /**
   * What the `message` handler decides to do with a frame. `Throws` is a
   * join or chat whose `String(msg.room || '')` throws: the TypeError leaves
   * the handler before anything is sent or changed. A chat's text is
   * converted only once its room is found, so `ChatIn` keeps the text as
   * an option, None when that later conversion throws.
   */
  datatype Request =
    | Malformed
    | Throws
    | JoinRoom(room: RoomId)
    | Signal
    | ChatIn(room: RoomId, text: Option<string>)
    | UnknownType(name: string)

  /** Outbound messages, before `JSON.stringify`. */
  datatype Out =
    | Welcome(user: Value, ts: int)
    | Joined(room: RoomId)
    | Error(message: string)
    | Chat(from: Value, text: string, ts: int)

  /**
   * The dispatcher's decision: a failed parse or a non-string `type` is
   * malformed; otherwise the switch on `type`, with the room name
   * normalised by `String(msg.room || '')` and chat text by
   * `String(msg.text || '').slice(0, 1000)`. Both conversions run outside
   * the handler's `try`, so one that throws escapes it.
   */
  function Classify(m: Inbound): (r: Request)
    ensures r.Malformed? <==> m.Unparsable? || !m.msgType.Str?
    ensures r.Throws? <==> m.Parsed? && m.msgType in {Str("join"), Str("chat")} && m.room.Unprintable?
    ensures r.JoinRoom? <==> m.Parsed? && m.msgType == Str("join") && !m.room.Unprintable?
    ensures r.Signal? <==> m.Parsed? && m.msgType == Str("signal")
    ensures r.ChatIn? <==> m.Parsed? && m.msgType == Str("chat") && !m.room.Unprintable?
    ensures r.UnknownType? <==> m.Parsed? && m.msgType.Str? && m.msgType.s !in {"join", "signal", "chat"}
    ensures r.UnknownType? ==> r.name == m.msgType.s
    ensures r.JoinRoom? || r.ChatIn? ==> OrEmpty(m.room) == Some(r.room)
    ensures r.ChatIn? ==> (r.text.None? <==> m.text.Unprintable?)
    ensures r.ChatIn? && r.text.Some? ==>
      var full := OrEmpty(m.text).value;
      && |r.text.value| <= MaxChatLength
      && |r.text.value| <= |full|
      && r.text.value == full[..|r.text.value|]
      && (|full| <= MaxChatLength ==> r.text.value == full)
      && (|full| > MaxChatLength ==> |r.text.value| == MaxChatLength)
  {
    match m
    case Unparsable => Malformed
    case Parsed(t, room, text) =>
      if !t.Str? then Malformed
      else if t.s == "signal" then Signal
      else if t.s != "join" && t.s != "chat" then UnknownType(t.s)
      else if OrEmpty(room).None? then Throws
      else if t.s == "join" then JoinRoom(OrEmpty(room).value)
      else
        var full := OrEmpty(text);
        ChatIn(OrEmpty(room).value, if full.None? then None else Some(Truncate(full.value, MaxChatLength)))
  }
}
