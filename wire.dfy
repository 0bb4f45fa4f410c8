/** The values that travel between the relay and its clients, and the
    per-connection state the connection callback keeps. */
module Wire {

  /** Identity of one WebSocket connection (the `ws` object). */
  type Conn = nat

  /** One entry of a room's member list: `{ ws, username }`. */
  datatype Member = Member(conn: Conn, username: string)

  /** The connection callback's two variables `currentRoom` and `username`.
      They start out null and are always assigned together. */
  datatype Binding = Unbound | Bound(room: string, username: string)

  /** Inbound events, by their `type` field. `Unrecognised(kind)` stands for
      an event whose `type` is `kind`, a string other than "create", "join",
      "message" and "file": no handler branch matches it. (An event with one
      of those four types is the constructor of that name, never
      `Unrecognised`.) */
  datatype Inbound =
    | Create(room: string, username: string)
    | Join(room: string, username: string)
    | Message(text: string)
    | File(name: string, data: string)
    | Unrecognised(kind: string)

  /** Outbound payloads, by their `type` field. */
  datatype Payload =
    | Created(room: string)
    | Joined(room: string)
    | Error(text: string)
    | Users(names: seq<string>)
    | NewMessage(id: string, sender: string, text: string)
    | NewFile(sender: string, name: string, data: string)
    | Delete(id: string)

  /** One `ws.send`: payload `payload` written to connection `to`. */
  datatype Send = Send(to: Conn, payload: Payload)

  /** The text of the reply to a join on a room that does not exist. */
  const RoomNotFound: string := "Room not found"
}
