/** The relay as the program runs it: one object holding the room table and
    every connection's variables, changed in place by the handlers. Each
    handler is proved to make exactly the step the Registry module gives. */
module Server {
  import opened Wire
  import opened Membership
  import opened Registry

  class Relay {
    /** `rooms`: room name to ordered member list. */
    var rooms: map<string, seq<Member>>
    /** Each connection callback's `currentRoom` and `username`. */
    var sessions: map<Conn, Binding>
    /** Connections whose `readyState` is OPEN. */
    var open: set<Conn>
    /** Every `ws.send` so far, in order. */
    var outbox: seq<Send>
    /** Deletion timers set and not yet fired, oldest first. */
    var pending: seq<Pending>

    /** The object's state as a Registry value. */
    function Model(): Hub
      reads this
    {
      Hub(rooms, sessions, open, outbox, pending)
    }

    ghost predicate Valid()
      reads this
    {
      Inv(Model())
    }

    constructor ()
      ensures Valid() && Model() == Initial
    {
      rooms, sessions, open, outbox, pending := map[], map[], {}, [], [];
    }

    /** `broadcast(room, p)`: walk the member list in order and send `p` to
        each entry whose socket is open. */
    method Broadcast(room: string, p: Payload)
      requires room in rooms
      modifies this`outbox
      ensures outbox == old(outbox) + Fanout(rooms[room], open, p)
    {
      var members := rooms[room];
      var i := 0;
      while i < |members|
        invariant 0 <= i <= |members|
        invariant outbox == old(outbox) + Fanout(members[..i], open, p)
      {
        var m := members[i];
        assert members[..i + 1] == members[..i] + [m];
        FanoutConcat(members[..i], [m], open, p);
        if m.conn in open {
          outbox := outbox + [Send(m.conn, p)];
        }
        i := i + 1;
      }
      assert members[..i] == members;
    }

    /** A new connection arrives. */
    method Connect(c: Conn)
      requires Valid() && c !in sessions
      modifies this
      ensures Valid() && Model() == Registry.Connect(old(Model()), c)
    {
      sessions := sessions[c := Unbound];
      open := open + {c};
    }

    /** The shared tail of `create` and a successful `join`. */
    method Admit(c: Conn, room: string, username: string, ack: Payload)
      modifies this
      ensures Model() == Registry.Admit(old(Model()), c, room, username, ack)
    {
      var members := if room in rooms then rooms[room] else [];
      members := members + [Member(c, username)];
      rooms := rooms[room := members];
      sessions := sessions[c := Bound(room, username)];
      outbox := outbox + [Send(c, ack)];
      Broadcast(room, Users(Usernames(members)));
    }

    /** The `create` handler. */
    method OnCreate(c: Conn, room: string, username: string)
      requires Valid() && c in open
      modifies this
      ensures Valid() && Model() == Registry.Create(old(Model()), c, room, username)
    {
      Admit(c, room, username, Created(room));
      HandleKeepsInv(old(Model()), c, Inbound.Create(room, username), "");
    }

    /** The `join` handler. */
    method OnJoin(c: Conn, room: string, username: string)
      requires Valid() && c in open
      modifies this
      ensures Valid() && Model() == Registry.Join(old(Model()), c, room, username)
    {
      if room !in rooms {
        outbox := outbox + [Send(c, Error(RoomNotFound))];
        return;
      }
      Admit(c, room, username, Joined(room));
      HandleKeepsInv(old(Model()), c, Inbound.Join(room, username), "");
    }

    /** The `message` handler; `id` is the id the server generates for it. */
    method OnMessage(c: Conn, id: string, text: string)
      requires Valid() && c in open
      modifies this
      ensures Valid() && Model() == PostMessage(old(Model()), c, id, text)
    {
      var b := sessions[c];
      if InRoom(b) {
        Broadcast(b.room, NewMessage(id, b.username, text));
        pending := pending + [Pending(c, id)];
      }
    }

    /** The `file` handler. */
    method OnFile(c: Conn, name: string, data: string)
      requires Valid() && c in open
      modifies this
      ensures Valid() && Model() == PostFile(old(Model()), c, name, data)
    {
      var b := sessions[c];
      if InRoom(b) {
        Broadcast(b.room, NewFile(b.username, name, data));
      }
    }

    /** The `message` callback: dispatch on the event's type. */
    method OnEvent(c: Conn, e: Inbound, id: string)
      requires Valid() && c in open
      modifies this
      ensures Valid() && Model() == Handle(old(Model()), c, e, id)
    {
      match e
      case Create(room, username) => OnCreate(c, room, username);
      case Join(room, username) => OnJoin(c, room, username);
      case Message(text) => OnMessage(c, id, text);
      case File(name, data) => OnFile(c, name, data);
      case Unrecognised(_) =>
    }

    /** The `close` handler. */
    method OnClose(c: Conn)
      requires Valid() && c in open
      modifies this
      ensures Valid() && Model() == Close(old(Model()), c)
    {
      open := open - {c};
      var b := sessions[c];
      if InRoom(b) {
        var rest := Without(rooms[b.room], c);
        rooms := rooms[b.room := rest];
        Broadcast(b.room, Users(Usernames(rest)));
      }
    }

    /** The oldest deletion timer fires. */
    method FireTimer()
      requires Valid() && pending != []
      modifies this
      ensures Valid() && Model() == Fire(old(Model()))
    {
      var t := pending[0];
      pending := pending[1..];
      Broadcast(sessions[t.conn].room, Delete(t.id));
    }
  }
}
