/** The relay's shared state as one value, with one step function per
    handler of the connection callback and one for the deletion timer. */
module Registry {
  import opened Wire
  import opened Membership

  /** A deletion timer that has been set and has not fired: the connection
      whose callback set it and the message id. No room is stored: the timer
      reads that connection's `currentRoom` when it fires. */
  datatype Pending = Pending(conn: Conn, id: string)

  /** The room table, every connection's `currentRoom`/`username`, the set
      of connections whose socket is open, every `ws.send` made so far in
      order, and the timers not yet fired in the order they fire (every
      timer has the same delay, so they fire in the order they were set). */
  datatype Hub = Hub(
    rooms: map<string, seq<Member>>,
    sessions: map<Conn, Binding>,
    open: set<Conn>,
    outbox: seq<Send>,
    pending: seq<Pending>)

  /** The state when the server starts: no rooms, no connections. */
  const Initial: Hub := Hub(map[], map[], {}, [], [])

  /** JavaScript truthiness of `currentRoom`: null and the empty room name
      both count as "no current room". */
  predicate InRoom(b: Binding) {
    b.Bound? && b.room != ""
  }

  /** What holds in every state the handlers reach: only known connections
      are open, a bound connection's room is in the table (rooms are never
      removed), and a timer belongs to a bound connection. */
  predicate Inv(h: Hub) {
    && h.open <= h.sessions.Keys
    && (forall c :: c in h.sessions && h.sessions[c].Bound? ==> h.sessions[c].room in h.rooms)
    && (forall k :: 0 <= k < |h.pending| ==>
          h.pending[k].conn in h.sessions && h.sessions[h.pending[k].conn].Bound?)
  }

  /** `broadcast(room, p)`: append one send per open entry of the room. */
  function Broadcast(h: Hub, room: string, p: Payload): (h': Hub)
    requires room in h.rooms
    ensures h'.rooms == h.rooms && h'.sessions == h.sessions && h'.open == h.open
    ensures h'.pending == h.pending && h.outbox <= h'.outbox
  {
    h.(outbox := h.outbox + Fanout(h.rooms[room], h.open, p))
  }

  /** A new connection: both callback variables start out null. */
  function Connect(h: Hub, c: Conn): (h': Hub)
    requires c !in h.sessions
    ensures c in h'.sessions && h'.sessions[c] == Unbound && c in h'.open
    ensures h'.rooms == h.rooms && h'.outbox == h.outbox && h'.pending == h.pending
  {
    h.(sessions := h.sessions[c := Unbound], open := h.open + {c})
  }

  /** The part `create` and a successful `join` share: bind the connection,
      get or create the room, append the member, reply `ack` to the
      requester alone, then broadcast the room's usernames. */
  function Admit(h: Hub, c: Conn, room: string, username: string, ack: Payload): (h': Hub)
    ensures h'.rooms.Keys == h.rooms.Keys + {room}
    ensures c in h'.sessions && h'.sessions[c] == Bound(room, username)
    ensures h'.open == h.open && h'.pending == h.pending
    ensures h.outbox + [Send(c, ack)] <= h'.outbox
  {
    var members := (if room in h.rooms then h.rooms[room] else []) + [Member(c, username)];
    var bound := h.(rooms := h.rooms[room := members],
                    sessions := h.sessions[c := Bound(room, username)],
                    outbox := h.outbox + [Send(c, ack)]);
    Broadcast(bound, room, Users(Usernames(members)))
  }

  /** The `create` handler. */
  function Create(h: Hub, c: Conn, room: string, username: string): (h': Hub)
    requires c in h.open
    ensures room in h'.rooms && c in h'.sessions && h'.sessions[c] == Bound(room, username)
    ensures h.outbox + [Send(c, Created(room))] <= h'.outbox
  {
    Admit(h, c, room, username, Created(room))
  }

  /** The `join` handler: an unknown room gets an error reply and nothing else. */
  function Join(h: Hub, c: Conn, room: string, username: string): (h': Hub)
    requires c in h.open
    ensures h'.rooms.Keys == h.rooms.Keys && h'.pending == h.pending
    ensures |h'.outbox| > |h.outbox| && h'.outbox[|h.outbox|].to == c
  {
    if room !in h.rooms then h.(outbox := h.outbox + [Send(c, Error(RoomNotFound))])
    else Admit(h, c, room, username, Joined(room))
  }

  /** The `message` handler, given the id the server generates. */
  function PostMessage(h: Hub, c: Conn, id: string, text: string): (h': Hub)
    requires Inv(h) && c in h.open
    ensures h'.rooms == h.rooms && h'.sessions == h.sessions && h'.open == h.open
    ensures h'.pending == if InRoom(h.sessions[c]) then h.pending + [Pending(c, id)] else h.pending
  {
    var b := h.sessions[c];
    if !InRoom(b) then h
    else Broadcast(h, b.room, NewMessage(id, b.username, text)).(pending := h.pending + [Pending(c, id)])
  }

  /** The `file` handler: a broadcast and no timer. */
  function PostFile(h: Hub, c: Conn, name: string, data: string): (h': Hub)
    requires Inv(h) && c in h.open
    ensures h'.rooms == h.rooms && h'.sessions == h.sessions && h'.open == h.open
    ensures h'.pending == h.pending && h.outbox <= h'.outbox
  {
    var b := h.sessions[c];
    if !InRoom(b) then h
    else Broadcast(h, b.room, NewFile(b.username, name, data))
  }

  /** The `message` callback: dispatch on the event's type. `id` is the one
      a `message` event is given; the other kinds ignore it. */
  function Handle(h: Hub, c: Conn, e: Inbound, id: string): (h': Hub)
    requires Inv(h) && c in h.open
    ensures h'.open == h.open && h.rooms.Keys <= h'.rooms.Keys && h.pending <= h'.pending
  {
    match e
    case Create(room, username) => Create(h, c, room, username)
    case Join(room, username) => Join(h, c, room, username)
    case Message(text) => PostMessage(h, c, id, text)
    case File(name, data) => PostFile(h, c, name, data)
    case Unrecognised(_) => h
  }

  /** The `close` handler. The socket is no longer open; the connection's
      variables stay as they are, since a pending timer still reads them. */
  function Close(h: Hub, c: Conn): (h': Hub)
    requires Inv(h) && c in h.open
    ensures h'.rooms.Keys == h.rooms.Keys && h'.sessions == h.sessions
    ensures h'.open == h.open - {c} && h'.pending == h.pending && h.outbox <= h'.outbox
  {
    var b := h.sessions[c];
    var closed := h.(open := h.open - {c});
    if !InRoom(b) then closed
    else
      var rest := Without(h.rooms[b.room], c);
      Broadcast(closed.(rooms := h.rooms[b.room := rest]), b.room, Users(Usernames(rest)))
  }

  /** The oldest deletion timer fires: broadcast `delete` to the room its
      connection is bound to now. */
  function Fire(h: Hub): (h': Hub)
    requires Inv(h) && h.pending != []
    ensures h'.rooms == h.rooms && h'.sessions == h.sessions && h'.open == h.open
    ensures h'.pending == h.pending[1..] && h.outbox <= h'.outbox
  {
    var t := h.pending[0];
    Broadcast(h.(pending := h.pending[1..]), h.sessions[t.conn].room, Delete(t.id))
  }

  // ---------------------------------------------------------------------
  // The invariant is kept by every step.

  lemma InitialInv()
    ensures Inv(Initial)
  {
  }

  lemma ConnectKeepsInv(h: Hub, c: Conn)
    requires Inv(h) && c !in h.sessions
    ensures Inv(Connect(h, c))
    ensures c in Connect(h, c).sessions && Connect(h, c).sessions[c] == Unbound
    ensures c in Connect(h, c).open
  {
  }

  lemma HandleKeepsInv(h: Hub, c: Conn, e: Inbound, id: string)
    requires Inv(h) && c in h.open
    ensures Inv(Handle(h, c, e, id))
  {
  }

  lemma CloseKeepsInv(h: Hub, c: Conn)
    requires Inv(h) && c in h.open
    ensures Inv(Close(h, c))
  {
  }

  lemma FireKeepsInv(h: Hub)
    requires Inv(h) && h.pending != []
    ensures Inv(Fire(h))
  {
  }

  // ---------------------------------------------------------------------
  // create and join

  /** What admitting a member does: the member goes at the end of the room's
      list and nothing else in the table moves; the requester alone gets
      `ack`, and after it every open member of the room, and nobody else,
      gets the room's usernames in list order, the new one last. */
  lemma AdmitEffect(h: Hub, c: Conn, room: string, username: string, ack: Payload)
    requires c in h.open
    ensures var h' := Admit(h, c, room, username, ack);
            var before := if room in h.rooms then h.rooms[room] else [];
            && h'.rooms.Keys == h.rooms.Keys + {room}
            && h'.rooms[room] == before + [Member(c, username)]
            && (forall r :: r in h.rooms && r != room ==> h'.rooms[r] == h.rooms[r])
            && h'.sessions == h.sessions[c := Bound(room, username)]
            && h'.open == h.open && h'.pending == h.pending
            && |h'.outbox| > |h.outbox|
            && h'.outbox[..|h.outbox|] == h.outbox
            && h'.outbox[|h.outbox|] == Send(c, ack)
            && (forall x, q :: Send(x, q) in h'.outbox[|h.outbox| + 1..] <==>
                  q == Users(Usernames(before) + [username]) && x in h.open && x in Conns(h'.rooms[room]))
  {
    var before := if room in h.rooms then h.rooms[room] else [];
    var members := before + [Member(c, username)];
    var h' := Admit(h, c, room, username, ack);
    assert Usernames(members) == Usernames(before) + [username];
    var users := Users(Usernames(members));
    assert h'.outbox == h.outbox + [Send(c, ack)] + Fanout(members, h.open, users);
    assert h'.outbox[|h.outbox| + 1..] == Fanout(members, h.open, users);
    forall x, q ensures Send(x, q) in h'.outbox[|h.outbox| + 1..] <==>
                        q == users && x in h.open && x in Conns(members) {
      FanoutDelivers(members, h.open, users, x, q);
    }
  }

  /** `create` on a name not in the table: the room holds the creator alone,
      and the creator, the only member, gets `created` then its own name as
      the users list. */
  lemma CreateNewRoom(h: Hub, c: Conn, room: string, username: string)
    requires c in h.open && room !in h.rooms
    ensures var h' := Create(h, c, room, username);
            && h'.rooms == h.rooms[room := [Member(c, username)]]
            && h'.sessions == h.sessions[c := Bound(room, username)]
            && h'.outbox == h.outbox + [Send(c, Created(room)), Send(c, Users([username]))]
            && h'.open == h.open && h'.pending == h.pending
  {
    assert [] + [Member(c, username)] == [Member(c, username)];
    assert Usernames([Member(c, username)]) == [username];
    assert Fanout([Member(c, username)], h.open, Users([username])) == [Send(c, Users([username]))];
  }

  /** `create` on an existing room: earlier members stay, in their order, and
      the creator is appended; the room's earlier members still open hear of
      it. */
  lemma CreateExistingRoom(h: Hub, c: Conn, room: string, username: string)
    requires c in h.open && room in h.rooms
    ensures var h' := Create(h, c, room, username);
            && h'.rooms.Keys == h.rooms.Keys
            && |h'.rooms[room]| == |h.rooms[room]| + 1
            && h'.rooms[room][..|h.rooms[room]|] == h.rooms[room]
            && h'.rooms[room][|h.rooms[room]|] == Member(c, username)
            && h'.outbox[|h.outbox|] == Send(c, Created(room))
            && (forall x :: x in h.open && x in Conns(h.rooms[room]) ==>
                  Send(x, Users(Usernames(h.rooms[room]) + [username])) in h'.outbox[|h.outbox| + 1..])
  {
    AdmitEffect(h, c, room, username, Created(room));
    var ms := h.rooms[room];
    var h' := Create(h, c, room, username);
    assert h'.rooms[room] == ms + [Member(c, username)];
    assert Conns(ms + [Member(c, username)]) == Conns(ms) + [c];
    forall x | x in h.open && x in Conns(ms)
      ensures Send(x, Users(Usernames(ms) + [username])) in h'.outbox[|h.outbox| + 1..]
    {
      assert x in Conns(h'.rooms[room]);
    }
  }

  /** `join` on a name not in the table: the requester alone gets
      "Room not found"; the table, every binding and every timer stay. */
  lemma JoinUnknownRoom(h: Hub, c: Conn, room: string, username: string)
    requires c in h.open && room !in h.rooms
    ensures var h' := Join(h, c, room, username);
            && h'.rooms == h.rooms && h'.sessions == h.sessions
            && h'.open == h.open && h'.pending == h.pending
            && h'.outbox == h.outbox + [Send(c, Error(RoomNotFound))]
  {
  }

  /** `join` on an existing room: the member is appended at the end, the
      connection is bound to the room, the requester gets `joined`, then
      every open member, and nobody else, gets the updated usernames. */
  lemma JoinKnownRoom(h: Hub, c: Conn, room: string, username: string)
    requires c in h.open && room in h.rooms
    ensures var h' := Join(h, c, room, username);
            && h'.rooms == h.rooms[room := h.rooms[room] + [Member(c, username)]]
            && h'.sessions == h.sessions[c := Bound(room, username)]
            && h'.pending == h.pending
            && h'.outbox[|h.outbox|] == Send(c, Joined(room))
            && (forall x, q :: Send(x, q) in h'.outbox[|h.outbox| + 1..] <==>
                  q == Users(Usernames(h.rooms[room]) + [username]) && x in h.open && x in Conns(h'.rooms[room]))
  {
    AdmitEffect(h, c, room, username, Joined(room));
  }

  /** A second `create` or `join` from a connection does not take it out of
      the room it was in: that entry stays, and a later `close` does not
      reach it either. */
  lemma EarlierMembershipPersists(h: Hub, c: Conn, room: string, username: string, other: string)
    requires Inv(h) && c in h.open && other in h.rooms && other != room
    requires c in Conns(h.rooms[other])
    ensures var h1 := Create(h, c, room, username);
            && Inv(h1) && c in h1.open
            && h1.rooms[other] == h.rooms[other]
            && Close(h1, c).rooms[other] == h.rooms[other]
  {
    AdmitEffect(h, c, room, username, Created(room));
    HandleKeepsInv(h, c, Inbound.Create(room, username), "");
  }

  // ---------------------------------------------------------------------
  // message, file and the deletion timer

  /** `message` and `file` from a connection with no current room (never
      bound, or bound to the empty name) change nothing and send nothing. */
  lemma PostWithoutRoomIsIgnored(h: Hub, c: Conn, id: string, text: string, name: string, data: string)
    requires Inv(h) && c in h.open && !InRoom(h.sessions[c])
    ensures PostMessage(h, c, id, text) == h
    ensures PostFile(h, c, name, data) == h
  {
  }

  /** A `message` in a room: every open member of the current room, and
      nobody else, gets the message with the given id, the connection's
      username as sender and the text; exactly one timer with that id is
      added behind the ones already set; nothing else changes. */
  lemma MessageEffect(h: Hub, c: Conn, id: string, text: string)
    requires Inv(h) && c in h.open && InRoom(h.sessions[c])
    ensures var h' := PostMessage(h, c, id, text);
            var b := h.sessions[c];
            && h'.rooms == h.rooms && h'.sessions == h.sessions && h'.open == h.open
            && h'.pending == h.pending + [Pending(c, id)]
            && h'.outbox[..|h.outbox|] == h.outbox
            && (forall x, q :: Send(x, q) in h'.outbox[|h.outbox|..] <==>
                  q == NewMessage(id, b.username, text) && x in h.open && x in Conns(h.rooms[b.room]))
  {
    var b := h.sessions[c];
    var p := NewMessage(id, b.username, text);
    var h' := PostMessage(h, c, id, text);
    assert h'.outbox[|h.outbox|..] == Fanout(h.rooms[b.room], h.open, p);
    forall x, q ensures Send(x, q) in h'.outbox[|h.outbox|..] <==>
                        q == p && x in h.open && x in Conns(h.rooms[b.room]) {
      FanoutDelivers(h.rooms[b.room], h.open, p, x, q);
    }
  }

  /** A `file` in a room: every open member of the current room, and nobody
      else, gets the file with the connection's username as sender; no timer
      is set and nothing else changes. */
  lemma FileEffect(h: Hub, c: Conn, name: string, data: string)
    requires Inv(h) && c in h.open && InRoom(h.sessions[c])
    ensures var h' := PostFile(h, c, name, data);
            var b := h.sessions[c];
            && h'.rooms == h.rooms && h'.sessions == h.sessions && h'.open == h.open
            && h'.pending == h.pending
            && h'.outbox[..|h.outbox|] == h.outbox
            && (forall x, q :: Send(x, q) in h'.outbox[|h.outbox|..] <==>
                  q == NewFile(b.username, name, data) && x in h.open && x in Conns(h.rooms[b.room]))
  {
    var b := h.sessions[c];
    var p := NewFile(b.username, name, data);
    var h' := PostFile(h, c, name, data);
    assert h'.outbox[|h.outbox|..] == Fanout(h.rooms[b.room], h.open, p);
    forall x, q ensures Send(x, q) in h'.outbox[|h.outbox|..] <==>
                        q == p && x in h.open && x in Conns(h.rooms[b.room]) {
      FanoutDelivers(h.rooms[b.room], h.open, p, x, q);
    }
  }

  /** The oldest timer fires once and is gone: `delete` with its id goes to
      every open member, and nobody else, of the room its connection is bound
      to at this moment; the table and the bindings stay. */
  lemma FireEffect(h: Hub)
    requires Inv(h) && h.pending != []
    ensures var h' := Fire(h);
            var t := h.pending[0];
            var room := h.sessions[t.conn].room;
            && h'.rooms == h.rooms && h'.sessions == h.sessions && h'.open == h.open
            && h'.pending == h.pending[1..]
            && h'.outbox[..|h.outbox|] == h.outbox
            && (forall x, q :: Send(x, q) in h'.outbox[|h.outbox|..] <==>
                  q == Delete(t.id) && x in h.open && x in Conns(h.rooms[room]))
  {
    var t := h.pending[0];
    var room := h.sessions[t.conn].room;
    var h' := Fire(h);
    assert h'.outbox[|h.outbox|..] == Fanout(h.rooms[room], h.open, Delete(t.id));
    forall x, q ensures Send(x, q) in h'.outbox[|h.outbox|..] <==>
                        q == Delete(t.id) && x in h.open && x in Conns(h.rooms[room]) {
      FanoutDelivers(h.rooms[room], h.open, Delete(t.id), x, q);
    }
  }

  /** The `n` oldest timers fire one after another, with no event between
      them: they leave the table, the bindings and the open sockets as they
      were, so a later timer still reads the binding its connection has now. */
  function FireMany(h: Hub, n: nat): (h': Hub)
    requires Inv(h) && n <= |h.pending|
    ensures Inv(h') && h'.rooms == h.rooms && h'.sessions == h.sessions && h'.open == h.open
    ensures h'.pending == h.pending[n..] && h.outbox <= h'.outbox
    decreases n
  {
    if n == 0 then h
    else
      FireKeepsInv(h);
      assert h.pending[1..][n - 1..] == h.pending[n..];
      FireMany(Fire(h), n - 1)
  }

  /** The `delete` follows the connection, not the message: if, after
      posting a message, the connection creates another room, then when the
      timers set before the message have fired and this one fires, the
      `delete` with the message's id goes to exactly the open members of
      that other room. */
  lemma DeleteFollowsLaterCreate(h: Hub, c: Conn, id: string, text: string, room: string, username: string)
    requires Inv(h) && c in h.open && InRoom(h.sessions[c])
    ensures var moved := Create(PostMessage(h, c, id, text), c, room, username);
            && Inv(moved) && moved.pending == h.pending + [Pending(c, id)]
            && var due := FireMany(moved, |h.pending|);
               && due.pending == [Pending(c, id)]
               && (forall x, q :: Send(x, q) in Fire(due).outbox[|due.outbox|..] <==>
                     q == Delete(id) && x in h.open && x in Conns(moved.rooms[room]))
  {
    var posted := PostMessage(h, c, id, text);
    HandleKeepsInv(h, c, Inbound.Message(text), id);
    AdmitEffect(posted, c, room, username, Created(room));
    var moved := Create(posted, c, room, username);
    HandleKeepsInv(posted, c, Inbound.Create(room, username), id);
    var due := FireMany(moved, |h.pending|);
    assert (h.pending + [Pending(c, id)])[|h.pending|..] == [Pending(c, id)];
    FireEffect(due);
  }

  // ---------------------------------------------------------------------
  // close

  /** `close` with no current room only marks the socket closed. */
  lemma CloseWithoutRoom(h: Hub, c: Conn)
    requires Inv(h) && c in h.open && !InRoom(h.sessions[c])
    ensures Close(h, c) == h.(open := h.open - {c})
  {
  }

  /** `close` in a room: every entry of the connection leaves that room and
      no other; the remaining members keep their order and multiplicity;
      the room stays in the table even when it is now empty; every open
      member left, and nobody else, gets the remaining usernames. */
  lemma CloseEffect(h: Hub, c: Conn)
    requires Inv(h) && c in h.open && InRoom(h.sessions[c])
    ensures var h' := Close(h, c);
            var room := h.sessions[c].room;
            var rest := h'.rooms[room];
            && h'.rooms.Keys == h.rooms.Keys
            && (forall r :: r in h.rooms && r != room ==> h'.rooms[r] == h.rooms[r])
            && c !in Conns(rest)
            && (forall m: Member :: m.conn != c ==> multiset(rest)[m] == multiset(h.rooms[room])[m])
            && rest == Without(h.rooms[room], c)
            && h'.sessions == h.sessions && h'.pending == h.pending
            && h'.open == h.open - {c}
            && h'.outbox[..|h.outbox|] == h.outbox
            && (forall x, q :: Send(x, q) in h'.outbox[|h.outbox|..] <==>
                  q == Users(Usernames(rest)) && x in h.open && x in Conns(h.rooms[room]) && x != c)
  {
    var room := h.sessions[c].room;
    var rest := Without(h.rooms[room], c);
    var h' := Close(h, c);
    var p := Users(Usernames(rest));
    forall m: Member | m.conn != c
      ensures multiset(rest)[m] == multiset(h.rooms[room])[m]
    {
      WithoutCount(h.rooms[room], c, m);
    }
    assert h'.outbox[|h.outbox|..] == Fanout(rest, h.open - {c}, p);
    forall x, q ensures Send(x, q) in h'.outbox[|h.outbox|..] <==>
                        q == p && x in h.open && x in Conns(h.rooms[room]) && x != c {
      FanoutDelivers(rest, h.open - {c}, p, x, q);
      if x != c {
        ConnsWithout(h.rooms[room], c, x);
      }
    }
  }

  /** No step removes a room from the table. */
  lemma RoomsAreNeverRemoved(h: Hub, c: Conn, e: Inbound, id: string)
    requires Inv(h) && c in h.open
    ensures h.rooms.Keys <= Handle(h, c, e, id).rooms.Keys
    ensures h.rooms.Keys == Close(h, c).rooms.Keys
    ensures h.pending != [] ==> h.rooms.Keys == Fire(h).rooms.Keys
  {
  }
}
