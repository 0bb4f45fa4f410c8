# Chat room relay: room registry and broadcast

A Dafny model of the room registry and broadcast logic of the chat relay in
`server.js`. The server keeps one shared table from room name to an ordered list
of `{ws, username}` entries. Each connection callback keeps two variables,
`currentRoom` and `username`. `create` and `join` change this state, and
`close` changes the table. `message` and `file` only broadcast. `message` also
sets a 60-second deletion timer, whose callback only broadcasts. `broadcast`
writes one payload to every entry of a room whose socket is open, in list order.

Files:

- `wire.dfy` (module `Wire`) holds the values. A connection is a `Conn` id. A member
  entry is a `Member`. A connection's two variables form a `Binding`. The events are
  `Inbound`, the reply and broadcast payloads are `Payload`, and one `ws.send` is a
  `Send`.
- `membership.dfy` (module `Membership`) holds functions over one member list:
  - `Usernames` is the `users` list.
  - `Without` is the filter that `close` runs.
  - `Fanout` is the sends that one broadcast makes.

  It also holds the lemmas about these functions: who receives, how often, and in
  what order.
- `registry.dfy` (module `Registry`) is the whole state as one value, `Hub`: the
  table, every connection's binding, the open sockets, the log of sends, and the
  timers not yet fired. It has one step function per handler and one for the timer,
  an invariant that every step keeps, and lemmas for each handler's behaviour.
- `server.dfy` (module `Server`) is the class `Relay`. Its fields are changed in
  place by one method per handler. `Relay.Broadcast` is the `forEach` loop, proved
  against `Fanout`. Every handler method is proved to make exactly the `Registry`
  step.

Modelling choices, each taken from the code:

- The check `if (... && currentRoom)` uses JavaScript truthiness. A connection
  bound to the room name `""` is therefore treated as having no room by `message`,
  `file` and `close`, though `create` did add it to `rooms[""]` (`Registry.InRoom`).
- A room's value is an array, and an array is truthy even when empty. So `join`'s
  check `!rooms[data.room]` fails only for a name absent from the table.
- Every timer has the same delay, so timers fire in the order they were set. The
  model keeps them in a queue, and `Fire` takes the oldest. The room a `delete`
  goes to is read from the connection's binding when the timer fires, not when it
  was set. The binding stays after `close`, because the close handler never
  assigns `currentRoom` or `username`. A timer set earlier can still read it, since its
  closure captures those variables.
- Message ids are parameters. The server draws them from `Math.random`.
- Inbound events arrive only on open sockets, so each handler requires its
  connection to be open. `close` removes the connection from the open set before
  the users broadcast.

`server.js` has none of the following behaviour, and the model keeps to what the
code does:

- Access codes or a capacity limit: a room is joined by its name alone, and an
  unknown name gets `Room not found`.
- Removing a room: a room left empty stays in the table.
- Cancelling a timer.
- Leaving the earlier room on a second `create`/`join`: a connection may hold
  entries in several rooms, or several entries in one room.
- Normalising room names: they are compared case-sensitively.
- An id or a timer for a `file`: its payload has neither, and it sets no timer.

## Model

| member | source | states |
|---|---|---|
| Membership.Usernames | server.js:33 | the users list has one name per entry, in member-list order |
| Membership.Without | server.js:84 | the filtered list holds no entry of the closing connection, and only entries of the original list |
| Membership.Fanout | server.js:7-13 | the sends of one broadcast: one per entry of the list whose socket is open, in list order, so at most one per entry |
| Membership.Reach | server.js:9-10 | one entry receives the payload, once, exactly when its socket is open |
| Membership.WithoutCount | server.js:84 | filtering removes every entry of the closing connection and keeps every other entry exactly as often as before |
| Membership.WithoutConcat | server.js:84 | filtering keeps the remaining entries in their original order |
| Membership.WithoutAbsent | server.js:84 | filtering a list with no entry of the connection leaves it unchanged |
| Membership.ConnsWithout | server.js:84 | any other connection is in the filtered list if and only if it was in the list |
| Membership.FanoutConcat | server.js:8-12 | a broadcast sends in member-list order: to the first part of the list before the rest |
| Membership.FanoutCount | server.js:7-13 | an open connection receives the payload exactly once per entry it has in the room, and a closed one never |
| Membership.FanoutSendsOnly | server.js:9-10 | every send of a broadcast carries the broadcast payload and goes to an open socket |
| Membership.FanoutDelivers | server.js:7-13 | a connection gets a send from a broadcast if and only if the payload is the broadcast one, the socket is open and it is a member |
| Registry.Broadcast | server.js:7-13 | appends the room's `Fanout` to the send log and changes no room, binding, open socket or timer |
| Registry.Connect | server.js:15-17 | a new connection is open and unbound; rooms, sends and timers are unchanged |
| Registry.Admit | server.js:24-34 | gets or creates the room and appends the entry; binds the connection to the room and name; sends the ack to the requester first, then broadcasts the room's usernames; the open sockets and timers stay as they were |
| Registry.Create | server.js:23-35 | the room is in the table afterwards, the connection is bound to it, and the requester's first new send is `created` |
| Registry.Join | server.js:38-54 | the set of room names is unchanged and no timer is set; the first new send goes to the requester (`joined` or `Room not found`) |
| Registry.PostMessage | server.js:57-69 | with a current room: broadcasts the message there and queues one timer for the sender and id; otherwise no change. Rooms, bindings and open sockets are unchanged |
| Registry.PostFile | server.js:72-79 | with a current room: broadcasts the file there; otherwise no change. Rooms, bindings, open sockets and timers are unchanged |
| Registry.Handle | server.js:19-80 | dispatches by event type and ignores unknown types; no event closes a socket, removes a room or drops a timer |
| Registry.Close | server.js:82-89 | marks the socket closed; with a current room it filters the connection's entries out of that room and broadcasts the remaining usernames. Bindings and timers stay, and no room is removed |
| Registry.Fire | server.js:66-68 | removes the oldest timer and broadcasts `delete` with its id to the room its connection is bound to now; rooms, bindings and open sockets are unchanged |
| Registry.InitialInv | server.js:5 | the empty table satisfies the state invariant |
| Registry.ConnectKeepsInv | server.js:15-17 | a new connection starts unbound and open, and the invariant still holds |
| Registry.HandleKeepsInv | server.js:19-80 | every event handler keeps the invariant: bound rooms stay in the table and timers belong to bound connections |
| Registry.CloseKeepsInv | server.js:82-89 | close keeps the invariant |
| Registry.FireKeepsInv | server.js:66-68 | a timer firing keeps the invariant |
| Registry.AdmitEffect | server.js:24-34 | create/join append the member at the end and leave the rest of the table unchanged; the requester alone gets the ack first; then every open member, and nobody else, gets the usernames with the new one last |
| Registry.CreateNewRoom | server.js:26-34 | create on an absent name leaves the room holding exactly the creator, who gets `created` and then a users list of its own name |
| Registry.CreateExistingRoom | server.js:26-34 | create on an existing room keeps earlier members and their order, appends the creator, and every earlier open member receives the new users list |
| Registry.JoinUnknownRoom | server.js:39-42 | join on an absent name sends only `Room not found` to the requester and changes no room, binding or timer |
| Registry.JoinKnownRoom | server.js:44-53 | join on an existing room appends the member, binds the connection, replies `joined`, then sends the updated usernames to exactly the open members |
| Registry.EarlierMembershipPersists | server.js:24 | a second create leaves the connection's entry in its earlier room, and a later close does not remove it |
| Registry.PostWithoutRoomIsIgnored | server.js:57 | message and file from a connection with no (or an empty) current room change nothing and send nothing |
| Registry.MessageEffect | server.js:57-69 | a message reaches exactly the open members of the current room with the given id, the sender's username and the text, and exactly one timer with that id is queued |
| Registry.FileEffect | server.js:72-79 | a file reaches exactly the open members of the current room with the sender's username, name and data, and no timer is set |
| Registry.FireEffect | server.js:66-68 | the oldest timer fires once and is removed, and `delete` with its id reaches exactly the open members of the room its connection is bound to now |
| Registry.FireMany | server.js:66-68 | the oldest `n` timers fire in turn and are removed; rooms, bindings and open sockets are unchanged, and the invariant holds |
| Registry.DeleteFollowsLaterCreate | server.js:66-67 | with any timers already pending: if the connection creates another room after posting, then once the earlier timers have fired, this message's `delete` goes to exactly the open members of that other room |
| Registry.CloseWithoutRoom | server.js:83 | close with no current room only marks the socket closed |
| Registry.CloseEffect | server.js:83-88 | close removes every entry of the connection from its current room only, keeps the others in order, keeps the room (possibly empty), and sends the remaining usernames to exactly the open members left |
| Registry.RoomsAreNeverRemoved | server.js:26 | no handler, close or timer removes a room from the table |
| Server.Relay.constructor | server.js:5 | the relay starts with no rooms, connections, sends or timers |
| Server.Relay.Broadcast | server.js:7-13 | the loop appends exactly the sends of `Fanout` over the room's list |
| Server.Relay.Connect | server.js:15-17 | a new connection is unbound and open |
| Server.Relay.Admit | server.js:24-34 | the shared part of create and join makes the `Registry.Admit` step |
| Server.Relay.OnCreate | server.js:23-35 | the create handler makes the `Registry.Create` step and keeps the invariant |
| Server.Relay.OnJoin | server.js:38-54 | the join handler makes the `Registry.Join` step and keeps the invariant |
| Server.Relay.OnMessage | server.js:57-69 | the message handler makes the `Registry.PostMessage` step and keeps the invariant |
| Server.Relay.OnFile | server.js:72-79 | the file handler makes the `Registry.PostFile` step and keeps the invariant |
| Server.Relay.OnEvent | server.js:19-80 | the message callback dispatches each event type to its handler and ignores unknown types |
| Server.Relay.OnClose | server.js:82-89 | the close handler makes the `Registry.Close` step and keeps the invariant |
| Server.Relay.FireTimer | server.js:66-68 | firing the oldest timer makes the `Registry.Fire` step and keeps the invariant |

## Left out

- The WebSocket server and the transport (server.js:1-3). A connection is a number and an open socket is a member of a set. The CONNECTING and CLOSING states are not modelled: a socket counts as open from connect until its `close` handler runs.
- JSON encoding and decoding (server.js:10, 20). Events and payloads are datatypes. A payload that does not parse throws inside the handler, and that is not modelled.
- Event fields that are missing or not strings (for example an `undefined` room name). Every field of an `Inbound` value is a string.
- Room names that are keys of `Object.prototype`, such as `toString`. For these, `rooms[name]` is not an array and `push` would throw. The model's table is a plain map.
- `Math.random` id generation (server.js:59). The id is a parameter, so nothing here relies on ids being distinct.
- Timing of `setTimeout` (server.js:66-68). Pending timers form a queue. `Fire` may be taken between any two events, and no wall-clock time is modelled.
- `console.log` (server.js:93).
- Features that this server does not have: access codes, capacity limits, destroying empty rooms, cancelling timers, typing, clear, call signaling and avatars.
