# custom-lobby gateway: room registry and broadcast relay

This project is a Dafny model of the in-memory room relay in `gateway_custom.js`.
Clients connect over a WebSocket and send JSON messages. A `join` puts the socket
into a named room and stores the room and the client's id in the socket's `meta`.
`leave` takes it out again. `move`, `shoot` and `chat` are relayed to the other
members of a room. When a socket closes, the rest of its room is told that the
player left. Every relay goes through `broadcastToRoom`. It walks the room's set
of sockets and sends one serialized message to each member that is OPEN and is
not the sender.

The project has six modules:

- `Wrappers` (js_values.dfy): the `Option` datatype.
- `JsValues` (js_values.dfy): the values a handler reads from a message: `undefined`, `null` or a string.
  It also defines JavaScript truthiness and `||`. Only a non-empty string is truthy.
- `Rooms` (rooms.dfy): the room map from room key to a set of connections.
  A key can be a string, `null` or `undefined`, just as JavaScript `Map` keys can.
  It defines adding and removing a member, and the audience of one broadcast.
- `Protocol` (protocol.dfy): `Effect` is a pure description of one handler run.
  It gives the new rooms and metas, the direct reply, and the broadcast the run asks for.
  `IsFanOut` says what one pass of `broadcastToRoom` sends.
- `Gateway` (gateway.dfy): the class `Relay` holds the fields the server updates in place:
  `rooms`, every socket's `meta`, the set of OPEN sockets, and an `outbox` of all sends in order.
  `Broadcast` is the loop over the member set. `OnMessage` dispatches on the message type to
  `OnJoin`, `OnLeave` and `OnRelayed`, one per branch of the handler; `OnClose` is the close
  handler. `OnMessage`, the three branch methods and `OnClose` are each proved to agree with
  `Effect`, to keep the registry coherent, and to emit exactly the reply and fan-out that
  `Effect` describes.
- `SessionProperties` (session_properties.dfy): lemmas that hold for every registry, connection and input,
  and one worked two-client session (`AliceAndBob`) run on a fixed start state.

Behaviour kept as the code has it:

- `leave` uses the stored room when it is truthy, otherwise the message's room.
  `move`, `shoot` and `chat` use the message's room first, then the stored one.
- A second `join` overwrites the stored room but does not remove the socket from its earlier room.
- A room whose set becomes empty keeps its key.
- A `join` to a falsy room (the empty string, `null`, or no `room` field) can never be left,
  because `leave` and `close` test the room for truthiness.
- When neither the message nor the socket names a room, a `move`, `shoot` or `chat` is still
  broadcast to the `null` or `undefined` key. It reaches whoever joined with such a room.
- The close handler is not idempotent: it keeps the stored room, so only the transport firing
  `close` once per socket prevents a second `player_leave`.

## Model

| member | source | states |
|---|---|---|
| JsValues.Or | gateway_custom.js:77-80 | `a \|\| b` yields `a` or `b`; it is truthy iff either is, and it is `a` whenever `a` is truthy |
| Rooms.AddMember | gateway_custom.js:58-59 | join creates the room if missing and adds the socket; every other room keeps its members; keys only grow |
| Rooms.RemoveMember | gateway_custom.js:69 | deleting a socket from an existing room removes only that socket; other rooms are unchanged; the key is kept |
| Rooms.Audience | gateway_custom.js:34-35 | the recipients of one broadcast are exactly the room's OPEN members other than the sender; the sender is never one |
| Protocol.Effect | gateway_custom.js:44-92 | one handler run changes only the running socket's meta and never removes a room key |
| Gateway.EffectKeepsCoherent | gateway_custom.js:55-92 | every handler run keeps the invariant: room members are known sockets, and an open socket with a truthy stored room is in that room |
| Gateway.Relay.constructor | gateway_custom.js:28 | the server starts with no rooms, no sockets and no sends |
| Gateway.Relay.OnConnect | gateway_custom.js:41-42 | a new socket gets meta with room and id `null` and is OPEN; rooms are untouched |
| Gateway.Relay.Broadcast | gateway_custom.js:30-39 | appends to the outbox one send of the same event to each OPEN member other than the sender, each exactly once, and nothing if the room key is absent |
| Gateway.Relay.OnMessage | gateway_custom.js:44-84 | the message handler leaves the rooms and metas that `Effect` gives; it sends the reply first and then one fan-out pass over the room as updated; malformed JSON and other types send nothing |
| Gateway.Relay.OnJoin | gateway_custom.js:55-63 | the join branch stores room and id, adds the socket to the room (creating it), sends `joined` to the joiner first, then `player_join` to the room's other OPEN members; the registry stays coherent |
| Gateway.Relay.OnLeave | gateway_custom.js:66-73 | the leave branch leaves the state that `Effect` gives and emits its `player_leave` fan-out over the room without the leaver, or sends nothing |
| Gateway.Relay.OnRelayed | gateway_custom.js:76-83 | the move, shoot and chat branch changes no state, keeps the registry coherent, and emits one fan-out of the relayed event into the resolved room |
| Gateway.Relay.OnClose | gateway_custom.js:86-92 | the close handler leaves the state that `Effect` gives, emits its `player_leave` fan-out, and the socket is no longer OPEN |
| SessionProperties.FanOutExactlyOnce | gateway_custom.js:30-39 | a broadcast never reaches the sender; it reaches only OPEN room members; it makes exactly as many sends as recipients; an absent room gets none |
| SessionProperties.FanOutSize | gateway_custom.js:34-37 | a pass with distinct recipients that covers its target set makes exactly one send per target |
| SessionProperties.JoinEffect | gateway_custom.js:55-62 | join adds the socket to the message's room (creating it), keeps every other room including the previous one, stores room and id, acks `joined`, and broadcasts `player_join` |
| SessionProperties.JoinTwiceSameState | gateway_custom.js:58-59 | a repeated identical join leaves rooms and metas as after the first |
| SessionProperties.JoinAnnouncedToOthers | gateway_custom.js:61-62 | `player_join` reaches exactly the room's earlier OPEN members, never the joiner |
| SessionProperties.RejoinKeepsOldMembership | gateway_custom.js:55-59 | joining another room leaves the socket a member of its old room while its meta names the new one |
| SessionProperties.LeaveEffect | gateway_custom.js:66-73 | leave resolves the stored room before the message's; a truthy existing room loses the socket, the stored room becomes `null`, and `player_leave` carries the stored id or the message's; otherwise nothing happens |
| SessionProperties.LeftRoomIsSilent | gateway_custom.js:68-71 | after an effective leave or close, no broadcast into that room reaches the socket |
| SessionProperties.OnlyOwnJoinAdds | gateway_custom.js:55-59 | a socket enters a room only through its own join to that room |
| SessionProperties.RelayedEffect | gateway_custom.js:76-83 | move, shoot and chat change nothing; they broadcast to the message's room when truthy, else the stored one, with id `id \|\| meta.id` and the payload unchanged |
| SessionProperties.IgnoredInputsChangeNothing | gateway_custom.js:44-84 | malformed JSON and unhandled types change nothing and send nothing |
| SessionProperties.EffectiveRoomAsymmetry | gateway_custom.js:66-80 | given a stored room and a different explicit room, leave acts on the stored one and move, shoot and chat go to the explicit one |
| SessionProperties.CloseEffect | gateway_custom.js:86-92 | close removes the socket from a truthy existing stored room and broadcasts `player_leave` with the stored id; the meta is kept; otherwise nothing |
| SessionProperties.JoinedSocketAlwaysLeaves | gateway_custom.js:66-91 | in a coherent registry, an open socket with a truthy stored room is removed from it and announced on leave and on close |
| SessionProperties.SecondCloseRepeatsLeave | gateway_custom.js:86-92 | the close handler keeps the stored room, so a second run would repeat the same `player_leave` |
| SessionProperties.FalsyRoomIsNeverLeft | gateway_custom.js:55-92 | a socket that joined a falsy room (`""`, `null` or absent) stays a member of it through any leave and through close; only a leave naming a truthy room changes the rooms, and then not that one |
| SessionProperties.AliceAndBob | gateway_custom.js:41-92 | the two-client session: each joiner is acked and only the other hears `player_join`; a move reaches only the other; a close is announced only to the remaining member |

## Left out

- The Express app, the `/_status` and `/` routes, and request logging are HTTP plumbing (gateway_custom.js:1-17).
- The HTTP server, the `/custom` upgrade routing, `server.listen` and the `PORT` setting are transport and process startup (gateway_custom.js:6, 19-22, 99-109).
- JSON parsing and serialization are not modelled. A frame arrives already parsed, and `None` stands for text that is not JSON. An outbound message is the event value itself.
- Room, id and type are modelled as absent, `null` or a string. JSON numbers, booleans, objects and arrays in those fields are not modelled. A frame whose JSON is the literal `null` makes the handler throw on destructuring; that case is not modelled.
- The payload is opaque: it is absent or its JSON text, and it is copied unchanged.
- Console output and the `error` handler only log (gateway_custom.js:49, 60, 94-96).
- Transport behaviour of `ws.send` is not modelled. A send is recorded in `outbox` when the handler makes it. A send that fails at the transport is still recorded, and it cannot stop later sends because the model has no failures.
- Gateway.Relay.Broadcast: the order of sends within one pass is left unspecified, because it follows the `Set`'s iteration order. The contract states the set of recipients and that each gets exactly one send.
- Gateway.Relay.OnMessage: requires the socket to be OPEN. The CLOSING state is not modelled apart from CLOSED: `open` changes only on connect and on close.
- Gateway.Relay.OnClose: requires the socket to be OPEN, which encodes that the transport fires `close` once per socket. The handler itself is not idempotent (see SecondCloseRepeatsLeave).
- Concurrency is not modelled. JavaScript runs each handler to completion on one event loop, so each run is one atomic step.
