/**
 * The session protocol of one connection, as a pure description of what each
 * handler does: which rooms and socket metadata it leaves behind, what it
 * sends straight back to the socket, and which room broadcast it asks for.
 * The class in module Gateway performs these effects in place.
 */
module Protocol {
  import opened Wrappers
  import opened JsValues
  import opened Rooms

  /**
   * A parsed inbound message: the destructured `{ type, room, id, payload }`.
   * `payload` is opaque to the relay: absent, or the JSON text it carries.
   */
  datatype Msg = Msg(kind: Val, room: Val, id: Val, payload: Option<string>)

  /** The outbound messages; each stands for its `JSON.stringify` text. */
  datatype Event =
    | Joined(room: Val, id: Val)
    | PlayerJoin(room: Val, id: Val)
    | PlayerLeave(room: Val, id: Val)
    | Relayed(kind: string, room: Val, id: Val, payload: Option<string>)

  /** One `ws.send` to connection `to`. */
  datatype Send = Send(to: ConnId, ev: Event)

  /** `ws.meta`: the room and client-declared id stored on a socket. */
  datatype Meta = Meta(room: Val, id: Val)

  /** The meta a socket starts with: room and id both `null`. */
  const Unjoined := Meta(Null, Null)

  /** The state the handlers share: the room map and every socket's meta. */
  datatype Registry = Registry(rooms: RoomMap, meta: map<ConnId, Meta>)

  /** What arrives on a connection: a frame (`None` when it is not valid JSON) or the close event. */
  datatype Input = Message(msg: Option<Msg>) | Close

  /** A request to call `broadcastToRoom(room, sender, ev)`. */
  datatype Cast = Cast(room: Val, ev: Event)

  /** The effect of one handler run: the new state, the direct reply, the broadcast. */
  datatype Step = Step(next: Registry, reply: Option<Event>, cast: Option<Cast>)

  /** The event types relayed verbatim to the rest of the room. */
  predicate IsRelayed(kind: Val) {
    kind == Str("move") || kind == Str("shoot") || kind == Str("chat")
  }

  /** The room `leave` acts on: the stored room first, then the message's. */
  function LeaveRoom(stored: Meta, m: Msg): Val {
    Or(stored.room, m.room)
  }

  /** The room `move`/`shoot`/`chat` go to: the message's room first, then the stored one. */
  function RelayRoom(stored: Meta, m: Msg): Val {
    Or(m.room, stored.room)
  }

  /** A handler run that changes nothing and sends nothing. */
  function Nothing(reg: Registry): Step {
    Step(reg, None, None)
  }

  /**
   * One handler run on connection `c` (gateway_custom.js:44-92): the
   * `message` handler for a frame, the `close` handler for `Close`.
   */
  function Effect(reg: Registry, c: ConnId, input: Input): (r: Step)
    requires c in reg.meta
    ensures r.next.meta.Keys == reg.meta.Keys
    ensures forall d :: d in reg.meta && d != c ==> r.next.meta[d] == reg.meta[d]
    ensures r.next.rooms.Keys >= reg.rooms.Keys
  {
    var stored := reg.meta[c];
    match input
    case Close =>
      var room := stored.room;
      if Truthy(room) && room in reg.rooms then
        Step(Registry(RemoveMember(reg.rooms, room, c), reg.meta), None,
             Some(Cast(room, PlayerLeave(room, stored.id))))
      else
        Nothing(reg)
    case Message(None) =>
      Nothing(reg)
    case Message(Some(m)) =>
      if m.kind == Str("join") then
        Step(Registry(AddMember(reg.rooms, m.room, c), reg.meta[c := Meta(m.room, m.id)]),
             Some(Joined(m.room, m.id)),
             Some(Cast(m.room, PlayerJoin(m.room, m.id))))
      else if m.kind == Str("leave") then
        var room := LeaveRoom(stored, m);
        if Truthy(room) && room in reg.rooms then
          Step(Registry(RemoveMember(reg.rooms, room, c), reg.meta[c := stored.(room := Null)]), None,
               Some(Cast(room, PlayerLeave(room, Or(stored.id, m.id)))))
        else
          Nothing(reg)
      else if IsRelayed(m.kind) then
        var room := RelayRoom(stored, m);
        Step(reg, None, Some(Cast(room, Relayed(m.kind.s, room, Or(m.id, stored.id), m.payload))))
      else
        Nothing(reg)
  }

  /**
   * `sends` is one pass of `broadcastToRoom`: every send carries the same
   * event, goes to a member of `targets`, reaches every member of `targets`,
   * and no member is written to twice.
   */
  ghost predicate IsFanOut(sends: seq<Send>, targets: set<ConnId>, ev: Event) {
    && (forall i :: 0 <= i < |sends| ==> sends[i].ev == ev && sends[i].to in targets)
    && (forall t :: t in targets ==> exists i :: 0 <= i < |sends| && sends[i].to == t)
    && (forall i, j :: 0 <= i < j < |sends| ==> sends[i].to != sends[j].to)
  }

  /** One more send, to a socket not yet reached, extends a fan-out pass. */
  lemma {:induction false} FanOutExtend(sends: seq<Send>, targets: set<ConnId>, ev: Event, w: ConnId)
    requires IsFanOut(sends, targets, ev)
    requires w !in targets
    ensures IsFanOut(sends + [Send(w, ev)], targets + {w}, ev)
  {
    var sends' := sends + [Send(w, ev)];
    forall t | t in targets + {w}
      ensures exists i :: 0 <= i < |sends'| && sends'[i].to == t
    {
      if t == w {
        assert sends'[|sends|].to == t;
      } else {
        var i :| 0 <= i < |sends| && sends[i].to == t;
        assert sends'[i].to == t;
      }
    }
  }

  /** The sends made directly to `c`: the `joined` acknowledgement, if any. */
  function Direct(c: ConnId, reply: Option<Event>): seq<Send> {
    if reply.Some? then [Send(c, reply.value)] else []
  }

  /**
   * `sent` is what one handler run on `c` writes: the direct reply first,
   * then one fan-out pass over the requested room as it stands after the run,
   * with `open` the sockets whose state is OPEN at that time.
   */
  ghost predicate Emits(sent: seq<Send>, step: Step, open: set<ConnId>, c: ConnId) {
    var direct := Direct(c, step.reply);
    && |direct| <= |sent|
    && sent[..|direct|] == direct
    && match step.cast
       case None => sent == direct
       case Some(cast) => IsFanOut(sent[|direct|..], Audience(step.next.rooms, open, cast.room, c), cast.ev)
  }

  /** The reply followed by one fan-out pass over the requested room is what the run emits. */
  lemma ReplyThenFanOutEmits(step: Step, open: set<ConnId>, c: ConnId, fan: seq<Send>)
    requires step.cast.Some?
    requires IsFanOut(fan, Audience(step.next.rooms, open, step.cast.value.room, c), step.cast.value.ev)
    ensures Emits(Direct(c, step.reply) + fan, step, open, c)
  {
    var direct := Direct(c, step.reply);
    assert (direct + fan)[..|direct|] == direct;
    assert (direct + fan)[|direct|..] == fan;
  }
}
