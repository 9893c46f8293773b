/**
 * The relay as the server runs it: the shared room map, the `meta` object of
 * every socket, which sockets are OPEN, and the sends made so far, updated in
 * place by the connection, message and close handlers.
 */
module Gateway {
  import opened Wrappers
  import opened JsValues
  import opened Rooms
  import opened Protocol

  /**
   * Every socket in a room is a connection the server has seen, every open
   * socket has its `meta`, and an open socket whose stored room is truthy is
   * a member of that room.
   */
  ghost predicate Coherent(reg: Registry, open: set<ConnId>) {
    && open <= reg.meta.Keys
    && (forall k, w :: k in reg.rooms && w in reg.rooms[k] ==> w in reg.meta)
    && (forall c :: c in open && Truthy(reg.meta[c].room) ==> c in Members(reg.rooms, reg.meta[c].room))
  }

  /**
   * Every handler run keeps the registry coherent; after a close the closing
   * socket no longer counts as open.
   */
  lemma EffectKeepsCoherent(reg: Registry, open: set<ConnId>, c: ConnId, input: Input)
    requires Coherent(reg, open)
    requires c in open
    ensures Coherent(Effect(reg, c, input).next, if input.Close? then open - {c} else open)
  {
    var next := Effect(reg, c, input).next;
    var open' := if input.Close? then open - {c} else open;
    forall d | d in open' && Truthy(next.meta[d].room)
      ensures d in Members(next.rooms, next.meta[d].room)
    {
      if d != c {
        assert next.meta[d] == reg.meta[d];
      }
    }
  }

  lemma AppendAssociative<T>(a: seq<T>, b: seq<T>, c: seq<T>)
    ensures (a + b) + c == a + (b + c)
  {
  }

  class Relay {
    /** `rooms`: room id to the set of sockets in it. */
    var rooms: RoomMap
    /** `ws.meta` of every socket that has connected. */
    var meta: map<ConnId, Meta>
    /** The sockets whose `readyState` is OPEN. */
    var open: set<ConnId>
    /** Every `ws.send` made, in order. */
    var outbox: seq<Send>

    ghost function State(): Registry
      reads this`rooms, this`meta
    {
      Registry(rooms, meta)
    }

    ghost predicate Valid()
      reads this`rooms, this`meta, this`open
    {
      Coherent(State(), open)
    }

    /** The server starts with no rooms and no connections. */
    constructor ()
      ensures Valid()
      ensures rooms == map[] && meta == map[] && open == {} && outbox == []
    {
      rooms, meta, open, outbox := map[], map[], {}, [];
    }

    /** A new connection: its meta starts with room and id `null`, and the socket is OPEN. */
    method OnConnect(c: ConnId)
      requires Valid()
      requires c !in meta
      modifies this`meta, this`open
      ensures Valid()
      ensures meta == old(meta)[c := Unjoined]
      ensures open == old(open) + {c}
    {
      meta := meta[c := Unjoined];
      open := open + {c};
    }

    /**
     * `broadcastToRoom(room, sender, ev)`: nothing when the room does not
     * exist; otherwise one pass over its members that sends `ev` to each one
     * that is OPEN and is not the sender.
     */
    method Broadcast(room: Val, sender: ConnId, ev: Event) returns (sent: seq<Send>)
      modifies this`outbox
      ensures outbox == old(outbox) + sent
      ensures IsFanOut(sent, Audience(rooms, open, room, sender), ev)
    {
      sent := [];
      if room !in rooms {
        return;
      }
      var pending := rooms[room];
      ghost var visited: set<ConnId> := {};
      ghost var reached: set<ConnId> := {};
      while pending != {}
        invariant pending + visited == rooms[room] && pending !! visited
        invariant reached == set v | v in visited && v in open && v != sender
        invariant outbox == old(outbox) + sent
        invariant IsFanOut(sent, reached, ev)
        decreases pending
      {
        var w :| w in pending;
        if w in open && w != sender {
          FanOutExtend(sent, reached, ev, w);
          sent := sent + [Send(w, ev)];
          outbox := outbox + [Send(w, ev)];
          reached := reached + {w};
        }
        pending := pending - {w};
        visited := visited + {w};
      }
      assert reached == Audience(rooms, open, room, sender);
    }

    /** The `message` handler on connection `c`. */
    method OnMessage(c: ConnId, msg: Option<Msg>) returns (sent: seq<Send>)
      requires Valid()
      requires c in open
      modifies this`rooms, this`meta, this`outbox
      ensures Valid()
      ensures State() == Effect(old(State()), c, Message(msg)).next
      ensures outbox == old(outbox) + sent
      ensures Emits(sent, Effect(old(State()), c, Message(msg)), open, c)
    {
      sent := [];
      if msg.None? {
        return;
      }
      var m := msg.value;
      if m.kind == Str("join") {
        sent := OnJoin(c, m);
      } else if m.kind == Str("leave") {
        sent := OnLeave(c, m);
      } else if IsRelayed(m.kind) {
        sent := OnRelayed(c, m);
      }
    }

    /** The `join` branch of the message handler. */
    method OnJoin(c: ConnId, m: Msg) returns (sent: seq<Send>)
      requires Valid()
      requires c in open
      requires m.kind == Str("join")
      modifies this`rooms, this`meta, this`outbox
      ensures Valid()
      ensures State() == Effect(old(State()), c, Message(Some(m))).next
      ensures outbox == old(outbox) + sent
      ensures Emits(sent, Effect(old(State()), c, Message(Some(m))), open, c)
    {
      ghost var step := Effect(State(), c, Message(Some(m)));
      EffectKeepsCoherent(State(), open, c, Message(Some(m)));
      meta := meta[c := Meta(m.room, m.id)];
      if m.room !in rooms {
        rooms := rooms[m.room := {}];
      }
      rooms := rooms[m.room := rooms[m.room] + {c}];
      assert State() == step.next;
      var ack := Send(c, Joined(m.room, m.id));
      outbox := outbox + [ack];
      var fan := Broadcast(m.room, c, PlayerJoin(m.room, m.id));
      sent := [ack] + fan;
      AppendAssociative(old(outbox), [ack], fan);
      ReplyThenFanOutEmits(step, open, c, fan);
    }

    /** The `leave` branch of the message handler. */
    method OnLeave(c: ConnId, m: Msg) returns (sent: seq<Send>)
      requires Valid()
      requires c in open
      requires m.kind == Str("leave")
      modifies this`rooms, this`meta, this`outbox
      ensures Valid()
      ensures State() == Effect(old(State()), c, Message(Some(m))).next
      ensures outbox == old(outbox) + sent
      ensures Emits(sent, Effect(old(State()), c, Message(Some(m))), open, c)
    {
      ghost var step := Effect(State(), c, Message(Some(m)));
      EffectKeepsCoherent(State(), open, c, Message(Some(m)));
      sent := [];
      var stored := meta[c];
      var room := Or(stored.room, m.room);
      if Truthy(room) && room in rooms {
        rooms := rooms[room := rooms[room] - {c}];
        sent := Broadcast(room, c, PlayerLeave(room, Or(stored.id, m.id)));
        meta := meta[c := stored.(room := Null)];
        assert State() == step.next;
        ReplyThenFanOutEmits(step, open, c, sent);
      }
    }

    /** The `move`/`shoot`/`chat` branch of the message handler. */
    method OnRelayed(c: ConnId, m: Msg) returns (sent: seq<Send>)
      requires Valid()
      requires c in open
      requires IsRelayed(m.kind)
      modifies this`outbox
      ensures Valid()
      ensures State() == Effect(old(State()), c, Message(Some(m))).next
      ensures outbox == old(outbox) + sent
      ensures Emits(sent, Effect(old(State()), c, Message(Some(m))), open, c)
    {
      var stored := meta[c];
      var room := Or(m.room, stored.room);
      sent := Broadcast(room, c, Relayed(m.kind.s, room, Or(m.id, stored.id), m.payload));
      ReplyThenFanOutEmits(Effect(State(), c, Message(Some(m))), open, c, sent);
    }

    /** The `close` handler on connection `c`, which the transport fires once, when the socket closes. */
    method OnClose(c: ConnId) returns (sent: seq<Send>)
      requires Valid()
      requires c in open
      modifies this`rooms, this`open, this`outbox
      ensures Valid()
      ensures open == old(open) - {c}
      ensures State() == Effect(old(State()), c, Close).next
      ensures outbox == old(outbox) + sent
      ensures Emits(sent, Effect(old(State()), c, Close), open, c)
    {
      EffectKeepsCoherent(State(), open, c, Close);
      open := open - {c};
      sent := [];
      var room := meta[c].room;
      if Truthy(room) && room in rooms {
        rooms := rooms[room := rooms[room] - {c}];
        sent := Broadcast(room, c, PlayerLeave(room, meta[c].id));
        ReplyThenFanOutEmits(Effect(old(State()), c, Close), open, c, sent);
      }
    }
  }
}
