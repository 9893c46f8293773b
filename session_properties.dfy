/**
 * What the handlers promise, stated over `Protocol.Effect` for every state,
 * every connection and every input.
 */
module SessionProperties {
  import opened Wrappers
  import opened JsValues
  import opened Rooms
  import opened Protocol
  import opened Gateway

  function JoinMsg(room: Val, id: Val): Msg {
    Msg(Str("join"), room, id, None)
  }

  // ---- broadcastToRoom --------------------------------------------------

  /**
   * One fan-out pass writes to the sender never, only to open members of the
   * room, and exactly once to each of them: as many sends as recipients.
   */
  lemma {:induction false} FanOutExactlyOnce(rooms: RoomMap, open: set<ConnId>, room: Val, sender: ConnId,
                                             sends: seq<Send>, ev: Event)
    requires IsFanOut(sends, Audience(rooms, open, room, sender), ev)
    ensures forall i :: 0 <= i < |sends| ==>
              sends[i].to != sender && sends[i].to in open && sends[i].to in Members(rooms, room) && sends[i].ev == ev
    ensures |sends| == |Audience(rooms, open, room, sender)|
    ensures room !in rooms ==> sends == []
  {
    FanOutSize(sends, Audience(rooms, open, room, sender), ev);
  }

  /** A fan-out pass makes exactly as many sends as it has targets. */
  lemma {:induction false} FanOutSize(sends: seq<Send>, targets: set<ConnId>, ev: Event)
    requires IsFanOut(sends, targets, ev)
    ensures |sends| == |targets|
    decreases |sends|
  {
    if sends == [] {
      assert forall t :: t !in targets;
    } else {
      var n := |sends| - 1;
      var last := sends[n].to;
      var prefix := sends[..n];
      forall t | t in targets - {last}
        ensures exists i :: 0 <= i < |prefix| && prefix[i].to == t
      {
        var i :| 0 <= i < |sends| && sends[i].to == t;
        assert prefix[i].to == t;
      }
      forall i | 0 <= i < |prefix|
        ensures prefix[i].ev == ev && prefix[i].to in targets - {last}
      {
        assert sends[i].to != sends[n].to;
      }
      assert IsFanOut(prefix, targets - {last}, ev);
      FanOutSize(prefix, targets - {last}, ev);
    }
  }

  // ---- join ---------------------------------------------------------------

  /**
   * `join` puts the socket in the message's room (creating it if needed),
   * stores the message's room and id on the socket, acknowledges with
   * `joined`, and asks for a `player_join` broadcast; every other room,
   * including the one the socket was in before, keeps its members.
   */
  lemma JoinEffect(reg: Registry, c: ConnId, room: Val, id: Val, payload: Option<string>)
    requires c in reg.meta
    ensures var s := Effect(reg, c, Message(Some(Msg(Str("join"), room, id, payload))));
      && room in s.next.rooms
      && Members(s.next.rooms, room) == Members(reg.rooms, room) + {c}
      && (forall k :: k != room ==> Members(s.next.rooms, k) == Members(reg.rooms, k))
      && s.next.meta == reg.meta[c := Meta(room, id)]
      && s.reply == Some(Joined(room, id))
      && s.cast == Some(Cast(room, PlayerJoin(room, id)))
  {
  }

  /** A second identical `join` leaves the rooms and the metadata exactly as the first did. */
  lemma JoinTwiceSameState(reg: Registry, c: ConnId, m: Msg)
    requires c in reg.meta
    requires m.kind == Str("join")
    ensures var once := Effect(reg, c, Message(Some(m)));
      var twice := Effect(once.next, c, Message(Some(m)));
      && twice.next == once.next
      && twice.reply == once.reply
      && twice.cast == once.cast
  {
    var once := Effect(reg, c, Message(Some(m)));
    var twice := Effect(once.next, c, Message(Some(m)));
    assert twice.next.rooms == once.next.rooms;
  }

  /**
   * The `player_join` of a join reaches exactly the room's earlier members
   * that are open, and never the joiner itself.
   */
  lemma JoinAnnouncedToOthers(reg: Registry, open: set<ConnId>, c: ConnId, m: Msg)
    requires c in reg.meta
    requires m.kind == Str("join")
    ensures var s := Effect(reg, c, Message(Some(m)));
      && c !in Audience(s.next.rooms, open, m.room, c)
      && Audience(s.next.rooms, open, m.room, c) == (Members(reg.rooms, m.room) * open) - {c}
  {
  }

  /**
   * Rejoining elsewhere, as written, does not leave the old room: the socket
   * stays a member there while its stored room names the new one.
   */
  lemma RejoinKeepsOldMembership(reg: Registry, c: ConnId, m: Msg)
    requires c in reg.meta
    requires m.kind == Str("join")
    requires c in Members(reg.rooms, reg.meta[c].room)
    requires m.room != reg.meta[c].room
    ensures var s := Effect(reg, c, Message(Some(m)));
      && c in Members(s.next.rooms, reg.meta[c].room)
      && c in Members(s.next.rooms, m.room)
      && s.next.meta[c].room == m.room
  {
  }

  // ---- leave --------------------------------------------------------------

  /**
   * `leave` acts on the stored room when it is truthy, otherwise on the
   * message's room. When that room is truthy and exists, the socket leaves
   * it, its stored room becomes `null` (its id stays), and a `player_leave`
   * with the stored id (or, when that is falsy, the message's) is asked for;
   * otherwise nothing changes and nothing is sent.
   */
  lemma LeaveEffect(reg: Registry, c: ConnId, m: Msg)
    requires c in reg.meta
    requires m.kind == Str("leave")
    ensures var stored := reg.meta[c];
      var room := if Truthy(stored.room) then stored.room else m.room;
      var s := Effect(reg, c, Message(Some(m)));
      if Truthy(room) && room in reg.rooms then
        && Members(s.next.rooms, room) == Members(reg.rooms, room) - {c}
        && (forall k :: k != room ==> Members(s.next.rooms, k) == Members(reg.rooms, k))
        && s.next.meta == reg.meta[c := Meta(Null, stored.id)]
        && s.reply == None
        && s.cast == Some(Cast(room, PlayerLeave(room, if Truthy(stored.id) then stored.id else m.id)))
      else
        s.next == reg && s.reply == None && s.cast == None
  {
  }

  /**
   * After an effective `leave` (or `close`) of a room, no broadcast into that
   * room from any sender reaches the socket.
   */
  lemma LeftRoomIsSilent(reg: Registry, open: set<ConnId>, c: ConnId, input: Input, sender: ConnId)
    requires c in reg.meta
    requires input == Close || (input.Message? && input.msg.Some? && input.msg.value.kind == Str("leave"))
    requires Effect(reg, c, input).cast.Some?
    ensures var s := Effect(reg, c, input);
      c !in Audience(s.next.rooms, open, s.cast.value.room, sender)
  {
  }

  /**
   * Only the socket's own `join` ever puts it in a room: no run of any
   * handler, on this or another connection, adds it anywhere else. Together
   * with LeftRoomIsSilent, a socket that left a room hears nothing from it
   * until it joins it again.
   */
  lemma OnlyOwnJoinAdds(reg: Registry, d: ConnId, input: Input, c: ConnId, k: Val)
    requires d in reg.meta
    requires c !in Members(reg.rooms, k)
    requires c in Members(Effect(reg, d, input).next.rooms, k)
    ensures d == c
    ensures input.Message? && input.msg.Some?
    ensures input.msg.value.kind == Str("join") && input.msg.value.room == k
  {
  }

  // ---- move / shoot / chat, other types, malformed frames -----------------

  /**
   * `move`, `shoot` and `chat` change no state and send nothing back; they
   * ask for a broadcast to the message's room when it is truthy, otherwise
   * to the stored room, carrying the message's id when truthy (otherwise the
   * stored id), the same type and the payload unchanged.
   */
  lemma RelayedEffect(reg: Registry, c: ConnId, m: Msg)
    requires c in reg.meta
    requires m.kind == Str("move") || m.kind == Str("shoot") || m.kind == Str("chat")
    ensures var stored := reg.meta[c];
      var room := if Truthy(m.room) then m.room else stored.room;
      var id := if Truthy(m.id) then m.id else stored.id;
      var s := Effect(reg, c, Message(Some(m)));
      && s.next == reg
      && s.reply == None
      && s.cast == Some(Cast(room, Relayed(m.kind.s, room, id, m.payload)))
  {
  }

  /** A frame that is not JSON, or whose type is none of the handled ones, changes nothing and sends nothing. */
  lemma IgnoredInputsChangeNothing(reg: Registry, c: ConnId, msg: Option<Msg>)
    requires c in reg.meta
    requires msg.Some? ==> msg.value.kind !in {Str("join"), Str("leave"), Str("move"), Str("shoot"), Str("chat")}
    ensures Effect(reg, c, Message(msg)) == Step(reg, None, None)
  {
  }

  /**
   * The two handlers resolve the room in opposite orders: with both a stored
   * room and a different explicit room, `leave` acts on the stored one while
   * `move`/`shoot`/`chat` go to the explicit one.
   */
  lemma EffectiveRoomAsymmetry(reg: Registry, c: ConnId, m: Msg, relayed: Msg)
    requires c in reg.meta
    requires Truthy(reg.meta[c].room) && reg.meta[c].room in reg.rooms
    requires m.kind == Str("leave") && IsRelayed(relayed.kind)
    requires Truthy(m.room) && relayed.room == m.room && m.room != reg.meta[c].room
    ensures Effect(reg, c, Message(Some(m))).cast.value.room == reg.meta[c].room
    ensures Effect(reg, c, Message(Some(relayed))).cast.value.room == m.room
    ensures Effect(reg, c, Message(Some(m))).cast.value.room != Effect(reg, c, Message(Some(relayed))).cast.value.room
  {
  }

  // ---- close --------------------------------------------------------------

  /**
   * `close` removes the socket from its stored room when that room is truthy
   * and exists and asks for a `player_leave` with the stored id; the stored
   * metadata is kept. Otherwise nothing changes and nothing is sent.
   */
  lemma CloseEffect(reg: Registry, c: ConnId)
    requires c in reg.meta
    ensures var stored := reg.meta[c];
      var s := Effect(reg, c, Close);
      && s.reply == None
      && s.next.meta == reg.meta
      && if Truthy(stored.room) && stored.room in reg.rooms then
           && Members(s.next.rooms, stored.room) == Members(reg.rooms, stored.room) - {c}
           && (forall k :: k != stored.room ==> Members(s.next.rooms, k) == Members(reg.rooms, k))
           && s.cast == Some(Cast(stored.room, PlayerLeave(stored.room, stored.id)))
         else
           s.next == reg && s.cast == None
  {
  }

  /**
   * In a coherent registry, an open socket with a truthy stored room always
   * really leaves it: on `leave` and on `close` the socket is removed from
   * that room and a `player_leave` for it is asked for.
   */
  lemma JoinedSocketAlwaysLeaves(reg: Registry, open: set<ConnId>, c: ConnId, input: Input)
    requires Coherent(reg, open)
    requires c in open && Truthy(reg.meta[c].room)
    requires input == Close || (input.Message? && input.msg.Some? && input.msg.value.kind == Str("leave"))
    ensures var room := reg.meta[c].room;
      var s := Effect(reg, c, input);
      && c !in Members(s.next.rooms, room)
      && s.cast.Some? && s.cast.value.room == room && s.cast.value.ev.PlayerLeave?
  {
    var room := reg.meta[c].room;
    assert c in Members(reg.rooms, room);
    assert room in reg.rooms;
  }

  /**
   * The `close` handler itself is not idempotent: it keeps the stored room,
   * so were it to run a second time it would announce the same
   * `player_leave` again. The transport fires `close` once per socket.
   */
  lemma SecondCloseRepeatsLeave(reg: Registry, c: ConnId)
    requires c in reg.meta
    requires Truthy(reg.meta[c].room) && reg.meta[c].room in reg.rooms
    ensures var once := Effect(reg, c, Close);
      var twice := Effect(once.next, c, Close);
      && twice.next == once.next
      && twice.cast == once.cast
      && once.cast.Some?
  {
    var room := reg.meta[c].room;
    var once := Effect(reg, c, Close);
    assert once.next.meta == reg.meta;
    assert once.next.rooms[room] - {c} == once.next.rooms[room];
  }

  /**
   * A socket that joins a falsy room (the empty string, `null`, or a missing
   * `room`) can never leave it: `leave` and `close` test the room for
   * truthiness, so the socket stays a member even after it has closed. A
   * `leave` naming a truthy room acts on that other room only; with no
   * truthy room in sight, neither handler touches the rooms at all.
   */
  lemma FalsyRoomIsNeverLeft(reg: Registry, c: ConnId, room: Val, id: Val, input: Input)
    requires c in reg.meta
    requires !Truthy(room)
    requires input == Close || (input.Message? && input.msg.Some? && input.msg.value.kind == Str("leave"))
    ensures var joined := Effect(reg, c, Message(Some(JoinMsg(room, id)))).next;
      var after := Effect(joined, c, input).next;
      && c in Members(joined.rooms, room)
      && joined.meta[c].room == room
      && c in Members(after.rooms, room)
      && ((input.Close? || !Truthy(input.msg.value.room)) ==> after.rooms == joined.rooms)
  {
  }

  // ---- a worked session ---------------------------------------------------

  /**
   * Alice (socket 1) and Bob (socket 2) meet in room "r1": each joiner is
   * acknowledged and only the other hears `player_join`, a `move` from Alice
   * reaches Bob alone, and when Bob's socket closes Alice alone hears his
   * `player_leave`.
   */
  lemma AliceAndBob(payload: Option<string>)
    ensures var r1, alice, bob := Str("r1"), Str("alice"), Str("bob");
      var open := {1, 2};
      var s0 := Registry(map[], map[1 := Unjoined, 2 := Unjoined]);
      var a := Effect(s0, 1, Message(Some(JoinMsg(r1, alice))));
      var b := Effect(a.next, 2, Message(Some(JoinMsg(r1, bob))));
      var mv := Effect(b.next, 1, Message(Some(Msg(Str("move"), r1, alice, payload))));
      var cl := Effect(mv.next, 2, Close);
      && a.reply == Some(Joined(r1, alice)) && Audience(a.next.rooms, open, r1, 1) == {}
      && b.reply == Some(Joined(r1, bob)) && b.cast == Some(Cast(r1, PlayerJoin(r1, bob)))
      && Audience(b.next.rooms, open, r1, 2) == {1}
      && mv.cast == Some(Cast(r1, Relayed("move", r1, alice, payload)))
      && Audience(mv.next.rooms, open, r1, 1) == {2}
      && cl.cast == Some(Cast(r1, PlayerLeave(r1, bob)))
      && Audience(cl.next.rooms, open - {2}, r1, 2) == {1}
  {
    var r1, alice, bob := Str("r1"), Str("alice"), Str("bob");
    var open: set<ConnId> := {1, 2};
    var s0 := Registry(map[], map[1 := Unjoined, 2 := Unjoined]);
    var a := Effect(s0, 1, Message(Some(JoinMsg(r1, alice))));
    assert Members(a.next.rooms, r1) == {1};
    var b := Effect(a.next, 2, Message(Some(JoinMsg(r1, bob))));
    assert Members(b.next.rooms, r1) == {1, 2};
    assert Audience(b.next.rooms, open, r1, 2) == {1};
    var mv := Effect(b.next, 1, Message(Some(Msg(Str("move"), r1, alice, payload))));
    assert Audience(mv.next.rooms, open, r1, 1) == {2};
    var cl := Effect(mv.next, 2, Close);
    assert Members(cl.next.rooms, r1) == {1};
    assert Audience(cl.next.rooms, open - {2}, r1, 2) == {1};
  }
}
