/**
 * The room registry: the module-level `Map` from room id to the `Set` of
 * sockets in that room. A key may be any value a client sent as `room`
 * (a string, `null`, or `undefined` when the field was missing), and an
 * absent key reads as an empty room.
 */
module Rooms {
  import opened JsValues

  /** The identity of one WebSocket connection (the socket object itself). */
  type ConnId = nat

  type RoomMap = map<Val, set<ConnId>>

  /** The members of `room`; a room that was never created has none. */
  function Members(rooms: RoomMap, room: Val): set<ConnId> {
    if room in rooms then rooms[room] else {}
  }

  /**
   * Join: the room is created (with an empty set) when missing, `c` is added
   * to its set, and every other room is left as it was.
   */
  function AddMember(rooms: RoomMap, room: Val, c: ConnId): (r: RoomMap)
    ensures r.Keys == rooms.Keys + {room}
    ensures Members(r, room) == Members(rooms, room) + {c}
    ensures forall k :: k != room ==> Members(r, k) == Members(rooms, k)
  {
    rooms[room := Members(rooms, room) + {c}]
  }

  /**
   * Deleting `c` from the set of a room that exists: `c` is no longer a
   * member, the other members stay, the key itself is kept (an emptied room
   * is never deleted from the map), and every other room is left as it was.
   */
  function RemoveMember(rooms: RoomMap, room: Val, c: ConnId): (r: RoomMap)
    requires room in rooms
    ensures r.Keys == rooms.Keys
    ensures Members(r, room) == Members(rooms, room) - {c}
    ensures forall k :: k != room ==> Members(r, k) == Members(rooms, k)
  {
    rooms[room := rooms[room] - {c}]
  }

  /**
   * The sockets that `broadcastToRoom(room, sender, _)` writes to: the members
   * of `room` whose state is OPEN, other than the sender.
   */
  function Audience(rooms: RoomMap, open: set<ConnId>, room: Val, sender: ConnId): (r: set<ConnId>)
    ensures sender !in r
    ensures r <= open
    ensures forall w :: w in r <==> w in Members(rooms, room) && w in open && w != sender
  {
    set w | w in Members(rooms, room) && w in open && w != sender
  }
}
