/** What the broker does for its clients (`broker/connection.ts`, `broker/room-registry.ts`): which joins it
    grants, what a leave or a close gives up, who is told, and to whom a message is relayed. BrokerRuns says
    what may never happen; this says what does. */
module BrokerProgress {
  import opened Bytes
  import opened BrokerSpec
  import opened BrokerRuns

  // ----- Relaying -----

  /** Socket `t` is to get what the connection of `s` relays: in a pair room the other seat; in a group room
      the seat the message addresses, unless that is the sender's own. */
  predicate Addressed(room: Room, s: Socket, m: Relay, t: Socket)
  {
    t != s && exists x :: x in room.seats && x.socket == t && (room.mode == Group ==> m.to.Some? && x.peerId == m.to)
  }

  /** The one thing written to it: the message without its address and with the sender's true peer id, or,
      where the backlog is over the bound, the close. */
  function Handed(t: Socket, m: Relay, sender: Option<string>, buffered: Socket -> int): Out
  {
    if buffered(t) > 1048576 then Close(t, 1013) else Send(t, Relayed(Relay(m.kind, m.body, None, sender)))
  }

  /** Relaying, exactly: the output of a seated sender is one entry for the addressed socket, and it is empty
      when no socket is addressed. */
  lemma RelayExactly(lim: Limits, b: Broker, s: Socket, m: Relay, buffered: Socket -> int)
    requires Inv(lim, b) && s in b.conns && b.conns[s].roomId.Some?
    ensures b.conns[s].roomId.value in b.rooms
    ensures var room, out := b.rooms[b.conns[s].roomId.value], HandleRelay(b.rooms, b.conns[s], s, m, buffered);
            (forall t :: Addressed(room, s, m, t) <==> out == [Handed(t, m, b.conns[s].peerId, buffered)])
            && ((forall t :: !Addressed(room, s, m, t)) ==> out == [])
  {
    var conn := b.conns[s];
    var room := b.rooms[conn.roomId.value];
    var out := HandleRelay(b.rooms, conn, s, m, buffered);
    assert RoomOk(lim, room) && Seat(conn.peerId, s) in room.seats;
    forall t ensures Addressed(room, s, m, t) <==> out == [Handed(t, m, conn.peerId, buffered)] {
      if conn.peerId.Some? {
        GroupTarget(room, s, m, t);
      } else {
        PairTarget(room, s, m, t);
      }
    }
    if out != [] {
      assert Addressed(room, s, m, out[0].socket);
    }
  }

  lemma GroupTarget(room: Room, s: Socket, m: Relay, t: Socket)
    requires room.mode == Group && Labelled(room.seats)
    ensures Addressed(room, s, m, t) <==> m.to.Some? && SeatOf(room.seats, m.to.value) == Some(t) && t != s
  {
    if m.to.Some? {
      SeatOfIs(room.seats, m.to.value);
      if x :| x in room.seats && x.socket == t && x.peerId == m.to {
        var i :| 0 <= i < |room.seats| && room.seats[i] == x;
        var j :| 0 <= j < |room.seats| && room.seats[j] == Seat(m.to, SeatOf(room.seats, m.to.value).value);
        assert i == j;
      }
    }
  }

  lemma PairTarget(room: Room, s: Socket, m: Relay, t: Socket)
    requires room.mode == Pair && |room.seats| <= 2 && Apart(room.seats) && exists x :: x in room.seats && x.socket == s
    ensures Addressed(room, s, m, t) <==> OtherSocket(room.seats, s) == Some(t)
  {
    var seats := room.seats;
    if |seats| == 2 {
      assert forall x :: x in seats <==> x == seats[0] || x == seats[1];
      assert seats[1..][0] == seats[1] && seats[0].socket != seats[1].socket;
      assert OtherSocket(seats, s) == Some(if seats[0].socket != s then seats[0].socket else seats[1].socket);
    } else {
      assert forall x :: x in seats <==> x == seats[0];
      assert seats[1..] == [];
    }
  }

  // ----- Joining -----

  /** A join is granted: the connection has no seat, the ids are well-formed for the mode, and a room with a
      free seat of that mode, in a group one without this peer id, is there or may be opened. */
  predicate Granted(lim: Limits, b: Broker, s: Socket, roomId: string, mode: Mode, peerId: Option<string>)
    requires s in b.conns
  {
    b.conns[s].roomId.None?
    && |roomId| == 32 && Hex(roomId)
    && (if mode == Group then peerId.Some? && |peerId.value| == 16 && Hex(peerId.value) else peerId.None?)
    && if roomId !in b.rooms then |b.rooms| < lim.maxRooms
       else b.rooms[roomId].mode == mode && |b.rooms[roomId].seats| < (if mode == Group then lim.maxGroupPeers else 2)
            && (mode == Group ==> forall x :: x in b.rooms[roomId].seats ==> x.peerId != peerId)
  }

  /** Joining, exactly: a granted join takes the last seat of its room and nothing else moves; any other
      changes no room and no connection. */
  lemma JoinExactly(lim: Limits, b: Broker, s: Socket, roomId: string, mode: Mode, peerId: Option<string>)
    requires Inv(lim, b) && s in b.conns
    ensures var n := Next(lim, b, Joins(s, roomId, mode, peerId));
            if Granted(lim, b, s, roomId, mode, peerId)
            then n.conns == b.conns[s := Conn(Some(roomId), peerId)]
                 && n.rooms == b.rooms[roomId := Room(mode, SeatsIn(b.rooms, roomId) + [Seat(peerId, s)])]
            else n.conns == b.conns && n.rooms == b.rooms
  {
    RefusedUnless(lim, b, s, roomId, mode, peerId);
  }

  lemma RefusedUnless(lim: Limits, b: Broker, s: Socket, roomId: string, mode: Mode, peerId: Option<string>)
    requires Inv(lim, b) && s in b.conns
    ensures Granted(lim, b, s, roomId, mode, peerId)
       <==> b.conns[s].roomId.None? && JoinRefusal(lim, b.rooms, roomId, mode, peerId).None?
  {
    if roomId in b.rooms && mode == Group && peerId.Some? {
      SeatOfIs(b.rooms[roomId].seats, peerId.value);
    }
  }

  /** What a client whose join is not granted gets to see: a malformed one nothing, any other the close of its
      reason. */
  lemma RefusalCodes(lim: Limits, b: Broker, s: Socket, roomId: string, mode: Mode, peerId: Option<string>)
    requires Inv(lim, b) && s in b.conns && !Granted(lim, b, s, roomId, mode, peerId)
    ensures HandleJoin(lim, b.rooms, b.conns[s], s, roomId, mode, peerId).out ==
            if b.conns[s].roomId.Some? then [Close(s, 4003)]
            else if |roomId| != 32 || !Hex(roomId) || (if mode == Pair then peerId.Some?
                                                       else peerId.None? || |peerId.value| != 16 || !Hex(peerId.value)) then []
            else if roomId in b.rooms && b.rooms[roomId].mode != mode then [Close(s, 4005)]
            else if roomId in b.rooms && mode == Group && (exists x :: x in b.rooms[roomId].seats && x.peerId == peerId)
            then [Close(s, 4004)]
            else [Close(s, 1013)]
  {
    RefusedUnless(lim, b, s, roomId, mode, peerId);
    if roomId in b.rooms && mode == Group && peerId.Some? {
      SeatOfIs(b.rooms[roomId].seats, peerId.value);
    }
  }

  /** Who is told of a granted join: in a group room every other seat, once; in a pair room the first seat,
      when this was the second. */
  lemma JoinTold(lim: Limits, b: Broker, s: Socket, roomId: string, mode: Mode, peerId: Option<string>, t: Socket)
    requires Inv(lim, b) && s in b.conns && Granted(lim, b, s, roomId, mode, peerId)
    ensures var out, before := HandleJoin(lim, b.rooms, b.conns[s], s, roomId, mode, peerId).out, SeatsIn(b.rooms, roomId);
            if mode == Pair then out == if |before| == 1 then [Send(before[0].socket, JoinNote(roomId, None))] else []
            else NotesOf(t, out) == if exists x :: x in before && x.socket == t then [Note(true, peerId.value)] else []
  {
    RefusedUnless(lim, b, s, roomId, mode, peerId);
    NoSeat(b.rooms, b.conns, s);
    var before, seated := SeatsIn(b.rooms, roomId), Seated(b.rooms, roomId, mode, peerId, s);
    JoinRooms(lim, b.rooms, roomId, mode, peerId, s);
    assert RoomOk(lim, seated[roomId]);
    if mode == Group {
      Heard(seated[roomId], s, JoinNote(roomId, peerId), Note(true, peerId.value), t);
    } else if before != [] {
      assert seated[roomId].seats == before + [Seat(peerId, s)];
      assert seated[roomId].seats[0] == before[0] && before[0] in before;
    }
  }

  // ----- Leaving -----

  /** Leaving and closing, exactly: the socket's seat is given up, a room that empties goes, and nobody else
      moves. */
  lemma LeaveExactly(lim: Limits, b: Broker, s: Socket, closes: bool, r: string, x: Seat)
    requires Inv(lim, b) && s in b.conns
    ensures var n := Next(lim, b, if closes then Closes(s) else Leaves(s));
            (SeatedIn(n.rooms, r, x) <==> SeatedIn(b.rooms, r, x) && x.socket != s)
            && n.conns == b.conns[s := UNSEATED] && (r in n.rooms ==> n.rooms[r].seats != [])
  {
    RoomsStand(lim, b, if closes then Closes(s) else Leaves(s), r);
    if b.conns[s].roomId.None? {
      NoSeat(b.rooms, b.conns, s);
      PurgeNothing(lim, b, s);
      assert b.conns[s] == UNSEATED;
    } else {
      LeftSeat(lim, b.rooms, b.conns[s].roomId.value, s, r, x);
    }
  }

  lemma RoomsStand(lim: Limits, b: Broker, e: Event, r: string)
    requires Inv(lim, b) && Enabled(b, e)
    ensures r in Next(lim, b, e).rooms ==> Next(lim, b, e).rooms[r].seats != []
  {
    NextKeeps(lim, b, e);
    var n := Next(lim, b, e);
    assert r in n.rooms ==> RoomOk(lim, n.rooms[r]);
  }

  /** Who is told of it: in a group room every other seat, once; in a pair room the other seat when the socket
      closed, and nobody when it left. */
  lemma LeaveTold(lim: Limits, b: Broker, s: Socket, closes: bool, t: Socket)
    requires Inv(lim, b) && s in b.conns && b.conns[s].roomId.Some?
    ensures b.conns[s].roomId.value in b.rooms
    ensures var conn := b.conns[s];
            var room, out := b.rooms[conn.roomId.value], (if closes then HandleClose(b.rooms, conn, s) else HandleLeave(b.rooms, conn, s)).out;
            if room.mode == Group
            then conn.peerId.Some?
                 && NotesOf(t, out) == if t != s && exists x :: x in room.seats && x.socket == t then [Note(false, conn.peerId.value)] else []
            else (Send(t, LeaveNote(conn.roomId.value, None)) in out <==> closes && t != s && exists x :: x in room.seats && x.socket == t)
                 && |out| <= 1
  {
    var conn := b.conns[s];
    var room := b.rooms[conn.roomId.value];
    assert RoomOk(lim, room) && Seat(conn.peerId, s) in room.seats;
    if room.mode == Group {
      DepartureHeard(lim, b, s, t);
    } else {
      PairTarget(room, s, Relay(Offer, "", None, None), t);
      assert Addressed(room, s, Relay(Offer, "", None, None), t) <==> t != s && exists x :: x in room.seats && x.socket == t;
    }
  }
}
