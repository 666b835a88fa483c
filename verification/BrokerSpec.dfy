/** The signaling broker on values (`broker/room-registry.ts`, `broker/connection.ts`): what one message
    on one connection does to the rooms, to that connection and to other sockets. */
module BrokerSpec {
  import opened Bytes

  type Socket = int

  datatype Mode = Pair | Group

  /** A seat carries a peer id in a group room and none in a pair room. Seats are in the order in which
      they were taken. */
  datatype Seat = Seat(peerId: Option<string>, socket: Socket)

  datatype Room = Room(mode: Mode, seats: seq<Seat>)

  type Rooms = map<string, Room>

  datatype Limits = Limits(maxRooms: int, maxGroupPeers: int)

  predicate LimitsOk(lim: Limits) { 0 <= lim.maxRooms && 1 <= lim.maxGroupPeers }

  /** What a connection remembers of its own seat. */
  datatype Conn = Conn(roomId: Option<string>, peerId: Option<string>)

  const UNSEATED: Conn := Conn(None, None)

  datatype RelayKind = Offer | Answer | Ice

  datatype Relay = Relay(kind: RelayKind, body: string, to: Option<string>, sender: Option<string>)

  /** What the broker writes to a socket. */
  datatype Frame =
    | JoinNote(roomId: string, peerId: Option<string>)
    | LeaveNote(roomId: string, peerId: Option<string>)
    | Relayed(message: Relay)

  datatype Out =
    | Send(socket: Socket, frame: Frame)
    | Close(socket: Socket, code: int)

  const TRY_AGAIN_LATER: int := 1013
  const ALREADY_SEATED: int := 4003
  const DUPLICATE_PEER_ID: int := 4004
  const ROOM_MODE_MISMATCH: int := 4005
  const MAX_PEERS_PER_ROOM: int := 2
  const BROKER_MAX_BUFFERED_BYTES: int := 1024 * 1024

  predicate Hex(s: string)
  {
    forall i :: 0 <= i < |s| ==> '0' <= s[i] <= '9' || 'a' <= s[i] <= 'f'
  }

  predicate ValidRoomId(s: string) { |s| == 32 && Hex(s) }

  predicate ValidPeerId(s: string) { |s| == 16 && Hex(s) }

  // ----- Seats -----

  function SeatOf(seats: seq<Seat>, peerId: string): Option<Socket>
  {
    if seats == [] then None
    else if seats[0].peerId == Some(peerId) then Some(seats[0].socket)
    else SeatOf(seats[1..], peerId)
  }

  /** The first seat of another socket. */
  function OtherSocket(seats: seq<Seat>, socket: Socket): Option<Socket>
  {
    if seats == [] then None
    else if seats[0].socket != socket then Some(seats[0].socket)
    else OtherSocket(seats[1..], socket)
  }

  /** The first seat of `socket` is given up. */
  function Unseat(seats: seq<Seat>, socket: Socket): seq<Seat>
  {
    if seats == [] then []
    else if seats[0].socket == socket then seats[1..]
    else [seats[0]] + Unseat(seats[1..], socket)
  }

  function Others(seats: seq<Seat>, socket: Socket): seq<Seat>
  {
    if seats == [] then []
    else if seats[0].socket == socket then Others(seats[1..], socket)
    else [seats[0]] + Others(seats[1..], socket)
  }

  // ----- The registry -----

  datatype Refusal = MalformedJoin | Full | TooManyRooms | ModeMismatch | DuplicatePeerId

  function CloseCode(r: Refusal): Option<int>
  {
    match r
    case MalformedJoin => None
    case Full => Some(TRY_AGAIN_LATER)
    case TooManyRooms => Some(TRY_AGAIN_LATER)
    case ModeMismatch => Some(ROOM_MODE_MISMATCH)
    case DuplicatePeerId => Some(DUPLICATE_PEER_ID)
  }

  /** Why a join is refused, if it is. */
  function JoinRefusal(lim: Limits, rooms: Rooms, roomId: string, mode: Mode, peerId: Option<string>): Option<Refusal>
  {
    if !ValidRoomId(roomId) then Some(MalformedJoin)
    else if mode == Group && (peerId.None? || !ValidPeerId(peerId.value)) then Some(MalformedJoin)
    else if mode == Pair && peerId.Some? then Some(MalformedJoin)
    else if roomId !in rooms then
      if |rooms| >= lim.maxRooms then Some(TooManyRooms) else None
    else if rooms[roomId].mode != mode then Some(ModeMismatch)
    else if mode == Group then
      if SeatOf(rooms[roomId].seats, peerId.value).Some? then Some(DuplicatePeerId)
      else if |rooms[roomId].seats| >= lim.maxGroupPeers then Some(Full)
      else None
    else if |rooms[roomId].seats| >= MAX_PEERS_PER_ROOM then Some(Full)
    else None
  }

  function Seated(rooms: Rooms, roomId: string, mode: Mode, peerId: Option<string>, socket: Socket): Rooms
  {
    rooms[roomId := Room(mode, (if roomId in rooms then rooms[roomId].seats else []) + [Seat(peerId, socket)])]
  }

  function LeaveRoom(rooms: Rooms, roomId: string, socket: Socket): Rooms
  {
    if roomId !in rooms then rooms
    else
      var left := Unseat(rooms[roomId].seats, socket);
      if left == [] then rooms - {roomId} else rooms[roomId := rooms[roomId].(seats := left)]
  }

  // ----- One connection -----

  datatype Outcome = Outcome(rooms: Rooms, conn: Conn, out: seq<Out>)

  function Broadcast(seats: seq<Seat>, frame: Frame): seq<Out>
  {
    if seats == [] then [] else [Send(seats[0].socket, frame)] + Broadcast(seats[1..], frame)
  }

  function SeatsIn(rooms: Rooms, roomId: string): seq<Seat>
  {
    if roomId in rooms then rooms[roomId].seats else []
  }

  function PairPeer(rooms: Rooms, roomId: string, socket: Socket): Option<Socket>
  {
    if roomId in rooms && rooms[roomId].mode == Pair then OtherSocket(rooms[roomId].seats, socket) else None
  }

  function GroupPeer(rooms: Rooms, roomId: string, peerId: string): Option<Socket>
  {
    if roomId in rooms && rooms[roomId].mode == Group then SeatOf(rooms[roomId].seats, peerId) else None
  }

  /** `handleJoin`. */
  function HandleJoin(lim: Limits, rooms: Rooms, conn: Conn, socket: Socket, roomId: string, mode: Mode, peerId: Option<string>): Outcome
  {
    if conn.roomId.Some? then Outcome(rooms, conn, [Close(socket, ALREADY_SEATED)])
    else
      var refusal := JoinRefusal(lim, rooms, roomId, mode, peerId);
      if refusal.Some? then
        var code := CloseCode(refusal.value);
        Outcome(rooms, conn, if code.Some? then [Close(socket, code.value)] else [])
      else
        var seated := Seated(rooms, roomId, mode, peerId, socket);
        Outcome(seated, Conn(Some(roomId), peerId), Announcement(seated, roomId, mode, peerId, socket))
  }

  /** Who is told of a new seat: every other member of a group room; the first seat of a pair room, when
      the second is taken. */
  function Announcement(seated: Rooms, roomId: string, mode: Mode, peerId: Option<string>, socket: Socket): seq<Out>
    requires roomId in seated
  {
    if mode == Group then Broadcast(Others(seated[roomId].seats, socket), JoinNote(roomId, peerId))
    else if |seated[roomId].seats| == MAX_PEERS_PER_ROOM && PairPeer(seated, roomId, socket).Some? then
      [Send(PairPeer(seated, roomId, socket).value, JoinNote(roomId, None))]
    else []
  }

  /** `notifyPeerLeft`. */
  function Departure(rooms: Rooms, conn: Conn, socket: Socket): seq<Out>
  {
    if conn.roomId.None? then []
    else if conn.peerId.Some? then
      Broadcast(Others(SeatsIn(rooms, conn.roomId.value), socket), LeaveNote(conn.roomId.value, conn.peerId))
    else
      var peer := PairPeer(rooms, conn.roomId.value, socket);
      if peer.Some? then [Send(peer.value, LeaveNote(conn.roomId.value, None))] else []
  }

  /** `handleLeave`: only group members are told. */
  function HandleLeave(rooms: Rooms, conn: Conn, socket: Socket): Outcome
  {
    if conn.roomId.None? then Outcome(rooms, conn, [])
    else
      Outcome(LeaveRoom(rooms, conn.roomId.value, socket), UNSEATED,
              if conn.peerId.Some? then Departure(rooms, conn, socket) else [])
  }

  /** `removeSocket`: the scan for a connection that has no room. */
  function Purged(rooms: Rooms, socket: Socket): Rooms
  {
    map r | r in rooms && !Emptied(rooms[r], socket) :: rooms[r].(seats := Unseat(rooms[r].seats, socket))
  }

  predicate Emptied(room: Room, socket: Socket)
  {
    Unseat(room.seats, socket) == [] && (room.mode == Group || room.seats != [])
  }

  /** `onClose`. */
  function HandleClose(rooms: Rooms, conn: Conn, socket: Socket): Outcome
  {
    Outcome(if conn.roomId.Some? then LeaveRoom(rooms, conn.roomId.value, socket) else Purged(rooms, socket),
            UNSEATED, Departure(rooms, conn, socket))
  }

  /** `forward`: a socket whose backlog is over the bound is closed instead. */
  function Forward(peer: Socket, message: Relay, buffered: Socket -> int): seq<Out>
  {
    if buffered(peer) > BROKER_MAX_BUFFERED_BYTES then [Close(peer, TRY_AGAIN_LATER)] else [Send(peer, Relayed(message))]
  }

  /** `relay`. The addressing is stripped, and the sender named is the sender's own seat. */
  function HandleRelay(rooms: Rooms, conn: Conn, socket: Socket, m: Relay, buffered: Socket -> int): seq<Out>
  {
    if conn.roomId.None? then []
    else if conn.peerId.Some? then
      if m.to.None? then []
      else
        var peer := GroupPeer(rooms, conn.roomId.value, m.to.value);
        if peer.None? || peer.value == socket then []
        else Forward(peer.value, Relay(m.kind, m.body, None, conn.peerId), buffered)
    else
      var peer := PairPeer(rooms, conn.roomId.value, socket);
      if peer.None? then [] else Forward(peer.value, Relay(m.kind, m.body, None, None), buffered)
  }
}

/** What every run of all connections keeps. */
module BrokerRuns {
  import opened Bytes
  import opened BrokerSpec

  /** A presence notification as a group member got it. */
  datatype Note = Note(joined: bool, peerId: string)

  /** The registry, every connection by its socket, and for each socket the presence notifications it
      got since it took its present seat. */
  datatype Broker = Broker(rooms: Rooms, conns: map<Socket, Conn>, notes: map<Socket, seq<Note>>)

  datatype Event =
    | Opens(socket: Socket)
    | Joins(socket: Socket, roomId: string, mode: Mode, peerId: Option<string>)
    | Leaves(socket: Socket)
    | Closes(socket: Socket)
    | Relays(socket: Socket, message: Relay, buffered: Socket -> int)

  function NoteOf(s: Socket, o: Out): seq<Note>
  {
    match o
    case Send(to, JoinNote(_, Some(q))) => if to == s then [Note(true, q)] else []
    case Send(to, LeaveNote(_, Some(q))) => if to == s then [Note(false, q)] else []
    case _ => []
  }

  function NotesOf(s: Socket, out: seq<Out>): seq<Note>
  {
    if out == [] then [] else NoteOf(s, out[0]) + NotesOf(s, out[1..])
  }

  lemma NotesOfOne(s: Socket, o: Out)
    ensures NotesOf(s, [o]) == NoteOf(s, o) && NotesOf(s, []) == []
  {
    assert [o][1..] == [];
  }

  predicate Enabled(b: Broker, e: Event)
  {
    if e.Opens? then e.socket !in b.conns else e.socket in b.conns
  }

  function OutcomeOf(lim: Limits, b: Broker, e: Event): Outcome
    requires Enabled(b, e)
  {
    match e
    case Opens(s) => Outcome(b.rooms, UNSEATED, [])
    case Joins(s, roomId, mode, peerId) => HandleJoin(lim, b.rooms, b.conns[s], s, roomId, mode, peerId)
    case Leaves(s) => HandleLeave(b.rooms, b.conns[s], s)
    case Closes(s) => HandleClose(b.rooms, b.conns[s], s)
    case Relays(s, m, buffered) => Outcome(b.rooms, b.conns[s], HandleRelay(b.rooms, b.conns[s], s, m, buffered))
  }

  function Next(lim: Limits, b: Broker, e: Event): Broker
    requires Enabled(b, e)
  {
    var o := OutcomeOf(lim, b, e);
    var conns := b.conns[e.socket := o.conn];
    var notes := if e.socket in b.notes then b.notes else b.notes[e.socket := []];
    var heard := map s | s in notes :: notes[s] + NotesOf(s, o.out);
    Broker(o.rooms, conns,
           if e.Joins? && b.conns[e.socket].roomId.None? && o.conn.roomId.Some? then heard[e.socket := []] else heard)
  }

  // ----- Seat agreement -----

  predicate RoomOk(lim: Limits, room: Room)
  {
    room.seats != []
    && |room.seats| <= (if room.mode == Group then lim.maxGroupPeers else MAX_PEERS_PER_ROOM)
    && (forall x :: x in room.seats ==> (x.peerId.Some? <==> room.mode == Group))
    && Apart(room.seats) && (room.mode == Group ==> Labelled(room.seats))
  }

  /** No socket has two seats in a room. */
  predicate Apart(seats: seq<Seat>)
  {
    forall i, j :: 0 <= i < j < |seats| ==> seats[i].socket != seats[j].socket
  }

  predicate Labelled(seats: seq<Seat>)
  {
    forall i, j :: 0 <= i < j < |seats| ==> seats[i].peerId != seats[j].peerId
  }

  /** Both records of a seat agree: a connection's room and peer id name a seat of its own socket, and a
      seat belongs to a connection that names it. */
  ghost predicate Agreement(rooms: Rooms, conns: map<Socket, Conn>)
  {
    (forall s :: s in conns && conns[s].roomId.Some? ==>
       conns[s].roomId.value in rooms && Seat(conns[s].peerId, s) in rooms[conns[s].roomId.value].seats)
    && (forall s :: s in conns && conns[s].roomId.None? ==> conns[s].peerId.None?)
    && (forall r, x :: r in rooms && x in rooms[r].seats ==> x.socket in conns && conns[x.socket] == Conn(Some(r), x.peerId))
  }

  predicate RoomsOk(lim: Limits, rooms: Rooms)
  {
    forall r :: r in rooms ==> ValidRoomId(r) && RoomOk(lim, rooms[r])
  }

  // ----- Presence -----

  /** Whether the last notification about `q` was a join. */
  predicate LastJoined(notes: seq<Note>, q: string)
  {
    if notes == [] then false
    else if notes[|notes| - 1].peerId == q then notes[|notes| - 1].joined
    else LastJoined(notes[..|notes| - 1], q)
  }

  predicate SeatedAfter(seats: seq<Seat>, i: int, q: string)
  {
    exists j :: i < j < |seats| && 0 <= j && seats[j].peerId == Some(q)
  }

  /** What each seated member last heard of a peer id is a join exactly when that id is seated now, and
      took its seat after the member did. */
  ghost predicate PresenceIn(seats: seq<Seat>, notes: map<Socket, seq<Note>>)
  {
    forall i, q :: 0 <= i < |seats| && seats[i].socket in notes ==>
      (LastJoined(notes[seats[i].socket], q) <==> SeatedAfter(seats, i, q))
  }

  ghost predicate Presence(b: Broker)
  {
    forall r :: r in b.rooms && b.rooms[r].mode == Group ==> PresenceIn(b.rooms[r].seats, b.notes)
  }

  ghost predicate Inv(lim: Limits, b: Broker)
  {
    LimitsOk(lim) && |b.rooms| <= lim.maxRooms && RoomsOk(lim, b.rooms) && Agreement(b.rooms, b.conns) && b.notes.Keys == b.conns.Keys && Presence(b)
  }

  // ----- Seats -----

  lemma {:induction false} UnseatAt(seats: seq<Seat>, socket: Socket) returns (k: nat)
    ensures k <= |seats| && forall i :: 0 <= i < k ==> seats[i].socket != socket
    ensures k == |seats| ==> Unseat(seats, socket) == seats
    ensures k < |seats| ==> seats[k].socket == socket && Unseat(seats, socket) == seats[..k] + seats[k + 1..]
  {
    if seats == [] {
      k := 0;
    } else if seats[0].socket == socket {
      k := 0;
      assert seats[..0] + seats[1..] == seats[1..];
    } else {
      var n := UnseatAt(seats[1..], socket);
      k := n + 1;
      assert forall i :: 0 < i < k ==> seats[i] == seats[1..][i - 1];
      if n < |seats[1..]| {
        assert seats[1..][..n] == seats[1..k] && seats[1..][n + 1..] == seats[k + 1..];
        assert seats[..k] == [seats[0]] + seats[1..k];
      } else {
        assert [seats[0]] + seats[1..] == seats;
      }
    }
  }

  lemma {:induction false} OthersAre(seats: seq<Seat>, socket: Socket)
    ensures forall x :: x in Others(seats, socket) <==> x in seats && x.socket != socket
  {
    if seats != [] {
      OthersAre(seats[1..], socket);
      assert seats == [seats[0]] + seats[1..];
    }
  }

  lemma {:induction false} OthersDistinct(seats: seq<Seat>, socket: Socket)
    requires forall i, j :: 0 <= i < j < |seats| ==> seats[i].socket != seats[j].socket
    ensures forall i, j :: 0 <= i < j < |Others(seats, socket)| ==> Others(seats, socket)[i].socket != Others(seats, socket)[j].socket
  {
    if seats != [] {
      OthersDistinct(seats[1..], socket);
      OthersAre(seats[1..], socket);
      forall x | x in Others(seats[1..], socket) ensures x.socket != seats[0].socket {
        assert x in seats[1..];
      }
    }
  }

  lemma {:induction false} SeatOfIs(seats: seq<Seat>, peerId: string)
    ensures SeatOf(seats, peerId).Some? ==> Seat(Some(peerId), SeatOf(seats, peerId).value) in seats
    ensures SeatOf(seats, peerId).None? ==> forall i :: 0 <= i < |seats| ==> seats[i].peerId != Some(peerId)
  {
    if seats != [] {
      SeatOfIs(seats[1..], peerId);
    }
  }

  lemma {:induction false} OtherIs(seats: seq<Seat>, socket: Socket)
    ensures OtherSocket(seats, socket).Some? ==>
              OtherSocket(seats, socket).value != socket && exists x :: x in seats && x.socket == OtherSocket(seats, socket).value
    ensures OtherSocket(seats, socket).None? ==> forall x :: x in seats ==> x.socket == socket
  {
    if seats != [] {
      OtherIs(seats[1..], socket);
      assert seats == [seats[0]] + seats[1..];
    }
  }

  /** A broadcast reaches each seat once. */
  lemma {:induction false} NotesOfBroadcast(seats: seq<Seat>, frame: Frame, note: Note, s: Socket)
    requires forall i, j :: 0 <= i < j < |seats| ==> seats[i].socket != seats[j].socket
    requires (frame.JoinNote? && note == Note(true, note.peerId)) || (frame.LeaveNote? && note == Note(false, note.peerId))
    requires !frame.Relayed? && frame.peerId == Some(note.peerId)
    ensures NotesOf(s, Broadcast(seats, frame)) == if exists x :: x in seats && x.socket == s then [note] else []
  {
    if seats != [] {
      NotesOfBroadcast(seats[1..], frame, note, s);
      assert seats == [seats[0]] + seats[1..];
      if seats[0].socket == s {
        assert forall x :: x in seats[1..] ==> x.socket != s;
      }
    }
  }

  lemma LastJoinedAppend(notes: seq<Note>, n: Note, q: string)
    ensures LastJoined(notes + [n], q) == if n.peerId == q then n.joined else LastJoined(notes, q)
  {
    assert (notes + [n])[..|notes|] == notes;
  }

  // ----- Joining -----

  lemma Sized(rooms: Rooms, r: string, room: Room)
    ensures |rooms[r := room]| == if r in rooms then |rooms| else |rooms| + 1
    ensures |rooms - {r}| <= |rooms|
  {
    var n := rooms[r := room];
    assert n.Keys == rooms.Keys + {r} && |n| == |n.Keys| && |rooms| == |rooms.Keys|;
    var m := rooms - {r};
    assert m.Keys == rooms.Keys - {r} && |m| == |m.Keys|;
  }

  lemma JoinRooms(lim: Limits, rooms: Rooms, roomId: string, mode: Mode, peerId: Option<string>, socket: Socket)
    requires LimitsOk(lim) && RoomsOk(lim, rooms) && JoinRefusal(lim, rooms, roomId, mode, peerId).None?
    requires roomId in rooms ==> forall x :: x in rooms[roomId].seats ==> x.socket != socket
    ensures RoomsOk(lim, Seated(rooms, roomId, mode, peerId, socket))
  {
    if roomId in rooms {
      var seats := rooms[roomId].seats;
      assert RoomOk(lim, rooms[roomId]);
      if mode == Group {
        SeatOfIs(seats, peerId.value);
      }
      forall i | 0 <= i < |seats| ensures seats[i].socket != socket { assert seats[i] in seats; }
      assert RoomOk(lim, Room(mode, seats + [Seat(peerId, socket)]));
    }
  }

  lemma JoinCount(lim: Limits, rooms: Rooms, roomId: string, mode: Mode, peerId: Option<string>, socket: Socket)
    requires |rooms| <= lim.maxRooms && JoinRefusal(lim, rooms, roomId, mode, peerId).None?
    ensures |Seated(rooms, roomId, mode, peerId, socket)| <= lim.maxRooms
  {
    Sized(rooms, roomId, Seated(rooms, roomId, mode, peerId, socket)[roomId]);
  }

  lemma JoinAgreement(rooms: Rooms, conns: map<Socket, Conn>, roomId: string, mode: Mode, peerId: Option<string>, socket: Socket)
    requires Agreement(rooms, conns) && socket in conns && conns[socket].roomId.None?
    requires roomId in rooms ==> rooms[roomId].mode == mode
    ensures Agreement(Seated(rooms, roomId, mode, peerId, socket), conns[socket := Conn(Some(roomId), peerId)])
  {
    var n := Seated(rooms, roomId, mode, peerId, socket);
    var seats := n[roomId].seats;
    assert seats[|seats| - 1] == Seat(peerId, socket);
    forall s | s in conns && s != socket && conns[s].roomId.Some?
      ensures conns[s].roomId.value in n && Seat(conns[s].peerId, s) in n[conns[s].roomId.value].seats
    {
      assert Seat(conns[s].peerId, s) in rooms[conns[s].roomId.value].seats;
    }
  }

  /** A socket whose connection has no room holds no seat. */
  lemma NoSeat(rooms: Rooms, conns: map<Socket, Conn>, socket: Socket)
    requires Agreement(rooms, conns) && socket in conns && conns[socket].roomId.None?
    ensures forall r, x :: r in rooms && x in rooms[r].seats ==> x.socket != socket
  {
  }

  /** The members that were there hear of the newcomer; the newcomer starts having heard nothing. */
  lemma JoinPresence(seats: seq<Seat>, notes: map<Socket, seq<Note>>, after: map<Socket, seq<Note>>, peerId: string, socket: Socket)
    requires PresenceIn(seats, notes)
    requires forall i :: 0 <= i < |seats| ==> seats[i].socket in notes && seats[i].socket in after && seats[i].socket != socket
    requires forall i :: 0 <= i < |seats| ==> after[seats[i].socket] == notes[seats[i].socket] + [Note(true, peerId)]
    requires socket in after && after[socket] == []
    ensures PresenceIn(seats + [Seat(Some(peerId), socket)], after)
  {
    var more := seats + [Seat(Some(peerId), socket)];
    forall i, q | 0 <= i < |more|
      ensures LastJoined(after[more[i].socket], q) <==> SeatedAfter(more, i, q)
    {
      if i < |seats| {
        LastJoinedAppend(notes[seats[i].socket], Note(true, peerId), q);
        assert more[|seats|].peerId == Some(peerId);
        if SeatedAfter(seats, i, q) {
          var j :| i < j < |seats| && seats[j].peerId == Some(q);
          assert more[j] == seats[j];
        }
        if SeatedAfter(more, i, q) && q != peerId {
          var j :| i < j < |more| && more[j].peerId == Some(q);
          assert seats[j] == more[j];
        }
      }
    }
  }

  // ----- Leaving -----

  /** The seats without the one at `k`, and where each of them stood. */
  function Without(seats: seq<Seat>, k: nat): (left: seq<Seat>)
    requires k < |seats|
    ensures |left| == |seats| - 1
    ensures forall i :: 0 <= i < |left| ==> left[i] == seats[Old(k, i)]
  {
    seats[..k] + seats[k + 1..]
  }

  function Old(k: nat, i: int): int { if i < k then i else i + 1 }

  lemma WithoutHolds(seats: seq<Seat>, k: nat, j: nat)
    requires k < |seats| && j < |seats| && j != k
    ensures Without(seats, k)[if j < k then j else j - 1] == seats[j]
  {
  }

  lemma WithoutIs(seats: seq<Seat>, k: nat)
    requires Apart(seats) && k < |seats|
    ensures forall x :: x in Without(seats, k) <==> x in seats && x.socket != seats[k].socket
  {
    var left := Without(seats, k);
    forall x | x in left ensures x in seats && x.socket != seats[k].socket {
      var i :| 0 <= i < |left| && left[i] == x;
      assert x == seats[Old(k, i)];
    }
    forall x | x in seats && x.socket != seats[k].socket ensures x in left {
      var j :| 0 <= j < |seats| && seats[j] == x;
      WithoutHolds(seats, k, j);
    }
  }

  lemma WithoutKeeps(seats: seq<Seat>, k: nat)
    requires k < |seats|
    ensures Apart(seats) ==> Apart(Without(seats, k))
    ensures Labelled(seats) ==> Labelled(Without(seats, k))
  {
    var left := Without(seats, k);
    forall i, j | 0 <= i < j < |left|
      ensures Apart(seats) ==> left[i].socket != left[j].socket
      ensures Labelled(seats) ==> left[i].peerId != left[j].peerId
    {
      assert left[i] == seats[Old(k, i)] && left[j] == seats[Old(k, j)];
    }
  }

  /** Giving up a seat leaves exactly the others, in their order. */
  lemma UnseatIs(seats: seq<Seat>, socket: Socket)
    requires Apart(seats)
    ensures forall x :: x in Unseat(seats, socket) <==> x in seats && x.socket != socket
    ensures Apart(Unseat(seats, socket)) && |Unseat(seats, socket)| <= |seats|
    ensures Labelled(seats) ==> Labelled(Unseat(seats, socket))
  {
    var k := UnseatAt(seats, socket);
    if k < |seats| {
      WithoutIs(seats, k);
      WithoutKeeps(seats, k);
    }
  }

  lemma LeaveRooms(lim: Limits, rooms: Rooms, roomId: string, socket: Socket)
    requires RoomsOk(lim, rooms)
    ensures RoomsOk(lim, LeaveRoom(rooms, roomId, socket))
  {
    if roomId in rooms {
      assert RoomOk(lim, rooms[roomId]);
      UnseatIs(rooms[roomId].seats, socket);
    }
  }

  lemma LeaveCount(rooms: Rooms, roomId: string, socket: Socket)
    ensures |LeaveRoom(rooms, roomId, socket)| <= |rooms|
  {
    if roomId in rooms {
      Sized(rooms, roomId, rooms[roomId].(seats := Unseat(rooms[roomId].seats, socket)));
    }
  }

  predicate SeatedIn(rooms: Rooms, r: string, x: Seat) { r in rooms && x in rooms[r].seats }

  /** Who is seated where after a leave. */
  lemma LeftSeat(lim: Limits, rooms: Rooms, roomId: string, socket: Socket, r: string, x: Seat)
    requires RoomsOk(lim, rooms)
    ensures SeatedIn(LeaveRoom(rooms, roomId, socket), r, x) <==> SeatedIn(rooms, r, x) && (r == roomId ==> x.socket != socket)
  {
    if roomId in rooms {
      assert RoomOk(lim, rooms[roomId]);
      UnseatIs(rooms[roomId].seats, socket);
    }
  }

  lemma LeaveAgreement(lim: Limits, rooms: Rooms, conns: map<Socket, Conn>, socket: Socket)
    requires RoomsOk(lim, rooms) && Agreement(rooms, conns) && socket in conns && conns[socket].roomId.Some?
    ensures Agreement(LeaveRoom(rooms, conns[socket].roomId.value, socket), conns[socket := UNSEATED])
  {
    var roomId, after := conns[socket].roomId.value, conns[socket := UNSEATED];
    var n := LeaveRoom(rooms, roomId, socket);
    forall s | s in after && after[s].roomId.Some?
      ensures SeatedIn(n, after[s].roomId.value, Seat(after[s].peerId, s))
    {
      LeftSeat(lim, rooms, roomId, socket, after[s].roomId.value, Seat(after[s].peerId, s));
    }
    forall r, x | SeatedIn(n, r, x) ensures x.socket in after && after[x.socket] == Conn(Some(r), x.peerId) {
      LeftSeat(lim, rooms, roomId, socket, r, x);
    }
    assert forall r, x :: r in n && x in n[r].seats ==> SeatedIn(n, r, x);
  }

  lemma SeatedWithout(seats: seq<Seat>, k: nat, peerId: string, i: nat, q: string)
    requires Labelled(seats) && k < |seats| && seats[k].peerId == Some(peerId) && i < |seats| - 1
    ensures SeatedAfter(Without(seats, k), i, q) <==> SeatedAfter(seats, Old(k, i), q) && q != peerId
  {
    var left, o := Without(seats, k), Old(k, i);
    if SeatedAfter(left, i, q) {
      var j :| i < j < |left| && left[j].peerId == Some(q);
      assert seats[Old(k, j)].peerId == Some(q);
    }
    if SeatedAfter(seats, o, q) && q != peerId {
      var p :| o < p < |seats| && seats[p].peerId == Some(q);
      WithoutHolds(seats, k, p);
    }
  }

  /** The members that stay hear of the one that goes. */
  lemma LeavePresence(seats: seq<Seat>, notes: map<Socket, seq<Note>>, after: map<Socket, seq<Note>>, k: nat, peerId: string)
    requires PresenceIn(seats, notes) && k < |seats| && seats[k].peerId == Some(peerId) && Labelled(seats)
    requires forall i :: 0 <= i < |seats| && i != k ==> seats[i].socket in notes && seats[i].socket in after
    requires forall i :: 0 <= i < |seats| && i != k ==> after[seats[i].socket] == notes[seats[i].socket] + [Note(false, peerId)]
    ensures PresenceIn(Without(seats, k), after)
  {
    var left := Without(seats, k);
    forall i, q | 0 <= i < |left|
      ensures LastJoined(after[left[i].socket], q) <==> SeatedAfter(left, i, q)
    {
      var o := Old(k, i);
      LastJoinedAppend(notes[seats[o].socket], Note(false, peerId), q);
      SeatedWithout(seats, k, peerId, i, q);
    }
  }

  // ----- Every step -----

  lemma {:induction false} BroadcastTargets(seats: seq<Seat>, frame: Frame)
    ensures forall o :: o in Broadcast(seats, frame) ==> o.Send? && o.frame == frame && exists x :: x in seats && x.socket == o.socket
  {
    if seats != [] {
      BroadcastTargets(seats[1..], frame);
      assert seats == [seats[0]] + seats[1..];
    }
  }

  /** A group broadcast adds one notification for each other member of the room, and nothing for any
      other socket. */
  lemma Heard(room: Room, socket: Socket, frame: Frame, note: Note, s: Socket)
    requires Apart(room.seats) && !frame.Relayed? && frame.peerId == Some(note.peerId)
    requires note.joined == frame.JoinNote?
    ensures NotesOf(s, Broadcast(Others(room.seats, socket), frame))
         == if s != socket && exists x :: x in room.seats && x.socket == s then [note] else []
  {
    OthersDistinct(room.seats, socket);
    OthersAre(room.seats, socket);
    NotesOfBroadcast(Others(room.seats, socket), frame, note, s);
  }

  /** Presence in a room nobody there heard anything about. */
  lemma Quiet(seats: seq<Seat>, notes: map<Socket, seq<Note>>, after: map<Socket, seq<Note>>)
    requires PresenceIn(seats, notes)
    requires forall x :: x in seats ==> x.socket in notes && x.socket in after && after[x.socket] == notes[x.socket]
    ensures PresenceIn(seats, after)
  {
    forall i | 0 <= i < |seats| ensures after[seats[i].socket] == notes[seats[i].socket] && seats[i].socket in notes {
      assert seats[i] in seats;
    }
  }

  /** A step that adds no notification. */
  lemma SilentKeeps(lim: Limits, b: Broker, n: Broker)
    requires Inv(lim, b) && n.rooms == b.rooms && n.conns == b.conns
    requires n.notes.Keys == b.notes.Keys && forall s :: s in b.notes ==> n.notes[s] == b.notes[s]
    ensures Inv(lim, n)
  {
  }

  lemma RefusedKeeps(lim: Limits, b: Broker, e: Event)
    requires Inv(lim, b) && e.Joins? && Enabled(b, e)
    requires b.conns[e.socket].roomId.Some? || JoinRefusal(lim, b.rooms, e.roomId, e.mode, e.peerId).Some?
    ensures Inv(lim, Next(lim, b, e))
  {
    var n := Next(lim, b, e);
    forall t | t in b.notes ensures n.notes[t] == b.notes[t] {
      forall code { NotesOfOne(t, Close(e.socket, code)); }
      assert b.notes[t] + [] == b.notes[t];
    }
    assert n.conns == b.conns;
    SilentKeeps(lim, b, n);
  }

  lemma JoinKeeps(lim: Limits, b: Broker, e: Event)
    requires Inv(lim, b) && e.Joins? && Enabled(b, e)
    ensures Inv(lim, Next(lim, b, e))
  {
    var s, roomId := e.socket, e.roomId;
    var n := Next(lim, b, e);
    if b.conns[s].roomId.Some? || JoinRefusal(lim, b.rooms, roomId, e.mode, e.peerId).Some? {
      RefusedKeeps(lim, b, e);
    } else {
      NoSeat(b.rooms, b.conns, s);
      JoinRooms(lim, b.rooms, roomId, e.mode, e.peerId, s);
      JoinCount(lim, b.rooms, roomId, e.mode, e.peerId, s);
      JoinAgreement(b.rooms, b.conns, roomId, e.mode, e.peerId, s);
      forall r | r in n.rooms && n.rooms[r].mode == Group ensures PresenceIn(n.rooms[r].seats, n.notes) {
        JoinedPresence(lim, b, e, r);
      }
    }
  }

  lemma JoinedPresence(lim: Limits, b: Broker, e: Event, r: string)
    requires Inv(lim, b) && e.Joins? && Enabled(b, e) && b.conns[e.socket].roomId.None?
    requires JoinRefusal(lim, b.rooms, e.roomId, e.mode, e.peerId).None?
    requires r in Next(lim, b, e).rooms && Next(lim, b, e).rooms[r].mode == Group
    ensures PresenceIn(Next(lim, b, e).rooms[r].seats, Next(lim, b, e).notes)
  {
    var n, s := Next(lim, b, e), e.socket;
    NoSeat(b.rooms, b.conns, s);
    var was := SeatsIn(b.rooms, e.roomId);
    if r == e.roomId {
      assert r in b.rooms ==> RoomOk(lim, b.rooms[r]);
      JoinRooms(lim, b.rooms, e.roomId, e.mode, e.peerId, s);
      assert RoomOk(lim, n.rooms[r]);
      var q := e.peerId.value;
      forall i | 0 <= i < |was|
        ensures was[i].socket in b.notes && was[i].socket != s && n.notes[was[i].socket] == b.notes[was[i].socket] + [Note(true, q)]
      {
        assert was[i] in b.rooms[r].seats;
        assert n.rooms[r].seats[i] == was[i] && was[i] in n.rooms[r].seats;
        Heard(n.rooms[r], s, JoinNote(r, e.peerId), Note(true, q), was[i].socket);
      }
      JoinPresence(was, b.notes, n.notes, q, s);
    } else {
      forall x | x in b.rooms[r].seats ensures x.socket in b.notes && n.notes[x.socket] == b.notes[x.socket] {
        Unheard(lim, b, e, x.socket);
      }
      Quiet(b.rooms[r].seats, b.notes, n.notes);
    }
  }

  /** A join is not heard outside its room. */
  lemma Unheard(lim: Limits, b: Broker, e: Event, t: Socket)
    requires Inv(lim, b) && e.Joins? && Enabled(b, e) && b.conns[e.socket].roomId.None? && t in b.notes
    requires JoinRefusal(lim, b.rooms, e.roomId, e.mode, e.peerId).None?
    requires t != e.socket && forall x :: x in SeatsIn(b.rooms, e.roomId) ==> x.socket != t
    ensures Next(lim, b, e).notes[t] == b.notes[t]
  {
    var seated := Seated(b.rooms, e.roomId, e.mode, e.peerId, e.socket);
    if e.mode == Group {
      NoSeat(b.rooms, b.conns, e.socket);
      JoinRooms(lim, b.rooms, e.roomId, e.mode, e.peerId, e.socket);
      assert RoomOk(lim, seated[e.roomId]);
      assert forall x :: x in seated[e.roomId].seats ==> x.socket != t;
      Heard(seated[e.roomId], e.socket, JoinNote(e.roomId, e.peerId), Note(true, e.peerId.value), t);
    }
    forall peer { NotesOfOne(t, Send(peer, JoinNote(e.roomId, None))); }
    assert b.notes[t] + [] == b.notes[t];
  }

  /** What a departure adds to what `t` heard. */
  lemma DepartureHeard(lim: Limits, b: Broker, s: Socket, t: Socket)
    requires Inv(lim, b) && s in b.conns
    ensures NotesOf(t, Departure(b.rooms, b.conns[s], s))
         == if b.conns[s].peerId.Some? && b.conns[s].roomId.Some? && s != t
               && exists x :: x in b.rooms[b.conns[s].roomId.value].seats && x.socket == t
            then [Note(false, b.conns[s].peerId.value)] else []
  {
    var c := b.conns[s];
    if c.roomId.Some? && c.peerId.Some? {
      var room := b.rooms[c.roomId.value];
      assert RoomOk(lim, room);
      Heard(room, s, LeaveNote(c.roomId.value, c.peerId), Note(false, c.peerId.value), t);
    }
  }

  lemma LeaveKeeps(lim: Limits, b: Broker, e: Event)
    requires Inv(lim, b) && (e.Leaves? || e.Closes?) && Enabled(b, e)
    ensures Inv(lim, Next(lim, b, e))
  {
    if b.conns[e.socket].roomId.None? {
      UnseatedLeaveKeeps(lim, b, e);
    } else {
      SeatedLeaveKeeps(lim, b, e);
    }
  }

  lemma UnseatedLeaveKeeps(lim: Limits, b: Broker, e: Event)
    requires Inv(lim, b) && (e.Leaves? || e.Closes?) && Enabled(b, e) && b.conns[e.socket].roomId.None?
    ensures Inv(lim, Next(lim, b, e))
  {
    assert b.conns[e.socket] == UNSEATED;
    PurgeNothing(lim, b, e.socket);
    SilentKeeps(lim, b, Next(lim, b, e));
  }

  lemma SeatedLeaveKeeps(lim: Limits, b: Broker, e: Event)
    requires Inv(lim, b) && (e.Leaves? || e.Closes?) && Enabled(b, e) && b.conns[e.socket].roomId.Some?
    ensures Inv(lim, Next(lim, b, e))
  {
    var s := e.socket;
    var n := Next(lim, b, e);
    var roomId := b.conns[s].roomId.value;
    LeaveRooms(lim, b.rooms, roomId, s);
    LeaveCount(b.rooms, roomId, s);
    LeaveAgreement(lim, b.rooms, b.conns, s);
    forall r | r in n.rooms && n.rooms[r].mode == Group ensures PresenceIn(n.rooms[r].seats, n.notes) {
      LeftPresence(lim, b, e, r);
    }
  }

  lemma PurgeNothing(lim: Limits, b: Broker, s: Socket)
    requires Inv(lim, b) && s in b.conns && b.conns[s].roomId.None?
    ensures Purged(b.rooms, s) == b.rooms
  {
    NoSeat(b.rooms, b.conns, s);
    forall r | r in b.rooms ensures Unseat(b.rooms[r].seats, s) == b.rooms[r].seats && b.rooms[r].seats != [] {
      var seats := b.rooms[r].seats;
      forall i | 0 <= i < |seats| ensures seats[i].socket != s { assert seats[i] in seats; }
      var k := UnseatAt(seats, s);
      assert RoomOk(lim, b.rooms[r]);
    }
  }

  /** A step by which a seated socket leaves a group room `r` standing. */
  ghost predicate LeavesGroup(lim: Limits, b: Broker, e: Event, r: string)
  {
    Inv(lim, b) && (e.Leaves? || e.Closes?) && Enabled(b, e) && b.conns[e.socket].roomId.Some?
    && r in Next(lim, b, e).rooms && Next(lim, b, e).rooms[r].mode == Group
  }

  lemma OwnRoomPresence(lim: Limits, b: Broker, e: Event, r: string)
    requires LeavesGroup(lim, b, e, r) && r == b.conns[e.socket].roomId.value
    ensures PresenceIn(Next(lim, b, e).rooms[r].seats, Next(lim, b, e).notes)
  {
    var n, s := Next(lim, b, e), e.socket;
    var c := b.conns[s];
    var seats := b.rooms[r].seats;
    assert RoomOk(lim, b.rooms[r]);
    var k := UnseatAt(seats, s);
    assert Seat(c.peerId, s) in seats;
    assert seats[k] in seats && seats[k] == Seat(c.peerId, s);
    forall i | 0 <= i < |seats| && i != k
      ensures seats[i].socket in b.notes && n.notes[seats[i].socket] == b.notes[seats[i].socket] + [Note(false, c.peerId.value)]
    {
      assert seats[i] in seats && seats[i].socket != s;
      DepartureHeard(lim, b, s, seats[i].socket);
    }
    LeavePresence(seats, b.notes, n.notes, k, c.peerId.value);
  }

  lemma LeftPresence(lim: Limits, b: Broker, e: Event, r: string)
    requires LeavesGroup(lim, b, e, r)
    ensures PresenceIn(Next(lim, b, e).rooms[r].seats, Next(lim, b, e).notes)
  {
    var n, s := Next(lim, b, e), e.socket;
    var seats := b.rooms[r].seats;
    if r == b.conns[s].roomId.value {
      OwnRoomPresence(lim, b, e, r);
    } else {
      OtherRoomQuiet(lim, b, e, r);
      Quiet(seats, b.notes, n.notes);
    }
  }

  /** In the other rooms nobody hears of it. */
  lemma OtherRoomQuiet(lim: Limits, b: Broker, e: Event, r: string)
    requires LeavesGroup(lim, b, e, r) && r != b.conns[e.socket].roomId.value
    ensures r in b.rooms && Next(lim, b, e).rooms[r].seats == b.rooms[r].seats
    ensures forall x :: x in b.rooms[r].seats ==>
              x.socket in b.notes && x.socket in Next(lim, b, e).notes && Next(lim, b, e).notes[x.socket] == b.notes[x.socket]
  {
    var n, s := Next(lim, b, e), e.socket;
    forall x | x in b.rooms[r].seats ensures x.socket in b.notes && n.notes[x.socket] == b.notes[x.socket] {
      SeatedElsewhere(lim, b, s, r, x);
      DepartureHeard(lim, b, s, x.socket);
      assert b.notes[x.socket] + [] == b.notes[x.socket];
    }
  }

  lemma SeatedElsewhere(lim: Limits, b: Broker, s: Socket, r: string, x: Seat)
    requires Inv(lim, b) && s in b.conns && b.conns[s].roomId.Some? && r != b.conns[s].roomId.value
    requires r in b.rooms && x in b.rooms[r].seats
    ensures b.conns[s].roomId.value in b.rooms && x.socket in b.conns
    ensures forall y :: y in b.rooms[b.conns[s].roomId.value].seats ==> y.socket != x.socket
  {
    forall y | y in b.rooms[b.conns[s].roomId.value].seats ensures y.socket != x.socket {
      assert b.conns[y.socket].roomId == b.conns[s].roomId && b.conns[x.socket].roomId == Some(r);
    }
  }

  lemma OpenKeeps(lim: Limits, b: Broker, s: Socket)
    requires Inv(lim, b) && s !in b.conns
    ensures Inv(lim, Next(lim, b, Opens(s)))
  {
    var n := Next(lim, b, Opens(s));
    forall r | r in n.rooms && n.rooms[r].mode == Group ensures PresenceIn(n.rooms[r].seats, n.notes) {
      Quiet(b.rooms[r].seats, b.notes, n.notes);
    }
  }

  lemma RelaySilent(rooms: Rooms, conn: Conn, socket: Socket, m: Relay, buffered: Socket -> int, t: Socket)
    ensures NotesOf(t, HandleRelay(rooms, conn, socket, m, buffered)) == []
  {
  }

  lemma RelayKeeps(lim: Limits, b: Broker, e: Event)
    requires Inv(lim, b) && e.Relays? && Enabled(b, e)
    ensures Inv(lim, Next(lim, b, e))
  {
    forall t ensures NotesOf(t, HandleRelay(b.rooms, b.conns[e.socket], e.socket, e.message, e.buffered)) == [] {
      RelaySilent(b.rooms, b.conns[e.socket], e.socket, e.message, e.buffered, t);
    }
    SilentKeeps(lim, b, Next(lim, b, e));
  }

  lemma NextKeeps(lim: Limits, b: Broker, e: Event)
    requires Inv(lim, b) && Enabled(b, e)
    ensures Inv(lim, Next(lim, b, e))
  {
    match e
    case Opens(s) => OpenKeeps(lim, b, s);
    case Joins(_, _, _, _) => JoinKeeps(lim, b, e);
    case Leaves(_) => LeaveKeeps(lim, b, e);
    case Closes(_) => LeaveKeeps(lim, b, e);
    case Relays(_, _, _) => RelayKeeps(lim, b, e);
  }

  // ----- Whole runs -----

  const EMPTY: Broker := Broker(map[], map[], map[])

  ghost predicate Trace(lim: Limits, b: Broker, es: seq<Event>)
    decreases |es|
  {
    es == [] || (Enabled(b, es[0]) && Trace(lim, Next(lim, b, es[0]), es[1..]))
  }

  ghost function After(lim: Limits, b: Broker, es: seq<Event>): Broker
    requires Trace(lim, b, es)
    decreases |es|
  {
    if es == [] then b else After(lim, Next(lim, b, es[0]), es[1..])
  }

  lemma {:induction false} RunKeeps(lim: Limits, b: Broker, es: seq<Event>)
    requires Inv(lim, b) && Trace(lim, b, es)
    ensures Inv(lim, After(lim, b, es))
    decreases |es|
  {
    if es != [] {
      NextKeeps(lim, b, es[0]);
      RunKeeps(lim, Next(lim, b, es[0]), es[1..]);
    }
  }

  /** Seat agreement over every run of all connections: a connection's room and peer id name exactly the
      seat its socket holds, no socket holds two seats anywhere, no stored room is empty, and the room
      and seat caps hold. */
  lemma SeatAgreement(lim: Limits, es: seq<Event>, r: string, x: Seat)
    requires LimitsOk(lim) && Trace(lim, EMPTY, es)
    ensures var b := After(lim, EMPTY, es);
            (r in b.rooms && x in b.rooms[r].seats) <==> (x.socket in b.conns && b.conns[x.socket] == Conn(Some(r), x.peerId))
    ensures var b := After(lim, EMPTY, es);
            |b.rooms| <= lim.maxRooms && (r in b.rooms ==> RoomOk(lim, b.rooms[r]))
  {
    RunKeeps(lim, EMPTY, es);
    Agrees(lim, After(lim, EMPTY, es), r, x);
  }

  lemma Agrees(lim: Limits, b: Broker, r: string, x: Seat)
    requires Inv(lim, b)
    ensures (r in b.rooms && x in b.rooms[r].seats) <==> (x.socket in b.conns && b.conns[x.socket] == Conn(Some(r), x.peerId))
    ensures |b.rooms| <= lim.maxRooms && (r in b.rooms ==> RoomOk(lim, b.rooms[r]))
  {
  }

  /** Presence over every run: what a seated group member last heard about a peer id, since it took its
      own seat, is a join exactly when that id is seated now and took its seat later. */
  lemma PresenceTracksSeats(lim: Limits, es: seq<Event>, r: string, i: nat, q: string)
    requires LimitsOk(lim) && Trace(lim, EMPTY, es)
    requires var b := After(lim, EMPTY, es); r in b.rooms && b.rooms[r].mode == Group && i < |b.rooms[r].seats|
    ensures var b := After(lim, EMPTY, es);
            b.rooms[r].seats[i].socket in b.notes
            && (LastJoined(b.notes[b.rooms[r].seats[i].socket], q) <==> SeatedAfter(b.rooms[r].seats, i, q))
  {
    RunKeeps(lim, EMPTY, es);
    Tracks(lim, After(lim, EMPTY, es), r, i, q);
  }

  lemma Tracks(lim: Limits, b: Broker, r: string, i: nat, q: string)
    requires Inv(lim, b) && r in b.rooms && b.rooms[r].mode == Group && i < |b.rooms[r].seats|
    ensures b.rooms[r].seats[i].socket in b.notes
    ensures LastJoined(b.notes[b.rooms[r].seats[i].socket], q) <==> SeatedAfter(b.rooms[r].seats, i, q)
  {
    assert b.rooms[r].seats[i] in b.rooms[r].seats;
    assert PresenceIn(b.rooms[r].seats, b.notes);
  }

  /** A room keeps its mode as long as it exists. */
  lemma ModeIsFixed(lim: Limits, b: Broker, e: Event, r: string)
    requires Enabled(b, e) && r in b.rooms && r in Next(lim, b, e).rooms
    ensures Next(lim, b, e).rooms[r].mode == b.rooms[r].mode
  {
  }

  /** Relay isolation. A relayed frame reaches only a seat of the sender's own room, never the sender: in
      a group room the seat the message addresses, and the frame names the sender's true peer id; in a
      pair room the other seat, and the frame names nobody. The address itself is never passed on. */
  lemma RelayIsolation(lim: Limits, b: Broker, s: Socket, m: Relay, buffered: Socket -> int, o: Out)
    requires Inv(lim, b) && s in b.conns && o in HandleRelay(b.rooms, b.conns[s], s, m, buffered)
    ensures b.conns[s].roomId.Some? && b.conns[s].roomId.value in b.rooms && o.socket != s
    ensures exists x :: x in b.rooms[b.conns[s].roomId.value].seats && x.socket == o.socket
              && (b.conns[s].peerId.Some? ==> x.peerId == m.to)
    ensures o.Send? ==> o.frame == Relayed(Relay(m.kind, m.body, None, b.conns[s].peerId)) && buffered(o.socket) <= BROKER_MAX_BUFFERED_BYTES
    ensures o.Close? ==> o.code == TRY_AGAIN_LATER && buffered(o.socket) > BROKER_MAX_BUFFERED_BYTES
  {
    var room := b.rooms[b.conns[s].roomId.value];
    if m.to.Some? {
      SeatOfIs(room.seats, m.to.value);
    }
    OtherIs(room.seats, s);
  }
}
