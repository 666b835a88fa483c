/** The room registry and the connections that share it (`broker/room-registry.ts`,
    `broker/connection.ts`). What a method does is given by BrokerSpec, and what all connections
    together keep is proved in BrokerRuns. */
module Broker {
  import opened Bytes
  import opened BrokerSpec
  import BrokerRuns

  /** Everything written to sockets, in order. */
  class Network {
    var log: seq<Out>

    constructor ()
      ensures log == []
    {
      log := [];
    }
  }

  class RoomRegistry {
    const limits: Limits
    const network: Network
    var rooms: Rooms

    constructor (limits: Limits, network: Network)
      ensures this.limits == limits && this.network == network && rooms == map[]
    {
      this.limits, this.network, rooms := limits, network, map[];
    }

    method CloseSocket(socket: Socket, code: int)
      modifies network
      ensures network.log == old(network.log) + [Close(socket, code)]
    {
      network.log := network.log + [Close(socket, code)];
    }

    /** A fresh room is stored before the seat checks; with at least one group seat they let its first
        member in. */
    method Join(roomId: string, socket: Socket, mode: Mode, peerId: Option<string>) returns (joined: bool)
      requires LimitsOk(limits)
      modifies this`rooms, network
      ensures joined <==> JoinRefusal(limits, old(rooms), roomId, mode, peerId).None?
      ensures rooms == if joined then Seated(old(rooms), roomId, mode, peerId, socket) else old(rooms)
      ensures joined ==> network.log == old(network.log)
      ensures !joined ==>
                network.log == old(network.log)
                  + var code := CloseCode(JoinRefusal(limits, old(rooms), roomId, mode, peerId).value);
                    if code.Some? then [Close(socket, code.value)] else []
    {
      if !ValidRoomId(roomId) {
        return false;
      }
      if mode == Group {
        if peerId.None? || !ValidPeerId(peerId.value) {
          return false;
        }
      } else if peerId.Some? {
        return false;
      }
      if roomId !in rooms {
        if |rooms| >= limits.maxRooms {
          CloseSocket(socket, TRY_AGAIN_LATER);
          return false;
        }
        rooms := rooms[roomId := Room(mode, [])];
      }
      joined := TakeSeat(roomId, socket, mode, peerId);
    }

    method TakeSeat(roomId: string, socket: Socket, mode: Mode, peerId: Option<string>) returns (joined: bool)
      requires roomId in rooms && (mode == Group ==> peerId.Some?) && (mode == Pair ==> peerId.None?)
      modifies this`rooms, network
      ensures var room := old(rooms[roomId]);
              var refusal := if room.mode != mode then Some(ModeMismatch)
                             else if mode == Group && SeatOf(room.seats, peerId.value).Some? then Some(DuplicatePeerId)
                             else if |room.seats| >= (if mode == Group then limits.maxGroupPeers else MAX_PEERS_PER_ROOM) then Some(Full)
                             else None;
              joined == refusal.None?
              && rooms == (if joined then old(rooms)[roomId := Room(mode, room.seats + [Seat(peerId, socket)])] else old(rooms))
              && network.log == old(network.log) + if joined then [] else [Close(socket, CloseCode(refusal.value).value)]
    {
      var room := rooms[roomId];
      if room.mode != mode {
        CloseSocket(socket, ROOM_MODE_MISMATCH);
        return false;
      }
      if room.mode == Group {
        if SeatOf(room.seats, peerId.value).Some? {
          CloseSocket(socket, DUPLICATE_PEER_ID);
          return false;
        }
        if |room.seats| >= limits.maxGroupPeers {
          CloseSocket(socket, TRY_AGAIN_LATER);
          return false;
        }
      } else if |room.seats| >= MAX_PEERS_PER_ROOM {
        CloseSocket(socket, TRY_AGAIN_LATER);
        return false;
      }
      rooms := rooms[roomId := room.(seats := room.seats + [Seat(peerId, socket)])];
      return true;
    }

    /** The search for the socket's seat, stopping at the first. */
    method WithoutSocket(seats: seq<Seat>, socket: Socket) returns (left: seq<Seat>)
      ensures left == Unseat(seats, socket)
    {
      ghost var k := BrokerRuns.UnseatAt(seats, socket);
      for i := 0 to |seats|
        invariant i <= k
      {
        if seats[i].socket == socket {
          return seats[..i] + seats[i + 1..];
        }
      }
      return seats;
    }

    method Leave(roomId: string, socket: Socket)
      modifies this`rooms
      ensures rooms == LeaveRoom(old(rooms), roomId, socket)
    {
      if roomId !in rooms {
        return;
      }
      var left := WithoutSocket(rooms[roomId].seats, socket);
      rooms := rooms[roomId := rooms[roomId].(seats := left)];
      if |left| == 0 {
        rooms := rooms - {roomId};
      }
    }

    /** `removeSocket`: the scan over every room. */
    method RemoveSocket(socket: Socket)
      modifies this`rooms
      ensures rooms == Purged(old(rooms), socket)
    {
      var before := rooms;
      var rest := rooms.Keys;
      while rest != {}
        invariant rest <= before.Keys
        invariant forall r :: r in rest ==> r in rooms && rooms[r] == before[r]
        invariant forall r :: r in rooms && r !in rest ==>
                    r in before && !Emptied(before[r], socket) && rooms[r] == before[r].(seats := Unseat(before[r].seats, socket))
        invariant forall r :: r in before && r !in rest && !Emptied(before[r], socket) ==> r in rooms
        decreases rest
      {
        var roomId :| roomId in rest;
        rest := rest - {roomId};
        var room := rooms[roomId];
        var left := WithoutSocket(room.seats, socket);
        if |left| == 0 && (room.mode == Group || |room.seats| != 0) {
          rooms := rooms - {roomId};
        } else {
          rooms := rooms[roomId := room.(seats := left)];
        }
      }
      assert rooms == Purged(before, socket);
    }

    method GetPeer(roomId: string, socket: Socket) returns (peer: Option<Socket>)
      ensures peer == PairPeer(rooms, roomId, socket)
    {
      if roomId !in rooms || rooms[roomId].mode != Pair {
        return None;
      }
      var seats := rooms[roomId].seats;
      for i := 0 to |seats|
        invariant OtherSocket(seats, socket) == OtherSocket(seats[i..], socket)
      {
        if seats[i].socket != socket {
          return Some(seats[i].socket);
        }
      }
      return None;
    }

    method GetPeerById(roomId: string, peerId: string) returns (peer: Option<Socket>)
      ensures peer == GroupPeer(rooms, roomId, peerId)
    {
      if roomId !in rooms || rooms[roomId].mode != Group {
        return None;
      }
      return SeatOf(rooms[roomId].seats, peerId);
    }

    method ListPeers(roomId: string, exclude: Socket) returns (peers: seq<Seat>)
      ensures peers == Others(SeatsIn(rooms, roomId), exclude)
    {
      if roomId !in rooms {
        return [];
      }
      var seats := rooms[roomId].seats;
      peers := [];
      for i := 0 to |seats|
        invariant peers + Others(seats[i..], exclude) == Others(seats, exclude)
      {
        assert seats[i..][1..] == seats[i + 1..];
        if seats[i].socket != exclude {
          peers := peers + [seats[i]];
        }
      }
      assert seats[|seats|..] == [];
    }
  }

  class BrokerConnection {
    const socket: Socket
    const registry: RoomRegistry
    const network: Network
    var roomId: Option<string>
    var peerId: Option<string>

    function Conn(): Conn
      reads this
    {
      BrokerSpec.Conn(roomId, peerId)
    }

    constructor (socket: Socket, registry: RoomRegistry)
      ensures this.socket == socket && this.registry == registry && network == registry.network && Conn() == UNSEATED
    {
      this.socket, this.registry, this.network := socket, registry, registry.network;
      roomId, peerId := None, None;
    }

    /** What one call left behind: the rooms, this connection, and what was written since `before`. */
    twostate predicate Did(o: Outcome)
      reads this, registry, network
    {
      registry.rooms == o.rooms && Conn() == o.conn && network.log == old(network.log) + o.out
    }

    method SendAll(seats: seq<Seat>, frame: Frame)
      modifies network
      ensures network.log == old(network.log) + Broadcast(seats, frame)
    {
      for i := 0 to |seats|
        invariant network.log + Broadcast(seats[i..], frame) == old(network.log) + Broadcast(seats, frame)
      {
        assert seats[i..][1..] == seats[i + 1..];
        network.log := network.log + [Send(seats[i].socket, frame)];
      }
      assert seats[|seats|..] == [];
    }

    method HandleJoin(room: string, mode: Mode, peer: Option<string>)
      requires network == registry.network && LimitsOk(registry.limits)
      modifies this`roomId, this`peerId, registry`rooms, network
      ensures Did(BrokerSpec.HandleJoin(registry.limits, old(registry.rooms), old(Conn()), socket, room, mode, peer))
    {
      if roomId.Some? {
        network.log := network.log + [Close(socket, ALREADY_SEATED)];
        return;
      }
      var joined := registry.Join(room, socket, mode, peer);
      if !joined {
        return;
      }
      roomId := Some(room);
      peerId := peer;
      Announce(room, mode, peer);
    }

    method Announce(room: string, mode: Mode, peer: Option<string>)
      requires network == registry.network && room in registry.rooms && registry.rooms[room].mode == mode
      requires mode == Group <==> peer.Some?
      modifies network
      ensures network.log == old(network.log) + Announcement(registry.rooms, room, mode, peer, socket)
    {
      if mode == Group {
        var others := registry.ListPeers(room, socket);
        SendAll(others, JoinNote(room, peer));
        return;
      }
      if |registry.rooms[room].seats| == MAX_PEERS_PER_ROOM {
        var other := registry.GetPeer(room, socket);
        if other.Some? {
          network.log := network.log + [Send(other.value, JoinNote(room, None))];
        }
      }
    }

    method NotifyPeerLeft()
      modifies network
      ensures network.log == old(network.log) + Departure(registry.rooms, Conn(), socket)
    {
      if roomId.None? {
        return;
      }
      if peerId.Some? {
        var others := registry.ListPeers(roomId.value, socket);
        SendAll(others, LeaveNote(roomId.value, peerId));
        return;
      }
      var other := registry.GetPeer(roomId.value, socket);
      if other.Some? {
        network.log := network.log + [Send(other.value, LeaveNote(roomId.value, None))];
      }
    }

    method HandleLeave()
      modifies this`roomId, this`peerId, registry`rooms, network
      ensures Did(BrokerSpec.HandleLeave(old(registry.rooms), old(Conn()), socket))
    {
      if roomId.None? {
        return;
      }
      if peerId.Some? {
        NotifyPeerLeft();
      }
      registry.Leave(roomId.value, socket);
      roomId := None;
      peerId := None;
    }

    method OnClose()
      modifies this`roomId, this`peerId, registry`rooms, network
      ensures Did(HandleClose(old(registry.rooms), old(Conn()), socket))
    {
      NotifyPeerLeft();
      if roomId.Some? {
        registry.Leave(roomId.value, socket);
      } else {
        registry.RemoveSocket(socket);
      }
      roomId := None;
      peerId := None;
    }

    method ForwardTo(peer: Socket, message: Relay, buffered: Socket -> int)
      modifies network
      ensures network.log == old(network.log) + Forward(peer, message, buffered)
    {
      if buffered(peer) > BROKER_MAX_BUFFERED_BYTES {
        network.log := network.log + [Close(peer, TRY_AGAIN_LATER)];
        return;
      }
      network.log := network.log + [Send(peer, Relayed(message))];
    }

    method RelayMessage(message: Relay, buffered: Socket -> int)
      modifies network
      ensures Did(Outcome(old(registry.rooms), old(Conn()), HandleRelay(old(registry.rooms), old(Conn()), socket, message, buffered)))
    {
      if roomId.None? {
        return;
      }
      if peerId.Some? {
        if message.to.None? {
          return;
        }
        var peer := registry.GetPeerById(roomId.value, message.to.value);
        if peer.None? || peer.value == socket {
          return;
        }
        ForwardTo(peer.value, Relay(message.kind, message.body, None, peerId), buffered);
        return;
      }
      var peer := registry.GetPeer(roomId.value, socket);
      if peer.None? {
        return;
      }
      ForwardTo(peer.value, Relay(message.kind, message.body, None, None), buffered);
    }
  }
}
