/** The signaling room: membership, lifecycle and the messages each connection was sent, as functions. */
module RoomSpec {
  import opened Common

  type PeerId = string
  type Conn = nat

  datatype RoomState = Creating | Active | Closing | Closed

  datatype ServerMessage =
    | RoomJoined(self: PeerId, others: set<PeerId>)
    | PeerJoined(id: PeerId)
    | PeerLeft(id: PeerId)
    | PresenceOnline(id: PeerId)
    | PresenceOffline(id: PeerId)
    | Kicked(id: PeerId)
    | Other

  datatype RoomEvent = Joined(conn: Conn) | Left(conn: Conn) | RoomClosed | WasKicked(id: PeerId)

  /** How sending to a connection goes during one operation: it may throw, or be dropped by back-pressure. */
  datatype Sockets = Sockets(throws: set<Conn>, drops: set<Conn>)

  predicate Delivers(s: Sockets, c: Conn) {
    c !in s.throws && c !in s.drops
  }

  datatype Limits = Limits(maxPeers: Option<nat>, keepAliveOnEmpty: bool)

  /**
   `log` holds what each connection was sent, `failed` the connections that missed a message, `events` what was
   emitted.
   */
  datatype Room = Room(state: RoomState, peers: map<PeerId, Conn>, log: map<Conn, seq<ServerMessage>>,
                       failed: set<Conn>, events: seq<RoomEvent>)

  const NEW_ROOM := Room(Creating, map[], map[], {}, [])

  /** The legal-transition table. */
  predicate Legal(from: RoomState, to: RoomState) {
    match from
    case Creating => to == Active || to == Closing || to == Closed
    case Active => to == Closing || to == Closed
    case Closing => to == Closed
    case Closed => false
  }

  function TransitionTo(r: Room, next: RoomState): Room {
    if Legal(r.state, next) then r.(state := next) else r
  }

  function Emit(r: Room, e: RoomEvent): Room {
    r.(events := r.events + [e])
  }

  /** One send to a connection. */
  function Send(r: Room, c: Conn, m: ServerMessage, s: Sockets): Room {
    if Delivers(s, c) then r.(log := r.log[c := (if c in r.log then r.log[c] else []) + [m]])
    else r.(failed := r.failed + {c})
  }

  /** The connections a fan-out addresses. */
  function Audience(peers: map<PeerId, Conn>, exclude: Option<PeerId>): set<Conn> {
    set id | id in peers && exclude != Some(id) :: peers[id]
  }

  function SendToAll(r: Room, m: ServerMessage, exclude: Option<PeerId>, s: Sockets): Room {
    SendToConns(r, Audience(r.peers, exclude), m, s)
  }

  function SendToConns(r: Room, conns: set<Conn>, m: ServerMessage, s: Sockets): Room {
    r.(log := map c | c in r.log.Keys + (set d | d in conns && Delivers(s, d)) ::
                (if c in r.log then r.log[c] else []) + (if c in conns && Delivers(s, c) then [m] else []),
       failed := r.failed + (set d | d in conns && !Delivers(s, d)))
  }

  datatype Admission = Admitted | Refused | SendThrew

  predicate IsFull(lim: Limits, r: Room, id: PeerId) {
    id !in r.peers && lim.maxPeers.Some? && |r.peers| >= lim.maxPeers.value
  }

  function AdmissionOf(lim: Limits, r: Room, c: Conn, id: PeerId, s: Sockets): Admission {
    if r.state == Closing || r.state == Closed || IsFull(lim, r, id) then Refused
    else if c in s.throws then SendThrew
    else Admitted
  }

  /** The room after the newcomer took its place and before anything is sent. */
  function Seated(r: Room, c: Conn, id: PeerId): Room {
    var r := if id in r.peers then Emit(r, Left(r.peers[id])) else r;
    r.(peers := r.peers[id := c])
  }

  /** ... and has been sent its `room-joined`. */
  function SeatedAndTold(r: Room, c: Conn, id: PeerId, s: Sockets): Room {
    Send(Seated(r, c, id), c, RoomJoined(id, r.peers.Keys - {id}), s)
  }

  /** A membership message and its presence companion, to everyone but `id`. */
  function TellTwice(r: Room, m: ServerMessage, presence: ServerMessage, id: PeerId, s: Sockets): Room {
    SendToAll(SendToAll(r, m, Some(id), s), presence, Some(id), s)
  }

  /** A reconnection under a known id is not announced to the others. */
  function NewcomerTold(r: Room, c: Conn, id: PeerId, s: Sockets): Room {
    var seated := SeatedAndTold(r, c, id, s);
    if id in r.peers then seated else TellTwice(seated, PeerJoined(id), PresenceOnline(id), id, s)
  }

  function AdmittedRoom(r: Room, c: Conn, id: PeerId, s: Sockets): Room {
    Emit(TransitionTo(NewcomerTold(r, c, id, s), Active), Joined(c))
  }

  function RolledBackRoom(r: Room, c: Conn, id: PeerId, s: Sockets): Room {
    var seated := SeatedAndTold(r, c, id, s);
    seated.(peers := seated.peers - {id})
  }

  function AddPeer(lim: Limits, r: Room, c: Conn, id: PeerId, s: Sockets): Room {
    match AdmissionOf(lim, r, c, id, s)
    case Refused => r
    case SendThrew => RolledBackRoom(r, c, id, s)
    case Admitted => AdmittedRoom(r, c, id, s)
  }

  function RemovePeer(lim: Limits, r: Room, id: PeerId, s: Sockets): Room {
    if id !in r.peers then r
    else
      var c := r.peers[id];
      var r := r.(peers := r.peers - {id});
      if r.peers == map[] && !lim.keepAliveOnEmpty then
        Emit(TransitionTo(Emit(TransitionTo(r, Closing), Left(c)), Closed), RoomClosed)
      else
        Emit(TellTwice(r, PeerLeft(id), PresenceOffline(id), id, s), Left(c))
  }

  function KickPeer(lim: Limits, r: Room, id: PeerId, s: Sockets): Room {
    if id !in r.peers then r
    else Emit(RemovePeer(lim, Send(r, r.peers[id], Kicked(id), s), id, s), WasKicked(id))
  }

  /** The socket of connection `c`, admitted under `id`, closed. */
  function Disconnected(lim: Limits, r: Room, c: Conn, id: PeerId, s: Sockets): Room {
    if id in r.peers && r.peers[id] == c then RemovePeer(lim, r, id, s) else r
  }

  /** The events of disconnecting a set of connections, in some order. */
  ghost predicate Leaves(events: seq<RoomEvent>, conns: set<Conn>) {
    && |events| == |conns|
    && (forall k :: 0 <= k < |events| ==> events[k].Left? && events[k].conn in conns)
  }

  function Departures(conns: set<Conn>): (events: seq<RoomEvent>)
    ensures Leaves(events, conns)
  {
    if conns == {} then []
    else
      var c := First(conns);
      [Left(c)] + Departures(conns - {c})
  }

  lemma {:induction false} LeastConn(conns: set<Conn>) returns (m: Conn)
    requires conns != {}
    ensures m in conns && forall c :: c in conns ==> m <= c
  {
    var x :| x in conns;
    m := x;
    if conns != {x} {
      var least := LeastConn(conns - {x});
      m := Min(x, least);
    }
    forall c | c in conns ensures m <= c {
      assert c == x || c in conns - {x};
    }
  }

  function First(conns: set<Conn>): (c: Conn)
    requires conns != {}
    ensures c in conns
  {
    assert exists m :: m in conns && forall c :: c in conns ==> m <= c by {
      var m := LeastConn(conns);
    }
    var m :| m in conns && forall c :: c in conns ==> m <= c;
    m
  }

  function ForceClose(r: Room, s: Sockets): Room {
    if r.state != Active && r.state != Creating then r
    else
      var told := SendToAll(TransitionTo(r, Closing), Other, None, s);
      var gone := told.(peers := map[], events := told.events + Departures(Audience(told.peers, None)));
      Emit(TransitionTo(gone, Closed), RoomClosed)
  }

  // ---- The client ----

  datatype ClientRoom = NoRoom | InRoom(roster: set<PeerId>)

  /** How the SDK's room handles one message. */
  function Handle(client: ClientRoom, m: ServerMessage): ClientRoom {
    match m
    case RoomJoined(self, others) => InRoom({self} + others)
    case PeerJoined(id) => if client.InRoom? then InRoom(client.roster + {id}) else client
    case PeerLeft(id) => if client.InRoom? then InRoom(client.roster - {id}) else client
    case _ => client
  }

  function Fold(log: seq<ServerMessage>): ClientRoom {
    if log == [] then NoRoom else Handle(Fold(log[..|log| - 1]), log[|log| - 1])
  }
}
