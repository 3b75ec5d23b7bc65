/** The replicated roster: what clients believe against what the server holds, over whole runs of a room. */
module Roster {
  import opened Common
  import opened RoomSpec

  datatype Step =
    | Add(c: Conn, id: PeerId, s: Sockets)
    | Kick(id: PeerId, s: Sockets)
    | Remove(id: PeerId, s: Sockets)
    | SocketClosed(c: Conn, id: PeerId, s: Sockets)
    | Expire(s: Sockets)
    | Tell(exclude: Option<PeerId>, s: Sockets)
    | TellOne(id: PeerId, s: Sockets)

  /** One operation on the room; connections are new objects, so an id of a connection is used once. */
  function Apply(lim: Limits, r: Room, step: Step): Room {
    match step
    case Add(c, id, s) => if c in r.log || c in r.failed then r else AddPeer(lim, r, c, id, s)
    case Kick(id, s) => KickPeer(lim, r, id, s)
    case Remove(id, s) => RemovePeer(lim, r, id, s)
    case SocketClosed(c, id, s) => Disconnected(lim, r, c, id, s)
    case Expire(s) => ForceClose(r, s)
    case Tell(exclude, s) => SendToAll(r, Other, exclude, s)
    case TellOne(id, s) => if id in r.peers then Send(r, r.peers[id], Other, s) else r
  }

  function Execute(lim: Limits, r: Room, steps: seq<Step>): Room
    decreases |steps|
  {
    if steps == [] then r else Execute(lim, Apply(lim, r, steps[0]), steps[1..])
  }

  // ---- The invariant ----

  /** Every present connection that missed nothing sees exactly the server's peers. */
  ghost predicate Agrees(r: Room) {
    forall id :: id in r.peers ==> Believes(r, id, r.peers.Keys)
  }

  /** Unless it missed a message, the connection of `id` has been told that the room consists of `roster`. */
  ghost predicate Believes(r: Room, id: PeerId, roster: set<PeerId>) {
    id in r.peers && r.peers[id] !in r.failed ==> r.peers[id] in r.log && Fold(r.log[r.peers[id]]) == InRoom(roster)
  }

  ghost predicate Injective(peers: map<PeerId, Conn>) {
    forall a, b :: a in peers && b in peers && a != b ==> peers[a] != peers[b]
  }

  /** Connections in the room have been heard of: they are in the log or have failed. */
  ghost predicate Known(r: Room) {
    forall id :: id in r.peers ==> r.peers[id] in r.log || r.peers[id] in r.failed
  }

  function Count(events: seq<RoomEvent>, joins: bool): nat {
    if events == [] then 0
    else
      var e := events[|events| - 1];
      Count(events[..|events| - 1], joins) + if (joins && e.Joined?) || (!joins && e.Left?) then 1 else 0
  }

  function Closes(events: seq<RoomEvent>): nat {
    if events == [] then 0
    else Closes(events[..|events| - 1]) + if events[|events| - 1].RoomClosed? then 1 else 0
  }

  /** What events and state say about a room of `n` peers. */
  ghost predicate Tallied(lim: Limits, state: RoomState, n: nat, events: seq<RoomEvent>) {
    && state != Closing
    && (state == Closed ==> n == 0)
    && (lim.maxPeers.Some? ==> n <= lim.maxPeers.value)
    && Count(events, true) == Count(events, false) + n
    && Closes(events) == if state == Closed then 1 else 0
  }

  ghost predicate LifeOk(lim: Limits, r: Room) {
    Tallied(lim, r.state, |r.peers|, r.events)
  }

  ghost predicate Base(lim: Limits, r: Room) {
    Injective(r.peers) && Known(r) && LifeOk(lim, r)
  }

  // ---- Sending ----

  lemma FoldSnoc(log: seq<ServerMessage>, m: ServerMessage)
    ensures Fold(log + [m]) == Handle(Fold(log), m)
  {
    assert (log + [m])[..|log|] == log;
  }

  lemma CountSnoc(events: seq<RoomEvent>, e: RoomEvent)
    ensures Count(events + [e], true) == Count(events, true) + if e.Joined? then 1 else 0
    ensures Count(events + [e], false) == Count(events, false) + if e.Left? then 1 else 0
    ensures Closes(events + [e]) == Closes(events) + if e.RoomClosed? then 1 else 0
  {
    assert (events + [e])[..|events|] == events;
  }

  lemma TallyJoin(lim: Limits, state: RoomState, n: nat, events: seq<RoomEvent>, c: Conn)
    requires Tallied(lim, state, n, events) && state != Closed && (lim.maxPeers.Some? ==> n < lim.maxPeers.value)
    ensures Tallied(lim, Active, n + 1, events + [Joined(c)])
  {
    CountSnoc(events, Joined(c));
  }

  lemma TallyReplace(lim: Limits, state: RoomState, n: nat, events: seq<RoomEvent>, gone: Conn, c: Conn)
    requires Tallied(lim, state, n, events) && state != Closed
    ensures Tallied(lim, Active, n, events + [Left(gone)] + [Joined(c)])
  {
    CountSnoc(events, Left(gone));
    CountSnoc(events + [Left(gone)], Joined(c));
  }

  lemma TallyLeave(lim: Limits, state: RoomState, n: nat, events: seq<RoomEvent>, gone: Conn)
    requires Tallied(lim, state, n, events) && n > 0
    ensures Tallied(lim, state, n - 1, events + [Left(gone)])
  {
    CountSnoc(events, Left(gone));
  }

  lemma TallyClose(lim: Limits, state: RoomState, events: seq<RoomEvent>)
    requires Tallied(lim, state, 0, events) && state != Closed
    ensures Tallied(lim, Closed, 0, events + [RoomClosed])
  {
    CountSnoc(events, RoomClosed);
  }

  lemma PutSize(peers: map<PeerId, Conn>, id: PeerId, c: Conn)
    ensures |peers[id := c]| == |peers| + if id in peers then 0 else 1
  {
    if id in peers {
      assert peers[id := c].Keys == peers.Keys;
      assert |peers[id := c]| == |peers[id := c].Keys| == |peers.Keys| == |peers|;
    }
  }

  lemma DropSize(peers: map<PeerId, Conn>, id: PeerId)
    requires id in peers
    ensures |peers - {id}| == |peers| - 1
  {
  }

  /** A fan-out to everyone but `exclude` moves every clean addressee by one message and nobody else. */
  lemma FanOut(r: Room, m: ServerMessage, exclude: Option<PeerId>, s: Sockets, id: PeerId)
    requires Injective(r.peers) && id in r.peers
    ensures var r' := SendToAll(r, m, exclude, s);
            var c := r.peers[id];
            && r'.peers == r.peers && r'.state == r.state && r'.events == r.events
            && r.failed <= r'.failed
            && (c in r.log || c in r.failed ==> c in r'.log || c in r'.failed)
            && (c in r.log && c !in r'.failed ==>
                  && c in r'.log
                  && Fold(r'.log[c]) == if exclude == Some(id) then Fold(r.log[c]) else Handle(Fold(r.log[c]), m))
  {
    var c := r.peers[id];
    if exclude == Some(id) {
      assert c !in Audience(r.peers, exclude);
      if c in r.log {
        assert r.log[c] + [] == r.log[c];
      }
    } else {
      assert c in Audience(r.peers, exclude);
      if c in r.log {
        FoldSnoc(r.log[c], m);
      }
    }
  }

  lemma FanOutBelieves(r: Room, m: ServerMessage, exclude: Option<PeerId>, s: Sockets, id: PeerId, roster: set<PeerId>)
    requires Injective(r.peers) && Believes(r, id, roster)
    ensures Believes(SendToAll(r, m, exclude, s), id,
                     if exclude == Some(id) then roster else Handle(InRoom(roster), m).roster)
  {
    if id in r.peers {
      FanOut(r, m, exclude, s, id);
    }
  }

  lemma TellTwiceBelieves(r: Room, m: ServerMessage, presence: ServerMessage, id: PeerId, s: Sockets, other: PeerId,
                          roster: set<PeerId>)
    requires Injective(r.peers) && Believes(r, other, roster)
    requires presence.PresenceOnline? || presence.PresenceOffline?
    ensures Believes(TellTwice(r, m, presence, id, s), other,
                     if other == id then roster else Handle(InRoom(roster), m).roster)
  {
    var told := SendToAll(r, m, Some(id), s);
    FanOutBelieves(r, m, Some(id), s, other, roster);
    var now := if other == id then roster else Handle(InRoom(roster), m).roster;
    FanOutBelieves(told, presence, Some(id), s, other, now);
  }

  /** Beliefs depend on the peers, the log and the failures only. */
  lemma SameBeliefs(r: Room, r': Room, id: PeerId, roster: set<PeerId>)
    requires Believes(r, id, roster) && r'.peers == r.peers && r'.log == r.log && r'.failed == r.failed
    ensures Believes(r', id, roster)
  {
  }

  lemma KnownAfterFanOut(r: Room, m: ServerMessage, exclude: Option<PeerId>, s: Sockets)
    requires Injective(r.peers) && Known(r)
    ensures Known(SendToAll(r, m, exclude, s))
  {
    forall id | id in r.peers
      ensures r.peers[id] in SendToAll(r, m, exclude, s).log || r.peers[id] in SendToAll(r, m, exclude, s).failed
    {
      FanOut(r, m, exclude, s, id);
    }
  }

  // ---- Operations ----

  lemma RemoveKeepsBase(lim: Limits, r: Room, id: PeerId, s: Sockets)
    requires Base(lim, r)
    ensures Base(lim, RemovePeer(lim, r, id, s))
  {
    if id in r.peers {
      var c := r.peers[id];
      var gone := r.(peers := r.peers - {id});
      DropSize(r.peers, id);
      TallyLeave(lim, r.state, |r.peers|, r.events, c);
      if gone.peers == map[] && !lim.keepAliveOnEmpty {
        TallyClose(lim, r.state, r.events + [Left(c)]);
      } else {
        TellTwiceKnown(gone, PeerLeft(id), PresenceOffline(id), id, s);
        assert RemovePeer(lim, r, id, s) == Emit(TellTwice(gone, PeerLeft(id), PresenceOffline(id), id, s), Left(c));
      }
    }
  }

  lemma RemoveKeepsAgreement(lim: Limits, r: Room, id: PeerId, s: Sockets)
    requires Base(lim, r) && Agrees(r)
    ensures Agrees(RemovePeer(lim, r, id, s))
  {
    if id in r.peers {
      var gone := r.(peers := r.peers - {id});
      if gone.peers != map[] || lim.keepAliveOnEmpty {
        var told := TellTwice(gone, PeerLeft(id), PresenceOffline(id), id, s);
        assert RemovePeer(lim, r, id, s) == Emit(told, Left(r.peers[id]));
        GoneAgrees(r, id, s);
        SameAgreement(told, Emit(told, Left(r.peers[id])));
      }
    }
  }

  lemma GoneAgrees(r: Room, id: PeerId, s: Sockets)
    requires Injective(r.peers) && Agrees(r) && id in r.peers
    ensures Agrees(TellTwice(r.(peers := r.peers - {id}), PeerLeft(id), PresenceOffline(id), id, s))
  {
    var told := TellTwice(r.(peers := r.peers - {id}), PeerLeft(id), PresenceOffline(id), id, s);
    assert told.peers.Keys == r.peers.Keys - {id};
    forall other | other in told.peers
      ensures Believes(told, other, told.peers.Keys)
    {
      GoneBelieves(r, id, s, other);
    }
  }

  lemma GoneBelieves(r: Room, id: PeerId, s: Sockets, other: PeerId)
    requires Injective(r.peers) && Agrees(r) && id in r.peers && other in r.peers && other != id
    ensures Believes(TellTwice(r.(peers := r.peers - {id}), PeerLeft(id), PresenceOffline(id), id, s), other,
                     r.peers.Keys - {id})
  {
    RestStillBelieves(r, id, other);
    TellTwiceBelieves(r.(peers := r.peers - {id}), PeerLeft(id), PresenceOffline(id), id, s, other, r.peers.Keys);
  }

  lemma RestStillBelieves(r: Room, id: PeerId, other: PeerId)
    requires Injective(r.peers) && Agrees(r) && id in r.peers && other in r.peers && other != id
    ensures var gone := r.(peers := r.peers - {id}); Injective(gone.peers) && Believes(gone, other, r.peers.Keys)
  {
    assert Believes(r, other, r.peers.Keys);
  }

  lemma SendKeeps(lim: Limits, r: Room, id: PeerId, m: ServerMessage, s: Sockets)
    requires Base(lim, r) && id in r.peers && !m.RoomJoined? && !m.PeerJoined? && !m.PeerLeft?
    ensures Base(lim, Send(r, r.peers[id], m, s))
    ensures Agrees(r) ==> Agrees(Send(r, r.peers[id], m, s))
  {
    SendKeepsKnown(r, r.peers[id], m, s);
    if Agrees(r) {
      forall other | other in r.peers
        ensures Believes(Send(r, r.peers[id], m, s), other, r.peers.Keys)
      {
        assert Believes(r, other, r.peers.Keys);
        SendBelieves(r, r.peers[id], m, s, other, r.peers.Keys);
      }
    }
  }

  lemma SendKeepsKnown(r: Room, c: Conn, m: ServerMessage, s: Sockets)
    requires Known(r)
    ensures Known(Send(r, c, m, s))
  {
  }

  lemma SendBelieves(r: Room, c: Conn, m: ServerMessage, s: Sockets, other: PeerId, roster: set<PeerId>)
    requires Known(r) && other in r.peers && Believes(r, other, roster) && !m.RoomJoined? && !m.PeerJoined?
             && !m.PeerLeft?
    ensures Believes(Send(r, c, m, s), other, roster)
  {
    var r' := Send(r, c, m, s);
    if c == r.peers[other] && c !in r'.failed {
      assert r'.log[c] == r.log[c] + [m];
      FoldSnoc(r.log[c], m);
      assert Handle(InRoom(roster), m) == InRoom(roster);
    }
  }

  lemma TellKeeps(lim: Limits, r: Room, exclude: Option<PeerId>, s: Sockets)
    requires Base(lim, r)
    ensures Base(lim, SendToAll(r, Other, exclude, s))
    ensures Agrees(r) ==> Agrees(SendToAll(r, Other, exclude, s))
  {
    KnownAfterFanOut(r, Other, exclude, s);
    if Agrees(r) {
      forall id | id in r.peers ensures Believes(SendToAll(r, Other, exclude, s), id, r.peers.Keys) {
        assert Believes(r, id, r.peers.Keys);
        FanOutBelieves(r, Other, exclude, s, id, r.peers.Keys);
      }
    }
  }

  lemma {:induction false} CountConcat(a: seq<RoomEvent>, b: seq<RoomEvent>)
    requires forall k :: 0 <= k < |b| ==> b[k].Left?
    ensures Count(a + b, true) == Count(a, true) && Count(a + b, false) == Count(a, false) + |b|
    ensures Closes(a + b) == Closes(a)
    decreases |b|
  {
    if b == [] {
      assert a + b == a;
    } else {
      var init := b[..|b| - 1];
      CountConcat(a, init);
      CountSnoc(a + init, b[|b| - 1]);
      assert a + b == a + init + [b[|b| - 1]];
    }
  }

  lemma {:induction false} AudienceSize(peers: map<PeerId, Conn>)
    requires Injective(peers)
    ensures |Audience(peers, None)| == |peers|
    decreases |peers|
  {
    if peers != map[] {
      var id :| id in peers;
      var rest := peers - {id};
      assert |rest| == |peers| - 1;
      AudienceSize(rest);
      assert Audience(peers, None) == Audience(rest, None) + {peers[id]};
      assert peers[id] !in Audience(rest, None);
    }
  }

  lemma ExpireKeeps(lim: Limits, r: Room, s: Sockets)
    requires Base(lim, r)
    ensures Base(lim, ForceClose(r, s))
    ensures Agrees(r) ==> Agrees(ForceClose(r, s))
  {
    if r.state == Active || r.state == Creating {
      var left := r.events + Departures(Audience(r.peers, None));
      Expired(r, s);
      TallyDepartures(lim, r);
      TallyClose(lim, r.state, left);
      EmptyRoomIsFine(lim, ForceClose(r, s));
    }
  }

  lemma Expired(r: Room, s: Sockets)
    requires r.state == Active || r.state == Creating
    ensures var r' := ForceClose(r, s);
            r'.peers == map[] && r'.state == Closed
            && r'.events == r.events + Departures(Audience(r.peers, None)) + [RoomClosed]
  {
  }

  lemma EmptyRoomIsFine(lim: Limits, r: Room)
    requires r.peers == map[] && Tallied(lim, r.state, 0, r.events)
    ensures Base(lim, r) && Agrees(r)
  {
  }

  lemma TallyDepartures(lim: Limits, r: Room)
    requires Injective(r.peers) && LifeOk(lim, r)
    ensures Tallied(lim, r.state, 0, r.events + Departures(Audience(r.peers, None)))
  {
    AudienceSize(r.peers);
    CountConcat(r.events, Departures(Audience(r.peers, None)));
  }

  /** The newcomer right after its `room-joined`. */
  lemma SeatedOk(r: Room, c: Conn, id: PeerId, s: Sockets)
    requires Injective(r.peers) && Known(r) && c !in r.log && c !in r.failed
    ensures var seated := SeatedAndTold(r, c, id, s);
            && Injective(seated.peers) && Known(seated) && seated.peers == r.peers[id := c] && seated.state == r.state
            && seated.events == (if id in r.peers then r.events + [Left(r.peers[id])] else r.events)
  {
  }

  lemma NewcomerBelieves(r: Room, c: Conn, id: PeerId, s: Sockets)
    requires c !in r.log && c !in r.failed
    ensures Believes(SeatedAndTold(r, c, id, s), id, r.peers.Keys + {id})
  {
    var m := RoomJoined(id, r.peers.Keys - {id});
    FoldSnoc([], m);
    assert [] + [m] == [m];
    assert {id} + (r.peers.Keys - {id}) == r.peers.Keys + {id};
  }

  lemma OthersStillBelieve(r: Room, c: Conn, id: PeerId, s: Sockets, other: PeerId)
    requires Agrees(r) && Known(r) && c !in r.log && c !in r.failed && other in r.peers && other != id
    ensures Believes(SeatedAndTold(r, c, id, s), other, r.peers.Keys)
  {
    assert Believes(r, other, r.peers.Keys);
  }

  lemma ToldOk(r: Room, c: Conn, id: PeerId, s: Sockets)
    requires Injective(r.peers) && Known(r) && c !in r.log && c !in r.failed
    ensures var told := NewcomerTold(r, c, id, s);
            && Injective(told.peers) && Known(told) && told.peers == r.peers[id := c] && told.state == r.state
            && told.events == (if id in r.peers then r.events + [Left(r.peers[id])] else r.events)
  {
    SeatedOk(r, c, id, s);
    TellTwiceKnown(SeatedAndTold(r, c, id, s), PeerJoined(id), PresenceOnline(id), id, s);
  }

  lemma AdmittedKeepsBase(lim: Limits, r: Room, c: Conn, id: PeerId, s: Sockets)
    requires Base(lim, r) && c !in r.log && c !in r.failed
    requires r.state != Closed && !IsFull(lim, r, id)
    ensures Base(lim, AdmittedRoom(r, c, id, s))
  {
    ToldOk(r, c, id, s);
    EmitAfterMove(NewcomerTold(r, c, id, s), Joined(c));
    PutSize(r.peers, id, c);
    if id in r.peers {
      TallyReplace(lim, r.state, |r.peers|, r.events, r.peers[id], c);
    } else {
      TallyJoin(lim, r.state, |r.peers|, r.events, c);
    }
  }

  lemma EmitAfterMove(r: Room, e: RoomEvent)
    requires Injective(r.peers) && Known(r) && r.state != Closing && r.state != Closed
    ensures var r' := Emit(TransitionTo(r, Active), e);
            Injective(r'.peers) && Known(r') && r'.peers == r.peers && r'.state == Active && r'.events == r.events + [e]
  {
  }

  lemma AddKeepsBase(lim: Limits, r: Room, c: Conn, id: PeerId, s: Sockets)
    requires Base(lim, r) && c !in r.log && c !in r.failed
    ensures Base(lim, AddPeer(lim, r, c, id, s))
  {
    match AdmissionOf(lim, r, c, id, s) {
      case Refused =>
      case Admitted => AdmittedKeepsBase(lim, r, c, id, s);
      case SendThrew => RolledBackKeepsBase(lim, r, c, id, s);
    }
  }

  lemma RolledBackKeepsBase(lim: Limits, r: Room, c: Conn, id: PeerId, s: Sockets)
    requires Base(lim, r) && c !in r.log && c !in r.failed
    ensures Base(lim, RolledBackRoom(r, c, id, s))
  {
    RolledBackShape(r, c, id, s);
    if id in r.peers {
      DropSize(r.peers, id);
      TallyLeave(lim, r.state, |r.peers|, r.events, r.peers[id]);
    }
  }

  lemma RolledBackShape(r: Room, c: Conn, id: PeerId, s: Sockets)
    requires Injective(r.peers) && Known(r) && c !in r.log && c !in r.failed
    ensures var r' := RolledBackRoom(r, c, id, s);
            && Injective(r'.peers) && Known(r') && r'.state == r.state
            && r'.peers == (if id in r.peers then r.peers - {id} else r.peers)
            && r'.events == (if id in r.peers then r.events + [Left(r.peers[id])] else r.events)
  {
    SeatedOk(r, c, id, s);
    RemovalKeepsKnown(SeatedAndTold(r, c, id, s), id);
    PutThenDrop(r.peers, id, c);
  }

  lemma PutThenDrop(peers: map<PeerId, Conn>, id: PeerId, c: Conn)
    ensures peers[id := c] - {id} == if id in peers then peers - {id} else peers
  {
  }

  lemma RemovalKeepsKnown(r: Room, id: PeerId)
    requires Injective(r.peers) && Known(r)
    ensures var r' := r.(peers := r.peers - {id}); Injective(r'.peers) && Known(r')
  {
  }

  lemma TellTwiceKnown(r: Room, m: ServerMessage, presence: ServerMessage, id: PeerId, s: Sockets)
    requires Injective(r.peers) && Known(r)
    ensures var told := TellTwice(r, m, presence, id, s);
            Known(told) && told.peers == r.peers && told.events == r.events && told.state == r.state
  {
    KnownAfterFanOut(r, m, Some(id), s);
    KnownAfterFanOut(SendToAll(r, m, Some(id), s), presence, Some(id), s);
  }

  lemma ToldAgrees(r: Room, c: Conn, id: PeerId, s: Sockets)
    requires Injective(r.peers) && Known(r) && Agrees(r) && c !in r.log && c !in r.failed
    ensures Agrees(NewcomerTold(r, c, id, s))
  {
    ToldOk(r, c, id, s);
    assert NewcomerTold(r, c, id, s).peers.Keys == r.peers.Keys + {id};
    forall other | other in r.peers.Keys + {id}
      ensures Believes(NewcomerTold(r, c, id, s), other, r.peers.Keys + {id})
    {
      SeatedBelieves(r, c, id, s, other);
    }
  }

  lemma AdmittedAgrees(r: Room, c: Conn, id: PeerId, s: Sockets)
    requires Injective(r.peers) && Known(r) && Agrees(r) && c !in r.log && c !in r.failed
    ensures Agrees(AdmittedRoom(r, c, id, s))
  {
    ToldAgrees(r, c, id, s);
    SameAgreement(NewcomerTold(r, c, id, s), AdmittedRoom(r, c, id, s));
  }

  lemma SameAgreement(r: Room, r': Room)
    requires Agrees(r) && r'.peers == r.peers && r'.log == r.log && r'.failed == r.failed
    ensures Agrees(r')
  {
    forall id | id in r'.peers
      ensures Believes(r', id, r'.peers.Keys)
    {
      SameBeliefs(r, r', id, r.peers.Keys);
    }
  }

  lemma SeatedBelieves(r: Room, c: Conn, id: PeerId, s: Sockets, other: PeerId)
    requires Injective(r.peers) && Known(r) && Agrees(r) && c !in r.log && c !in r.failed
    requires other in r.peers || other == id
    ensures Believes(NewcomerTold(r, c, id, s), other, r.peers.Keys + {id})
  {
    var seated := SeatedAndTold(r, c, id, s);
    SeatedOk(r, c, id, s);
    if other == id {
      NewcomerBelieves(r, c, id, s);
    } else {
      OthersStillBelieve(r, c, id, s, other);
    }
    if id in r.peers {
      assert r.peers.Keys + {id} == r.peers.Keys;
    } else {
      TellTwiceBelieves(seated, PeerJoined(id), PresenceOnline(id), id, s, other,
                        if other == id then r.peers.Keys + {id} else r.peers.Keys);
    }
  }

  /** A first join that is rolled back leaves everybody's roster right. */
  lemma NewcomerFailureAgrees(lim: Limits, r: Room, c: Conn, id: PeerId, s: Sockets)
    requires Base(lim, r) && Agrees(r) && c !in r.log && c !in r.failed
    requires AdmissionOf(lim, r, c, id, s) == SendThrew && id !in r.peers
    ensures Agrees(AddPeer(lim, r, c, id, s))
  {
    var after := RolledBackRoom(r, c, id, s);
    assert after.peers == r.peers;
    forall other | other in r.peers ensures Believes(after, other, r.peers.Keys) {
      OthersStillBelieve(r, c, id, s, other);
    }
  }

  /** Every peer but `id` has missed a message before. */
  ghost predicate NobodyElseIsClean(r: Room, id: PeerId) {
    forall k :: k in r.peers && k != id ==> r.peers[k] in r.failed
  }

  /** A reconnection that is rolled back leaves the others believing in a peer that is gone. */
  lemma LostReconnectionAgreesIff(lim: Limits, r: Room, c: Conn, id: PeerId, s: Sockets)
    requires Base(lim, r) && Agrees(r) && c !in r.log && c !in r.failed
    requires AdmissionOf(lim, r, c, id, s) == SendThrew && id in r.peers
    ensures Agrees(AddPeer(lim, r, c, id, s)) <==> NobodyElseIsClean(r, id)
  {
    var r' := RolledBackRoom(r, c, id, s);
    assert r'.peers == r.peers - {id} && r'.failed == r.failed + {c};
    assert id in r.peers.Keys && id !in r'.peers.Keys;
    forall k | k in r'.peers ensures Believes(r', k, r.peers.Keys) {
      OthersStillBelieve(r, c, id, s, k);
    }
    forall k | k in r'.peers
      ensures r'.peers[k] in r'.failed <==> r.peers[k] in r.failed
    {
      assert r.peers[k] != c;
    }
    if k :| k in r'.peers && r'.peers[k] !in r'.failed {
      assert Believes(r', k, r.peers.Keys) && !Believes(r', k, r'.peers.Keys);
    }
  }

  lemma FirstPeer(lim: Limits, all: Sockets)
    requires lim == Limits(None, false) && all == Sockets({}, {})
    ensures var one := Apply(lim, NEW_ROOM, Add(1, "a", all));
            one.peers == map["a" := 1] && one.failed == {} && one.log.Keys == {1} && one.state == Active
  {
    SeatedOk(NEW_ROOM, 1, "a", all);
  }

  lemma SecondPeer(lim: Limits, all: Sockets, one: Room)
    requires lim == Limits(None, false) && all == Sockets({}, {})
    requires one.peers == map["a" := 1] && one.failed == {} && one.log.Keys == {1} && one.state == Active
    ensures var two := Apply(lim, one, Add(2, "b", all));
            two.peers == map["a" := 1, "b" := 2] && two.failed == {} && two.log.Keys == {1, 2} && two.state == Active
  {
  }

  lemma ExecuteThree(lim: Limits, r: Room, a: Step, b: Step, c: Step)
    ensures Execute(lim, r, [a, b, c]) == Apply(lim, Apply(lim, Apply(lim, r, a), b), c)
  {
    var r1, r2 := Apply(lim, r, a), Apply(lim, Apply(lim, r, a), b);
    assert [a, b, c][1..] == [b, c] && [b, c][1..] == [c] && [c][1..] == [];
    assert Execute(lim, r2, [c]) == Apply(lim, r2, c);
    assert Execute(lim, r1, [b, c]) == Execute(lim, r2, [c]);
  }

  lemma TwoPeersAgree(lim: Limits, all: Sockets) returns (two: Room)
    requires lim == Limits(None, false) && all == Sockets({}, {})
    ensures two == Apply(lim, Apply(lim, NEW_ROOM, Add(1, "a", all)), Add(2, "b", all)) && Base(lim, two) && Agrees(two)
    ensures two.peers == map["a" := 1, "b" := 2] && two.failed == {} && two.log.Keys == {1, 2} && two.state == Active
  {
    var one := Apply(lim, NEW_ROOM, Add(1, "a", all));
    ApplyKeepsBase(lim, NEW_ROOM, Add(1, "a", all));
    AgreementKeptIff(lim, NEW_ROOM, Add(1, "a", all));
    FirstPeer(lim, all);
    two := Apply(lim, one, Add(2, "b", all));
    ApplyKeepsBase(lim, one, Add(2, "b", all));
    AgreementKeptIff(lim, one, Add(2, "b", all));
    SecondPeer(lim, all, one);
  }

  lemma LostReconnection(lim: Limits, two: Room, s: Sockets)
    requires Base(lim, two) && Agrees(two) && s == Sockets({3}, {})
    requires two.peers == map["a" := 1, "b" := 2] && two.failed == {} && two.log.Keys == {1, 2} && two.state == Active
    ensures var r := AddPeer(lim, two, 3, "a", s); r.peers == map["b" := 2] && 2 !in r.failed && !Agrees(r)
  {
    LostReconnectionAgreesIff(lim, two, 3, "a", s);
    var r := RolledBackRoom(two, 3, "a", s);
    assert r.peers == map["b" := 2] && r.failed == {3};
    assert r.peers["b"] !in r.failed;
  }

  /** Such a state is reachable: the second of two peers is left believing in the first. */
  lemma LostReconnectionHappens()
    ensures var all := Sockets({}, {});
            var r := Execute(Limits(None, false), NEW_ROOM,
                             [Add(1, "a", all), Add(2, "b", all), Add(3, "a", Sockets({3}, {}))]);
            r.peers == map["b" := 2] && 2 !in r.failed && !Agrees(r)
  {
    var all, lim := Sockets({}, {}), Limits(None, false);
    ExecuteThree(lim, NEW_ROOM, Add(1, "a", all), Add(2, "b", all), Add(3, "a", Sockets({3}, {})));
    var two := TwoPeersAgree(lim, all);
    LostReconnection(lim, two, Sockets({3}, {}));
  }

  // ---- Main results ----

  /** A reconnection whose `room-joined` cannot be sent. */
  predicate LosesReconnecting(lim: Limits, r: Room, step: Step) {
    step.Add? && step.c !in r.log && step.c !in r.failed && step.id in r.peers
    && AdmissionOf(lim, r, step.c, step.id, step.s) == SendThrew
  }

  lemma ApplyKeepsBase(lim: Limits, r: Room, step: Step)
    requires Base(lim, r)
    ensures Base(lim, Apply(lim, r, step))
  {
    match step {
      case Add(c, id, s) =>
        if c !in r.log && c !in r.failed {
          AddKeepsBase(lim, r, c, id, s);
        }
      case Kick(id, s) =>
        if id in r.peers {
          KickKeeps(lim, r, id, s);
        }
      case Remove(id, s) => RemoveKeepsBase(lim, r, id, s);
      case SocketClosed(c, id, s) => RemoveKeepsBase(lim, r, id, s);
      case Expire(s) => ExpireKeeps(lim, r, s);
      case Tell(exclude, s) => TellKeeps(lim, r, exclude, s);
      case TellOne(id, s) =>
        if id in r.peers {
          SendKeeps(lim, r, id, Other, s);
        }
    }
  }

  lemma KickKeeps(lim: Limits, r: Room, id: PeerId, s: Sockets)
    requires Base(lim, r) && id in r.peers
    ensures Base(lim, KickPeer(lim, r, id, s))
    ensures Agrees(r) ==> Agrees(KickPeer(lim, r, id, s))
  {
    var sent := Send(r, r.peers[id], Kicked(id), s);
    SendKeeps(lim, r, id, Kicked(id), s);
    RemoveKeepsBase(lim, sent, id, s);
    if Agrees(r) {
      RemoveKeepsAgreement(lim, sent, id, s);
    }
    CountSnoc(RemovePeer(lim, sent, id, s).events, WasKicked(id));
  }

  /**
   One operation keeps every clean client's roster equal to the server's, unless it is a reconnection whose
   `room-joined` throws: then agreement survives if and only if nobody else was clean before it.
   */
  lemma AgreementKeptIff(lim: Limits, r: Room, step: Step)
    requires Base(lim, r) && Agrees(r)
    ensures Agrees(Apply(lim, r, step)) <==> (LosesReconnecting(lim, r, step) ==> NobodyElseIsClean(r, step.id))
  {
    match step {
      case Add(c, id, s) =>
        if c !in r.log && c !in r.failed {
          AddAgreementIff(lim, r, c, id, s);
        }
      case Kick(id, s) =>
        if id in r.peers {
          KickKeeps(lim, r, id, s);
        }
      case Remove(id, s) => RemoveKeepsAgreement(lim, r, id, s);
      case SocketClosed(c, id, s) => RemoveKeepsAgreement(lim, r, id, s);
      case Expire(s) => ExpireKeeps(lim, r, s);
      case Tell(exclude, s) => TellKeeps(lim, r, exclude, s);
      case TellOne(id, s) =>
        if id in r.peers {
          SendKeeps(lim, r, id, Other, s);
        }
    }
  }

  lemma AddAgreementIff(lim: Limits, r: Room, c: Conn, id: PeerId, s: Sockets)
    requires Base(lim, r) && Agrees(r) && c !in r.log && c !in r.failed
    ensures Agrees(AddPeer(lim, r, c, id, s))
            <==> (AdmissionOf(lim, r, c, id, s) == SendThrew && id in r.peers ==> NobodyElseIsClean(r, id))
  {
    match AdmissionOf(lim, r, c, id, s) {
      case Admitted => AdmittedAgrees(r, c, id, s);
      case Refused =>
      case SendThrew =>
        if id !in r.peers {
          NewcomerFailureAgrees(lim, r, c, id, s);
        } else {
          LostReconnectionAgreesIff(lim, r, c, id, s);
        }
    }
  }

  /** No step of a run is a reconnection whose `room-joined` throws. */
  ghost predicate NoLostReconnection(lim: Limits, r: Room, steps: seq<Step>)
    decreases |steps|
  {
    steps != [] ==> !LosesReconnecting(lim, r, steps[0]) && NoLostReconnection(lim, Apply(lim, r, steps[0]), steps[1..])
  }

  lemma {:induction false} RunKeepsBase(lim: Limits, r: Room, steps: seq<Step>)
    requires Base(lim, r)
    ensures Base(lim, Execute(lim, r, steps))
    decreases |steps|
  {
    if steps != [] {
      ApplyKeepsBase(lim, r, steps[0]);
      RunKeepsBase(lim, Apply(lim, r, steps[0]), steps[1..]);
    }
  }

  lemma {:induction false} RunKeepsAgreement(lim: Limits, r: Room, steps: seq<Step>)
    requires Base(lim, r) && Agrees(r) && NoLostReconnection(lim, r, steps)
    ensures Agrees(Execute(lim, r, steps))
    decreases |steps|
  {
    if steps != [] {
      ApplyKeepsBase(lim, r, steps[0]);
      AgreementKeptIff(lim, r, steps[0]);
      RunKeepsAgreement(lim, Apply(lim, r, steps[0]), steps[1..]);
    }
  }

  /** Over any run without a lost reconnection, each client that missed no message knows exactly the server's peers. */
  lemma ClientsAgreeWithServer(lim: Limits, steps: seq<Step>)
    requires NoLostReconnection(lim, NEW_ROOM, steps)
    ensures Agrees(Execute(lim, NEW_ROOM, steps))
  {
    RunKeepsAgreement(lim, NEW_ROOM, steps);
  }

  function Progress(s: RoomState): nat {
    match s
    case Creating => 0
    case Active => 1
    case Closing => 2
    case Closed => 3
  }

  /**
   Over any run at all: the limit holds, joins minus leaves is the number of peers, the room closes at most once,
   and a closed room is empty.
   */
  lemma RoomLifecycle(lim: Limits, steps: seq<Step>)
    ensures LifeOk(lim, Execute(lim, NEW_ROOM, steps))
  {
    RunKeepsBase(lim, NEW_ROOM, steps);
  }

  lemma StepMovesForward(lim: Limits, r: Room, step: Step)
    ensures Progress(r.state) <= Progress(Apply(lim, r, step).state)
  {
  }

  /** Over any run the state only moves forward ... */
  lemma {:induction false} StateMovesForward(lim: Limits, r: Room, steps: seq<Step>)
    ensures Progress(r.state) <= Progress(Execute(lim, r, steps).state)
    decreases |steps|
  {
    if steps != [] {
      StepMovesForward(lim, r, steps[0]);
      StateMovesForward(lim, Apply(lim, r, steps[0]), steps[1..]);
    }
  }

  lemma ClosedRoomIsInert(lim: Limits, r: Room, step: Step)
    requires r.state == Closed && r.peers == map[]
    ensures var r' := Apply(lim, r, step); r'.state == Closed && r'.peers == map[] && r'.events == r.events
  {
  }

  /** ... and whatever is attempted on a room that closed, nobody joins and nothing is emitted ever again. */
  lemma {:induction false} NobodyJoinsAfterClosing(lim: Limits, steps: seq<Step>, more: seq<Step>)
    requires Execute(lim, NEW_ROOM, steps).state == Closed
    ensures var r, r' := Execute(lim, NEW_ROOM, steps), Execute(lim, Execute(lim, NEW_ROOM, steps), more);
            r'.state == Closed && r'.peers == map[] && r'.events == r.events
  {
    RunKeepsBase(lim, NEW_ROOM, steps);
    StaysClosed(lim, Execute(lim, NEW_ROOM, steps), more);
  }

  lemma {:induction false} StaysClosed(lim: Limits, r: Room, steps: seq<Step>)
    requires r.state == Closed && r.peers == map[]
    ensures var r' := Execute(lim, r, steps); r'.state == Closed && r'.peers == map[] && r'.events == r.events
    decreases |steps|
  {
    if steps != [] {
      ClosedRoomIsInert(lim, r, steps[0]);
      StaysClosed(lim, Apply(lim, r, steps[0]), steps[1..]);
    }
  }
}
