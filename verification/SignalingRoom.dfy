/** The signaling room as the object it is, and the SDK's room that replicates its roster. */
module SignalingRoom {
  import opened Common
  import opened RoomSpec

  class SignalingRoom {
    const lim: Limits
    var state: RoomState
    var peers: map<PeerId, Conn>
    ghost var log: map<Conn, seq<ServerMessage>>
    ghost var failed: set<Conn>
    ghost var events: seq<RoomEvent>

    ghost function View(): Room reads this {
      Room(state, peers, log, failed, events)
    }

    /** Every peer has a connection of its own. */
    ghost predicate DistinctConns() reads this {
      forall a, b :: a in peers && b in peers && a != b ==> peers[a] != peers[b]
    }

    constructor (lim: Limits)
      ensures this.lim == lim && View() == NEW_ROOM
    {
      this.lim := lim;
      state, peers, log, failed, events := Creating, map[], map[], {}, [];
    }

    method TransitionTo(next: RoomState) returns (moved: bool)
      modifies `state
      ensures moved == Legal(old(state), next) && View() == RoomSpec.TransitionTo(old(View()), next)
    {
      if state == next {
        return false;
      }
      if !Legal(state, next) {
        return false;
      }
      state := next;
      return true;
    }

    ghost method Emit(e: RoomEvent)
      modifies `events
      ensures View() == RoomSpec.Emit(old(View()), e)
    {
      events := events + [e];
    }

    /** `peer.send`: throws when the socket is closed, silently drops under back-pressure. */
    method Send(c: Conn, m: ServerMessage, s: Sockets) returns (threw: bool)
      modifies `log, `failed
      ensures threw == (c in s.throws) && View() == RoomSpec.Send(old(View()), c, m, s)
    {
      if c in s.throws {
        failed := failed + {c};
        return true;
      }
      if c in s.drops {
        failed := failed + {c};
        return false;
      }
      log := log[c := (if c in log then log[c] else []) + [m]];
      return false;
    }

    method SendToAll(m: ServerMessage, exclude: Option<PeerId>, s: Sockets)
      requires DistinctConns()
      modifies `log, `failed
      ensures View() == RoomSpec.SendToAll(old(View()), m, exclude, s)
    {
      var todo := peers.Keys;
      ghost var done: set<Conn> := {};
      SendToNobody(View(), m, s);
      while todo != {}
        invariant todo <= peers.Keys && state == old(state) && peers == old(peers) && events == old(events)
        invariant done == set id | id in peers && id !in todo && exclude != Some(id) :: peers[id]
        invariant View() == SendToConns(old(View()), done, m, s)
      {
        var id :| id in todo;
        if exclude != Some(id) {
          SendToOneMore(old(View()), done, peers[id], m, s);
          var _ := Send(peers[id], m, s);
          done := done + {peers[id]};
        }
        todo := todo - {id};
      }
      assert done == Audience(peers, exclude);
    }

    method AddPeer(c: Conn, id: PeerId, s: Sockets) returns (admission: Admission)
      requires DistinctConns()
      requires forall k :: k in peers ==> peers[k] != c
      modifies this
      ensures admission == AdmissionOf(lim, old(View()), c, id, s)
              && View() == RoomSpec.AddPeer(lim, old(View()), c, id, s)
    {
      if state == Closing || state == Closed {
        return Refused;
      }
      var existing := id in peers;
      if !existing && lim.maxPeers.Some? && |peers| >= lim.maxPeers.value {
        return Refused;
      }
      if existing {
        Emit(Left(peers[id]));
      }
      var others := peers.Keys - {id};
      peers := peers[id := c];
      var threw := Send(c, RoomJoined(id, others), s);
      if threw {
        peers := peers - {id};
        return SendThrew;
      }
      if !existing {
        SendToAll(PeerJoined(id), Some(id), s);
        SendToAll(PresenceOnline(id), Some(id), s);
      }
      var _ := TransitionTo(Active);
      Emit(Joined(c));
      return Admitted;
    }

    method RemovePeer(id: PeerId, s: Sockets)
      requires DistinctConns()
      modifies this
      ensures View() == RoomSpec.RemovePeer(lim, old(View()), id, s)
    {
      if id !in peers {
        return;
      }
      ghost var c := peers[id];
      peers := peers - {id};
      if |peers| == 0 && !lim.keepAliveOnEmpty {
        var _ := TransitionTo(Closing);
        Emit(Left(c));
        var _ := TransitionTo(Closed);
        Emit(RoomClosed);
      } else {
        SendToAll(PeerLeft(id), Some(id), s);
        SendToAll(PresenceOffline(id), Some(id), s);
        Emit(Left(c));
      }
    }

    method KickPeer(id: PeerId, s: Sockets) returns (found: bool)
      requires DistinctConns()
      modifies this
      ensures found == (id in old(peers)) && View() == RoomSpec.KickPeer(lim, old(View()), id, s)
    {
      if id !in peers {
        return false;
      }
      var _ := Send(peers[id], Kicked(id), s);
      RemovePeer(id, s);
      Emit(WasKicked(id));
      return true;
    }

    /** The `disconnected` listener of connection `c`. */
    method OnDisconnected(c: Conn, id: PeerId, s: Sockets)
      requires DistinctConns()
      modifies this
      ensures View() == Disconnected(lim, old(View()), c, id, s)
    {
      if id in peers && peers[id] == c {
        RemovePeer(id, s);
      }
    }

    method ForceClose(s: Sockets)
      requires DistinctConns()
      modifies this
      ensures View() == RoomSpec.ForceClose(old(View()), s)
    {
      if state != Active && state != Creating {
        return;
      }
      var _ := TransitionTo(Closing);
      SendToAll(Other, None, s);
      ghost var gone := Departures(Audience(peers, None));
      peers := map[];
      events := events + gone;
      var _ := TransitionTo(Closed);
      Emit(RoomClosed);
    }
  }

  lemma SendToNobody(r: Room, m: ServerMessage, s: Sockets)
    ensures SendToConns(r, {}, m, s) == r
  {
    assert forall c :: c in r.log ==> r.log[c] + [] == r.log[c];
  }

  lemma SendToOneMore(r: Room, conns: set<Conn>, c: Conn, m: ServerMessage, s: Sockets)
    requires c !in conns
    ensures SendToConns(r, conns + {c}, m, s) == Send(SendToConns(r, conns, m, s), c, m, s)
  {
    var one := Send(SendToConns(r, conns, m, s), c, m, s);
    var all := SendToConns(r, conns + {c}, m, s);
    assert all.failed == one.failed;
    assert all.log.Keys == one.log.Keys;
    forall d | d in all.log
      ensures all.log[d] == one.log[d]
    {
      if d == c && c in r.log {
        assert r.log[c] + [] == r.log[c];
      }
    }
    assert all.log == one.log;
  }

  // ---- The replica ----

  /** The SDK's room: created from the first `room-joined`, refreshed by later ones. */
  class SdkRoom {
    var joined: bool
    var peers: set<PeerId>

    function View(): ClientRoom reads this {
      if joined then InRoom(peers) else NoRoom
    }

    constructor ()
      ensures View() == NoRoom
    {
      joined, peers := false, {};
    }

    method HandleMessage(m: ServerMessage)
      modifies this
      ensures View() == Handle(old(View()), m)
    {
      match m {
        case RoomJoined(self, others) => Refresh(self, others);
        case PeerJoined(id) =>
          if joined {
            peers := peers + {id};
          }
        case PeerLeft(id) =>
          if joined {
            peers := peers - {id};
          }
        case _ =>
      }
    }

    method Refresh(self: PeerId, others: set<PeerId>)
      modifies this
      ensures View() == InRoom({self} + others)
    {
      joined := true;
      peers := {};
      SeedPeers(self, others);
    }

    method SeedPeers(self: PeerId, others: set<PeerId>)
      modifies `peers
      ensures peers == old(peers) + {self} + others
    {
      peers := peers + {self};
      var todo := others;
      while todo != {}
        invariant todo <= others && peers == old(peers) + {self} + (others - todo)
      {
        var p :| p in todo;
        peers := peers + {p};
        todo := todo - {p};
      }
    }

    /** Handling messages in order, as buffered ones are after the handshake. */
    method Replay(log: seq<ServerMessage>)
      requires View() == NoRoom
      modifies this
      ensures View() == Fold(log)
    {
      for i := 0 to |log|
        invariant View() == Fold(log[..i])
      {
        HandleMessage(log[i]);
        assert log[..i + 1][..i] == log[..i];
      }
      assert log[..|log|] == log;
    }
  }
}
