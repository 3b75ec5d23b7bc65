/** Rooms assigned to a primary node and extended by cascade nodes, with the routes that realize them. */
module CascadingRouter {
  import opened Common
  import opened SfuMedia
  import opened SfuCluster
  import opened SfuBridge

  function SetOf(s: seq<Id>): set<Id> {
    set id | id in s
  }

  function Filter(s: seq<Id>, id: Id): (r: seq<Id>)
    ensures forall x :: x in r <==> x in s && x != id
    ensures NoDup(s) ==> NoDup(r)
    ensures id !in s ==> r == s
  {
    if s == [] then []
    else if s[0] == id then Filter(s[1..], id)
    else
      var rest := Filter(s[1..], id);
      assert NoDup(s) ==> s[0] !in rest && NoDup(rest) by {
        if NoDup(s) {
          assert s[0] !in s[1..];
          assert forall i, j :: 0 <= i < j < |s[1..]| ==> s[1..][i] == s[i + 1] && s[1..][j] == s[j + 1];
        }
      }
      assert id !in s ==> s == [s[0]] + s[1..];
      [s[0]] + rest
  }

  function CascadeSet(cascades: map<RoomId, seq<Id>>, room: RoomId): set<Id> {
    if room in cascades then SetOf(cascades[room]) else {}
  }

  /** The cascade nodes of every room, as the bridge tracks them. */
  function CascadeSets(cascades: map<RoomId, seq<Id>>): map<RoomId, set<Id>> {
    map room | room in cascades :: CascadeSet(cascades, room)
  }

  /** What the media plane should route: a room's primary and its cascade nodes. */
  function RouteSets(assignments: map<RoomId, Id>, cascades: map<RoomId, seq<Id>>): map<RoomId, set<Id>> {
    map room | room in assignments :: {assignments[room]} + CascadeSet(cascades, room)
  }

  /** Cascade nodes are distinct, differ from the primary, and exist only for assigned rooms. */
  ghost predicate CascadesOk(assignments: map<RoomId, Id>, cascades: map<RoomId, seq<Id>>) {
    forall room :: room in cascades ==>
      room in assignments && cascades[room] != [] && NoDup(cascades[room]) && assignments[room] !in cascades[room]
  }

  class CascadingRouter {
    const bridge: SfuBridge
    const tracker: NodeFailureTracker
    var assignments: map<RoomId, Id>
    var cascades: map<RoomId, seq<Id>>

    /** With the bridge attached from the start, routes are always the primary and the cascade nodes. */
    ghost predicate InSync() reads this, bridge, bridge.media {
      bridge.attached ==>
        && bridge.assignedRooms == assignments.Keys
        && bridge.cascadeRoutes == CascadeSets(cascades)
        && bridge.media.routes == RouteSets(assignments, cascades)
    }

    ghost predicate Valid() reads this, bridge, bridge.media {
      bridge.media.Valid() && NoEmpty(bridge.cascadeRoutes) && InSync() && CascadesOk(assignments, cascades)
    }

    constructor (bridge: SfuBridge, tracker: NodeFailureTracker)
      requires bridge.Valid() && bridge.assignedRooms == {} && bridge.cascadeRoutes == map[]
               && bridge.media.routes == map[]
      ensures Valid() && this.bridge == bridge && this.tracker == tracker && assignments == map[] && cascades == map[]
    {
      this.bridge, this.tracker := bridge, tracker;
      assignments, cascades := map[], map[];
    }

    /** `choice` is what the placement strategy picked among the active nodes; None when there are none. */
    method AttachRoom(room: RoomId, choice: Option<Id>) returns (r: Option<Id>)
      requires Valid()
      modifies this, bridge`assignedRooms, bridge`cascadeRoutes, bridge.media`routes
      ensures Valid() && r == choice
      ensures choice.None? ==> assignments == old(assignments) && cascades == old(cascades)
      ensures choice.Some? && room !in old(assignments) ==>
                assignments == old(assignments)[room := choice.value] && cascades == old(cascades)
      ensures choice.Some? && room in old(assignments) ==>
                && assignments == old(assignments)
                && var had := if room in old(cascades) then old(cascades)[room] else [];
                   cascades == if choice.value == assignments[room] || choice.value in had then old(cascades)
                               else old(cascades)[room := had + [choice.value]]
    {
      if choice.None? {
        return None;
      }
      var node := choice.value;
      if room in assignments {
        if assignments[room] != node {
          var links := if room in cascades then cascades[room] else [];
          if node !in links {
            Extend(room, links, node);
          }
        }
        return choice;
      }
      Assign(room, node);
      return choice;
    }

    method Extend(room: RoomId, links: seq<Id>, node: Id)
      requires Valid() && room in assignments && assignments[room] != node && node !in links
      requires links == if room in cascades then cascades[room] else []
      modifies `cascades, bridge`cascadeRoutes, bridge.media`routes
      ensures Valid() && cascades == old(cascades)[room := links + [node]]
    {
      Extended(assignments, cascades, room, node);
      cascades := cascades[room := links + [node]];
      if bridge.attached {
        bridge.OnCascadeCreated(room, node);
      }
    }

    method Assign(room: RoomId, node: Id)
      requires Valid() && room !in assignments
      modifies `assignments, bridge`assignedRooms, bridge.media`routes
      ensures Valid() && assignments == old(assignments)[room := node]
    {
      Assigned(assignments, cascades, room, node);
      assignments := assignments[room := node];
      if bridge.attached {
        bridge.OnRoomAssigned(room, node);
      }
    }

    method DetachRoom(room: RoomId) returns (had: bool)
      requires Valid()
      modifies this, bridge`assignedRooms, bridge`cascadeRoutes, bridge.media`routes
      ensures Valid() && had == (room in old(assignments))
      ensures assignments == old(assignments) - {room} && cascades == old(cascades) - {room}
    {
      if room !in assignments {
        assert assignments == assignments - {room} && cascades == cascades - {room};
        return false;
      }
      Released(assignments, cascades, room);
      assignments := assignments - {room};
      cascades := cascades - {room};
      if bridge.attached {
        bridge.OnRoomDetached(room);
      }
      return true;
    }

    // ---- A lost node ----

    /** Announces the cascade nodes of a released room one by one; only that room's routes are touched. */
    method AnnounceDropped(room: RoomId, nodes: seq<Id>)
      requires bridge.media.Valid() && NoEmpty(bridge.cascadeRoutes)
      modifies bridge`cascadeRoutes, bridge.media`routes
      ensures bridge.media.Valid() && NoEmpty(bridge.cascadeRoutes)
      ensures bridge.media.routes - {room} == old(bridge.media.routes) - {room}
      ensures bridge.cascadeRoutes - {room} == old(bridge.cascadeRoutes) - {room}
    {
      for i := 0 to |nodes|
        invariant bridge.media.Valid() && NoEmpty(bridge.cascadeRoutes)
        invariant bridge.media.routes - {room} == old(bridge.media.routes) - {room}
        invariant bridge.cascadeRoutes - {room} == old(bridge.cascadeRoutes) - {room}
      {
        if bridge.attached {
          bridge.OnCascadeDropped(room, nodes[i]);
        }
      }
    }

    method ReleaseRoom(room: RoomId)
      requires Valid() && room in assignments
      modifies this, bridge`assignedRooms, bridge`cascadeRoutes, bridge.media`routes
      ensures Valid() && assignments == old(assignments) - {room} && cascades == old(cascades) - {room}
    {
      Released(assignments, cascades, room);
      var nodes := if room in cascades then cascades[room] else [];
      assignments := assignments - {room};
      AnnounceDropped(room, nodes);
      cascades := cascades - {room};
      if bridge.attached {
        bridge.OnRoomDetached(room);
      }
    }

    method DropCascade(room: RoomId, node: Id)
      requires Valid() && room in cascades && node in cascades[room]
      modifies this, bridge`cascadeRoutes, bridge.media`routes
      ensures Valid() && assignments == old(assignments)
      ensures var rest := Filter(old(cascades)[room], node);
              cascades == if rest == [] then old(cascades) - {room} else old(cascades)[room := rest]
    {
      var rest := Filter(cascades[room], node);
      Dropped(assignments, cascades, room, node);
      if bridge.attached {
        bridge.OnCascadeDropped(room, node);
      }
      if rest == [] {
        cascades := cascades - {room};
      } else {
        cascades := cascades[room := rest];
      }
    }

    /** Every room whose primary was the lost node is released; the others are untouched. */
    method ReleaseRoomsOf(node: Id)
      requires Valid()
      modifies this, bridge`assignedRooms, bridge`cascadeRoutes, bridge.media`routes
      ensures Valid()
      ensures forall room :: room in assignments <==> room in old(assignments) && old(assignments)[room] != node
      ensures forall room :: room in assignments ==> assignments[room] == old(assignments)[room]
      ensures forall room :: room in cascades <==> room in old(cascades) && room in assignments
      ensures forall room :: room in cascades ==> cascades[room] == old(cascades)[room]
    {
      var todo := assignments.Keys;
      while todo != {}
        invariant Valid() && todo <= old(assignments).Keys
        invariant forall room :: room in assignments <==>
                    room in old(assignments) && (room in todo || old(assignments)[room] != node)
        invariant forall room :: room in assignments ==> assignments[room] == old(assignments)[room]
        invariant forall room :: room in cascades <==> room in old(cascades) && room in assignments
        invariant forall room :: room in cascades ==> cascades[room] == old(cascades)[room]
      {
        var room :| room in todo;
        if assignments[room] == node {
          ReleaseRoom(room);
        }
        todo := todo - {room};
      }
    }

    /** The lost node leaves every room's cascade nodes. */
    method DropCascadesOf(node: Id)
      requires Valid()
      modifies this, bridge`cascadeRoutes, bridge.media`routes
      ensures Valid() && assignments == old(assignments)
      ensures forall room :: room in cascades <==> room in old(cascades) && Filter(old(cascades)[room], node) != []
      ensures forall room :: room in cascades ==> cascades[room] == Filter(old(cascades)[room], node)
    {
      var todo := cascades.Keys;
      while todo != {}
        invariant Valid() && todo <= old(cascades).Keys && assignments == old(assignments)
        invariant forall room :: room in cascades <==>
                    room in old(cascades) && (room in todo || Filter(old(cascades)[room], node) != [])
        invariant forall room :: room in cascades ==>
                    cascades[room] == if room in todo then old(cascades)[room] else Filter(old(cascades)[room], node)
      {
        var room :| room in todo;
        if node in cascades[room] {
          DropCascade(room, node);
        }
        todo := todo - {room};
      }
    }

    /**
     Afterwards the node is neither the primary nor a cascade node of any room; rooms it did not serve are untouched.
     */
    method HandleNodeGone(node: Id)
      requires Valid()
      modifies this, bridge`assignedRooms, bridge`cascadeRoutes, bridge.media`routes
      ensures Valid()
      ensures forall room :: room in assignments <==> room in old(assignments) && old(assignments)[room] != node
      ensures forall room :: room in assignments ==> assignments[room] == old(assignments)[room]
      ensures forall room :: room in cascades <==>
                room in old(cascades) && room in assignments && Filter(old(cascades)[room], node) != []
      ensures forall room :: room in cascades ==> cascades[room] == Filter(old(cascades)[room], node)
    {
      ReleaseRoomsOf(node);
      DropCascadesOf(node);
    }
  }

  // ---- How one change of the router moves what the bridge and the media plane should hold ----

  lemma Assigned(assignments: map<RoomId, Id>, cascades: map<RoomId, seq<Id>>, room: RoomId, node: Id)
    requires CascadesOk(assignments, cascades) && room !in assignments
    ensures CascadesOk(assignments[room := node], cascades)
    ensures var routes := RouteSets(assignments, cascades);
            RouteSets(assignments[room := node], cascades) == With(routes, room, Get(routes, room) + {node})
  {
    assert room !in cascades;
    assert RouteSets(assignments[room := node], cascades)[room] == Get(RouteSets(assignments, cascades), room) + {node};
  }

  lemma Extended(assignments: map<RoomId, Id>, cascades: map<RoomId, seq<Id>>, room: RoomId, node: Id)
    requires CascadesOk(assignments, cascades) && room in assignments && node != assignments[room]
    requires room in cascades ==> node !in cascades[room]
    ensures var had := if room in cascades then cascades[room] else [];
            CascadesOk(assignments, cascades[room := had + [node]])
            && Gains(assignments, cascades, cascades[room := had + [node]], room, node)
  {
    var had := if room in cascades then cascades[room] else [];
    var cascades' := cascades[room := had + [node]];
    assert CascadeSet(cascades', room) == CascadeSet(cascades, room) + {node};
    MovesAt(assignments, cascades, cascades', room, {node}, {});
    GainsFromMoves(assignments, cascades, cascades', room, node);
  }

  /** Routes and tracked cascade nodes of one room gain `add` and lose `drop`. */
  ghost predicate MovesBy(a: map<RoomId, Id>, c: map<RoomId, seq<Id>>, c': map<RoomId, seq<Id>>, room: RoomId,
                          add: set<Id>, drop: set<Id>) {
    var routes, sets := RouteSets(a, c), CascadeSets(c);
    && RouteSets(a, c') == With(routes, room, Get(routes, room) + add - drop)
    && CascadeSets(c') == With(sets, room, Get(sets, room) + add - drop)
  }

  ghost predicate Gains(a: map<RoomId, Id>, c: map<RoomId, seq<Id>>, c': map<RoomId, seq<Id>>, room: RoomId, node: Id) {
    && RouteSets(a, c') == With(RouteSets(a, c), room, Get(RouteSets(a, c), room) + {node})
    && CascadeSets(c') == With(CascadeSets(c), room, Get(CascadeSets(c), room) + {node})
  }

  ghost predicate Loses(a: map<RoomId, Id>, c: map<RoomId, seq<Id>>, c': map<RoomId, seq<Id>>, room: RoomId, node: Id) {
    && RouteSets(a, c') == With(RouteSets(a, c), room, Get(RouteSets(a, c), room) - {node})
    && CascadeSets(c') == With(CascadeSets(c), room, Get(CascadeSets(c), room) - {node})
  }

  lemma GainsFromMoves(a: map<RoomId, Id>, c: map<RoomId, seq<Id>>, c': map<RoomId, seq<Id>>, room: RoomId, node: Id)
    requires MovesBy(a, c, c', room, {node}, {})
    ensures Gains(a, c, c', room, node)
  {
    assert Get(RouteSets(a, c), room) + {node} - {} == Get(RouteSets(a, c), room) + {node};
    assert Get(CascadeSets(c), room) + {node} - {} == Get(CascadeSets(c), room) + {node};
  }

  lemma LosesFromMoves(a: map<RoomId, Id>, c: map<RoomId, seq<Id>>, c': map<RoomId, seq<Id>>, room: RoomId, node: Id)
    requires MovesBy(a, c, c', room, {}, {node})
    ensures Loses(a, c, c', room, node)
  {
    assert Get(RouteSets(a, c), room) + {} - {node} == Get(RouteSets(a, c), room) - {node};
    assert Get(CascadeSets(c), room) + {} - {node} == Get(CascadeSets(c), room) - {node};
  }

  lemma OnlyHere(c: map<RoomId, seq<Id>>, c': map<RoomId, seq<Id>>, room: RoomId, r: RoomId)
    requires c' - {room} == c - {room} && r != room
    ensures (r in c' <==> r in c) && CascadeSet(c', r) == CascadeSet(c, r)
  {
    assert r in c' - {room} <==> r in c - {room};
    if r in c {
      assert (c' - {room})[r] == (c - {room})[r];
    }
  }

  lemma MovesAt(a: map<RoomId, Id>, c: map<RoomId, seq<Id>>, c': map<RoomId, seq<Id>>, room: RoomId, add: set<Id>,
                drop: set<Id>)
    requires room in a && a[room] !in drop
    requires c' - {room} == c - {room} && (room in c' <==> CascadeSet(c', room) != {})
    requires CascadeSet(c', room) == CascadeSet(c, room) + add - drop
    ensures MovesBy(a, c, c', room, add, drop)
  {
    RoutesMove(a, c, c', room, add, drop);
    SetsMove(c, c', room, add, drop);
  }

  lemma RoutesMove(a: map<RoomId, Id>, c: map<RoomId, seq<Id>>, c': map<RoomId, seq<Id>>, room: RoomId, add: set<Id>,
                   drop: set<Id>)
    requires room in a && a[room] !in drop
    requires c' - {room} == c - {room}
    requires CascadeSet(c', room) == CascadeSet(c, room) + add - drop
    ensures RouteSets(a, c') == With(RouteSets(a, c), room, Get(RouteSets(a, c), room) + add - drop)
  {
    var before, after := RouteSets(a, c), RouteSets(a, c');
    var s := Get(before, room) + add - drop;
    PrimaryStays(a[room], CascadeSet(c, room), add, drop);
    forall r | r in a
      ensures after[r] == if r == room then s else before[r]
    {
      if r != room {
        OnlyHere(c, c', room, r);
      }
    }
    MapsAgree(after, before[room := s]);
  }

  lemma PrimaryStays(primary: Id, s: set<Id>, add: set<Id>, drop: set<Id>)
    requires primary !in drop
    ensures {primary} + (s + add - drop) == ({primary} + s) + add - drop
  {
  }

  lemma MapsAgree(m: map<RoomId, set<Id>>, m': map<RoomId, set<Id>>)
    requires m.Keys == m'.Keys && forall r :: r in m ==> m[r] == m'[r]
    ensures m == m'
  {
  }

  lemma SetsMove(c: map<RoomId, seq<Id>>, c': map<RoomId, seq<Id>>, room: RoomId, add: set<Id>, drop: set<Id>)
    requires c' - {room} == c - {room} && (room in c' <==> CascadeSet(c', room) != {})
    requires CascadeSet(c', room) == CascadeSet(c, room) + add - drop
    ensures CascadeSets(c') == With(CascadeSets(c), room, Get(CascadeSets(c), room) + add - drop)
  {
    forall r | r != room ensures (r in c' <==> r in c) && CascadeSet(c', r) == CascadeSet(c, r) {
      OnlyHere(c, c', room, r);
    }
    assert Get(CascadeSets(c), room) == CascadeSet(c, room);
  }

  lemma Released(assignments: map<RoomId, Id>, cascades: map<RoomId, seq<Id>>, room: RoomId)
    requires CascadesOk(assignments, cascades) && room in assignments
    ensures CascadesOk(assignments - {room}, cascades - {room})
    ensures RouteSets(assignments - {room}, cascades - {room}) == RouteSets(assignments, cascades) - {room}
    ensures CascadeSets(cascades - {room}) == CascadeSets(cascades) - {room}
  {
  }

  lemma Dropped(assignments: map<RoomId, Id>, cascades: map<RoomId, seq<Id>>, room: RoomId, node: Id)
    requires CascadesOk(assignments, cascades) && room in cascades && node in cascades[room]
    ensures var rest := Filter(cascades[room], node);
            var cascades' := if rest == [] then cascades - {room} else cascades[room := rest];
            CascadesOk(assignments, cascades') && Loses(assignments, cascades, cascades', room, node)
  {
    var rest := Filter(cascades[room], node);
    var cascades' := if rest == [] then cascades - {room} else cascades[room := rest];
    assert SetOf(rest) == SetOf(cascades[room]) - {node};
    if rest != [] {
      assert rest[0] in SetOf(rest);
    }
    MovesAt(assignments, cascades, cascades', room, {}, {node});
    LosesFromMoves(assignments, cascades, cascades', room, node);
  }
}
