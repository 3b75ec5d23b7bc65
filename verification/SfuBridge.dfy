/** Realizes a router's room and cascade events as routes on the media plane. */
module SfuBridge {
  import opened Common
  import opened SfuMedia
  import opened SfuCluster

  lemma NothingLeft(routes: map<RoomId, set<Id>>)
    requires NoEmpty(routes) && forall room :: Get(routes, room) == {}
    ensures routes == map[]
  {
    assert forall room :: room in routes ==> Get(routes, room) == routes[room];
  }

  class SfuBridge {
    const media: ReferenceSfuMedia
    var attached: bool
    var assignedRooms: set<RoomId>
    var cascadeRoutes: map<RoomId, set<Id>>

    ghost predicate Valid() reads this, media {
      media.Valid() && NoEmpty(cascadeRoutes) && (attached ==> cascadeRoutes.Keys <= assignedRooms == media.routes.Keys)
    }

    constructor (media: ReferenceSfuMedia)
      requires media.Valid()
      ensures Valid() && this.media == media && !attached && assignedRooms == {} && cascadeRoutes == map[]
    {
      this.media := media;
      attached, assignedRooms, cascadeRoutes := false, {}, map[];
    }

    method OnRoomAssigned(room: RoomId, node: Id)
      requires media.Valid()
      modifies `assignedRooms, media`routes
      ensures media.Valid() && assignedRooms == old(assignedRooms) + {room}
      ensures media.routes == With(old(media.routes), room, Get(old(media.routes), room) + {node})
    {
      assignedRooms := assignedRooms + {room};
      media.AddRoute(room, node);
    }

    method OnCascadeCreated(room: RoomId, to: Id)
      requires media.Valid()
      modifies `cascadeRoutes, media`routes
      ensures media.Valid() && cascadeRoutes == With(old(cascadeRoutes), room, Get(old(cascadeRoutes), room) + {to})
      ensures old(NoEmpty(cascadeRoutes)) ==> NoEmpty(cascadeRoutes)
      ensures media.routes == With(old(media.routes), room, Get(old(media.routes), room) + {to})
    {
      var nodes := if room in cascadeRoutes then cascadeRoutes[room] else {};
      cascadeRoutes := cascadeRoutes[room := nodes + {to}];
      media.AddRoute(room, to);
    }

    method OnRoomDetached(room: RoomId)
      requires media.Valid()
      modifies `assignedRooms, `cascadeRoutes, media`routes
      ensures media.Valid() && assignedRooms == old(assignedRooms) - {room}
              && cascadeRoutes == old(cascadeRoutes) - {room}
      ensures media.routes == old(media.routes) - {room}
    {
      assignedRooms := assignedRooms - {room};
      cascadeRoutes := cascadeRoutes - {room};
      media.RemoveRoute(room);
    }

    method OnCascadeDropped(room: RoomId, node: Id)
      requires media.Valid() && NoEmpty(cascadeRoutes)
      modifies `cascadeRoutes, media`routes
      ensures media.Valid() && cascadeRoutes == With(old(cascadeRoutes), room, Get(old(cascadeRoutes), room) - {node})
      ensures NoEmpty(cascadeRoutes)
      ensures media.routes == With(old(media.routes), room, Get(old(media.routes), room) - {node})
    {
      if room in cascadeRoutes {
        var rest := cascadeRoutes[room] - {node};
        cascadeRoutes := cascadeRoutes[room := rest];
        if rest == {} {
          cascadeRoutes := cascadeRoutes - {room};
        }
      }
      media.RemoveCascadeRoute(room, node);
    }

    method Attach()
      requires media.Valid() && NoEmpty(cascadeRoutes) && cascadeRoutes.Keys <= assignedRooms == media.routes.Keys
      modifies `attached
      ensures Valid() && attached
    {
      attached := true;
    }

    /** The routes of `room` after everything this bridge set up is taken down. */
    ghost function LeftOver(routes: map<RoomId, set<Id>>, room: RoomId): set<Id> reads this {
      if room in assignedRooms then {} else Get(routes, room) - Get(cascadeRoutes, room)
    }

    /** Takes down all it set up; a bridge that saw everything leaves the media plane clean. */
    method Detach()
      requires media.Valid() && NoEmpty(cascadeRoutes)
      modifies this, media`routes
      ensures media.Valid() && !attached && (old(Valid()) ==> Valid())
      ensures !old(attached) ==> media.routes == old(media.routes)
      ensures old(attached) ==> assignedRooms == {} && cascadeRoutes == map[]
      ensures old(attached) ==> forall room :: Get(media.routes, room) == old(LeftOver(media.routes, room))
      ensures old(attached) && old(Valid()) ==> media.routes == map[]
    {
      if !attached {
        return;
      }
      attached := false;
      DropAssigned();
      DropCascaded();
      if old(Valid()) {
        NothingLeft(media.routes);
      }
      assignedRooms, cascadeRoutes := {}, map[];
    }

    method DropAssigned()
      requires media.Valid()
      modifies media`routes
      ensures media.Valid() && media.routes == old(media.routes) - assignedRooms
    {
      var todo := assignedRooms;
      while todo != {}
        invariant media.Valid() && todo <= assignedRooms
        invariant media.routes == old(media.routes) - (assignedRooms - todo)
      {
        var room :| room in todo;
        media.RemoveRoute(room);
        todo := todo - {room};
      }
    }

    /** Removing a whole room already covers its cascade nodes, so only rooms without a primary are left. */
    method DropCascaded()
      requires media.Valid()
      modifies media`routes
      ensures media.Valid()
      ensures forall room :: Get(media.routes, room) ==
                if room in assignedRooms then Get(old(media.routes), room)
                else Get(old(media.routes), room) - Get(cascadeRoutes, room)
    {
      var rooms := cascadeRoutes.Keys;
      while rooms != {}
        invariant media.Valid() && rooms <= cascadeRoutes.Keys
        invariant forall room :: Get(media.routes, room) ==
                    if room in rooms || room in assignedRooms then Get(old(media.routes), room)
                    else Get(old(media.routes), room) - Get(cascadeRoutes, room)
      {
        var room :| room in rooms;
        if room !in assignedRooms {
          DropAll(room, cascadeRoutes[room]);
        }
        rooms := rooms - {room};
      }
    }

    method DropAll(room: RoomId, nodes: set<Id>)
      requires media.Valid()
      modifies media`routes
      ensures media.Valid() && media.routes == With(old(media.routes), room, Get(old(media.routes), room) - nodes)
    {
      var todo := nodes;
      WithGet(media.routes, room);
      assert Get(media.routes, room) - (nodes - todo) == Get(media.routes, room);
      while todo != {}
        invariant media.Valid() && todo <= nodes
        invariant media.routes == With(old(media.routes), room, Get(old(media.routes), room) - (nodes - todo))
      {
        var node :| node in todo;
        media.RemoveCascadeRoute(room, node);
        WithWith(old(media.routes), room, Get(old(media.routes), room) - (nodes - todo),
                 Get(old(media.routes), room) - (nodes - todo) - {node});
        assert (nodes - todo) + {node} == nodes - (todo - {node});
        assert Get(old(media.routes), room) - (nodes - todo) - {node}
               == Get(old(media.routes), room) - ((nodes - todo) + {node});
        todo := todo - {node};
      }
      assert nodes - todo == nodes;
    }
  }
}
