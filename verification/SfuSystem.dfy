/**
 The control plane wired together: the cluster's events reach the failure trackers of the tree and of the router,
 and their events reach the media plane through the two bridges.
 */
module SfuSystem {
  import opened Common
  import opened CascadePlan
  import opened SfuMedia
  import opened SfuCluster
  import CascadeBridge
  import opened CascadeTree
  import SfuBridge
  import opened CascadingRouter

  /** The node is registered and has not failed, or was removed while draining, which keeps what it serves. */
  ghost predicate InService(nodes: map<Id, NodeState>, drained: set<Id>, id: Id) {
    (id in nodes && !nodes[id].failed) || id in drained
  }

  /** Every primary and every cascade node is in service. */
  ghost predicate RoomsServed(nodes: map<Id, NodeState>, drained: set<Id>, assignments: map<RoomId, Id>,
                              cascades: map<RoomId, seq<Id>>) {
    && (forall room :: room in assignments ==> InService(nodes, drained, assignments[room]))
    && (forall room, id :: room in cascades && id in cascades[room] ==> InService(nodes, drained, id))
  }

  /** Every relay and edge of the plan is in service; the origin may be down. */
  ghost predicate PlanServed(nodes: map<Id, NodeState>, drained: set<Id>, tree: RoomTree) {
    forall id :: TakesPart(tree.plan, id) && id != tree.originId ==> InService(nodes, drained, id)
  }

  ghost predicate TreesServed(nodes: map<Id, NodeState>, drained: set<Id>, rooms: map<RoomId, RoomTree>) {
    forall room :: room in rooms ==> PlanServed(nodes, drained, rooms[room])
  }

  /** A tree whose bridge is attached before the first build. */
  method WireTree(media: ReferenceSfuMedia, fanout: int, viewersPerNode: int)
    returns (cluster: SfuCluster, bridge: CascadeBridge.CascadeBridge, tracker: NodeFailureTracker, tree: CascadeTree)
    requires media.Valid() && media.links == map[] && fanout >= 1 && viewersPerNode >= 1
    ensures fresh(cluster) && fresh(bridge) && fresh(tracker) && fresh(tree)
    ensures tree.cluster == cluster && tree.bridge == bridge && tree.tracker == tracker && bridge.media == media
    ensures tree.Valid() && bridge.attached && tree.rooms == map[] && cluster.nodes == map[] && tracker.Watches(map[])
  {
    cluster := new SfuCluster();
    bridge := new CascadeBridge.CascadeBridge(media);
    tracker := new NodeFailureTracker();
    tree := new CascadeTree(cluster, bridge, tracker, fanout, viewersPerNode);
    bridge.Attach();
  }

  /** A router whose bridge is attached from the start. */
  method WireRouter(media: ReferenceSfuMedia)
    returns (bridge: SfuBridge.SfuBridge, tracker: NodeFailureTracker, router: CascadingRouter)
    requires media.Valid() && media.routes == map[]
    ensures fresh(bridge) && fresh(tracker) && fresh(router)
    ensures router.bridge == bridge && router.tracker == tracker && bridge.media == media
    ensures router.Valid() && bridge.attached && router.assignments == map[] && router.cascades == map[]
    ensures tracker.Watches(map[])
  {
    bridge := new SfuBridge.SfuBridge(media);
    tracker := new NodeFailureTracker();
    router := new CascadingRouter(bridge, tracker);
    bridge.Attach();
  }

  class Sfu {
    const cluster: SfuCluster
    const media: ReferenceSfuMedia
    const cascadeBridge: CascadeBridge.CascadeBridge
    const treeTracker: NodeFailureTracker
    const tree: CascadeTree
    const sfuBridge: SfuBridge.SfuBridge
    const routerTracker: NodeFailureTracker
    const router: CascadingRouter
    /** The nodes removed while draining and not added again. */
    ghost var drained: set<Id>

    /**
     What holds after every operation, in every run: links and routes on the media plane are those the tree and the
     router ask for, and whoever relays, serves viewers or serves a room is in service.
     */
    ghost predicate Valid()
      reads this, cluster, media, cascadeBridge, treeTracker, tree, sfuBridge, routerTracker, router
    {
      && tree.cluster == cluster && tree.bridge == cascadeBridge && tree.tracker == treeTracker
      && cascadeBridge.media == media && sfuBridge.media == media
      && router.bridge == sfuBridge && router.tracker == routerTracker && treeTracker != routerTracker
      && tree.Valid() && router.Valid()
      && treeTracker.Watches(cluster.nodes) && routerTracker.Watches(cluster.nodes)
      && drained !! cluster.nodes.Keys
      && TreesServed(cluster.nodes, drained, tree.rooms)
      && RoomsServed(cluster.nodes, drained, router.assignments, router.cascades)
    }

    constructor (fanout: int, viewersPerNode: int)
      requires fanout >= 1 && viewersPerNode >= 1
      ensures Valid() && cluster.nodes == map[] && cascadeBridge.attached && sfuBridge.attached
    {
      var m := new ReferenceSfuMedia();
      var c, cb, tt, t := WireTree(m, fanout, viewersPerNode);
      var sb, rt, r := WireRouter(m);
      cluster, media, cascadeBridge, treeTracker, tree, sfuBridge, routerTracker, router := c, m, cb, tt, t, sb, rt, r;
      drained := {};
    }

    // ---- Cluster events ----

    /** Both trackers learn that `id` is lost, and whoever has not reported it yet repairs what it served. */
    method NodeLost(id: Id)
      requires tree.cluster == cluster && tree.bridge == cascadeBridge && cascadeBridge.media == media
      requires sfuBridge.media == media && router.bridge == sfuBridge && treeTracker != routerTracker
      requires tree.Valid() && router.Valid()
      requires !Active(cluster.nodes, id)
      modifies tree, cascadeBridge`links, media, router, sfuBridge`assignedRooms, sfuBridge`cascadeRoutes
      modifies treeTracker, routerTracker
      ensures tree.Valid() && router.Valid()
      ensures treeTracker.gone == old(treeTracker.gone) + {id} && treeTracker.listening == old(treeTracker.listening)
      ensures routerTracker.gone == old(routerTracker.gone) + {id}
              && routerTracker.listening == old(routerTracker.listening)
      ensures if id in old(treeTracker.gone) then tree.rooms == old(tree.rooms)
              else tree.rooms.Keys <= old(tree.rooms).Keys
                   && forall room :: room in old(tree.rooms) ==>
                        Repaired(cluster.nodes, id, old(tree.rooms), tree.rooms, room)
      ensures id in old(routerTracker.gone) ==>
                router.assignments == old(router.assignments) && router.cascades == old(router.cascades)
      ensures id !in old(routerTracker.gone) ==>
                ClearedOf(id, old(router.assignments), old(router.cascades), router.assignments, router.cascades)
    {
      var fire := treeTracker.FireGone(id);
      if fire {
        tree.OnNodeGone(id);
      }
      fire := routerTracker.FireGone(id);
      if fire {
        router.HandleNodeGone(id);
      }
    }

    /** Trees and rooms the node served are repaired, and nothing else changes. */
    method MarkFailed(id: Id)
      requires Valid() && id in cluster.nodes
      modifies cluster, tree, cascadeBridge`links, media, router, sfuBridge`assignedRooms, sfuBridge`cascadeRoutes
      modifies treeTracker, routerTracker
      ensures Valid() && cluster.nodes == old(cluster.nodes)[id := old(cluster.nodes)[id].(failed := true)]
      ensures tree.rooms.Keys <= old(tree.rooms).Keys
      ensures old(cluster.nodes)[id].failed ==>
                && tree.rooms == old(tree.rooms)
                && router.assignments == old(router.assignments) && router.cascades == old(router.cascades)
      ensures !old(cluster.nodes)[id].failed ==>
                && (forall room :: room in old(tree.rooms) ==>
                      Repaired(cluster.nodes, id, old(tree.rooms), tree.rooms, room))
                && ClearedOf(id, old(router.assignments), old(router.cascades), router.assignments, router.cascades)
    {
      if cluster.nodes[id].failed {
        assert cluster.nodes == cluster.nodes[id := cluster.nodes[id].(failed := true)];
        return;
      }
      ghost var nodes := cluster.nodes;
      cluster.Set(id, true, cluster.nodes[id].draining);
      NodeLost(id);
      TreesServedAfterLoss(nodes, cluster.nodes, drained, id, old(tree.rooms), tree.rooms);
      RoomsServedAfterLoss(nodes, cluster.nodes, drained, id, old(router.assignments), old(router.cascades),
                           router.assignments, router.cascades);
    }

    method MarkRecovered(id: Id)
      requires Valid() && id in cluster.nodes
      modifies cluster, treeTracker, routerTracker
      ensures Valid() && cluster.nodes == old(cluster.nodes)[id := old(cluster.nodes)[id].(failed := false)]
    {
      if !cluster.nodes[id].failed {
        assert cluster.nodes == cluster.nodes[id := cluster.nodes[id].(failed := false)];
        return;
      }
      ghost var nodes := cluster.nodes;
      cluster.Set(id, false, cluster.nodes[id].draining);
      ServiceKept(nodes, drained, cluster.nodes, drained, tree.rooms, router.assignments, router.cascades);
      treeTracker.Recovered(id);
      routerTracker.Recovered(id);
    }

    /** Draining starts or ends; trees and rooms that use the node keep it. */
    method SetDraining(id: Id, draining: bool)
      requires Valid() && id in cluster.nodes
      modifies cluster
      ensures Valid() && cluster.nodes == old(cluster.nodes)[id := old(cluster.nodes)[id].(draining := draining)]
    {
      ghost var nodes := cluster.nodes;
      cluster.Set(id, cluster.nodes[id].failed, draining);
      ServiceKept(nodes, drained, cluster.nodes, drained, tree.rooms, router.assignments, router.cascades);
    }

    /**
     A node removed while draining keeps what it serves. Any other is repaired away from by whoever has not reported its
     loss yet, which both have to if it was healthy.
     */
    method RemoveNode(id: Id) returns (had: bool)
      requires Valid()
      modifies `drained, cluster, tree, cascadeBridge`links, media, router
      modifies sfuBridge`assignedRooms, sfuBridge`cascadeRoutes, treeTracker, routerTracker
      ensures Valid() && had == (id in old(cluster.nodes)) && cluster.nodes == old(cluster.nodes) - {id}
      ensures drained == if had && old(cluster.nodes)[id].draining then old(drained) + {id} else old(drained)
      ensures tree.rooms.Keys <= old(tree.rooms).Keys
      ensures var tells := had && !old(cluster.nodes)[id].draining;
              && (if tells && id !in old(treeTracker.gone)
                  then forall room :: room in old(tree.rooms) ==>
                         Repaired(cluster.nodes, id, old(tree.rooms), tree.rooms, room)
                  else tree.rooms == old(tree.rooms))
              && (if tells && id !in old(routerTracker.gone)
                  then ClearedOf(id, old(router.assignments), old(router.cascades), router.assignments, router.cascades)
                  else router.assignments == old(router.assignments) && router.cascades == old(router.cascades))
      ensures had && !old(cluster.nodes)[id].failed ==> id !in old(treeTracker.gone) && id !in old(routerTracker.gone)
    {
      if id !in cluster.nodes {
        assert cluster.nodes == cluster.nodes - {id};
        return false;
      }
      ghost var nodes := cluster.nodes;
      var draining := cluster.nodes[id].draining;
      cluster.Delete(id);
      treeTracker.Detach(id);
      routerTracker.Detach(id);
      if draining {
        drained := drained + {id};
        ServiceKept(nodes, old(drained), cluster.nodes, drained, tree.rooms, router.assignments, router.cascades);
      } else {
        NodeLost(id);
        if id in old(treeTracker.gone) {
          TreesServedWithout(nodes, cluster.nodes, drained, id, tree.rooms);
        } else {
          TreesServedAfterLoss(nodes, cluster.nodes, drained, id, old(tree.rooms), tree.rooms);
        }
        if id in old(routerTracker.gone) {
          RoomsServedWithout(nodes, cluster.nodes, drained, id, router.assignments, router.cascades);
        } else {
          RoomsServedAfterLoss(nodes, cluster.nodes, drained, id, old(router.assignments), old(router.cascades),
                               router.assignments, router.cascades);
        }
      }
      return true;
    }

    /** Nodes are added healthy; an entry with the same id is removed first. */
    method AddNode(id: Id, capacity: nat)
      requires Valid()
      modifies `drained, cluster, tree, cascadeBridge`links, media, router
      modifies sfuBridge`assignedRooms, sfuBridge`cascadeRoutes, treeTracker, routerTracker
      ensures Valid() && cluster.nodes == old(cluster.nodes)[id := NodeState(capacity, false, false)]
      ensures drained == old(drained) - {id}
      ensures id !in old(cluster.nodes) ==>
                && tree.rooms == old(tree.rooms)
                && router.assignments == old(router.assignments) && router.cascades == old(router.cascades)
    {
      var _ := RemoveNode(id);
      Register(id, capacity);
    }

    method Register(id: Id, capacity: nat)
      requires Valid() && id !in cluster.nodes
      modifies `drained, cluster, treeTracker, routerTracker
      ensures Valid() && cluster.nodes == old(cluster.nodes)[id := NodeState(capacity, false, false)]
      ensures drained == old(drained) - {id}
    {
      ghost var nodes, before := cluster.nodes, drained;
      cluster.Insert(id, capacity);
      drained := drained - {id};
      ServiceKept(nodes, before, cluster.nodes, drained, tree.rooms, router.assignments, router.cascades);
      treeTracker.Attach(id);
      routerTracker.Attach(id);
    }

    // ---- Requests ----

    method Build(room: RoomId, origin: Id, viewerCount: nat)
      requires Valid()
      modifies tree, cascadeBridge`links, media`links
      ensures Valid() && room in tree.rooms && tree.rooms == old(tree.rooms)[room := tree.rooms[room]]
      ensures tree.rooms[room].originId == origin && tree.rooms[room].viewerCount == viewerCount
      ensures PlannedOver(cluster.nodes, tree.fanout, tree.viewersPerNode, tree.rooms[room])
    {
      tree.Build(room, origin, viewerCount);
    }

    method DetachTree(room: RoomId) returns (had: bool)
      requires Valid()
      modifies tree, cascadeBridge`links, media`links
      ensures Valid() && tree.rooms == old(tree.rooms) - {room}
    {
      had := tree.DetachTree(room);
    }

    /** The placement strategy may pick any active node, and must pick one if there is one. */
    method AttachRoom(room: RoomId, choice: Option<Id>) returns (r: Option<Id>)
      requires Valid()
      requires choice.Some? ==> Active(cluster.nodes, choice.value)
      requires choice.None? ==> forall id :: !Active(cluster.nodes, id)
      modifies router, sfuBridge`assignedRooms, sfuBridge`cascadeRoutes, media`routes
      ensures Valid() && r == choice
      ensures choice.Some? ==>
                room in router.assignments
                && (router.assignments[room] == choice.value
                    || (room in router.cascades && choice.value in router.cascades[room]))
    {
      r := router.AttachRoom(room, choice);
    }

    method DetachRoom(room: RoomId) returns (had: bool)
      requires Valid()
      modifies router, sfuBridge`assignedRooms, sfuBridge`cascadeRoutes, media`routes
      ensures Valid() && had == (room in old(router.assignments))
      ensures router.assignments == old(router.assignments) - {room} && router.cascades == old(router.cascades) - {room}
    {
      had := router.DetachRoom(room);
    }

    /** Detaching both bridges leaves the media plane empty. */
    method DetachBridges()
      requires Valid() && cascadeBridge.attached && sfuBridge.attached
      modifies cascadeBridge, sfuBridge, media
      ensures Valid() && media.links == map[] && media.routes == map[]
    {
      cascadeBridge.Detach();
      sfuBridge.Detach();
    }
  }

  // ---- Lemmas ----

  ghost predicate ClearedOf(id: Id, a: map<RoomId, Id>, c: map<RoomId, seq<Id>>, a': map<RoomId, Id>,
                            c': map<RoomId, seq<Id>>) {
    && (forall room :: room in a' <==> room in a && a[room] != id)
    && (forall room :: room in a' ==> a'[room] == a[room])
    && (forall room :: room in c' <==> room in c && room in a' && Filter(c[room], id) != [])
    && (forall room :: room in c' ==> c'[room] == Filter(c[room], id))
  }

  /** Nobody but `id` went out of service. */
  ghost predicate OnlyLoses(nodes: map<Id, NodeState>, nodes': map<Id, NodeState>, drained: set<Id>, id: Id) {
    forall x :: x != id && InService(nodes, drained, x) ==> InService(nodes', drained, x)
  }

  /** A loss that every tree was repaired for. */
  lemma TreesServedAfterLoss(nodes: map<Id, NodeState>, nodes': map<Id, NodeState>, drained: set<Id>, id: Id,
                             before: map<RoomId, RoomTree>, after: map<RoomId, RoomTree>)
    requires TreesServed(nodes, drained, before) && OnlyLoses(nodes, nodes', drained, id)
    requires after.Keys <= before.Keys
    requires forall room :: room in before ==> Repaired(nodes', id, before, after, room)
    ensures TreesServed(nodes', drained, after)
  {
    forall room | room in after
      ensures PlanServed(nodes', drained, after[room])
    {
      assert PlanServed(nodes, drained, before[room]) && Repaired(nodes', id, before, after, room);
    }
  }

  /** A loss of a node that was out of service already. */
  lemma TreesServedWithout(nodes: map<Id, NodeState>, nodes': map<Id, NodeState>, drained: set<Id>, id: Id,
                           rooms: map<RoomId, RoomTree>)
    requires TreesServed(nodes, drained, rooms) && OnlyLoses(nodes, nodes', drained, id)
    requires !InService(nodes, drained, id)
    ensures TreesServed(nodes', drained, rooms)
  {
    forall room | room in rooms
      ensures PlanServed(nodes', drained, rooms[room])
    {
      assert PlanServed(nodes, drained, rooms[room]);
    }
  }

  lemma RoomsServedWithout(nodes: map<Id, NodeState>, nodes': map<Id, NodeState>, drained: set<Id>, id: Id,
                           a: map<RoomId, Id>, c: map<RoomId, seq<Id>>)
    requires RoomsServed(nodes, drained, a, c) && OnlyLoses(nodes, nodes', drained, id)
    requires !InService(nodes, drained, id)
    ensures RoomsServed(nodes', drained, a, c)
  {
  }

  lemma RoomsServedAfterLoss(nodes: map<Id, NodeState>, nodes': map<Id, NodeState>, drained: set<Id>, id: Id,
                             a: map<RoomId, Id>, c: map<RoomId, seq<Id>>, a': map<RoomId, Id>, c': map<RoomId, seq<Id>>)
    requires RoomsServed(nodes, drained, a, c) && OnlyLoses(nodes, nodes', drained, id) && ClearedOf(id, a, c, a', c')
    ensures RoomsServed(nodes', drained, a', c')
  {
  }

  /** A change that takes nobody out of service. */
  lemma ServiceKept(nodes: map<Id, NodeState>, drained: set<Id>, nodes': map<Id, NodeState>, drained': set<Id>,
                    rooms: map<RoomId, RoomTree>, a: map<RoomId, Id>, c: map<RoomId, seq<Id>>)
    requires TreesServed(nodes, drained, rooms) && RoomsServed(nodes, drained, a, c)
    requires forall x :: InService(nodes, drained, x) ==> InService(nodes', drained', x)
    ensures TreesServed(nodes', drained', rooms) && RoomsServed(nodes', drained', a, c)
  {
    forall room | room in rooms
      ensures PlanServed(nodes', drained', rooms[room])
    {
      assert PlanServed(nodes, drained, rooms[room]);
    }
  }

  /** In particular no registered failed node relays, serves viewers, or serves a room. */
  lemma NoFailedNodeServes(nodes: map<Id, NodeState>, drained: set<Id>, rooms: map<RoomId, RoomTree>,
                           a: map<RoomId, Id>, c: map<RoomId, seq<Id>>, id: Id)
    requires drained !! nodes.Keys && TreesServed(nodes, drained, rooms) && RoomsServed(nodes, drained, a, c)
    requires RegisteredFailed(nodes, id)
    ensures forall room :: room in rooms && rooms[room].originId != id ==> !TakesPart(rooms[room].plan, id)
    ensures forall room :: room in a ==> a[room] != id
    ensures forall room :: room in c ==> id !in c[room]
  {
    forall room | room in rooms && rooms[room].originId != id
      ensures !TakesPart(rooms[room].plan, id)
    {
      assert PlanServed(nodes, drained, rooms[room]);
    }
    forall room | room in c
      ensures id !in c[room]
    {
      assert id in c[room] ==> InService(nodes, drained, id);
    }
  }
}
