/** Per-room cascade trees over a cluster, rebuilt when nodes are lost, their links announced by difference. */
module CascadeTree {
  import opened Common
  import opened CascadePlan
  import opened SfuMedia
  import opened SfuCluster
  import opened CascadeBridge

  datatype RoomTree = RoomTree(originId: Id, viewerCount: nat, plan: Plan)

  function SetOf(links: seq<Link>): set<Link> {
    set l | l in links
  }

  datatype LinkEvent = LinkDropped(room: RoomId, link: Link) | LinkCreated(room: RoomId, link: Link)

  /** The announcements for those of `links` that are not in `keep`, in order. */
  function Drops(room: RoomId, links: seq<Link>, keep: set<Link>): (es: seq<LinkEvent>)
    ensures forall e :: e in es <==> e.LinkDropped? && e.room == room && e.link in links && e.link !in keep
  {
    if links == [] then []
    else
      var l := links[|links| - 1];
      Drops(room, links[..|links| - 1], keep) + if l in keep then [] else [LinkDropped(room, l)]
  }

  function Creations(room: RoomId, links: seq<Link>, have: set<Link>): (es: seq<LinkEvent>)
    ensures forall e :: e in es <==> e.LinkCreated? && e.room == room && e.link in links && e.link !in have
  {
    if links == [] then []
    else
      var l := links[|links| - 1];
      Creations(room, links[..|links| - 1], have) + if l in have then [] else [LinkCreated(room, l)]
  }

  lemma DropsMore(room: RoomId, links: seq<Link>, i: nat, keep: set<Link>)
    requires i < |links|
    ensures Drops(room, links[..i + 1], keep)
            == Drops(room, links[..i], keep) + if links[i] in keep then [] else [LinkDropped(room, links[i])]
    ensures SetOf(links[..i + 1]) == SetOf(links[..i]) + {links[i]}
  {
    assert links[..i + 1][..i] == links[..i];
  }

  lemma CreationsMore(room: RoomId, links: seq<Link>, i: nat, have: set<Link>)
    requires i < |links|
    ensures Creations(room, links[..i + 1], have)
            == Creations(room, links[..i], have) + if links[i] in have then [] else [LinkCreated(room, links[i])]
    ensures SetOf(links[..i + 1]) == SetOf(links[..i]) + {links[i]}
  {
    assert links[..i + 1][..i] == links[..i];
  }

  lemma DropStep(m: map<RoomId, set<Link>>, room: RoomId, links: seq<Link>, i: nat, keep: set<Link>)
    requires i < |links|
    ensures var now := With(m, room, Get(m, room) - (SetOf(links[..i]) - keep));
            With(now, room, Get(now, room) - ({links[i]} - keep))
            == With(m, room, Get(m, room) - (SetOf(links[..i + 1]) - keep))
  {
    var now := Get(m, room) - (SetOf(links[..i]) - keep);
    WithWith(m, room, now, now - ({links[i]} - keep));
    assert SetOf(links[..i + 1]) == SetOf(links[..i]) + {links[i]};
    assert now - ({links[i]} - keep) == Get(m, room) - (SetOf(links[..i + 1]) - keep);
  }

  lemma CreateStep(m: map<RoomId, set<Link>>, room: RoomId, links: seq<Link>, i: nat, have: set<Link>)
    requires i < |links|
    ensures var now := With(m, room, Get(m, room) + (SetOf(links[..i]) - have));
            With(now, room, Get(now, room) + ({links[i]} - have))
            == With(m, room, Get(m, room) + (SetOf(links[..i + 1]) - have))
  {
    var now := Get(m, room) + (SetOf(links[..i]) - have);
    WithWith(m, room, now, now + ({links[i]} - have));
    assert SetOf(links[..i + 1]) == SetOf(links[..i]) + {links[i]};
    assert now + ({links[i]} - have) == Get(m, room) + (SetOf(links[..i + 1]) - have);
  }

  function LinkSet(plan: Plan): set<Link> {
    SetOf(plan.links)
  }

  /** The links every current plan asks for. */
  function PlannedLinks(rooms: map<RoomId, RoomTree>): map<RoomId, set<Link>> {
    map room | room in rooms && LinkSet(rooms[room].plan) != {} :: LinkSet(rooms[room].plan)
  }

  predicate TakesPart(plan: Plan, id: Id) {
    id in Ids(plan.nodes)
  }

  /** Every relay and edge is a registered node that is neither failed nor draining. */
  ghost predicate AllActive(nodes: map<Id, NodeState>, tree: RoomTree) {
    forall id :: TakesPart(tree.plan, id) && id != tree.originId ==> Active(nodes, id)
  }

  /** What the loss of `id` does to one room. */
  ghost predicate Repaired(nodes: map<Id, NodeState>, id: Id, before: map<RoomId, RoomTree>,
                           after: map<RoomId, RoomTree>, room: RoomId)
    requires room in before
  {
    var tree := before[room];
    if !TakesPart(tree.plan, id) then room in after && after[room] == tree
    else if id == tree.originId then room !in after
    else
      room in after && after[room].originId == tree.originId && after[room].viewerCount == tree.viewerCount
      && AllActive(nodes, after[room])
  }

  function Capacities(nodes: map<Id, NodeState>): map<Id, nat> {
    map id | id in nodes :: nodes[id].capacity
  }

  /** The plan the planner promises over the active nodes in some order. */
  ghost predicate PlannedOver(nodes: map<Id, NodeState>, f: int, v: int, tree: RoomTree) {
    f >= 1 && v >= 1 && exists active ::
      && NoDup(active) && (forall id :: id in active <==> Active(nodes, id))
      && PlanOk(tree.originId, tree.viewerCount, f, v, WithoutOrigin(active, tree.originId), Capacities(nodes),
                tree.plan)
  }

  class CascadeTree {
    const cluster: SfuCluster
    const bridge: CascadeBridge
    const tracker: NodeFailureTracker
    const fanout: int
    const viewersPerNode: int
    var rooms: map<RoomId, RoomTree>
    /** Every link event emitted so far. */
    ghost var announced: seq<LinkEvent>

    /**
     The media plane, the bridge and the current plans name the same links (with the bridge attached from the start).
     */
    ghost predicate InSync() reads this, bridge, bridge.media {
      bridge.Valid() && (bridge.attached ==> bridge.links == PlannedLinks(rooms))
    }

    ghost predicate Valid() reads this, cluster, bridge, bridge.media {
      && cluster.Valid() && InSync()
      && fanout >= 1 && viewersPerNode >= 1
    }

    constructor (cluster: SfuCluster, bridge: CascadeBridge, tracker: NodeFailureTracker, fanout: int,
                 viewersPerNode: int)
      requires cluster.Valid() && bridge.Valid() && bridge.links == map[] && fanout >= 1 && viewersPerNode >= 1
      ensures Valid() && rooms == map[] && announced == []
      ensures this.cluster == cluster && this.bridge == bridge && this.tracker == tracker
    {
      this.cluster, this.bridge, this.tracker := cluster, bridge, tracker;
      this.fanout, this.viewersPerNode := fanout, viewersPerNode;
      rooms := map[];
      announced := [];
    }

    // ---- Emitting link events ----

    method EmitLinkDropped(room: RoomId, l: Link)
      requires bridge.Valid()
      modifies `announced, bridge`links, bridge.media`links
      ensures bridge.Valid() && announced == old(announced) + [LinkDropped(room, l)]
      ensures bridge.links == if bridge.attached then With(old(bridge.links), room, Get(old(bridge.links), room) - {l})
                              else old(bridge.links)
    {
      announced := announced + [LinkDropped(room, l)];
      if bridge.attached {
        bridge.OnLinkDropped(room, l.from, l.to);
      }
    }

    method EmitLinkCreated(room: RoomId, l: Link)
      requires bridge.Valid()
      modifies `announced, bridge`links, bridge.media`links
      ensures bridge.Valid() && announced == old(announced) + [LinkCreated(room, l)]
      ensures bridge.links == if bridge.attached then With(old(bridge.links), room, Get(old(bridge.links), room) + {l})
                              else old(bridge.links)
    {
      announced := announced + [LinkCreated(room, l)];
      if bridge.attached {
        bridge.OnLinkCreated(room, l.from, l.to);
      }
    }

    method DropUnless(room: RoomId, l: Link, keep: set<Link>)
      requires bridge.Valid()
      modifies `announced, bridge`links, bridge.media`links
      ensures bridge.Valid() && announced == old(announced) + if l in keep then [] else [LinkDropped(room, l)]
      ensures bridge.links == if bridge.attached
                              then With(old(bridge.links), room, Get(old(bridge.links), room) - ({l} - keep))
                              else old(bridge.links)
    {
      WithGet(bridge.links, room);
      assert Get(bridge.links, room) - {} == Get(bridge.links, room);
      assert {l} - keep == if l in keep then {} else {l};
      if l !in keep {
        EmitLinkDropped(room, l);
      }
    }

    method DropLinks(room: RoomId, links: seq<Link>, keep: set<Link>)
      requires bridge.Valid()
      modifies `announced, bridge`links, bridge.media`links
      ensures bridge.Valid() && announced == old(announced) + Drops(room, links, keep)
      ensures bridge.attached ==>
                bridge.links == With(old(bridge.links), room, Get(old(bridge.links), room) - (SetOf(links) - keep))
      ensures !bridge.attached ==> bridge.links == old(bridge.links)
    {
      WithGet(bridge.links, room);
      assert Get(bridge.links, room) - (SetOf(links[..0]) - keep) == Get(bridge.links, room);
      for i := 0 to |links|
        invariant bridge.Valid() && (!bridge.attached ==> bridge.links == old(bridge.links))
        invariant announced == old(announced) + Drops(room, links[..i], keep)
        invariant bridge.attached ==>
                    bridge.links == With(old(bridge.links), room,
                                         Get(old(bridge.links), room) - (SetOf(links[..i]) - keep))
      {
        DropsMore(room, links, i, keep);
        DropStep(old(bridge.links), room, links, i, keep);
        DropUnless(room, links[i], keep);
      }
      assert links[..|links|] == links;
    }

    method CreateUnless(room: RoomId, l: Link, have: set<Link>)
      requires bridge.Valid()
      modifies `announced, bridge`links, bridge.media`links
      ensures bridge.Valid() && announced == old(announced) + if l in have then [] else [LinkCreated(room, l)]
      ensures bridge.links == if bridge.attached
                              then With(old(bridge.links), room, Get(old(bridge.links), room) + ({l} - have))
                              else old(bridge.links)
    {
      WithGet(bridge.links, room);
      assert Get(bridge.links, room) + {} == Get(bridge.links, room);
      assert {l} - have == if l in have then {} else {l};
      if l !in have {
        EmitLinkCreated(room, l);
      }
    }

    method CreateLinks(room: RoomId, links: seq<Link>, have: set<Link>)
      requires bridge.Valid()
      modifies `announced, bridge`links, bridge.media`links
      ensures bridge.Valid() && announced == old(announced) + Creations(room, links, have)
      ensures bridge.attached ==>
                bridge.links == With(old(bridge.links), room, Get(old(bridge.links), room) + (SetOf(links) - have))
      ensures !bridge.attached ==> bridge.links == old(bridge.links)
    {
      WithGet(bridge.links, room);
      assert Get(bridge.links, room) + (SetOf(links[..0]) - have) == Get(bridge.links, room);
      for i := 0 to |links|
        invariant bridge.Valid() && (!bridge.attached ==> bridge.links == old(bridge.links))
        invariant announced == old(announced) + Creations(room, links[..i], have)
        invariant bridge.attached ==>
                    bridge.links == With(old(bridge.links), room,
                                         Get(old(bridge.links), room) + (SetOf(links[..i]) - have))
      {
        CreationsMore(room, links, i, have);
        CreateStep(old(bridge.links), room, links, i, have);
        CreateUnless(room, links[i], have);
      }
      assert links[..|links|] == links;
    }

    /** `_diff`: exactly the links that changed are announced, the dropped ones first. */
    method Diff(room: RoomId, oldLinks: seq<Link>, newPlan: Plan)
      requires bridge.Valid()
      requires bridge.attached ==> Get(bridge.links, room) == SetOf(oldLinks)
      modifies `announced, bridge`links, bridge.media`links
      ensures bridge.Valid()
      ensures announced == old(announced) + Drops(room, oldLinks, LinkSet(newPlan))
                           + Creations(room, newPlan.links, SetOf(oldLinks))
      ensures bridge.links == if bridge.attached then With(old(bridge.links), room, LinkSet(newPlan))
                              else old(bridge.links)
    {
      var oldSet := SetOf(oldLinks);
      var newSet := LinkSet(newPlan);
      DropLinks(room, oldLinks, newSet);
      CreateLinks(room, newPlan.links, oldSet);
      WithWith(old(bridge.links), room, oldSet - (oldSet - newSet), newSet);
      assert oldSet - (oldSet - newSet) + (newSet - oldSet) == newSet;
    }

    // ---- The operations ----

    method Plan(origin: Id, viewerCount: nat) returns (tree: RoomTree)
      requires Valid()
      ensures tree.originId == origin && tree.viewerCount == viewerCount
      ensures PlannedOver(cluster.nodes, fanout, viewersPerNode, tree) && AllActive(cluster.nodes, tree)
    {
      var active := cluster.GetActiveNodes();
      var planned := PlanCascadeTree(origin, viewerCount, fanout, viewersPerNode, active, Capacities(cluster.nodes));
      tree := RoomTree(origin, viewerCount, planned.plan);
      PoolMembers(active, origin);
      PlacedComeFromPool(origin, WithoutOrigin(active, origin), tree.plan.nodes);
    }

    method Build(room: RoomId, origin: Id, viewerCount: nat)
      requires Valid()
      modifies this, bridge`links, bridge.media`links
      ensures Valid() && room in rooms && rooms == old(rooms)[room := rooms[room]]
      ensures rooms[room].originId == origin && rooms[room].viewerCount == viewerCount
      ensures PlannedOver(cluster.nodes, fanout, viewersPerNode, rooms[room]) && AllActive(cluster.nodes, rooms[room])
      ensures var prev := if room in old(rooms) then old(rooms)[room].plan.links else [];
              announced == old(announced) + Drops(room, prev, LinkSet(rooms[room].plan))
                           + Creations(room, rooms[room].plan.links, SetOf(prev))
    {
      var tree := Plan(origin, viewerCount);
      Install(room, tree);
    }

    method Install(room: RoomId, tree: RoomTree)
      requires Valid()
      modifies this, bridge`links, bridge.media`links
      ensures Valid() && rooms == old(rooms)[room := tree]
      ensures var prev := if room in old(rooms) then old(rooms)[room].plan.links else [];
              announced == old(announced) + Drops(room, prev, LinkSet(tree.plan))
                           + Creations(room, tree.plan.links, SetOf(prev))
    {
      var prev := if room in rooms then rooms[room].plan.links else [];
      PlannedOf(rooms, room);
      Diff(room, prev, tree.plan);
      PlannedAfter(rooms, room, tree);
      rooms := rooms[room := tree];
    }

    method DetachTree(room: RoomId) returns (had: bool)
      requires Valid()
      modifies this, bridge`links, bridge.media`links
      ensures Valid() && had == (room in old(rooms)) && rooms == old(rooms) - {room}
      ensures announced == old(announced) + if had then Drops(room, old(rooms)[room].plan.links, {}) else []
    {
      if room !in rooms {
        assert rooms == rooms - {room};
        return false;
      }
      DropLinks(room, rooms[room].plan.links, {});
      DroppedAll(rooms, room);
      rooms := rooms - {room};
      if bridge.attached {
        bridge.OnTreeDropped(room);
        assert bridge.links == old(bridge.links) - {room};
      }
      return true;
    }

    /** Rebuilds or tears down one room that `id` took part in. */
    method Repair(room: RoomId, id: Id)
      requires Valid() && room in rooms
      modifies this, bridge`links, bridge.media`links
      ensures Valid() && rooms - {room} == old(rooms) - {room}
      ensures Repaired(cluster.nodes, id, old(rooms), rooms, room)
    {
      if !TakesPart(rooms[room].plan, id) {
        return;
      }
      if id == rooms[room].originId {
        var _ := DetachTree(room);
      } else {
        Build(room, rooms[room].originId, rooms[room].viewerCount);
      }
    }

    /** After a loss every tree the node took part in has been rebuilt without it, or torn down if it was the origin. */
    method OnNodeGone(id: Id)
      requires Valid()
      modifies this, bridge`links, bridge.media`links
      ensures Valid() && rooms.Keys <= old(rooms).Keys
      ensures forall room :: room in old(rooms) ==> Repaired(cluster.nodes, id, old(rooms), rooms, room)
    {
      var todo := rooms.Keys;
      ghost var before := rooms;
      while todo != {}
        invariant Valid() && todo <= before.Keys && rooms.Keys <= before.Keys
        invariant forall room :: room in todo ==> room in rooms && rooms[room] == before[room]
        invariant forall room :: room in before && room !in todo ==> Repaired(cluster.nodes, id, before, rooms, room)
      {
        var room :| room in todo;
        ghost var mid := rooms;
        Repair(room, id);
        RepairIsLocal(cluster.nodes, id, before, mid, rooms, room, todo);
        todo := todo - {room};
      }
    }
  }

  // ---- Lemmas ----

  lemma PlacedComeFromPool(origin: Id, pool: seq<Id>, nodes: seq<PlanNode>)
    requires Places(origin, pool, nodes)
    ensures forall id :: id in Ids(nodes) && id != origin ==> id in pool
  {
  }

  lemma RepairIsLocal(nodes: map<Id, NodeState>, id: Id, before: map<RoomId, RoomTree>, mid: map<RoomId, RoomTree>,
                      after: map<RoomId, RoomTree>, room: RoomId, todo: set<RoomId>)
    requires todo <= before.Keys && room in todo && mid.Keys <= before.Keys
    requires forall r :: r in todo ==> r in mid && mid[r] == before[r]
    requires forall r :: r in before && r !in todo ==> Repaired(nodes, id, before, mid, r)
    requires after - {room} == mid - {room} && Repaired(nodes, id, mid, after, room)
    ensures after.Keys <= before.Keys
    ensures forall r :: r in todo - {room} ==> r in after && after[r] == before[r]
    ensures forall r :: r in before && r !in todo - {room} ==> Repaired(nodes, id, before, after, r)
  {
    forall r | r != room ensures (r in after <==> r in mid) && (r in mid ==> after[r] == mid[r]) {
      assert r in after - {room} <==> r in mid - {room};
      if r in mid {
        assert (after - {room})[r] == (mid - {room})[r];
      }
    }
    forall r | r in before && r !in todo - {room} ensures Repaired(nodes, id, before, after, r) {
      if r != room {
        assert Repaired(nodes, id, before, mid, r);
      }
    }
  }

  lemma PlannedOf(rooms: map<RoomId, RoomTree>, room: RoomId)
    ensures Get(PlannedLinks(rooms), room) == if room in rooms then LinkSet(rooms[room].plan) else {}
  {
  }

  lemma PlannedAfter(rooms: map<RoomId, RoomTree>, room: RoomId, tree: RoomTree)
    ensures PlannedLinks(rooms[room := tree]) == With(PlannedLinks(rooms), room, LinkSet(tree.plan))
    ensures NoEmpty(PlannedLinks(rooms))
  {
  }

  lemma DroppedAll(rooms: map<RoomId, RoomTree>, room: RoomId)
    requires room in rooms
    ensures With(PlannedLinks(rooms), room, Get(PlannedLinks(rooms), room) - (LinkSet(rooms[room].plan) - {}))
            == PlannedLinks(rooms - {room})
    ensures room !in PlannedLinks(rooms - {room})
  {
  }
}
