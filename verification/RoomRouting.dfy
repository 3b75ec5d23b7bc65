/** Rooms mapped to cluster nodes: a hash ring kept in step with membership. */
module RoomRouting {
  import opened Common
  import opened Reconciler
  import opened Rendezvous

  /** A missing or zero capacity counts as one, and so does anything below one. */
  function NodeWeight(n: NodeInfo): (w: real)
    ensures w >= 1.0
  {
    match n.capacity
    case None => 1.0
    case Some(c) => if c < 1.0 then 1.0 else c
  }

  /** What a node knows by itself: its own bare entry. */
  function Self(self: Id): Table {
    map[self := NodeInfo(self, None)]
  }

  /** The router's table after the callbacks `es`: its own entry survives any removal. */
  function Routed(self: Id, es: seq<Event>): Table {
    if es == [] then Self(self) else Handled(self, Routed(self, es[..|es| - 1]), es[|es| - 1])
  }

  function Handled(self: Id, t: Table, e: Event): Table {
    if e == Removed(self) then t else Then(t, e)
  }

  /** The router's table is what the callbacks tell, and always its own entry besides. */
  lemma {:induction false} RoutedIsKnown(self: Id, es: seq<Event>)
    ensures Routed(self, es).Keys == Known(es).Keys + {self}
    ensures Contains(Routed(self, es), Known(es))
  {
    if es != [] {
      RoutedIsKnown(self, es[..|es| - 1]);
    }
  }

  lemma RoutedAppend(self: Id, es: seq<Event>, k: nat)
    requires k < |es|
    ensures Routed(self, es[..k + 1]) == Handled(self, Routed(self, es[..k]), es[k])
  {
    assert es[..k + 1][..k] == es[..k];
  }

  /** Ring, table and weights name the same nodes at the same weights. */
  ghost predicate InStep(self: Id, ring: map<Id, real>, byId: Table, weights: map<Id, real>) {
    && ring.Keys == byId.Keys == weights.Keys + {self}
    && (forall id :: id in byId ==> byId[id].id == id && ring[id] == NodeWeight(byId[id]))
    && (forall id :: id in weights ==> weights[id] == NodeWeight(byId[id]))
  }

  lemma UpsertKeepsStep(self: Id, ring: map<Id, real>, byId: Table, weights: map<Id, real>, n: NodeInfo)
    requires InStep(self, ring, byId, weights)
    ensures InStep(self, ring[n.id := NodeWeight(n)], byId[n.id := n], weights[n.id := NodeWeight(n)])
  {
    assert (weights.Keys + {n.id}) + {self} == (weights.Keys + {self}) + {n.id};
  }

  lemma SameWeightKeepsStep(self: Id, ring: map<Id, real>, byId: Table, weights: map<Id, real>, n: NodeInfo)
    requires InStep(self, ring, byId, weights) && n.id in weights && weights[n.id] == NodeWeight(n)
    ensures InStep(self, ring, byId[n.id := n], weights)
  {
    assert byId.Keys + {n.id} == byId.Keys;
  }

  lemma RemovalKeepsStep(self: Id, ring: map<Id, real>, byId: Table, weights: map<Id, real>, id: Id)
    requires InStep(self, ring, byId, weights) && id != self
    ensures InStep(self, ring - {id}, byId - {id}, weights - {id})
  {
  }

  /** The router's handlers only touch its own tables, so its reconciler is never re-entered. */
  class RoomRouter {
    const selfId: Id
    const ring: HashRing
    const reconciler: MembershipReconciler
    var byId: Table
    var weights: map<Id, real>
    /** How many of the reconciler's callbacks have been handled. */
    var handled: nat

    ghost predicate Valid() reads this, ring, reconciler {
      && reconciler.AtRest() && reconciler.script == [] && handled == |reconciler.events|
      && Consistent()
    }

    ghost predicate Consistent() reads this, ring, reconciler {
      && ring.Valid()
      && handled <= |reconciler.events|
      && byId == Routed(selfId, reconciler.events[..handled])
      && InStep(selfId, Weights(ring.nodes), byId, weights)
    }

    constructor (selfId: Id, score: Score)
      ensures Valid() && fresh(ring) && fresh(reconciler)
      ensures this.selfId == selfId && ring.score == score && byId == Self(selfId)
    {
      this.selfId := selfId;
      byId := Self(selfId);
      weights := map[];
      handled := 0;
      var r := new HashRing(score);
      var rec := new MembershipReconciler([]);
      ring, reconciler := r, rec;
      new;
      var _ := ring.Add(RingNode(selfId, 1.0));
    }

    /** The part of `_upsert` that keeps the ring's weights. */
    method SetWeight(n: NodeInfo)
      requires ring.Valid() && InStep(selfId, Weights(ring.nodes), byId, weights)
      modifies `weights, ring
      ensures ring.Valid() && InStep(selfId, Weights(ring.nodes), byId[n.id := n], weights)
    {
      var weight := NodeWeight(n);
      if n.id !in weights || weights[n.id] != weight {
        UpsertKeepsStep(selfId, Weights(ring.nodes), byId, weights, n);
        var _ := ring.Add(RingNode(n.id, weight));
        weights := weights[n.id := weight];
      } else {
        SameWeightKeepsStep(selfId, Weights(ring.nodes), byId, weights, n);
      }
    }

    /** `onAdd` and `onUpdate`. */
    method Upsert(n: NodeInfo)
      requires Consistent() && handled < |reconciler.events|
      requires reconciler.events[handled] == Added(n) || reconciler.events[handled] == Updated(n)
      modifies this, ring
      ensures Consistent() && handled == old(handled) + 1
    {
      RoutedAppend(selfId, reconciler.events, handled);
      SetWeight(n);
      byId := byId[n.id := n];
      handled := handled + 1;
    }

    method OnRemove(id: Id)
      requires Consistent() && handled < |reconciler.events| && reconciler.events[handled] == Removed(id)
      modifies this, ring
      ensures Consistent() && handled == old(handled) + 1
    {
      RoutedAppend(selfId, reconciler.events, handled);
      handled := handled + 1;
      if id == selfId {
        return;
      }
      RemovalKeepsStep(selfId, Weights(ring.nodes), byId, weights, id);
      var _ := ring.Remove(id);
      byId := byId - {id};
      weights := weights - {id};
    }

    /** The callbacks not handled yet, in the order they were made. */
    method HandleCallbacks()
      requires Consistent()
      modifies this, ring
      ensures Consistent() && handled == |reconciler.events|
      ensures byId.Keys == Known(reconciler.events).Keys + {selfId} && Contains(byId, Known(reconciler.events))
    {
      var i := handled;
      while i < |reconciler.events|
        invariant Consistent() && handled == i <= |reconciler.events|
      {
        match reconciler.events[i] {
          case Added(n) => Upsert(n);
          case Updated(n) => Upsert(n);
          case Removed(id) => OnRemove(id);
        }
        i := i + 1;
      }
      assert reconciler.events[..handled] == reconciler.events;
      RoutedIsKnown(selfId, reconciler.events);
    }

    /** Handlers that report nothing leave the reconciler with the nodes it was given. */
    method Reconcile(nodes: seq<NodeInfo>)
      requires reconciler.AtRest() && reconciler.script == []
      modifies reconciler
      ensures reconciler.AtRest() && reconciler.script == [] && reconciler.seen
      ensures old(reconciler.events) <= reconciler.events && Known(reconciler.events) == TableOf(nodes)
    {
      ghost var n := |reconciler.events|;
      reconciler.Watch(nodes);
      NothingReported(|reconciler.events| - n);
    }

    /** A membership change: the ring ends holding exactly the nodes of the snapshot and this one, at their weights. */
    method OnMembership(nodes: seq<NodeInfo>)
      requires Valid()
      modifies this, ring, reconciler
      ensures Valid() && reconciler.seen
      ensures Weights(ring.nodes).Keys == byId.Keys == TableOf(nodes).Keys + {selfId}
      ensures Contains(byId, TableOf(nodes))
    {
      ghost var before := reconciler.events;
      Reconcile(nodes);
      assert before == old(reconciler.events)[..handled] && reconciler.events[..handled] == before;
      HandleCallbacks();
    }

    /** The answer of the initial `list()`. */
    method OnListed(nodes: seq<NodeInfo>)
      requires Valid()
      modifies this, ring, reconciler
      ensures Valid() && reconciler.seen == old(reconciler.seen)
      ensures old(reconciler.seen) ==> byId == old(byId)
      ensures !old(reconciler.seen) ==> Contains(byId, TableOf(nodes))
    {
      ghost var before := reconciler.events;
      reconciler.Listed(nodes);
      NothingReported(|reconciler.events| - |before|);
      assert before == old(reconciler.events)[..handled] && reconciler.events[..handled] == before;
      HandleCallbacks();
    }

    /** Every room has an owner: a known node that no known node outscores. */
    method Route(roomId: Key) returns (isLocal: bool, owner: Option<NodeInfo>)
      requires Valid()
      ensures owner.Some? && owner.value.id in byId && owner.value == byId[owner.value.id]
      ensures isLocal <==> owner.value.id == selfId
      ensures forall id :: id in byId ==>
                ring.score(roomId, id, NodeWeight(byId[id]))
                <= ring.score(roomId, owner.value.id, NodeWeight(owner.value))
    {
      var id := ring.Get(roomId);
      RingIsNotEmpty();
      OwnerScoresHighest(ring.score, roomId, ring.nodes);
      isLocal := id == Some(selfId);
      owner := if id.Some? && id.value in byId then Some(byId[id.value]) else None;
    }

    lemma RingIsNotEmpty()
      requires Valid()
      ensures ring.nodes != []
    {
      assert selfId in Weights(ring.nodes);
    }
  }
}
