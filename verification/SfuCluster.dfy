/** The cluster's nodes and the tracker that notices when one is lost. */
module SfuCluster {
  import opened Common

  type Id = string

  datatype NodeState = NodeState(capacity: nat, failed: bool, draining: bool)

  predicate Active(nodes: map<Id, NodeState>, id: Id) {
    id in nodes && !nodes[id].failed && !nodes[id].draining
  }

  ghost predicate RegisteredFailed(nodes: map<Id, NodeState>, id: Id) {
    id in nodes && nodes[id].failed
  }

  /** Registration order, as a JavaScript Map keeps it. */
  class SfuCluster {
    var nodes: map<Id, NodeState>
    var order: seq<Id>

    ghost predicate Valid() reads this {
      NoDup(order) && forall id :: id in order <==> id in nodes
    }

    constructor ()
      ensures Valid() && nodes == map[]
    {
      nodes, order := map[], [];
    }

    method GetActiveNodes() returns (ids: seq<Id>)
      requires Valid()
      ensures NoDup(ids) && forall id :: id in ids <==> Active(nodes, id)
    {
      ids := [];
      for i := 0 to |order|
        invariant NoDup(ids) && forall id :: id in ids <==> id in order[..i] && Active(nodes, id)
      {
        assert order[..i + 1] == order[..i] + [order[i]] && order[i] !in order[..i];
        if !nodes[order[i]].failed && !nodes[order[i]].draining {
          ids := ids + [order[i]];
        }
      }
      assert order[..|order|] == order;
    }

    method Insert(id: Id, capacity: nat)
      requires Valid() && id !in nodes
      modifies this
      ensures Valid() && nodes == old(nodes)[id := NodeState(capacity, false, false)]
    {
      nodes := nodes[id := NodeState(capacity, false, false)];
      order := order + [id];
    }

    method Delete(id: Id)
      requires Valid() && id in nodes
      modifies this
      ensures Valid() && nodes == old(nodes) - {id}
    {
      nodes := nodes - {id};
      var k :| 0 <= k < |order| && order[k] == id;
      order := order[..k] + order[k + 1..];
    }

    method Set(id: Id, failed: bool, draining: bool)
      requires Valid() && id in nodes
      modifies `nodes
      ensures Valid() && nodes == old(nodes)[id := old(nodes)[id].(failed := failed, draining := draining)]
    {
      nodes := nodes[id := nodes[id].(failed := failed, draining := draining)];
    }
  }

  /** Fires once per loss: again only after the node recovered or was attached anew. */
  class NodeFailureTracker {
    var listening: set<Id>
    var gone: set<Id>

    /** Every registered node is watched, and a healthy one can still be reported. */
    ghost predicate Watches(nodes: map<Id, NodeState>) reads this {
      listening == nodes.Keys && forall id :: id in nodes && !nodes[id].failed ==> id !in gone
    }

    constructor ()
      ensures Watches(map[])
    {
      listening, gone := {}, {};
    }

    method Attach(id: Id)
      modifies this
      ensures listening == old(listening) + {id}
      ensures gone == if id in old(listening) then old(gone) else old(gone) - {id}
    {
      if id in listening {
        return;
      }
      gone := gone - {id};
      listening := listening + {id};
    }

    method Detach(id: Id)
      modifies this
      ensures listening == old(listening) - {id} && gone == old(gone)
    {
      listening := listening - {id};
    }

    /** Whether `onGone` is to be called for a loss. */
    method FireGone(id: Id) returns (fire: bool)
      modifies this
      ensures fire == (id !in old(gone)) && gone == old(gone) + {id} && listening == old(listening)
    {
      if id in gone {
        return false;
      }
      gone := gone + {id};
      return true;
    }

    method Recovered(id: Id)
      modifies this
      ensures gone == (if id in listening then old(gone) - {id} else old(gone)) && listening == old(listening)
    {
      if id in listening {
        gone := gone - {id};
      }
    }
  }
}
