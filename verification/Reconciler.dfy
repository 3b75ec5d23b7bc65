/** Turning membership snapshots into add, update and remove callbacks, with handlers that re-enter. */
module Reconciler {
  import opened Common

  type Id = string

  /** `capacity` is the numeric value of the node's `capacity` metadata, if it has one. */
  datatype NodeInfo = NodeInfo(id: Id, capacity: Option<real>)

  datatype Snapshot = Snapshot(nodes: seq<NodeInfo>, allowRemove: bool)

  datatype Event = Added(node: NodeInfo) | Updated(node: NodeInfo) | Removed(id: Id)

  type Table = map<Id, NodeInfo>

  // ---- What a listener knows after a run of callbacks ----

  ghost predicate Allowed(known: Table, e: Event) {
    match e
    case Added(n) => n.id !in known
    case Updated(n) => n.id in known
    case Removed(id) => id in known
  }

  function Then(known: Table, e: Event): Table {
    match e
    case Added(n) => known[n.id := n]
    case Updated(n) => known[n.id := n]
    case Removed(id) => known - {id}
  }

  /** The nodes, with their latest info, that a listener to `es` takes to be live. */
  function Known(es: seq<Event>): Table {
    if es == [] then map[] else Then(Known(es[..|es| - 1]), es[|es| - 1])
  }

  /** Nothing is added twice, and nothing untracked is updated or removed. */
  ghost predicate Legal(es: seq<Event>) {
    es == [] || (Legal(es[..|es| - 1]) && Allowed(Known(es[..|es| - 1]), es[|es| - 1]))
  }

  /** A snapshot as a table; the last entry for an id counts. */
  function TableOf(nodes: seq<NodeInfo>): Table {
    if nodes == [] then map[] else TableOf(nodes[..|nodes| - 1])[nodes[|nodes| - 1].id := nodes[|nodes| - 1]]
  }

  lemma Append(es: seq<Event>, e: Event)
    ensures Known(es + [e]) == Then(Known(es), e)
    ensures Legal(es + [e]) <==> Legal(es) && Allowed(Known(es), e)
  {
    assert (es + [e])[..|es|] == es;
  }

  /** The callback a live node calls for. */
  function PutEvent(known: Table, node: NodeInfo): Event {
    if node.id in known then Updated(node) else Added(node)
  }

  lemma PutEventIsLegal(es: seq<Event>, node: NodeInfo)
    requires Legal(es)
    ensures var es' := es + [PutEvent(Known(es), node)];
            Legal(es') && Known(es') == Known(es)[node.id := node] && Known(es').Keys == Known(es).Keys + {node.id}
  {
    Append(es, PutEvent(Known(es), node));
  }

  lemma {:induction false} LegalPrefix(es: seq<Event>, k: nat)
    requires Legal(es) && k < |es|
    ensures Allowed(Known(es[..k]), es[k])
  {
    if k < |es| - 1 {
      LegalPrefix(es[..|es| - 1], k);
      assert es[..|es| - 1][..k] == es[..k];
    }
  }

  ghost predicate Announces(e: Event, id: Id) {
    e.Added? && e.node.id == id
  }

  lemma {:induction false} MembershipPersists(es: seq<Event>, i: nat, j: nat, id: Id)
    requires i <= j <= |es|
    ensures id in Known(es[..i]) && (forall k :: i <= k < j ==> es[k] != Removed(id)) ==> id in Known(es[..j])
    ensures Legal(es) && id !in Known(es[..i]) && (forall k :: i <= k < j ==> !Announces(es[k], id))
            ==> id !in Known(es[..j])
    decreases j
  {
    if i < j {
      MembershipPersists(es, i, j - 1, id);
      assert es[..j] == es[..j - 1] + [es[j - 1]];
      Append(es[..j - 1], es[j - 1]);
      if Legal(es) {
        LegalPrefix(es, j - 1);
      }
    }
  }

  lemma AfterEvent(es: seq<Event>, i: nat)
    requires i < |es|
    ensures Known(es[..i + 1]) == Then(Known(es[..i]), es[i])
  {
    assert es[..i + 1] == es[..i] + [es[i]];
    Append(es[..i], es[i]);
  }

  /** Between two additions of a node lies its removal, and between two removals its addition. */
  lemma AddAndRemoveAlternate(es: seq<Event>, i: nat, j: nat, id: Id)
    requires Legal(es) && i < j < |es|
    ensures Announces(es[i], id) && Announces(es[j], id) ==> exists k :: i < k < j && es[k] == Removed(id)
    ensures es[i] == Removed(id) && es[j] == Removed(id) ==> exists k :: i < k < j && Announces(es[k], id)
  {
    AfterEvent(es, i);
    LegalPrefix(es, j);
    MembershipPersists(es, i + 1, j, id);
  }

  // ---- The reconciler ----

  lemma OneMore(before: Table, nodes: seq<NodeInfo>, i: nat)
    requires i < |nodes|
    ensures TableOf(nodes[..i + 1]) == TableOf(nodes[..i])[nodes[i].id := nodes[i]]
    ensures before + TableOf(nodes[..i + 1]) == (before + TableOf(nodes[..i]))[nodes[i].id := nodes[i]]
  {
    assert nodes[..i + 1][..i] == nodes[..i];
  }

  // ---- What re-entrant handlers deliver ----

  type Nodes = seq<NodeInfo>

  /** What handlers do: the n-th callback reports the node lists `script[n]`, in order, before it returns. */
  type Script = seq<seq<Nodes>>

  function Flatten(parts: Script): seq<Nodes> {
    if parts == [] then [] else Flatten(parts[..|parts| - 1]) + parts[|parts| - 1]
  }

  /** What is left of a script after `n` callbacks. */
  function Rest(script: Script, n: nat): Script {
    script[Min(n, |script|)..]
  }

  /** Everything the first `n` callbacks reported, in order. */
  function Reports(script: Script, n: nat): seq<Nodes> {
    Flatten(script[..Min(n, |script|)])
  }

  /** The last snapshot delivered when `s` came first and `reports` came after it. */
  function Last(s: Snapshot, reports: seq<Nodes>): Snapshot {
    if reports == [] then s else Snapshot(reports[|reports| - 1], true)
  }

  lemma {:induction false} FlattenConcat(a: Script, b: Script)
    ensures Flatten(a + b) == Flatten(a) + Flatten(b)
    decreases |b|
  {
    if b == [] {
      assert a + b == a;
    } else {
      var init, last := b[..|b| - 1], b[|b| - 1];
      assert (a + b)[..|a + b| - 1] == a + init;
      FlattenConcat(a, init);
      Assoc(Flatten(a), Flatten(init), last);
    }
  }

  /** What the next callback reports, and the script after it. */
  function Turn(script: Script): seq<Nodes> {
    if script == [] then [] else script[0]
  }

  function AfterTurn(script: Script): Script {
    if script == [] then [] else script[1..]
  }

  lemma OneMoreCallback(script: Script, n: nat)
    ensures Rest(script, n + 1) == AfterTurn(Rest(script, n))
    ensures Reports(script, n + 1) == Reports(script, n) + Turn(Rest(script, n))
    ensures |Rest(script, n + 1)| <= |Rest(script, n)|
  {
    if n < |script| {
      assert script[..n + 1][..n] == script[..n];
    } else {
      assert Reports(script, n) + [] == Reports(script, n);
    }
  }

  lemma TwoStretches(script: Script, m: nat, n: nat)
    ensures Rest(Rest(script, m), n) == Rest(script, m + n)
    ensures Reports(script, m + n) == Reports(script, m) + Reports(Rest(script, m), n)
  {
    var i, j := Min(m, |script|), Min(m + n, |script|);
    assert script[..j] == script[..i] + script[i..j];
    assert script[i..j] == script[i..][..Min(n, |script| - i)];
    FlattenConcat(script[..i], script[i..j]);
  }

  lemma ReportsUseTheScript(script: Script, n: nat)
    ensures Rest(script, 0) == script && Reports(script, 0) == []
    ensures |Rest(script, n)| <= |script|
    ensures Reports(script, n) != [] ==> |Rest(script, n)| < |script|
  {
  }

  lemma NothingReported(n: nat)
    ensures Rest([], n) == [] && Reports([], n) == []
  {
  }

  /** The report that waits for a pass to end when `heard` came in during it. */
  function Queued(heard: seq<Nodes>): Option<Snapshot> {
    if heard == [] then None else Some(Snapshot(heard[|heard| - 1], true))
  }

  lemma QueueKeepsTheLast(heard: seq<Nodes>, more: seq<Nodes>, i: nat)
    requires i < |more|
    ensures Queued(heard + more[..i + 1]) == Some(Snapshot(more[i], true))
  {
    assert (heard + more[..i + 1])[|heard| + i] == more[i];
  }

  /** A pass over `s`, and then whatever follows from the report that waited for its end. */
  lemma Continued(s: Snapshot, script: Script, m: nat, n: nat)
    requires Reports(script, m) != []
    ensures Queued(Reports(script, m)) == Some(Last(s, Reports(script, m)))
    ensures |Rest(script, m)| < |script| && Rest(Rest(script, m), n) == Rest(script, m + n)
    ensures Last(Last(s, Reports(script, m)), Reports(Rest(script, m), n)) == Last(s, Reports(script, m + n))
    ensures Reports(script, m + n) != []
  {
    TwoStretches(script, m, n);
    ReportsUseTheScript(script, m);
  }

  /** A pass only makes the callbacks it has to: nothing tracked is added, nothing live is removed. */
  ghost predicate Needed(ids: set<Id>, s: Snapshot, e: Event) {
    match e
    case Added(n) => n.id !in ids && n in s.nodes
    case Updated(n) => n in s.nodes
    case Removed(id) => id in ids && id !in TableOf(s.nodes)
  }

  /** The callbacks from the `from`-th on are needed. */
  ghost predicate Minimal(ids: set<Id>, s: Snapshot, es: seq<Event>, from: nat) {
    forall k :: from <= k < |es| ==> Needed(ids, s, es[k])
  }

  lemma MinimalSnoc(ids: set<Id>, s: Snapshot, es: seq<Event>, from: nat, e: Event)
    requires Minimal(ids, s, es, from) && Needed(ids, s, e)
    ensures Minimal(ids, s, es + [e], from)
  {
  }

  /** The reconciler with handlers that follow `script`; `events` are the callbacks made so far. */
  class MembershipReconciler {
    var ids: set<Id>
    var seen: bool
    var syncing: bool
    var pending: Option<Snapshot>
    var events: seq<Event>
    var script: Script

    ghost predicate Valid() reads this {
      Legal(events) && Known(events).Keys == ids
    }

    /** At rest: no pass is running and no snapshot is waiting. */
    ghost predicate AtRest() reads this {
      Valid() && !syncing && pending == None
    }

    /** The callbacks from the `n0`-th on each played their part of `script0`. */
    ghost predicate Ran(script0: Script, n0: nat) reads this {
      n0 <= |events| && script == Rest(script0, |events| - n0)
    }

    /** What was reported since the `n0`-th callback, with `script0` still to play then. */
    ghost function Heard(script0: Script, n0: nat): seq<Nodes>
      requires n0 <= |events|
      reads this
    {
      Reports(script0, |events| - n0)
    }

    /** In the middle of a pass: of everything reported since it began, the last report is waiting. */
    ghost predicate Waiting(script0: Script, n0: nat, seen0: bool) reads this {
      && syncing && Ran(script0, n0)
      && pending == Queued(Heard(script0, n0)) && seen == (seen0 || Heard(script0, n0) != [])
    }

    /** What the callbacks have told is the snapshot; one that may not remove only adds and updates. */
    ghost predicate CaughtUp(s: Snapshot) reads this {
      if s.allowRemove then Known(events) == TableOf(s.nodes) else Contains(Known(events), TableOf(s.nodes))
    }

    constructor (script: Script)
      ensures AtRest() && ids == {} && events == [] && !seen && this.script == script
    {
      ids, seen, syncing, pending, events, this.script := {}, false, false, None, [], script;
    }

    /**
     The watch callback. Outermost, it ends with the listeners knowing exactly the last node list reported: `nodes`, or
     whatever a handler reported last while it ran.
     */
    method Watch(nodes: Nodes)
      requires Valid() && (!syncing ==> pending == None)
      modifies this
      ensures Valid() && seen && syncing == old(syncing)
      ensures old(events) <= events
      ensures old(syncing) ==>
                && pending == Some(Snapshot(nodes, true))
                && ids == old(ids) && events == old(events) && script == old(script)
      ensures !old(syncing) ==>
                && AtRest() && Ran(old(script), old(|events|))
                && Known(events) == TableOf(Last(Snapshot(nodes, true), Heard(old(script), old(|events|))).nodes)
      decreases |script|, 6
    {
      seen := true;
      Sync(Snapshot(nodes, true));
    }

    /** The answer of the initial `list()`; ignored once a watch has reported. */
    method Listed(nodes: Nodes)
      requires AtRest()
      modifies this
      ensures AtRest() && old(events) <= events
      ensures old(seen) ==> seen && events == old(events) && ids == old(ids) && script == old(script)
      ensures !old(seen) ==>
                && Ran(old(script), old(|events|)) && seen == (Heard(old(script), old(|events|)) != [])
                && CaughtUp(Last(Snapshot(nodes, false), Heard(old(script), old(|events|))))
    {
      if !seen {
        Sync(Snapshot(nodes, false));
      }
    }

    /** Outermost, it ends caught up with the last snapshot delivered, however the handlers re-enter. */
    method Sync(s: Snapshot)
      requires Valid() && (!syncing ==> pending == None)
      modifies this
      ensures Valid() && syncing == old(syncing) && old(events) <= events
      ensures old(syncing) ==>
                && pending == Some(s) && seen == old(seen)
                && ids == old(ids) && events == old(events) && script == old(script)
      ensures !old(syncing) ==>
                && AtRest() && Ran(old(script), old(|events|))
                && CaughtUp(Last(s, Heard(old(script), old(|events|))))
                && seen == (old(seen) || Heard(old(script), old(|events|)) != [])
      decreases |script|, 5
    {
      if syncing {
        pending := Some(s);
        return;
      }
      Pass(s);
      ReportsUseTheScript(old(script), |events| - |old(events)|);
      if pending.Some? {
        Resume(s, old(script), old(|events|), old(seen));
      }
    }

    /** After a pass during which something was reported. */
    method Resume(ghost s: Snapshot, ghost script0: Script, ghost n0: nat, ghost seen0: bool)
      requires Valid() && !syncing && Ran(script0, n0) && pending.Some?
      requires pending == Queued(Heard(script0, n0)) && seen == (seen0 || Heard(script0, n0) != [])
      modifies this
      ensures AtRest() && Ran(script0, n0) && old(events) <= events
      ensures CaughtUp(Last(s, Heard(script0, n0))) && seen == (seen0 || Heard(script0, n0) != [])
      decreases |script|, 6
    {
      ghost var m, n1 := |events| - n0, |events|;
      var next := pending.value;
      pending := None;
      Sync(next);
      Continued(s, script0, m, |events| - n1);
    }

    /** One pass over `s`, with what was reported meanwhile left waiting. */
    method Pass(s: Snapshot)
      requires AtRest()
      modifies this
      ensures Valid() && !syncing && old(events) <= events && Ran(old(script), old(|events|)) && CaughtUp(s)
      ensures pending == Queued(Heard(old(script), old(|events|)))
      ensures seen == (old(seen) || Heard(old(script), old(|events|)) != [])
      decreases |script|, 5, 0
    {
      syncing := true;
      Apply(s);
      syncing := false;
    }

    method Apply(s: Snapshot)
      requires Valid() && syncing && pending == None
      modifies this
      ensures Valid() && old(events) <= events && Waiting(old(script), old(|events|), old(seen))
      ensures s.allowRemove ==> Known(events) == TableOf(s.nodes)
      ensures !s.allowRemove ==> Known(events) == Known(old(events)) + TableOf(s.nodes)
      ensures Minimal(old(ids), s, events, |old(events)|)
      decreases |script|, 4
    {
      ReportsUseTheScript(script, 0);
      var live := AddLive(s, script, |events|, seen);
      if s.allowRemove {
        RemoveGone(s, live, old(script), old(|events|), old(seen), old(ids));
      }
    }

    /** The first loop: everything in the snapshot is added or updated. */
    method AddLive(s: Snapshot, ghost script0: Script, ghost n0: nat, ghost seen0: bool)
      returns (live: set<Id>)
      requires Valid() && Waiting(script0, n0, seen0) && n0 == |events|
      modifies this
      ensures Valid() && Waiting(script0, n0, seen0) && |script| <= old(|script|) && old(events) <= events
      ensures live == TableOf(s.nodes).Keys && Known(events) == Known(old(events)) + TableOf(s.nodes)
      ensures ids == old(ids) + live && Minimal(old(ids), s, events, n0)
      decreases |script|, 3
    {
      live := {};
      for i := 0 to |s.nodes|
        invariant Valid() && Waiting(script0, n0, seen0) && |script| <= old(|script|) && old(events) <= events
        invariant live == TableOf(s.nodes[..i]).Keys && Known(events) == Known(old(events)) + TableOf(s.nodes[..i])
        invariant ids == old(ids) + live && Minimal(old(ids), s, events, n0)
      {
        OneMore(Known(old(events)), s.nodes, i);
        live := live + {s.nodes[i].id};
        AddOrUpdate(s.nodes[i], script0, n0, seen0);
      }
      assert s.nodes[..|s.nodes|] == s.nodes;
    }

    method AddOrUpdate(node: NodeInfo, ghost script0: Script, ghost n0: nat, ghost seen0: bool)
      requires Valid() && Waiting(script0, n0, seen0)
      modifies this
      ensures Valid() && Waiting(script0, n0, seen0) && |script| <= old(|script|)
      ensures events == old(events) + [if node.id in old(ids) then Updated(node) else Added(node)]
      ensures Known(events) == Known(old(events))[node.id := node] && ids == old(ids) + {node.id}
      decreases |script|, 2
    {
      PutEventIsLegal(events, node);
      if node.id in ids {
        assert ids == ids + {node.id};
        Callback(Updated(node), script0, n0, seen0);
      } else {
        ids := ids + {node.id};
        Callback(Added(node), script0, n0, seen0);
      }
    }

    /** The second loop: what is tracked and not in the snapshot is removed. */
    method RemoveGone(s: Snapshot, live: set<Id>, ghost script0: Script, ghost n0: nat, ghost seen0: bool,
                      ghost ids0: set<Id>)
      requires Valid() && Waiting(script0, n0, seen0)
      requires live == TableOf(s.nodes).Keys && Contains(Known(events), TableOf(s.nodes))
      requires ids == ids0 + live && Minimal(ids0, s, events, n0)
      modifies this
      ensures Valid() && Waiting(script0, n0, seen0) && old(events) <= events
      ensures Known(events) == TableOf(s.nodes) && Minimal(ids0, s, events, n0)
      decreases |script|, 3
    {
      var todo := ids;
      while todo != {}
        invariant Valid() && Waiting(script0, n0, seen0) && |script| <= old(|script|) && old(events) <= events
        invariant ids <= live + todo && todo <= ids <= ids0 + live
        invariant Contains(Known(events), TableOf(s.nodes)) && Minimal(ids0, s, events, n0)
        decreases |todo|
      {
        var id :| id in todo;
        todo := todo - {id};
        if id !in live {
          RemovalKeepsContained(Known(events), TableOf(s.nodes), id);
          MinimalSnoc(ids0, s, events, n0, Removed(id));
          Remove(id, script0, n0, seen0);
        }
      }
    }

    method Remove(id: Id, ghost script0: Script, ghost n0: nat, ghost seen0: bool)
      requires Valid() && Waiting(script0, n0, seen0) && id in ids
      modifies this
      ensures Valid() && Waiting(script0, n0, seen0) && |script| <= old(|script|)
      ensures events == old(events) + [Removed(id)]
      ensures ids == old(ids) - {id} && Known(events) == Known(old(events)) - {id}
      decreases |script|, 2
    {
      Append(events, Removed(id));
      ids := ids - {id};
      Callback(Removed(id), script0, n0, seen0);
    }

    /** Calls a handler, which may report node lists of its own. */
    method Callback(e: Event, ghost script0: Script, ghost n0: nat, ghost seen0: bool)
      requires Waiting(script0, n0, seen0) && Legal(events + [e]) && Known(events + [e]).Keys == ids
      modifies this
      ensures Valid() && Waiting(script0, n0, seen0) && |script| <= old(|script|)
      ensures ids == old(ids) && events == old(events) + [e]
      decreases |script|, 1
    {
      ghost var heard := Heard(script0, n0);
      var reports := Announce(e, script0, n0);
      if reports == [] {
        assert heard + reports == heard;
      } else {
        Play(reports, heard, seen0);
      }
    }

    /** The callback itself, and what its handler is about to report. */
    method Announce(e: Event, ghost script0: Script, ghost n0: nat) returns (reports: seq<Nodes>)
      requires Ran(script0, n0)
      modifies `events, `script
      ensures events == old(events) + [e] && Ran(script0, n0) && Heard(script0, n0) == old(Heard(script0, n0)) + reports
      ensures |script| <= old(|script|) && (reports != [] ==> |script| < old(|script|))
    {
      OneMoreCallback(script0, |events| - n0);
      events := events + [e];
      reports := Turn(script);
      script := AfterTurn(script);
    }

    /** What a handler reports while a pass is running: only the last report is kept. */
    method Play(reports: seq<Nodes>, ghost heard: seq<Nodes>, ghost seen0: bool)
      requires Valid() && syncing && pending == Queued(heard) && seen == (seen0 || heard != [])
      modifies this
      ensures Valid() && syncing && pending == Queued(heard + reports) && seen == (seen0 || heard + reports != [])
      ensures ids == old(ids) && events == old(events) && script == old(script)
      decreases |script|, 7
    {
      assert heard + reports[..0] == heard;
      for i := 0 to |reports|
        invariant Valid() && syncing && ids == old(ids) && events == old(events) && script == old(script)
        invariant pending == Queued(heard + reports[..i]) && seen == (seen0 || heard + reports[..i] != [])
      {
        Watch(reports[i]);
        QueueKeepsTheLast(heard, reports, i);
      }
      assert reports[..|reports|] == reports;
    }
  }

  ghost predicate Contains(known: Table, part: Table) {
    forall id :: id in part ==> id in known && known[id] == part[id]
  }

  lemma RemovalKeepsContained(known: Table, part: Table, id: Id)
    requires Contains(known, part) && id !in part
    ensures Contains(known - {id}, part)
  {
  }
}
