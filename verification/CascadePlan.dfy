/** Planning a cascade tree: which nodes join, how they hang together, and who serves how many viewers. */
module CascadePlan {
  import opened Common

  type Id = string

  datatype Role = Origin | Relay | Edge

  datatype PlanNode = PlanNode(id: Id, role: Role, parentId: Option<Id>, children: seq<Id>, tier: nat, viewerSlots: nat)

  datatype Link = Link(from: Id, to: Id)

  /** `nodes` lists the plan's nodes in the order they were placed. */
  datatype Plan = Plan(origin: Id, nodes: seq<PlanNode>, links: seq<Link>, edges: seq<Id>, tiers: nat,
                       servedViewers: nat, unmetViewers: nat)

  datatype Planned = Planned(plan: Plan) | InvalidArgument

  function Pow(b: nat, e: nat): nat {
    if e == 0 then 1 else b * Pow(b, e - 1)
  }

  // ---- What a tree must look like ----

  function Ids(nodes: seq<PlanNode>): (ids: seq<Id>)
    ensures |ids| == |nodes|
  {
    seq(|nodes|, j requires 0 <= j < |nodes| => nodes[j].id)
  }

  /** The first index of the children of node `j` in a heap of `n` nodes. */
  function FirstChild(f: nat, j: nat, n: nat): (c: nat)
    ensures c <= n
  {
    Min(f * j + 1, n)
  }

  function ChildIds(f: nat, nodes: seq<PlanNode>, j: nat): seq<Id> {
    FirstChildMonotone(f, j, |nodes|);
    Ids(nodes)[FirstChild(f, j, |nodes|)..FirstChild(f, j + 1, |nodes|)]
  }

  lemma FirstChildMonotone(f: nat, j: nat, n: nat)
    ensures FirstChild(f, j, n) <= FirstChild(f, j + 1, n)
    ensures f * (j + 1) == f * j + f
  {
  }

  /** Node `j` hangs under node `(j - 1) / f`, one tier below it. */
  ghost predicate HangsRight(f: nat, nodes: seq<PlanNode>, j: nat)
    requires f >= 1 && j < |nodes|
  {
    if j == 0 then nodes[0].parentId == None && nodes[0].tier == 0
    else
      var p := (j - 1) / f;
      0 <= p < j && nodes[j].parentId == Some(nodes[p].id) && nodes[j].tier == nodes[p].tier + 1
  }

  /** The fanout-ary heap layout. */
  ghost predicate IsHeap(f: nat, nodes: seq<PlanNode>) {
    && f >= 1 && |nodes| >= 1
    && (forall j :: 0 <= j < |nodes| ==> HangsRight(f, nodes, j))
    && (forall j :: 0 <= j < |nodes| ==> nodes[j].children == ChildIds(f, nodes, j))
  }

  function RightRole(nodes: seq<PlanNode>, j: nat): Role
    requires j < |nodes|
  {
    if j == 0 then Origin else if nodes[j].children == [] then Edge else Relay
  }

  ghost predicate LinksMatch(nodes: seq<PlanNode>, links: seq<Link>) {
    && |links| + 1 == |nodes|
    && forall j :: 1 <= j < |nodes| ==>
         nodes[j].parentId.Some? && links[j - 1] == Link(nodes[j].parentId.value, nodes[j].id)
  }

  /** The nodes placed are the origin and a prefix of the pool. */
  ghost predicate Places(origin: Id, pool: seq<Id>, nodes: seq<PlanNode>) {
    1 <= |nodes| <= |pool| + 1 && Ids(nodes) == [origin] + pool[..|nodes| - 1]
  }

  // ---- Who seats viewers ----

  function CapacityOf(origin: Id, viewersPerNode: nat, capacity: map<Id, nat>, id: Id): nat {
    if id == origin || id !in capacity then viewersPerNode else capacity[id]
  }

  function LeafCapacity(origin: Id, v: nat, capacity: map<Id, nat>, nodes: seq<PlanNode>, from: nat): nat
    requires from <= |nodes|
    decreases |nodes| - from
  {
    if from == |nodes| then 0
    else (if nodes[from].children == [] then CapacityOf(origin, v, capacity, nodes[from].id) else 0)
         + LeafCapacity(origin, v, capacity, nodes, from + 1)
  }

  function TotalSlots(nodes: seq<PlanNode>): nat {
    if nodes == [] then 0 else TotalSlots(nodes[..|nodes| - 1]) + nodes[|nodes| - 1].viewerSlots
  }

  function SeatedIds(nodes: seq<PlanNode>): seq<Id> {
    if nodes == [] then []
    else SeatedIds(nodes[..|nodes| - 1]) + if nodes[|nodes| - 1].viewerSlots > 0 then [nodes[|nodes| - 1].id] else []
  }

  /** Slots sit at leaves only and within each leaf's capacity. */
  ghost predicate SlotsFit(origin: Id, v: nat, capacity: map<Id, nat>, nodes: seq<PlanNode>) {
    forall j :: 0 <= j < |nodes| && nodes[j].viewerSlots > 0 ==>
      nodes[j].children == [] && nodes[j].viewerSlots <= CapacityOf(origin, v, capacity, nodes[j].id)
  }

  // ---- The promise of a plan ----

  ghost predicate TreePart(origin: Id, f: nat, pool: seq<Id>, nodes: seq<PlanNode>, links: seq<Link>) {
    && Places(origin, pool, nodes)
    && IsHeap(f, nodes)
    && (forall j :: 0 <= j < |nodes| ==> nodes[j].role == RightRole(nodes, j))
    && LinksMatch(nodes, links)
  }

  /** How many nodes stand above tier `t` when every tier above it is full. */
  function Above(f: nat, t: nat): nat {
    if t == 0 then 0 else f * Above(f, t - 1) + 1
  }

  /** No tier was opened needlessly, and tiers were opened until the last one suffices or the pool ran out. */
  ghost predicate DepthPart(f: nat, v: nat, viewerCount: nat, pool: seq<Id>, nodes: seq<PlanNode>, tiers: nat) {
    && tiers >= 1
    && var last := Above(f, tiers - 1);
       && last < |nodes| <= Above(f, tiers)
       && (forall j :: last <= j < |nodes| ==> nodes[j].children == [] && nodes[j].tier == tiers - 1)
       && (forall j :: 0 <= j < last ==> nodes[j].tier < tiers - 1)
       && (tiers >= 2 ==> Pow(f, tiers - 2) * v < viewerCount)
       && (|nodes| < |pool| + 1 ==> |nodes| == Above(f, tiers) && Pow(f, tiers - 1) * v >= viewerCount)
  }

  ghost predicate SeatPart(origin: Id, v: nat, viewerCount: nat, capacity: map<Id, nat>, plan: Plan) {
    && SlotsFit(origin, v, capacity, plan.nodes)
    && TotalSlots(plan.nodes) == plan.servedViewers
    && plan.servedViewers == Min(viewerCount, LeafCapacity(origin, v, capacity, plan.nodes, 0))
    && plan.servedViewers + plan.unmetViewers == viewerCount
    && plan.edges == SeatedIds(plan.nodes)
  }

  ghost predicate PlanOk(origin: Id, viewerCount: nat, f: nat, v: nat, pool: seq<Id>, capacity: map<Id, nat>,
                         plan: Plan)
  {
    && plan.origin == origin
    && TreePart(origin, f, pool, plan.nodes, plan.links)
    && DepthPart(f, v, viewerCount, pool, plan.nodes, plan.tiers)
    && SeatPart(origin, v, viewerCount, capacity, plan)
  }

  function WithoutOrigin(ids: seq<Id>, origin: Id): seq<Id> {
    if ids == [] then []
    else (if ids[0] == origin then [] else [ids[0]]) + WithoutOrigin(ids[1..], origin)
  }

  // ---- Placing nodes ----

  lemma {:induction false} MulOrder(f: nat, a: int, b: int)
    ensures a < b ==> f * a + f <= f * b
    decreases b - a
  {
    assert f * (b - 1) == f * b - f;
    if a < b - 1 {
      MulOrder(f, a, b - 1);
    }
  }

  lemma DivUnique(f: nat, p: nat, i: nat)
    requires f >= 1 && i < f
    ensures (f * p + i) / f == p
  {
    var q := (f * p + i) / f;
    assert f * p + i == f * q + (f * p + i) % f;
    MulOrder(f, p, q);
    MulOrder(f, q, p);
  }

  /** One more child under `p`, as the planner adds it. */
  function WithChild(nodes: seq<PlanNode>, p: nat, id: Id): seq<PlanNode>
    requires p < |nodes|
  {
    nodes[p := nodes[p].(children := nodes[p].children + [id])]
    + [PlanNode(id, Edge, Some(nodes[p].id), [], nodes[p].tier + 1, 0)]
  }

  /** The next free heap position is under `p`. */
  predicate NextUnder(f: nat, n: nat, p: nat) {
    f * p + 1 <= n < f * p + 1 + f
  }

  lemma FirstChildGrows(f: nat, p: nat, n: nat, j: nat)
    requires f >= 1 && NextUnder(f, n, p)
    ensures j <= p ==> FirstChild(f, j, n) == FirstChild(f, j, n + 1) == f * j + 1
    ensures j > p ==> FirstChild(f, j, n) == n && FirstChild(f, j, n + 1) == n + 1
  {
    if j <= p {
      assert f * j <= f * p;
    } else {
      assert f * j >= f * (p + 1);
      assert f * (p + 1) == f * p + f;
    }
  }

  lemma SliceOfLonger(ids: seq<Id>, id: Id, lo: nat, hi: nat)
    requires lo <= hi <= |ids|
    ensures (ids + [id])[lo..hi] == ids[lo..hi]
    ensures (ids + [id])[lo..|ids| + 1] == ids[lo..] + [id]
  {
  }

  lemma ChildIdsGrow(f: nat, nodes: seq<PlanNode>, p: nat, id: Id, j: nat)
    requires f >= 1 && p < |nodes| && NextUnder(f, |nodes|, p) && j <= |nodes|
    ensures var nodes' := WithChild(nodes, p, id);
            ChildIds(f, nodes', j) == if j == p then ChildIds(f, nodes, j) + [id] else ChildIds(f, nodes, j)
  {
    assert Ids(WithChild(nodes, p, id)) == Ids(nodes) + [id];
    FirstChildMonotone(f, j, |nodes|);
    FirstChildGrows(f, p, |nodes|, j);
    FirstChildGrows(f, p, |nodes|, j + 1);
    SliceOfLonger(Ids(nodes), id, FirstChild(f, j, |nodes|), FirstChild(f, j + 1, |nodes|));
    if j > p {
      assert (Ids(nodes) + [id])[|nodes| + 1..|nodes| + 1] == [] == Ids(nodes)[|nodes|..|nodes|];
    }
  }

  lemma WithChildIsHeap(f: nat, nodes: seq<PlanNode>, p: nat, id: Id)
    requires IsHeap(f, nodes) && p < |nodes| && NextUnder(f, |nodes|, p)
    ensures IsHeap(f, WithChild(nodes, p, id))
  {
    var nodes' := WithChild(nodes, p, id);
    forall j | 0 <= j < |nodes'| ensures HangsRight(f, nodes', j) {
      StillHangs(f, nodes, p, id, j);
    }
    forall j | 0 <= j < |nodes'| ensures nodes'[j].children == ChildIds(f, nodes', j) {
      ChildrenStillListed(f, nodes, p, id, j);
    }
  }

  lemma ChildrenStillListed(f: nat, nodes: seq<PlanNode>, p: nat, id: Id, j: nat)
    requires f >= 1 && p < |nodes| && NextUnder(f, |nodes|, p) && j <= |nodes|
    requires j < |nodes| ==> nodes[j].children == ChildIds(f, nodes, j)
    ensures WithChild(nodes, p, id)[j].children == ChildIds(f, WithChild(nodes, p, id), j)
  {
    if j == |nodes| {
      NewestHasNoChildren(f, WithChild(nodes, p, id));
    } else {
      ChildIdsGrow(f, nodes, p, id, j);
    }
  }

  lemma NewestHasNoChildren(f: nat, nodes: seq<PlanNode>)
    requires f >= 1 && nodes != []
    ensures ChildIds(f, nodes, |nodes| - 1) == []
  {
    TimesGrows(f, |nodes| - 1);
    NoChildrenYet(f, nodes, |nodes| - 1);
  }

  lemma {:induction false} TimesGrows(f: nat, j: nat)
    requires f >= 1
    ensures f * j >= j
  {
    if j > 0 {
      TimesGrows(f, j - 1);
      assert f * j == f * (j - 1) + f;
    }
  }

  lemma StillHangs(f: nat, nodes: seq<PlanNode>, p: nat, id: Id, j: nat)
    requires f >= 1 && p < |nodes| && NextUnder(f, |nodes|, p) && j <= |nodes|
    requires j < |nodes| ==> HangsRight(f, nodes, j)
    ensures HangsRight(f, WithChild(nodes, p, id), j)
  {
    if j == |nodes| {
      DivUnique(f, p, j - 1 - f * p);
    }
  }

  lemma NoChildrenYet(f: nat, nodes: seq<PlanNode>, j: nat)
    requires f >= 1 && |nodes| <= f * j + 1
    ensures ChildIds(f, nodes, j) == []
  {
    FirstChildMonotone(f, j, |nodes|);
  }

  /**
   Nodes were taken from the front of the pool and added as leaves of tier `tier`; older nodes only gained children.
   */
  ghost predicate Grown(nodes: seq<PlanNode>, pool: seq<Id>, nodes': seq<PlanNode>, pool': seq<Id>, tier: nat) {
    && |nodes| <= |nodes'|
    && Ids(nodes') + pool' == Ids(nodes) + pool
    && (forall j :: 0 <= j < |nodes| ==> nodes'[j] == nodes[j].(children := nodes'[j].children))
    && (forall j :: |nodes| <= j < |nodes'| ==>
          nodes'[j].role == Edge && nodes'[j].tier == tier && nodes'[j].viewerSlots == 0)
  }

  lemma WithChildGrows(nodes0: seq<PlanNode>, pool0: seq<Id>, nodes: seq<PlanNode>, pool: seq<Id>, p: nat)
    requires pool != [] && p < |nodes0| && Grown(nodes0, pool0, nodes, pool, nodes0[p].tier + 1)
    ensures Grown(nodes0, pool0, WithChild(nodes, p, pool[0]), pool[1..], nodes0[p].tier + 1)
  {
    var nodes' := WithChild(nodes, p, pool[0]);
    assert Ids(nodes') == Ids(nodes) + [pool[0]];
    assert Ids(nodes') + pool[1..] == Ids(nodes) + ([pool[0]] + pool[1..]);
    assert [pool[0]] + pool[1..] == pool;
  }

  /** Up to `f` children for node `p`. */
  method PlaceChildren(f: nat, nodes0: seq<PlanNode>, links0: seq<Link>, pool0: seq<Id>, p: nat)
    returns (nodes: seq<PlanNode>, links: seq<Link>, pool: seq<Id>)
    requires IsHeap(f, nodes0) && LinksMatch(nodes0, links0) && p < |nodes0| == f * p + 1
    ensures IsHeap(f, nodes) && LinksMatch(nodes, links) && Grown(nodes0, pool0, nodes, pool, nodes0[p].tier + 1)
    ensures |nodes| <= f * (p + 1) + 1 && (pool != [] ==> |nodes| == f * (p + 1) + 1)
    ensures pool0 != [] ==> |nodes| > |nodes0|
  {
    nodes, links, pool := nodes0, links0, pool0;
    var i := 0;
    while i < f && pool != []
      invariant i <= f && |nodes| == f * p + 1 + i
      invariant IsHeap(f, nodes) && LinksMatch(nodes, links) && Grown(nodes0, pool0, nodes, pool, nodes0[p].tier + 1)
      invariant i == 0 ==> pool == pool0
      decreases f - i
    {
      var childId := pool[0];
      WithChildIsHeap(f, nodes, p, childId);
      WithChildGrows(nodes0, pool0, nodes, pool, p);
      assert LinksMatch(WithChild(nodes, p, childId), links + [Link(nodes[p].id, childId)]);
      links := links + [Link(nodes[p].id, childId)];
      nodes := WithChild(nodes, p, childId);
      pool := pool[1..];
      i := i + 1;
    }
    assert f * (p + 1) == f * p + f;
  }

  lemma GrownTransitive(n0: seq<PlanNode>, p0: seq<Id>, n1: seq<PlanNode>, p1: seq<Id>, n2: seq<PlanNode>, p2: seq<Id>,
                        tier: nat)
    requires Grown(n0, p0, n1, p1, tier) && Grown(n1, p1, n2, p2, tier)
    ensures Grown(n0, p0, n2, p2, tier)
  {
  }

  lemma MulMonotone(f: nat, a: nat, b: nat)
    requires a <= b
    ensures f * a <= f * b
  {
  }

  /** The children of one frontier node, seen from the start of the tier. */
  method PlaceUnder(f: nat, ghost start: seq<PlanNode>, ghost startPool: seq<Id>, ghost tier: nat,
                    nodes0: seq<PlanNode>, links0: seq<Link>, pool0: seq<Id>, p: nat)
    returns (nodes: seq<PlanNode>, links: seq<Link>, pool: seq<Id>)
    requires IsHeap(f, nodes0) && LinksMatch(nodes0, links0) && Grown(start, startPool, nodes0, pool0, tier + 1)
    requires p < |start| && start[p].tier == tier && |nodes0| == f * p + 1 && pool0 != []
    ensures IsHeap(f, nodes) && LinksMatch(nodes, links) && Grown(start, startPool, nodes, pool, tier + 1)
    ensures |start| < |nodes| <= f * (p + 1) + 1 && (pool != [] ==> |nodes| == f * (p + 1) + 1)
  {
    assert nodes0[p].tier == tier;
    nodes, links, pool := PlaceChildren(f, nodes0, links0, pool0, p);
    GrownTransitive(start, startPool, nodes0, pool0, nodes, pool, tier + 1);
  }

  /** The next tier, below the frontier `[lo..hi)` that ends the current node list. */
  method PlaceTier(f: nat, nodes0: seq<PlanNode>, links0: seq<Link>, pool0: seq<Id>, lo: nat, ghost tier: nat)
    returns (nodes: seq<PlanNode>, links: seq<Link>, pool: seq<Id>)
    requires IsHeap(f, nodes0) && LinksMatch(nodes0, links0) && pool0 != []
    requires lo < |nodes0| == f * lo + 1
    requires forall j :: lo <= j < |nodes0| ==> nodes0[j].tier == tier
    ensures IsHeap(f, nodes) && LinksMatch(nodes, links) && Grown(nodes0, pool0, nodes, pool, tier + 1)
    ensures |nodes0| < |nodes| <= f * |nodes0| + 1 && (pool != [] ==> |nodes| == f * |nodes0| + 1)
  {
    nodes, links, pool := nodes0, links0, pool0;
    var p := lo;
    while p < |nodes0| && pool != []
      invariant lo <= p <= |nodes0|
      invariant IsHeap(f, nodes) && LinksMatch(nodes, links) && Grown(nodes0, pool0, nodes, pool, tier + 1)
      invariant |nodes| <= f * p + 1 && (pool != [] ==> |nodes| == f * p + 1)
      invariant p > lo ==> |nodes| > |nodes0|
    {
      nodes, links, pool := PlaceUnder(f, nodes0, pool0, tier, nodes, links, pool, p);
      p := p + 1;
    }
    MulMonotone(f, p, |nodes0|);
  }

  /** Interior nodes of the old frontier become relays. */
  method MarkRelays(nodes0: seq<PlanNode>, lo: nat, hi: nat) returns (nodes: seq<PlanNode>)
    requires lo <= hi <= |nodes0|
    ensures |nodes| == |nodes0|
    ensures forall j :: 0 <= j < |nodes| ==>
              nodes[j] == if lo <= j < hi && nodes0[j].children != [] && nodes0[j].role != Origin
                          then nodes0[j].(role := Relay) else nodes0[j]
  {
    nodes := nodes0;
    for p := lo to hi
      invariant |nodes| == |nodes0|
      invariant forall j :: 0 <= j < |nodes| ==>
                  nodes[j] == if lo <= j < p && nodes0[j].children != [] && nodes0[j].role != Origin
                              then nodes0[j].(role := Relay) else nodes0[j]
    {
      if nodes[p].children != [] && nodes[p].role != Origin {
        nodes := nodes[p := nodes[p].(role := Relay)];
      }
    }
  }

  /** Nothing but roles or slots differs. */
  ghost predicate SameShape(nodes: seq<PlanNode>, nodes': seq<PlanNode>) {
    |nodes| == |nodes'| && forall j :: 0 <= j < |nodes| ==>
      nodes'[j] == nodes[j].(role := nodes'[j].role, viewerSlots := nodes'[j].viewerSlots)
  }

  lemma SameShapeIsHeap(f: nat, nodes: seq<PlanNode>, nodes': seq<PlanNode>)
    requires IsHeap(f, nodes) && SameShape(nodes, nodes')
    ensures IsHeap(f, nodes') && Ids(nodes') == Ids(nodes)
  {
    assert Ids(nodes') == Ids(nodes);
    forall j | 0 <= j < |nodes'| ensures HangsRight(f, nodes', j) && nodes'[j].children == ChildIds(f, nodes', j) {
      assert HangsRight(f, nodes, j);
    }
  }

  lemma LaterNodesAreLeaves(f: nat, nodes: seq<PlanNode>, lo: nat, j: nat)
    requires IsHeap(f, nodes) && |nodes| <= f * lo + 1 && lo <= j < |nodes|
    ensures nodes[j].children == []
  {
    MulMonotone(f, lo, j);
    NoChildrenYet(f, nodes, j);
  }

  /** Nodes before the frontier already had children when the tier was started, and have them still. */
  lemma EarlierNodesAreParents(f: nat, nodes: seq<PlanNode>, lo: nat, j: nat)
    requires IsHeap(f, nodes) && j < lo && f * lo + 1 <= |nodes| && j < |nodes|
    ensures nodes[j].children != []
  {
    MulMonotone(f, j + 1, lo);
    FirstChildMonotone(f, j, |nodes|);
    assert FirstChild(f, j, |nodes|) < FirstChild(f, j + 1, |nodes|);
  }

  /** After a tier: nodes past the old frontier are still leaves, so every role is right again. */
  lemma RolesRightAgain(f: nat, nodes0: seq<PlanNode>, pool0: seq<Id>, nodes1: seq<PlanNode>, pool1: seq<Id>, lo: nat,
                        tier: nat, nodes: seq<PlanNode>, j: nat)
    requires IsHeap(f, nodes0) && IsHeap(f, nodes1) && Grown(nodes0, pool0, nodes1, pool1, tier)
    requires j < |nodes0| ==> nodes0[j].role == RightRole(nodes0, j)
    requires |nodes0| == f * lo + 1 && |nodes1| <= f * |nodes0| + 1 && j < |nodes| == |nodes1|
    requires nodes[j] == if lo <= j < |nodes0| && nodes1[j].children != [] && nodes1[j].role != Origin
                         then nodes1[j].(role := Relay) else nodes1[j]
    ensures nodes[j].role == RightRole(nodes, j)
    ensures j >= |nodes0| ==> nodes[j].children == []
  {
    if j >= |nodes0| {
      LaterNodesAreLeaves(f, nodes1, |nodes0|, j);
    } else if j >= lo {
      LaterNodesAreLeaves(f, nodes0, lo, j);
    } else {
      EarlierNodesAreParents(f, nodes0, lo, j);
      EarlierNodesAreParents(f, nodes1, lo, j);
    }
  }

  // ---- The whole tree ----

  /** Between tiers: the frontier `[lo..)` are the leaves of the last tier, complete unless the pool ran out. */
  ghost predicate BetweenTiers(origin: Id, f: nat, v: nat, viewerCount: nat, pool0: seq<Id>, nodes: seq<PlanNode>,
                               links: seq<Link>, pool: seq<Id>, lo: nat, tier: nat) {
    && IsHeap(f, nodes) && LinksMatch(nodes, links)
    && Ids(nodes) + pool == [origin] + pool0
    && lo == Above(f, tier) && lo < |nodes| <= f * lo + 1
    && (forall j :: 0 <= j < |nodes| ==> nodes[j].role == RightRole(nodes, j) && nodes[j].viewerSlots == 0)
    && (forall j :: lo <= j < |nodes| ==> nodes[j].children == [] && nodes[j].tier == tier)
    && (forall j :: 0 <= j < lo ==> nodes[j].tier < tier)
    && (pool != [] ==> |nodes| == f * lo + 1 && |nodes| - lo == Pow(f, tier))
    && (tier >= 1 ==> Pow(f, tier - 1) * v < viewerCount)
  }

  /** The frontier of a full tier grows by the fanout. */
  lemma FrontierGrows(f: nat, lo: nat, hi: nat, next: nat, tier: nat)
    requires lo <= hi && hi == f * lo + 1 && next == f * hi + 1 && hi - lo == Pow(f, tier)
    ensures next - hi == Pow(f, tier + 1)
  {
    assert f * hi - f * lo == f * (hi - lo);
  }

  lemma TierDone(origin: Id, f: nat, v: nat, viewerCount: nat, pool0: seq<Id>, n0: seq<PlanNode>, links0: seq<Link>,
                 p0: seq<Id>, lo: nat, tier: nat, n1: seq<PlanNode>, links: seq<Link>, p1: seq<Id>,
                 nodes: seq<PlanNode>)
    requires BetweenTiers(origin, f, v, viewerCount, pool0, n0, links0, p0, lo, tier)
    requires p0 != [] && (|n0| - lo) * v < viewerCount
    requires IsHeap(f, n1) && LinksMatch(n1, links) && Grown(n0, p0, n1, p1, tier + 1)
    requires |n0| < |n1| <= f * |n0| + 1 && (p1 != [] ==> |n1| == f * |n0| + 1)
    requires |nodes| == |n1|
    requires forall j :: 0 <= j < |nodes| ==>
               nodes[j] == if lo <= j < |n0| && n1[j].children != [] && n1[j].role != Origin
                           then n1[j].(role := Relay) else n1[j]
    ensures BetweenTiers(origin, f, v, viewerCount, pool0, nodes, links, p1, |n0|, tier + 1)
  {
    SameShapeIsHeap(f, n1, nodes);
    forall j | 0 <= j < |nodes|
      ensures nodes[j].role == RightRole(nodes, j) && (j >= |n0| ==> nodes[j].children == [])
    {
      RolesRightAgain(f, n0, p0, n1, p1, lo, tier + 1, nodes, j);
    }
    if p1 != [] {
      FrontierGrows(f, lo, |n0|, |n1|, tier);
    }
  }

  method BuildTree(origin: Id, f: nat, v: nat, viewerCount: nat, pool0: seq<Id>)
    returns (nodes: seq<PlanNode>, links: seq<Link>, tiers: nat)
    requires f >= 1
    ensures TreePart(origin, f, pool0, nodes, links)
    ensures DepthPart(f, v, viewerCount, pool0, nodes, tiers)
    ensures forall j :: 0 <= j < |nodes| ==> nodes[j].viewerSlots == 0
  {
    nodes, links := [PlanNode(origin, Origin, None, [], 0, 0)], [];
    var pool := pool0;
    var lo: nat, tier: nat := 0, 0;
    OriginAlone(origin, f, v, viewerCount, pool0, nodes[0]);
    while (|nodes| - lo) * v < viewerCount && pool != []
      invariant BetweenTiers(origin, f, v, viewerCount, pool0, nodes, links, pool, lo, tier)
      decreases |pool|
    {
      var hi := |nodes|;
      nodes, links, pool := AddTier(origin, f, v, viewerCount, pool0, nodes, links, pool, lo, tier);
      lo := hi;
      tier := tier + 1;
    }
    tiers := tier + 1;
    TreeDone(origin, f, v, viewerCount, pool0, nodes, links, pool, lo, tier);
  }

  lemma OriginAlone(origin: Id, f: nat, v: nat, viewerCount: nat, pool: seq<Id>, n: PlanNode)
    requires f >= 1 && n == PlanNode(origin, Origin, None, [], 0, 0)
    ensures BetweenTiers(origin, f, v, viewerCount, pool, [n], [], pool, 0, 0)
  {
    NewestHasNoChildren(f, [n]);
    assert Ids([n]) == [origin];
  }

  lemma TreeDone(origin: Id, f: nat, v: nat, viewerCount: nat, pool0: seq<Id>, nodes: seq<PlanNode>, links: seq<Link>,
                 pool: seq<Id>, lo: nat, tier: nat)
    requires BetweenTiers(origin, f, v, viewerCount, pool0, nodes, links, pool, lo, tier)
    requires (|nodes| - lo) * v >= viewerCount || pool == []
    ensures TreePart(origin, f, pool0, nodes, links)
    ensures DepthPart(f, v, viewerCount, pool0, nodes, tier + 1)
    ensures forall j :: 0 <= j < |nodes| ==> nodes[j].viewerSlots == 0
  {
    assert Ids(nodes) == (Ids(nodes) + pool)[..|nodes|];
    assert |Ids(nodes) + pool| == |[origin] + pool0|;
  }

  /** A full tier is as wide as the power says. */
  lemma {:induction false} TierWidth(f: nat, t: nat)
    ensures Above(f, t + 1) == Above(f, t) + Pow(f, t)
  {
    if t > 0 {
      TierWidth(f, t - 1);
      assert f * (Above(f, t - 1) + Pow(f, t - 1)) == f * Above(f, t - 1) + f * Pow(f, t - 1);
    }
  }

  /** One round of the planner: a tier is placed and its parents become relays. */
  method AddTier(ghost origin: Id, f: nat, ghost v: nat, ghost viewerCount: nat, ghost pool0: seq<Id>, n: seq<PlanNode>,
                 l: seq<Link>, p: seq<Id>, lo: nat, ghost tier: nat)
    returns (nodes: seq<PlanNode>, links: seq<Link>, pool: seq<Id>)
    requires BetweenTiers(origin, f, v, viewerCount, pool0, n, l, p, lo, tier)
    requires (|n| - lo) * v < viewerCount && p != []
    ensures BetweenTiers(origin, f, v, viewerCount, pool0, nodes, links, pool, |n|, tier + 1)
    ensures |pool| < |p|
  {
    nodes, links, pool := PlaceTier(f, n, l, p, lo, tier);
    ghost var placed := nodes;
    nodes := MarkRelays(nodes, lo, |n|);
    TierDone(origin, f, v, viewerCount, pool0, n, l, p, lo, tier, placed, links, pool, nodes);
    assert |Ids(placed) + pool| == |Ids(n) + p|;
  }

  // ---- Seating ----

  lemma {:induction false} SlotsOfPrefix(nodes: seq<PlanNode>, k: nat)
    requires k <= |nodes| && forall j :: k <= j < |nodes| ==> nodes[j].viewerSlots == 0
    ensures TotalSlots(nodes) == TotalSlots(nodes[..k]) && SeatedIds(nodes) == SeatedIds(nodes[..k])
    decreases |nodes|
  {
    if k < |nodes| {
      SlotsOfPrefix(nodes[..|nodes| - 1], k);
      assert nodes[..|nodes| - 1][..k] == nodes[..k];
    } else {
      assert nodes[..k] == nodes;
    }
  }

  lemma {:induction false} CapacityOfSameShape(origin: Id, v: nat, capacity: map<Id, nat>, a: seq<PlanNode>,
                                               b: seq<PlanNode>, from: nat)
    requires SameShape(a, b) && from <= |a|
    ensures LeafCapacity(origin, v, capacity, a, from) == LeafCapacity(origin, v, capacity, b, from)
    decreases |a| - from
  {
    if from < |a| {
      CapacityOfSameShape(origin, v, capacity, a, b, from + 1);
    }
  }

  /** The first `k` nodes have been considered: leaves are filled in order while viewers remain. */
  ghost predicate SeatedUpTo(origin: Id, v: nat, viewerCount: nat, capacity: map<Id, nat>, nodes0: seq<PlanNode>,
                             nodes: seq<PlanNode>, edges: seq<Id>, remaining: nat, k: nat) {
    && k <= |nodes| && remaining <= viewerCount
    && SameShape(nodes0, nodes) && (forall j :: 0 <= j < |nodes| ==> nodes[j].role == nodes0[j].role)
    && (forall j :: k <= j < |nodes| ==> nodes[j].viewerSlots == 0)
    && SlotsFit(origin, v, capacity, nodes)
    && TotalSlots(nodes[..k]) == viewerCount - remaining && edges == SeatedIds(nodes[..k])
    && LeafCapacity(origin, v, capacity, nodes0, 0) >= viewerCount - remaining
    && (remaining > 0 ==> LeafCapacity(origin, v, capacity, nodes0, 0)
                          == viewerCount - remaining + LeafCapacity(origin, v, capacity, nodes0, k))
  }

  method SeatNode(origin: Id, v: nat, ghost viewerCount: nat, capacity: map<Id, nat>, ghost nodes0: seq<PlanNode>,
                  n: seq<PlanNode>, e: seq<Id>, left: nat, k: nat)
    returns (nodes: seq<PlanNode>, edges: seq<Id>, remaining: nat)
    requires SeatedUpTo(origin, v, viewerCount, capacity, nodes0, n, e, left, k) && k < |n| && left > 0
    ensures SeatedUpTo(origin, v, viewerCount, capacity, nodes0, nodes, edges, remaining, k + 1)
  {
    nodes, edges, remaining := n, e, left;
    if nodes[k].children == [] {
      var slots := Min(CapacityOf(origin, v, capacity, nodes[k].id), remaining);
      nodes := nodes[k := nodes[k].(viewerSlots := slots)];
      remaining := remaining - slots;
      if slots > 0 {
        edges := edges + [nodes[k].id];
      }
    }
    assert nodes[..k + 1][..k] == n[..k];
  }

  /** Fills the leaves in placement order until nobody is left. */
  method SeatViewers(origin: Id, v: nat, viewerCount: nat, capacity: map<Id, nat>, nodes0: seq<PlanNode>)
    returns (nodes: seq<PlanNode>, edges: seq<Id>, remaining: nat)
    requires forall j :: 0 <= j < |nodes0| ==> nodes0[j].viewerSlots == 0
    ensures SameShape(nodes0, nodes) && forall j :: 0 <= j < |nodes| ==> nodes[j].role == nodes0[j].role
    ensures SlotsFit(origin, v, capacity, nodes)
    ensures remaining <= viewerCount && TotalSlots(nodes) == viewerCount - remaining
    ensures viewerCount - remaining == Min(viewerCount, LeafCapacity(origin, v, capacity, nodes, 0))
    ensures edges == SeatedIds(nodes)
  {
    nodes, edges, remaining := nodes0, [], viewerCount;
    var k := 0;
    while k < |nodes| && remaining > 0
      invariant SeatedUpTo(origin, v, viewerCount, capacity, nodes0, nodes, edges, remaining, k)
      decreases |nodes| - k
    {
      nodes, edges, remaining := SeatNode(origin, v, viewerCount, capacity, nodes0, nodes, edges, remaining, k);
      k := k + 1;
    }
    SlotsOfPrefix(nodes, k);
    CapacityOfSameShape(origin, v, capacity, nodes0, nodes, 0);
  }

  lemma SeatingKeepsTree(origin: Id, f: nat, pool: seq<Id>, built: seq<PlanNode>, nodes: seq<PlanNode>,
                         links: seq<Link>)
    requires TreePart(origin, f, pool, built, links) && SameShape(built, nodes)
    requires forall j :: 0 <= j < |nodes| ==> nodes[j].role == built[j].role
    ensures TreePart(origin, f, pool, nodes, links)
  {
    SameShapeIsHeap(f, built, nodes);
  }

  lemma {:induction false} PoolMembers(available: seq<Id>, origin: Id)
    ensures forall id :: id in WithoutOrigin(available, origin) ==> id in available && id != origin
  {
    if available != [] {
      PoolMembers(available[1..], origin);
    }
  }

  lemma {:induction false} PoolIsDistinct(available: seq<Id>, origin: Id)
    requires NoDup(available)
    ensures NoDup(WithoutOrigin(available, origin))
  {
    if available != [] {
      var rest := WithoutOrigin(available[1..], origin);
      PoolIsDistinct(available[1..], origin);
      PoolMembers(available[1..], origin);
      forall j | 0 <= j < |rest|
        ensures rest[j] != available[0]
      {
        assert rest[j] in available[1..];
      }
    }
  }

  /** From distinct ids no node is placed twice, so the list of nodes is a map by id. */
  lemma PlacedOnce(origin: Id, available: seq<Id>, nodes: seq<PlanNode>)
    requires NoDup(available) && Places(origin, WithoutOrigin(available, origin), nodes)
    ensures NoDup(Ids(nodes))
  {
    var pool := WithoutOrigin(available, origin);
    PoolIsDistinct(available, origin);
    PoolMembers(available, origin);
    forall i, j | 0 <= i < j < |nodes|
      ensures Ids(nodes)[i] != Ids(nodes)[j]
    {
      assert Ids(nodes)[j] == pool[j - 1] && pool[j - 1] in pool;
      assert i > 0 ==> Ids(nodes)[i] == pool[i - 1];
    }
  }

  // ---- The planner ----

  method PlanCascadeTree(origin: Id, viewerCount: nat, fanout: int, viewersPerNode: int, available: seq<Id>,
                         capacity: map<Id, nat>) returns (r: Planned)
    ensures r.InvalidArgument? <==> fanout < 1 || viewersPerNode < 1
    ensures r.Planned? ==>
              PlanOk(origin, viewerCount, fanout, viewersPerNode, WithoutOrigin(available, origin), capacity, r.plan)
    ensures r.Planned? && NoDup(available) ==> NoDup(Ids(r.plan.nodes))
  {
    if fanout < 1 {
      return InvalidArgument;
    }
    if viewersPerNode < 1 {
      return InvalidArgument;
    }
    var pool := WithoutOrigin(available, origin);
    var built, links, tiers := BuildTree(origin, fanout, viewersPerNode, viewerCount, pool);
    var nodes, edges, remaining := SeatViewers(origin, viewersPerNode, viewerCount, capacity, built);
    SeatingKeepsTree(origin, fanout, pool, built, nodes, links);
    r := Planned(Plan(origin, nodes, links, edges, tiers, viewerCount - remaining, remaining));
    assert DepthPart(fanout, viewersPerNode, viewerCount, pool, nodes, tiers);
    if NoDup(available) {
      PlacedOnce(origin, available, nodes);
    }
  }

  // ---- What a plan means ----

  /** The links are exactly the parent-child pairs of the tree. */
  lemma LinksAreParentChildPairs(origin: Id, f: nat, pool: seq<Id>, nodes: seq<PlanNode>, links: seq<Link>,
                                 from: Id, to: Id)
    requires TreePart(origin, f, pool, nodes, links)
    ensures Link(from, to) in links <==> exists p :: 0 <= p < |nodes| && nodes[p].id == from && to in nodes[p].children
  {
    if Link(from, to) in links {
      var p := LinkHasParent(f, nodes, links, from, to);
    }
    if p :| 0 <= p < |nodes| && nodes[p].id == from && to in nodes[p].children {
      ChildHasLink(f, nodes, links, p, to);
    }
  }

  lemma LinkHasParent(f: nat, nodes: seq<PlanNode>, links: seq<Link>, from: Id, to: Id) returns (p: nat)
    requires IsHeap(f, nodes) && LinksMatch(nodes, links) && Link(from, to) in links
    ensures p < |nodes| && nodes[p].id == from && to in nodes[p].children
  {
    var i :| 0 <= i < |links| && links[i] == Link(from, to);
    var j := i + 1;
    assert links[j - 1] == Link(nodes[j].parentId.value, nodes[j].id);
    assert HangsRight(f, nodes, j);
    p := (j - 1) / f;
    ParentBounds(f, j);
    ChildSits(f, nodes, p, j);
  }

  lemma ChildHasLink(f: nat, nodes: seq<PlanNode>, links: seq<Link>, p: nat, to: Id)
    requires IsHeap(f, nodes) && LinksMatch(nodes, links) && p < |nodes| && to in nodes[p].children
    ensures Link(nodes[p].id, to) in links
  {
    var j := ChildIndex(f, nodes, p, to);
    assert HangsRight(f, nodes, j);
    assert links[j - 1] == Link(nodes[p].id, to);
  }

  lemma ParentBounds(f: nat, j: nat)
    requires f >= 1 && j >= 1
    ensures 0 <= (j - 1) / f < j && NextUnder(f, j, (j - 1) / f)
  {
    var p := (j - 1) / f;
    assert j - 1 == f * p + (j - 1) % f;
  }

  lemma ChildSits(f: nat, nodes: seq<PlanNode>, p: nat, j: nat)
    requires p < j < |nodes| && NextUnder(f, j, p) && nodes[p].children == ChildIds(f, nodes, p)
    ensures nodes[j].id in nodes[p].children
  {
    var lo, hi := FirstChild(f, p, |nodes|), FirstChild(f, p + 1, |nodes|);
    assert lo <= j < hi by {
      FirstChildMonotone(f, p, |nodes|);
    }
    assert Ids(nodes)[lo..hi][j - lo] == Ids(nodes)[j];
  }

  lemma ChildIndex(f: nat, nodes: seq<PlanNode>, p: nat, id: Id) returns (j: nat)
    requires f >= 1 && p < |nodes| && id in ChildIds(f, nodes, p)
    ensures 1 <= j < |nodes| && nodes[j].id == id && (j - 1) / f == p
  {
    FirstChildMonotone(f, p, |nodes|);
    var i: nat :| i < |ChildIds(f, nodes, p)| && ChildIds(f, nodes, p)[i] == id;
    assert FirstChild(f, p, |nodes|) == f * p + 1 && i < f;
    j := f * p + 1 + i;
    assert ChildIds(f, nodes, p)[i] == Ids(nodes)[j];
    DivUnique(f, p, i);
  }

  /** No node forwards to more than `fanout` others. */
  lemma FanoutRespected(f: nat, nodes: seq<PlanNode>, j: nat)
    requires IsHeap(f, nodes) && j < |nodes|
    ensures |nodes[j].children| <= f
  {
    FirstChildMonotone(f, j, |nodes|);
  }

  // ---- When a shortfall leaves nodes idle ----

  /** What a stretch of nodes seats. */
  function Seats(origin: Id, v: nat, capacity: map<Id, nat>, ids: seq<Id>): nat {
    if ids == [] then 0 else CapacityOf(origin, v, capacity, ids[0]) + Seats(origin, v, capacity, ids[1..])
  }

  /** The tier at which `n` nodes or more suffice, from tier `t` down, if it does not take them all. */
  function LastTier(f: nat, v: nat, viewerCount: nat, n: nat, t: nat): (last: Option<nat>)
    requires f >= 1
    ensures last.Some? ==>
              t <= last.value && Above(f, last.value + 1) < n && Pow(f, last.value) * v >= viewerCount
    decreases n - Above(f, t)
  {
    AboveGrows(f, t);
    if Above(f, t + 1) >= n then None
    else if Pow(f, t) * v >= viewerCount then Some(t)
    else LastTier(f, v, viewerCount, n, t + 1)
  }

  lemma AboveGrows(f: nat, t: nat)
    requires f >= 1
    ensures Above(f, t) < Above(f, t + 1)
  {
    assert f * Above(f, t) >= 1 * Above(f, t);
  }

  lemma {:induction false} AboveMonotone(f: nat, t: nat, u: nat)
    requires f >= 1 && t <= u
    ensures Above(f, t) <= Above(f, u)
    decreases u - t
  {
    if t < u {
      AboveMonotone(f, t, u - 1);
      AboveGrows(f, u - 1);
    }
  }

  lemma {:induction false} PowMonotone(f: nat, t: nat, u: nat)
    requires f >= 1 && t <= u
    ensures 1 <= Pow(f, t) <= Pow(f, u)
    decreases u
  {
    if u > 0 {
      PowMonotone(f, if t < u then t else u - 1, u - 1);
      assert f * Pow(f, u - 1) >= 1 * Pow(f, u - 1);
    }
  }

  /**
   What a caller can compute from the request: the tier the planner stops at before it runs out of nodes is the slice
   of origin and pool between two full heaps, and that slice seats too few.
   */
  predicate LeavesIdle(origin: Id, viewerCount: nat, f: nat, v: nat, pool: seq<Id>, capacity: map<Id, nat>)
    requires f >= 1
  {
    var last := LastTier(f, v, viewerCount, |pool| + 1, 0);
    last.Some?
    && (AboveGrows(f, last.value);
        Seats(origin, v, capacity, ([origin] + pool)[Above(f, last.value)..Above(f, last.value + 1)]) < viewerCount)
  }

  /** A tier that is too narrow is passed over. */
  lemma {:induction false} LastTierFrom(f: nat, v: nat, viewerCount: nat, n: nat, t: nat, last: nat)
    requires f >= 1 && t <= last && Above(f, last + 1) < n && Pow(f, last) * v >= viewerCount
    requires last >= 1 ==> Pow(f, last - 1) * v < viewerCount
    ensures LastTier(f, v, viewerCount, n, t) == Some(last)
    decreases last - t
  {
    if t < last {
      AboveMonotone(f, t + 1, last + 1);
      PowMonotone(f, t, last - 1);
      MulOrderLoose(v, Pow(f, t), Pow(f, last - 1));
      LastTierFrom(f, v, viewerCount, n, t + 1, last);
    }
  }

  lemma MulOrderLoose(v: nat, a: nat, b: nat)
    requires a <= b
    ensures a * v <= b * v
  {
    MulOrder(v, a, b);
  }

  /** Nodes are left over exactly when some tier suffices before all are used, and that tier is the plan's last. */
  lemma LeftOverIff(f: nat, v: nat, viewerCount: nat, pool: seq<Id>, nodes: seq<PlanNode>, tiers: nat)
    requires f >= 1 && |nodes| <= |pool| + 1 && DepthPart(f, v, viewerCount, pool, nodes, tiers)
    ensures var last := LastTier(f, v, viewerCount, |pool| + 1, 0);
            |nodes| < |pool| + 1 <==> last.Some?
    ensures |nodes| < |pool| + 1 ==> LastTier(f, v, viewerCount, |pool| + 1, 0) == Some(tiers - 1)
  {
    var last := LastTier(f, v, viewerCount, |pool| + 1, 0);
    if |nodes| < |pool| + 1 {
      LastTierFrom(f, v, viewerCount, |pool| + 1, 0, tiers - 1);
    } else if last.Some? {
      if last.value + 2 <= tiers {
        PowMonotone(f, last.value, tiers - 2);
        MulOrderLoose(v, Pow(f, last.value), Pow(f, tiers - 2));
      } else {
        AboveMonotone(f, tiers, last.value + 1);
      }
    }
  }

  /** The leaves of a full heap are its last tier. */
  lemma {:induction false} LeavesOfFullHeap(origin: Id, f: nat, v: nat, capacity: map<Id, nat>, nodes: seq<PlanNode>,
                                            last: nat, from: nat)
    requires IsHeap(f, nodes) && from <= |nodes| == f * last + 1 && last < |nodes|
    requires forall j :: last <= j < |nodes| ==> nodes[j].children == []
    ensures LeafCapacity(origin, v, capacity, nodes, from)
            == Seats(origin, v, capacity, Ids(nodes)[if from < last then last else from..])
    decreases |nodes| - from
  {
    if from < last {
      EarlierNodesAreParents(f, nodes, last, from);
      LeavesOfFullHeap(origin, f, v, capacity, nodes, last, from + 1);
    } else if from < |nodes| {
      LeavesOfFullHeap(origin, f, v, capacity, nodes, last, from + 1);
      assert Ids(nodes)[from..][1..] == Ids(nodes)[from + 1..];
    }
  }

  /** A plan falls short while nodes are left over if and only if the request says so. */
  lemma ShortfallWithIdleNodesIff(origin: Id, viewerCount: nat, f: nat, v: nat, pool: seq<Id>, capacity: map<Id, nat>,
                                  plan: Plan)
    requires PlanOk(origin, viewerCount, f, v, pool, capacity, plan)
    ensures plan.unmetViewers > 0 && |plan.nodes| < |pool| + 1
            <==> LeavesIdle(origin, viewerCount, f, v, pool, capacity)
  {
    var nodes, last := plan.nodes, Above(f, plan.tiers - 1);
    LeftOverIff(f, v, viewerCount, pool, nodes, plan.tiers);
    if |nodes| < |pool| + 1 {
      SeatsOfFullPlan(origin, f, v, pool, capacity, nodes, last);
    }
  }

  lemma SeatsOfFullPlan(origin: Id, f: nat, v: nat, pool: seq<Id>, capacity: map<Id, nat>, nodes: seq<PlanNode>,
                        last: nat)
    requires Places(origin, pool, nodes) && IsHeap(f, nodes) && |nodes| == f * last + 1 && last < |nodes|
    requires forall j :: last <= j < |nodes| ==> nodes[j].children == []
    ensures LeafCapacity(origin, v, capacity, nodes, 0) == Seats(origin, v, capacity, ([origin] + pool)[last..|nodes|])
  {
    LeavesOfFullHeap(origin, f, v, capacity, nodes, last, 0);
    assert Ids(nodes)[last..] == ([origin] + pool)[last..|nodes|];
  }

  /** Every node but the origin, whose own entry is never read, seats at least as many as the planner reckons with. */
  ghost predicate Ample(origin: Id, v: nat, capacity: map<Id, nat>) {
    forall id :: id in capacity && id != origin ==> capacity[id] >= v
  }

  lemma {:induction false} AmpleSeats(origin: Id, v: nat, capacity: map<Id, nat>, ids: seq<Id>)
    requires Ample(origin, v, capacity)
    ensures Seats(origin, v, capacity, ids) >= |ids| * v
  {
    if ids != [] {
      AmpleSeats(origin, v, capacity, ids[1..]);
      assert |ids| * v == |ids[1..]| * v + v;
    }
  }

  lemma AmpleNeverIdle(origin: Id, viewerCount: nat, f: nat, v: nat, pool: seq<Id>, capacity: map<Id, nat>)
    requires f >= 1 && Ample(origin, v, capacity)
    ensures !LeavesIdle(origin, viewerCount, f, v, pool, capacity)
  {
    var last := LastTier(f, v, viewerCount, |pool| + 1, 0);
    if last.Some? {
      AboveGrows(f, last.value);
      TierWidth(f, last.value);
      AmpleSeats(origin, v, capacity, ([origin] + pool)[Above(f, last.value)..Above(f, last.value + 1)]);
    }
  }

  /** An id longer than every id in `ids`. */
  lemma {:induction false} FreshId(ids: set<Id>) returns (other: Id)
    ensures |other| >= 1 && other !in ids && forall id :: id in ids ==> |id| < |other|
  {
    if ids == {} {
      other := "x";
    } else {
      var id :| id in ids;
      var rest := FreshId(ids - {id});
      other := rest + id;
      forall x | x in ids
        ensures |x| < |other|
      {
        assert x == id || x in ids - {id};
      }
    }
  }

  /** One small node and two the map does not know: the small one and the next take the whole tier, the last is idle. */
  lemma SmallNodeLeavesOneIdle(origin: Id, v: nat, capacity: map<Id, nat>, a: Id, b: Id, c: Id)
    requires v >= 1 && CapacityOf(origin, v, capacity, a) < v && CapacityOf(origin, v, capacity, b) <= v
    ensures LeavesIdle(origin, 2 * v, 2, v, [a, b, c], capacity)
  {
    assert Above(2, 1) == 1 && Above(2, 2) == 3 && Pow(2, 0) == 1 && Pow(2, 1) == 2;
    assert LastTier(2, v, 2 * v, 4, 1) == Some(1);
    assert LastTier(2, v, 2 * v, 4, 0) == Some(1);
    assert [origin] + [a, b, c] == [origin, a, b, c];
    assert ([origin] + [a, b, c])[Above(2, 1)..Above(2, 2)] == [a, b];
    assert [a, b][1..] == [b] && [b][1..] == [];
    assert Seats(origin, v, capacity, [b]) == CapacityOf(origin, v, capacity, b);
    assert Seats(origin, v, capacity, [a, b])
           == CapacityOf(origin, v, capacity, a) + CapacityOf(origin, v, capacity, b);
  }

  /** Over all requests: no plan ever falls short while nodes are left over if and only if every node is ample. */
  lemma NeverIdleIffAmple(origin: Id, v: nat, capacity: map<Id, nat>)
    requires v >= 1
    ensures Ample(origin, v, capacity)
            <==> forall viewerCount: nat, f: nat, pool: seq<Id> ::
                   f >= 1 && origin !in pool && NoDup(pool) ==> !LeavesIdle(origin, viewerCount, f, v, pool, capacity)
  {
    if Ample(origin, v, capacity) {
      forall viewerCount: nat, f: nat, pool: seq<Id> | f >= 1
        ensures !LeavesIdle(origin, viewerCount, f, v, pool, capacity)
      {
        AmpleNeverIdle(origin, viewerCount, f, v, pool, capacity);
      }
    } else {
      var a :| a in capacity && a != origin && capacity[a] < v;
      var b := FreshId(capacity.Keys + {origin});
      var c := FreshId(capacity.Keys + {origin, b});
      SmallNodeLeavesOneIdle(origin, v, capacity, a, b, c);
      assert NoDup([a, b, c]) && origin !in [a, b, c];
    }
  }

  /** With ample nodes a shortfall means that every available node was used. */
  lemma ShortfallOnlyWhenExhausted(origin: Id, viewerCount: nat, f: nat, v: nat, pool: seq<Id>, capacity: map<Id, nat>,
                                   plan: Plan)
    requires Ample(origin, v, capacity)
    requires PlanOk(origin, viewerCount, f, v, pool, capacity, plan) && plan.unmetViewers > 0
    ensures Ids(plan.nodes) == [origin] + pool
  {
    ShortfallWithIdleNodesIff(origin, viewerCount, f, v, pool, capacity, plan);
    AmpleNeverIdle(origin, viewerCount, f, v, pool, capacity);
    assert pool[..|pool|] == pool;
  }

  /** With a smaller node it fails: two of three nodes are placed and do not suffice, the third stays idle. */
  lemma SmallNodesLeaveOthersIdle(origin: Id, v: nat, capacity: map<Id, nat>, a: Id, b: Id, c: Id, plan: Plan)
    requires v >= 1 && CapacityOf(origin, v, capacity, a) < v && CapacityOf(origin, v, capacity, b) <= v
    requires PlanOk(origin, 2 * v, 2, v, [a, b, c], capacity, plan)
    ensures plan.unmetViewers > 0 && Ids(plan.nodes) == [origin, a, b]
  {
    SmallNodeLeavesOneIdle(origin, v, capacity, a, b, c);
    ShortfallWithIdleNodesIff(origin, 2 * v, 2, v, [a, b, c], capacity, plan);
    LeftOverIff(2, v, 2 * v, [a, b, c], plan.nodes, plan.tiers);
    assert LastTier(2, v, 2 * v, 4, 1) == LastTier(2, v, 2 * v, 4, 0) == Some(1);
    assert Above(2, 2) == 3;
    assert [a, b, c][..2] == [a, b];
  }
}
