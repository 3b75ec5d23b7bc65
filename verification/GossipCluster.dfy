/**
 Many gossip members and a network that loses, duplicates, reorders, splits and misdelivers: a delivery may hand
 any member any list of entries each of which was once sent, mixed with malformed ones.
 */
module GossipCluster {
  import opened Common
  import opened GossipSpec

  datatype Peer = Peer(cfg: Config, node: Node)

  datatype Cluster = Cluster(peers: map<Id, Peer>, net: set<Entry>)

  datatype Step =
    | Join(cfg: Config, info: NodeInfo, seeds: set<Address>, now: int)
    | StartStep(x: Id, now: int)
    | StopStep(x: Id)
    | TickStep(x: Id, now: int)
    | ListStep(x: Id, now: int)
    | RegisterStep(x: Id, info: NodeInfo, now: int)
    | DeregisterStep(x: Id, id: Id)
    | DeliverStep(x: Id, entries: seq<WireEntry>, now: int)

  /** The node a step makes of the member it happens at. */
  function NodeStep(p: Peer, step: Step): Node {
    match step
    case StartStep(_, now) => Start(p.cfg, p.node, now)
    case StopStep(_) => Stop(p.cfg, p.node)
    case TickStep(_, now) => Tick(p.cfg, p.node, now)
    case ListStep(_, now) => Sweep(p.cfg, p.node, now)
    case RegisterStep(_, info, now) => Register(p.cfg, p.node, info, now)
    case DeregisterStep(_, id) => Deregister(p.node, id)
    case DeliverStep(_, entries, now) => Receive(p.cfg, p.node, entries, now)
    case Join(_, _, _, _) => p.node
  }

  predicate FromNetwork(c: Cluster, entries: seq<WireEntry>) {
    forall e | e in entries :: IsValidEntry(e) ==> Validated(e) in c.net
  }

  /** One step; everything a member knows may leak to the network after it. A step that cannot happen is skipped. */
  function Apply(c: Cluster, step: Step): Cluster {
    if step.Join? then
      if step.cfg.self in c.peers || step.info.id != step.cfg.self || step.cfg.self == "" then c
      else c.(peers := c.peers[step.cfg.self := Peer(step.cfg, NewNode(step.cfg, step.info, step.seeds, step.now))])
    else if step.x !in c.peers || (step.DeliverStep? && !FromNetwork(c, step.entries)) then c
    else
      var p := c.peers[step.x];
      var n := NodeStep(p, step);
      Cluster(c.peers[step.x := p.(node := n)], c.net + Digest(n.members))
  }

  function Execute(c: Cluster, steps: seq<Step>): Cluster
    decreases |steps|
  {
    if steps == [] then c else Execute(Apply(c, steps[0]), steps[1..])
  }

  const EMPTY := Cluster(map[], {})

  // ---- The invariant ----

  /** The incarnation a member holds for itself. */
  ghost function Own(p: Peer): nat {
    if p.cfg.self in p.node.members then p.node.members[p.cfg.self].incarnation else 0
  }

  ghost function Owns(c: Cluster): map<Id, nat> {
    map x | x in c.peers :: Own(c.peers[x])
  }

  /** A live claim never outruns its subject; a death claim outruns it by at most one. */
  ghost predicate Bounded(owns: map<Id, nat>, id: Id, incarnation: nat, alive: bool) {
    id in owns && incarnation <= owns[id] + if alive then 0 else 1
  }

  ghost predicate EntryOk(owns: map<Id, nat>, e: Entry) {
    Bounded(owns, e.id, e.incarnation, e.alive)
  }

  ghost predicate NodeOk(owns: map<Id, nat>, cfg: Config, n: Node) {
    && cfg.self in n.members
    && forall y :: y in n.members ==>
         n.members[y].info.id == y && y != "" && Bounded(owns, y, n.members[y].incarnation, n.members[y].alive)
  }

  ghost predicate PeersOk(owns: map<Id, nat>, peers: map<Id, Peer>) {
    forall x :: x in peers ==> peers[x].cfg.self == x && NodeOk(owns, peers[x].cfg, peers[x].node)
  }

  ghost predicate NetOk(owns: map<Id, nat>, net: set<Entry>) {
    forall e :: e in net ==> EntryOk(owns, e)
  }

  ghost predicate ClusterOk(c: Cluster) {
    PeersOk(Owns(c), c.peers) && NetOk(Owns(c), c.net)
  }

  // ---- Proof ----

  ghost predicate NoSmaller(owns: map<Id, nat>, owns': map<Id, nat>) {
    forall x :: x in owns ==> x in owns' && owns[x] <= owns'[x]
  }

  /** `owns` with this member's own incarnation after the step. */
  ghost function After(owns: map<Id, nat>, cfg: Config, n': Node): map<Id, nat> {
    owns[cfg.self := Own(Peer(cfg, n'))]
  }

  ghost predicate StepKeeps(owns: map<Id, nat>, cfg: Config, n: Node, n': Node) {
    Own(Peer(cfg, n)) <= Own(Peer(cfg, n')) && NodeOk(After(owns, cfg, n'), cfg, n')
  }

  ghost predicate Owner(owns: map<Id, nat>, cfg: Config, n: Node) {
    cfg.self in owns && owns[cfg.self] == Own(Peer(cfg, n)) && NodeOk(owns, cfg, n)
  }

  lemma StartStopKeep(owns: map<Id, nat>, cfg: Config, n: Node, now: int)
    requires Owner(owns, cfg, n)
    ensures StepKeeps(owns, cfg, n, Start(cfg, n, now)) && StepKeeps(owns, cfg, n, Stop(cfg, n))
  {
  }

  lemma RegisterKeeps(owns: map<Id, nat>, cfg: Config, n: Node, info: NodeInfo, now: int)
    requires Owner(owns, cfg, n)
    ensures StepKeeps(owns, cfg, n, Register(cfg, n, info, now))
  {
  }

  lemma DeregisterKeeps(owns: map<Id, nat>, cfg: Config, n: Node, id: Id)
    requires Owner(owns, cfg, n)
    ensures StepKeeps(owns, cfg, n, Deregister(n, id))
  {
  }

  lemma SweepKeeps(owns: map<Id, nat>, cfg: Config, n: Node, now: int)
    requires Owner(owns, cfg, n)
    ensures StepKeeps(owns, cfg, n, Sweep(cfg, n, now))
  {
  }

  lemma TickKeeps(owns: map<Id, nat>, cfg: Config, n: Node, now: int)
    requires Owner(owns, cfg, n)
    ensures StepKeeps(owns, cfg, n, Tick(cfg, n, now))
  {
    var bumped := Bumped(cfg, n, n.members[cfg.self].alive, now);
    SweepKeeps(After(owns, cfg, bumped), cfg, bumped, now);
    assert After(After(owns, cfg, bumped), cfg, Tick(cfg, n, now)) == After(owns, cfg, Tick(cfg, n, now));
  }

  /** A record about somebody else, bounded by its subject, may be put into the table. */
  lemma OtherPutKeeps(owns: map<Id, nat>, cfg: Config, n: Node, n': Node, id: Id, r: MemberRecord)
    requires Owner(owns, cfg, n) && id != cfg.self && id != "" && n'.members == n.members[id := r]
    requires r.info.id == id && Bounded(owns, id, r.incarnation, r.alive)
    ensures StepKeeps(owns, cfg, n, n')
  {
    assert After(owns, cfg, n') == owns;
  }

  /** So may a newer record about the member itself. */
  lemma SelfPutKeeps(owns: map<Id, nat>, cfg: Config, n: Node, n': Node, r: MemberRecord)
    requires Owner(owns, cfg, n) && n'.members == n.members[cfg.self := r]
    requires r.info.id == cfg.self && r.incarnation >= owns[cfg.self]
    ensures StepKeeps(owns, cfg, n, n')
  {
    NodeOkMonotone(owns, After(owns, cfg, n'), cfg, n);
  }

  lemma MergeKeeps(owns: map<Id, nat>, cfg: Config, n: Node, e: Entry, now: int)
    requires Owner(owns, cfg, n) && EntryOk(owns, e) && e.id != ""
    ensures StepKeeps(owns, cfg, n, Merge(cfg, n, e, now))
  {
    var n' := Merge(cfg, n, e, now);
    if e.id != cfg.self {
      OtherPutKeeps(owns, cfg, n, n', e.id, n'.members[e.id]);
    } else if MustRefute(n.members[cfg.self], e) {
      SelfPutKeeps(owns, cfg, n, n', n'.members[cfg.self]);
    } else {
      assert After(owns, cfg, n) == owns;
    }
  }

  ghost predicate EntriesOk(owns: map<Id, nat>, entries: seq<WireEntry>) {
    forall e :: e in entries && IsValidEntry(e) ==> EntryOk(owns, Validated(e))
  }

  /** Any number of refutations in one message stay within two of where the member started. */
  lemma {:induction false} MergeAllKeeps(owns: map<Id, nat>, cfg: Config, n: Node, entries: seq<WireEntry>, now: int,
                                         start: nat)
    requires Owner(owns, cfg, n) && EntriesOk(owns, entries)
    requires forall e :: e in entries && IsValidEntry(e) && e.id == cfg.self ==>
               Validated(e).incarnation <= start + if Validated(e).alive then 0 else 1
    requires start <= Own(Peer(cfg, n)) <= start + 2
    ensures StepKeeps(owns, cfg, n, MergeAll(cfg, n, entries, now))
    ensures Own(Peer(cfg, MergeAll(cfg, n, entries, now))) <= start + 2
    decreases |entries|
  {
    if entries != [] {
      var n' := if IsValidEntry(entries[0]) then Merge(cfg, n, Validated(entries[0]), now) else n;
      var owns' := After(owns, cfg, n');
      if IsValidEntry(entries[0]) {
        assert entries[0] in entries;
        MergeKeeps(owns, cfg, n, Validated(entries[0]), now);
      } else {
        assert owns' == owns;
      }
      forall e | e in entries[1..] && IsValidEntry(e) ensures EntryOk(owns', Validated(e)) && e in entries {
        assert EntryOk(owns, Validated(e));
      }
      MergeAllKeeps(owns', cfg, n', entries[1..], now, start);
      var last := MergeAll(cfg, n, entries, now);
      assert After(owns', cfg, last) == After(owns, cfg, last);
    }
  }

  lemma ReceiveKeeps(owns: map<Id, nat>, cfg: Config, n: Node, entries: seq<WireEntry>, now: int)
    requires Owner(owns, cfg, n) && EntriesOk(owns, entries)
    ensures StepKeeps(owns, cfg, n, Receive(cfg, n, entries, now))
    ensures Own(Peer(cfg, Receive(cfg, n, entries, now))) <= Own(Peer(cfg, n)) + 2
  {
    forall e | e in entries && IsValidEntry(e) && e.id == cfg.self
      ensures Validated(e).incarnation <= Own(Peer(cfg, n)) + if Validated(e).alive then 0 else 1
    {
      assert EntryOk(owns, Validated(e));
    }
    MergeAllKeeps(owns, cfg, n, entries, now, Own(Peer(cfg, n)));
  }

  lemma NodeStepKeeps(c: Cluster, step: Step)
    requires ClusterOk(c) && !step.Join? && step.x in c.peers
    requires step.DeliverStep? ==> FromNetwork(c, step.entries)
    ensures var p := c.peers[step.x]; StepKeeps(Owns(c), p.cfg, p.node, NodeStep(p, step))
  {
    var p := c.peers[step.x];
    var owns := Owns(c);
    match step {
      case DeliverStep(_, entries, now) => ReceiveKeeps(owns, p.cfg, p.node, entries, now);
      case TickStep(_, now) => TickKeeps(owns, p.cfg, p.node, now);
      case ListStep(_, now) => SweepKeeps(owns, p.cfg, p.node, now);
      case StartStep(_, now) => StartStopKeep(owns, p.cfg, p.node, now);
      case StopStep(_) => StartStopKeep(owns, p.cfg, p.node, 0);
      case RegisterStep(_, info, now) => RegisterKeeps(owns, p.cfg, p.node, info, now);
      case DeregisterStep(_, id) => DeregisterKeeps(owns, p.cfg, p.node, id);
    }
  }

  lemma NodeOkMonotone(owns: map<Id, nat>, owns': map<Id, nat>, cfg: Config, n: Node)
    requires NodeOk(owns, cfg, n) && NoSmaller(owns, owns')
    ensures NodeOk(owns', cfg, n)
  {
  }

  lemma PeersKeep(owns: map<Id, nat>, owns': map<Id, nat>, peers: map<Id, Peer>, x: Id, p: Peer)
    requires PeersOk(owns, peers) && NoSmaller(owns, owns')
    requires p.cfg.self == x && NodeOk(owns', p.cfg, p.node)
    ensures PeersOk(owns', peers[x := p])
  {
    forall y | y in peers ensures NodeOk(owns', peers[y].cfg, peers[y].node) {
      NodeOkMonotone(owns, owns', peers[y].cfg, peers[y].node);
    }
  }

  lemma NetKeeps(owns: map<Id, nat>, owns': map<Id, nat>, net: set<Entry>, cfg: Config, n: Node)
    requires NetOk(owns, net) && NoSmaller(owns, owns') && NodeOk(owns', cfg, n)
    ensures NetOk(owns', net + Digest(n.members))
  {
    forall e | e in net + Digest(n.members) ensures EntryOk(owns', e) {
      if e in net {
        assert EntryOk(owns, e);
      } else {
        var y :| y in n.members && EntryOf(n.members[y]) == e;
        assert Bounded(owns', y, n.members[y].incarnation, n.members[y].alive);
      }
    }
  }

  lemma OwnsAfter(peers: map<Id, Peer>, net: set<Entry>, net': set<Entry>, x: Id, p: Peer)
    ensures Owns(Cluster(peers[x := p], net')) == Owns(Cluster(peers, net))[x := Own(p)]
  {
  }

  lemma ReplaceKeeps(c: Cluster, x: Id, n': Node)
    requires ClusterOk(c) && x in c.peers && StepKeeps(Owns(c), c.peers[x].cfg, c.peers[x].node, n')
    ensures ClusterOk(Cluster(c.peers[x := c.peers[x].(node := n')], c.net + Digest(n'.members)))
  {
    var p := c.peers[x];
    var p' := p.(node := n');
    assert p' == Peer(p.cfg, n');
    NetKeeps(Owns(c), Owns(c)[x := Own(p')], c.net, p.cfg, n');
    WithPeerOk(c, x, p', c.net + Digest(n'.members));
  }

  /** A member put at `x`, with an incarnation no lower than before, and a network that is fine by it. */
  lemma WithPeerOk(c: Cluster, x: Id, p: Peer, net: set<Entry>)
    requires ClusterOk(c) && p.cfg.self == x && (x in c.peers ==> Own(c.peers[x]) <= Own(p))
    requires var owns' := Owns(c)[x := Own(p)]; NodeOk(owns', p.cfg, p.node) && NetOk(owns', net)
    ensures ClusterOk(Cluster(c.peers[x := p], net))
  {
    var owns, owns' := Owns(c), Owns(c)[x := Own(p)];
    OwnsAfter(c.peers, c.net, net, x, p);
    assert NoSmaller(owns, owns');
    PeersKeep(owns, owns', c.peers, x, p);
  }

  lemma NetMonotone(owns: map<Id, nat>, owns': map<Id, nat>, net: set<Entry>)
    requires NetOk(owns, net) && NoSmaller(owns, owns')
    ensures NetOk(owns', net)
  {
    forall e | e in net
      ensures EntryOk(owns', e)
    {
      assert EntryOk(owns, e);
    }
  }

  lemma NewNodeOk(owns: map<Id, nat>, cfg: Config, info: NodeInfo, seeds: set<Address>, now: int)
    requires info.id == cfg.self && cfg.self != ""
    ensures var n := NewNode(cfg, info, seeds, now); NodeOk(After(owns, cfg, n), cfg, n)
  {
  }

  lemma NewcomerKeeps(c: Cluster, p: Peer)
    requires ClusterOk(c) && p.cfg.self !in c.peers && NodeOk(Owns(c)[p.cfg.self := Own(p)], p.cfg, p.node)
    ensures ClusterOk(Cluster(c.peers[p.cfg.self := p], c.net))
  {
    assert NoSmaller(Owns(c), Owns(c)[p.cfg.self := Own(p)]);
    NetMonotone(Owns(c), Owns(c)[p.cfg.self := Own(p)], c.net);
    WithPeerOk(c, p.cfg.self, p, c.net);
  }

  lemma JoinKeeps(c: Cluster, step: Step)
    requires ClusterOk(c) && step.Join?
    ensures ClusterOk(Apply(c, step))
  {
    if !(step.cfg.self in c.peers || step.info.id != step.cfg.self || step.cfg.self == "") {
      var n := NewNode(step.cfg, step.info, step.seeds, step.now);
      NewNodeOk(Owns(c), step.cfg, step.info, step.seeds, step.now);
      NewcomerKeeps(c, Peer(step.cfg, n));
      assert Apply(c, step) == Cluster(c.peers[step.cfg.self := Peer(step.cfg, n)], c.net);
    }
  }

  lemma ApplyKeeps(c: Cluster, step: Step)
    requires ClusterOk(c)
    ensures ClusterOk(Apply(c, step))
  {
    if step.Join? {
      JoinKeeps(c, step);
    } else if step.x in c.peers && (step.DeliverStep? ==> FromNetwork(c, step.entries)) {
      NodeStepKeeps(c, step);
      ReplaceKeeps(c, step.x, NodeStep(c.peers[step.x], step));
    }
  }

  lemma {:induction false} ExecuteKeeps(c: Cluster, steps: seq<Step>)
    requires ClusterOk(c)
    ensures ClusterOk(Execute(c, steps))
    decreases |steps|
  {
    if steps != [] {
      ApplyKeeps(c, steps[0]);
      ExecuteKeeps(Apply(c, steps[0]), steps[1..]);
    }
  }

  // ---- Main results ----

  /** In every reachable cluster, every record and every entry in flight is bounded by its subject's own incarnation. */
  lemma ClaimsAreBounded(steps: seq<Step>)
    ensures var c := Execute(EMPTY, steps);
            && (forall e :: e in c.net ==>
                  e.id in c.peers && e.incarnation <= Own(c.peers[e.id]) + if e.alive then 0 else 1)
            && (forall x, y :: x in c.peers && y in c.peers[x].node.members ==>
                  var r := c.peers[x].node.members[y];
                  y in c.peers && r.incarnation <= Own(c.peers[y]) + if r.alive then 0 else 1)
  {
    var c := Execute(EMPTY, steps);
    ExecuteKeeps(EMPTY, steps);
    forall e | e in c.net
      ensures e.id in c.peers && e.incarnation <= Own(c.peers[e.id]) + if e.alive then 0 else 1
    {
      assert EntryOk(Owns(c), e);
    }
    forall x, y | x in c.peers && y in c.peers[x].node.members
      ensures var r := c.peers[x].node.members[y];
              y in c.peers && r.incarnation <= Own(c.peers[y]) + if r.alive then 0 else 1
    {
      assert NodeOk(Owns(c), c.peers[x].cfg, c.peers[x].node);
    }
  }

  /** A member only ever refutes its own death, never a live claim. */
  lemma OnlyDeathIsRefuted(steps: seq<Step>, e: Entry)
    requires var c := Execute(EMPTY, steps);
             e in c.net && e.id in c.peers && e.id in c.peers[e.id].node.members
             && MustRefute(c.peers[e.id].node.members[e.id], e)
    ensures var p := Execute(EMPTY, steps).peers[e.id]; !e.alive && Own(p) <= e.incarnation <= Own(p) + 1
  {
    var c := Execute(EMPTY, steps);
    ExecuteKeeps(EMPTY, steps);
    assert EntryOk(Owns(c), e);
    assert c.peers[e.id].cfg.self == e.id;
  }

  /** Whatever the network delivers in one message costs a member at most two incarnations. */
  lemma RefutationsAreCheap(steps: seq<Step>, x: Id, entries: seq<WireEntry>, now: int)
    requires x in Execute(EMPTY, steps).peers && FromNetwork(Execute(EMPTY, steps), entries)
    ensures var p := Execute(EMPTY, steps).peers[x];
            Own(p) <= Own(Peer(p.cfg, Receive(p.cfg, p.node, entries, now))) <= Own(p) + 2
  {
    var c := Execute(EMPTY, steps);
    ExecuteKeeps(EMPTY, steps);
    var p := c.peers[x];
    assert p.cfg.self == x && NodeOk(Owns(c), p.cfg, p.node);
    DeliveredOk(c, entries);
    ReceiveKeeps(Owns(c), p.cfg, p.node, entries, now);
  }

  lemma DeliveredOk(c: Cluster, entries: seq<WireEntry>)
    requires ClusterOk(c) && FromNetwork(c, entries)
    ensures EntriesOk(Owns(c), entries)
  {
  }

  lemma TickRaises(cfg: Config, n: Node, now: int)
    requires cfg.self in n.members && n.members[cfg.self].alive && n.members[cfg.self].info.id == cfg.self
    ensures var r := Tick(cfg, n, now).members;
            && cfg.self in r && r[cfg.self].alive && r[cfg.self].info.id == cfg.self
            && r[cfg.self].incarnation == n.members[cfg.self].incarnation + 1
  {
  }

  lemma HigherLiveClaimWins(owns: map<Id, nat>, cfg: Config, n: Node, e: Entry, now: int)
    requires NodeOk(owns, cfg, n) && e.alive && e.id != cfg.self && e.id in owns && e.incarnation >= owns[e.id] + 2
    ensures var heard := Merge(cfg, n, e, now); e.id in heard.members && heard.members[e.id].alive
  {
  }

  /**
   Recovery: whatever another member believes at the moment a live member starts them, two ticks later that member
   gossips an entry that makes the other believe it alive, provided the other stays as it is until the entry arrives; a
   time-out of its own in between raises its claim once more.
   */
  lemma TwoTicksRevive(steps: seq<Step>, x: Id, y: Id, t1: int, t2: int, now: int)
    requires var c := Execute(EMPTY, steps);
             x in c.peers && y in c.peers && x != y && x in c.peers[x].node.members && c.peers[x].node.members[x].alive
    ensures var c := Execute(EMPTY, steps);
            var p, q := c.peers[x], c.peers[y];
            exists e :: e in Digest(Tick(p.cfg, Tick(p.cfg, p.node, t1), t2).members) && e.id == x
                        && x in Merge(q.cfg, q.node, e, now).members && Merge(q.cfg, q.node, e, now).members[x].alive
  {
    var c := Execute(EMPTY, steps);
    ExecuteKeeps(EMPTY, steps);
    var p, q := c.peers[x], c.peers[y];
    assert NodeOk(Owns(c), p.cfg, p.node) && NodeOk(Owns(c), q.cfg, q.node);
    var once := Tick(p.cfg, p.node, t1);
    TickRaises(p.cfg, p.node, t1);
    TickRaises(p.cfg, once, t2);
    var e := EntryOf(Tick(p.cfg, once, t2).members[x]);
    HigherLiveClaimWins(Owns(c), q.cfg, q.node, e, now);
  }
}
