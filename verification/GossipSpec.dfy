/** One gossip member: its view of the cluster, and every operation that changes it as a function. */
module GossipSpec {
  import opened Common

  type Id = string
  type Address = string

  datatype NodeInfo = NodeInfo(id: Id, region: Option<string>, address: Option<Address>, metadata: map<string, string>)

  datatype MemberRecord = MemberRecord(info: NodeInfo, address: Option<Address>, incarnation: nat, alive: bool,
                                       lastSeen: int)

  /** An entry as it comes off the wire; its fields need not have the right shape. */
  datatype WireNumber = NotFinite | Finite(value: real)

  datatype WireEntry =
    | Malformed
    | WireEntry(id: Id, address: Option<Address>, region: Option<string>, metadata: map<string, string>,
                incarnation: WireNumber, alive: Option<bool>)

  /** An entry that passed validation. */
  datatype Entry = Entry(id: Id, address: Option<Address>, region: Option<string>, metadata: map<string, string>,
                         incarnation: nat, alive: bool)

  datatype Config = Config(self: Id, address: Address, deadMs: int, tombstoneMs: int, fanout: nat)

  /** `published` is the last snapshot handed to the watchers. */
  datatype Node = Node(members: map<Id, MemberRecord>, seeds: set<Address>, running: bool, published: map<Id, NodeInfo>)

  // ---- Validation ----

  predicate IsValidEntry(e: WireEntry) {
    e.WireEntry? && e.id != "" && e.incarnation.Finite? && e.incarnation.value == e.incarnation.value.Floor as real
    && e.incarnation.value >= 0.0 && e.alive.Some?
  }

  function Validated(e: WireEntry): Entry
    requires IsValidEntry(e)
  {
    Entry(e.id, e.address, e.region, e.metadata, e.incarnation.value.Floor, e.alive.value)
  }

  function ToWire(e: Entry): WireEntry {
    WireEntry(e.id, e.address, e.region, e.metadata, Finite(e.incarnation as real), Some(e.alive))
  }

  /** Whatever a node gossips passes validation unchanged, unless its id is empty. */
  lemma WireRoundTrip(e: Entry)
    ensures IsValidEntry(ToWire(e)) <==> e.id != ""
    ensures IsValidEntry(ToWire(e)) ==> Validated(ToWire(e)) == e
  {
  }

  // ---- One member's operations, as functions ----

  function NewNode(cfg: Config, info: NodeInfo, seeds: set<Address>, now: int): Node {
    Node(map[cfg.self := MemberRecord(info, Some(cfg.address), 0, true, now)], seeds, false, map[])
  }

  function AliveInfos(members: map<Id, MemberRecord>): map<Id, NodeInfo> {
    map id | id in members && members[id].alive :: members[id].info
  }

  function Notify(n: Node): Node {
    n.(published := AliveInfos(n.members))
  }

  function InfoOf(e: Entry): NodeInfo {
    NodeInfo(e.id, e.region, e.address, e.metadata)
  }

  predicate MustRefute(self: MemberRecord, e: Entry) {
    e.incarnation > self.incarnation || (e.incarnation == self.incarnation && !e.alive)
  }

  /** What `_merge` makes of a known record of another node. */
  function MergedRecord(known: MemberRecord, e: Entry, now: int): MemberRecord {
    if e.incarnation == known.incarnation && !e.alive && known.alive then known.(alive := false, lastSeen := now)
    else if e.incarnation > known.incarnation then MemberRecord(InfoOf(e), e.address, e.incarnation, e.alive, now)
    else known
  }

  function Merge(cfg: Config, n: Node, e: Entry, now: int): Node {
    if e.id == cfg.self then
      if cfg.self in n.members && MustRefute(n.members[cfg.self], e) then
        var refuted := n.members[cfg.self].(incarnation := e.incarnation + 1, alive := true, lastSeen := now);
        n.(members := n.members[cfg.self := refuted])
      else n
    else if e.id !in n.members then
      n.(members := n.members[e.id := MemberRecord(InfoOf(e), e.address, e.incarnation, e.alive, now)],
         seeds := if e.address.Some? && e.address.value != "" then n.seeds + {e.address.value} else n.seeds)
    else n.(members := n.members[e.id := MergedRecord(n.members[e.id], e, now)])
  }

  /** What `_merge` returns: whether another node's liveness changed. */
  predicate MergeChanges(cfg: Config, n: Node, e: Entry) {
    e.id != cfg.self &&
    if e.id !in n.members then e.alive
    else n.members[e.id].alive != MergedRecord(n.members[e.id], e, 0).alive
  }

  /** The entries of a message, merged in order; invalid ones are skipped. */
  function MergeAll(cfg: Config, n: Node, entries: seq<WireEntry>, now: int): Node
    decreases |entries|
  {
    if entries == [] then n
    else
      var n' := if IsValidEntry(entries[0]) then Merge(cfg, n, Validated(entries[0]), now) else n;
      MergeAll(cfg, n', entries[1..], now)
  }

  predicate AnyChange(cfg: Config, n: Node, entries: seq<WireEntry>, now: int)
    decreases |entries|
  {
    entries != [] &&
    var n' := if IsValidEntry(entries[0]) then Merge(cfg, n, Validated(entries[0]), now) else n;
    || (IsValidEntry(entries[0]) && MergeChanges(cfg, n, Validated(entries[0])))
    || AnyChange(cfg, n', entries[1..], now)
  }

  function Receive(cfg: Config, n: Node, entries: seq<WireEntry>, now: int): Node {
    var merged := MergeAll(cfg, n, entries, now);
    if AnyChange(cfg, n, entries, now) then Notify(merged) else merged
  }

  predicate TimesOut(cfg: Config, r: MemberRecord, now: int) {
    r.alive && now - r.lastSeen > cfg.deadMs
  }

  predicate Forgotten(cfg: Config, r: MemberRecord, now: int) {
    !r.alive && now - r.lastSeen > cfg.tombstoneMs
  }

  function SweptRecord(cfg: Config, r: MemberRecord, now: int): MemberRecord {
    if TimesOut(cfg, r, now) then r.(alive := false, incarnation := r.incarnation + 1) else r
  }

  function Swept(cfg: Config, members: map<Id, MemberRecord>, now: int): map<Id, MemberRecord> {
    map id | id in members && (id == cfg.self || !Forgotten(cfg, members[id], now)) ::
      if id == cfg.self then members[id] else SweptRecord(cfg, members[id], now)
  }

  function PrunedSeeds(cfg: Config, members: map<Id, MemberRecord>, now: int): set<Address> {
    set id | id in members && id != cfg.self && Forgotten(cfg, members[id], now) && members[id].address.Some? ::
      members[id].address.value
  }

  function Sweep(cfg: Config, n: Node, now: int): Node {
    var swept := n.(members := Swept(cfg, n.members, now), seeds := n.seeds - PrunedSeeds(cfg, n.members, now));
    if exists id :: id in n.members && id != cfg.self && TimesOut(cfg, n.members[id], now) then Notify(swept) else swept
  }

  function Bumped(cfg: Config, n: Node, alive: bool, lastSeen: int): Node
    requires cfg.self in n.members
  {
    var r := n.members[cfg.self];
    n.(members := n.members[cfg.self := r.(alive := alive, incarnation := r.incarnation + 1, lastSeen := lastSeen)])
  }

  function Start(cfg: Config, n: Node, now: int): Node {
    if n.running then n
    else if cfg.self !in n.members then n.(running := true)
    else Notify(Bumped(cfg, n.(running := true), true, now))
  }

  function Stop(cfg: Config, n: Node): Node {
    if !n.running then n
    else if cfg.self !in n.members then n.(running := false)
    else Bumped(cfg, n.(running := false), false, n.members[cfg.self].lastSeen)
  }

  function Register(cfg: Config, n: Node, info: NodeInfo, now: int): Node {
    if info.id == cfg.self then
      Notify(if cfg.self !in n.members then n
             else
               var r := n.members[cfg.self];
               n.(members := n.members[cfg.self := MemberRecord(info, r.address, r.incarnation + 1, true, now)]))
    else if info.address.Some? && info.address.value != "" then n.(seeds := n.seeds + {info.address.value})
    else n
  }

  function Deregister(n: Node, id: Id): Node {
    if id !in n.members || !n.members[id].alive then n
    else
      var r := n.members[id];
      Notify(n.(members := n.members[id := r.(alive := false, incarnation := r.incarnation + 1)]))
  }

  function Tick(cfg: Config, n: Node, now: int): Node {
    Sweep(cfg, if cfg.self in n.members then Bumped(cfg, n, n.members[cfg.self].alive, now) else n, now)
  }

  function EntryOf(r: MemberRecord): Entry {
    Entry(r.info.id, r.address, r.info.region, r.info.metadata, r.incarnation, r.alive)
  }

  /** What a gossip round tells the peers. */
  function Digest(members: map<Id, MemberRecord>): set<Entry> {
    set id | id in members :: EntryOf(members[id])
  }

  function GossipTargets(cfg: Config, n: Node): set<Address> {
    (set id | id in n.members && n.members[id].info.id != cfg.self && n.members[id].alive && n.members[id].address.Some?
              && n.members[id].address.value != "" :: n.members[id].address.value)
    + (n.seeds - {cfg.address})
  }
}
