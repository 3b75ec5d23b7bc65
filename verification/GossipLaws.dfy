/** Laws of a single member: merging is a join, views only grow, watchers never miss a change. */
module GossipLaws {
  import opened Common
  import opened GossipSpec

  // ---- The order ----

  /** Higher incarnation wins; at equal incarnation dead beats alive. */
  function Rank(incarnation: nat, alive: bool): nat {
    2 * incarnation + if alive then 0 else 1
  }

  lemma RankIsFaithful(i: nat, a: bool, j: nat, b: bool)
    ensures Rank(i, a) == Rank(j, b) <==> i == j && a == b
    ensures Rank(i, a) < Rank(j, b) <==> i < j || (i == j && a && !b)
  {
  }

  /** How far a node's view of `id` has got; -1 when it has none. */
  function RankIn(n: Node, id: Id): int {
    if id in n.members then Rank(n.members[id].incarnation, n.members[id].alive) else -1
  }

  function Max(a: int, b: int): int {
    if a >= b then a else b
  }

  /** The highest claim about `id` among the valid entries of a message. */
  function HighestClaim(entries: seq<WireEntry>, id: Id): int {
    if entries == [] then -1
    else
      var rest := HighestClaim(entries[1..], id);
      if IsValidEntry(entries[0]) && entries[0].id == id
      then Max(Rank(Validated(entries[0]).incarnation, Validated(entries[0]).alive), rest)
      else rest
  }

  // ---- Merging is a join ----

  lemma MergeIsMax(cfg: Config, n: Node, e: Entry, now: int, id: Id)
    requires id != cfg.self
    ensures RankIn(Merge(cfg, n, e, now), id)
            == if e.id == id then Max(RankIn(n, id), Rank(e.incarnation, e.alive)) else RankIn(n, id)
  {
  }

  lemma {:induction false} MergeAllIsMax(cfg: Config, n: Node, entries: seq<WireEntry>, now: int, id: Id)
    requires id != cfg.self
    ensures RankIn(MergeAll(cfg, n, entries, now), id) == Max(RankIn(n, id), HighestClaim(entries, id))
    decreases |entries|
  {
    if entries != [] {
      if IsValidEntry(entries[0]) {
        var e := Validated(entries[0]);
        MergeIsMax(cfg, n, e, now, id);
        MergeAllIsMax(cfg, Merge(cfg, n, e, now), entries[1..], now, id);
      } else {
        MergeAllIsMax(cfg, n, entries[1..], now, id);
      }
    }
  }

  ghost predicate SameEntries(a: seq<WireEntry>, b: seq<WireEntry>) {
    forall e :: e in a <==> e in b
  }

  lemma {:induction false} ClaimIsHighest(entries: seq<WireEntry>, id: Id)
    ensures forall e :: e in entries && IsValidEntry(e) && e.id == id ==>
              Rank(Validated(e).incarnation, Validated(e).alive) <= HighestClaim(entries, id)
    ensures HighestClaim(entries, id) == -1
            || exists e :: e in entries && IsValidEntry(e) && e.id == id
                           && Rank(Validated(e).incarnation, Validated(e).alive) == HighestClaim(entries, id)
  {
    if entries != [] {
      ClaimIsHighest(entries[1..], id);
      forall e | e in entries && IsValidEntry(e) && e.id == id
        ensures Rank(Validated(e).incarnation, Validated(e).alive) <= HighestClaim(entries, id)
      {
        assert e == entries[0] || e in entries[1..];
      }
      if HighestClaim(entries, id) != -1 && HighestClaim(entries, id) == HighestClaim(entries[1..], id) {
        var e :| e in entries[1..] && IsValidEntry(e) && e.id == id
                 && Rank(Validated(e).incarnation, Validated(e).alive) == HighestClaim(entries[1..], id);
        assert e in entries;
      } else if HighestClaim(entries, id) != -1 {
        assert entries[0] in entries;
      }
    }
  }

  /** Two nodes hold the same incarnation and liveness for `id`, or neither knows it. */
  ghost predicate SameClaim(x: Node, y: Node, id: Id) {
    && (id in x.members <==> id in y.members)
    && (id in x.members ==> x.members[id].incarnation == y.members[id].incarnation
                            && x.members[id].alive == y.members[id].alive)
  }

  lemma SameRankSameClaim(x: Node, y: Node, id: Id)
    ensures RankIn(x, id) == RankIn(y, id) <==> SameClaim(x, y, id)
  {
    if id in x.members && id in y.members {
      var a, b := x.members[id], y.members[id];
      RankIsFaithful(a.incarnation, a.alive, b.incarnation, b.alive);
    }
  }

  lemma SameEntriesSameClaim(a: seq<WireEntry>, b: seq<WireEntry>, id: Id)
    requires SameEntries(a, b)
    ensures HighestClaim(a, id) == HighestClaim(b, id)
  {
    ClaimIsHighest(a, id);
    ClaimIsHighest(b, id);
  }

  /** Order and repetition of entries do not matter to what a node ends up believing about others. */
  lemma MergeAllIgnoresOrderAndDuplicates(cfg: Config, n: Node, a: seq<WireEntry>, b: seq<WireEntry>, now: int,
                                          now': int, id: Id)
    requires SameEntries(a, b) && id != cfg.self
    ensures SameClaim(MergeAll(cfg, n, a, now), MergeAll(cfg, n, b, now'), id)
  {
    MergeAllIsMax(cfg, n, a, now, id);
    MergeAllIsMax(cfg, n, b, now', id);
    SameEntriesSameClaim(a, b, id);
    SameRankSameClaim(MergeAll(cfg, n, a, now), MergeAll(cfg, n, b, now'), id);
  }

  // ---- Messages ----

  /** One delivery: the entries and the time of arrival. */
  datatype Message = Message(entries: seq<WireEntry>, now: int)

  function ReceiveEach(cfg: Config, n: Node, messages: seq<Message>): Node
    decreases |messages|
  {
    if messages == [] then n
    else ReceiveEach(cfg, Receive(cfg, n, messages[0].entries, messages[0].now), messages[1..])
  }

  /** All entries of a run of messages. */
  function EntriesOf(messages: seq<Message>): seq<WireEntry> {
    if messages == [] then [] else messages[0].entries + EntriesOf(messages[1..])
  }

  lemma {:induction false} ClaimOfBoth(a: seq<WireEntry>, b: seq<WireEntry>, id: Id)
    ensures HighestClaim(a + b, id) == Max(HighestClaim(a, id), HighestClaim(b, id))
  {
    if a == [] {
      assert a + b == b;
      ClaimAtLeast(b, id);
    } else {
      assert (a + b)[1..] == a[1..] + b;
      ClaimOfBoth(a[1..], b, id);
    }
  }

  lemma {:induction false} ClaimAtLeast(entries: seq<WireEntry>, id: Id)
    ensures HighestClaim(entries, id) >= -1
  {
    if entries != [] {
      ClaimAtLeast(entries[1..], id);
    }
  }

  lemma {:induction false} ReceiveEachIsMax(cfg: Config, n: Node, messages: seq<Message>, id: Id)
    requires id != cfg.self
    ensures RankIn(ReceiveEach(cfg, n, messages), id) == Max(RankIn(n, id), HighestClaim(EntriesOf(messages), id))
    decreases |messages|
  {
    if messages != [] {
      var m := messages[0];
      MergeAllIsMax(cfg, n, m.entries, m.now, id);
      ReceiveEachIsMax(cfg, Receive(cfg, n, m.entries, m.now), messages[1..], id);
      ClaimOfBoth(m.entries, EntriesOf(messages[1..]), id);
    }
  }

  /**
   However the same entries are spread over messages, repeated, ordered and timed, a node ends up with the same
   incarnation and liveness for every other node.
   */
  lemma BatchingDoesNotMatter(cfg: Config, n: Node, a: seq<Message>, b: seq<Message>, id: Id)
    requires SameEntries(EntriesOf(a), EntriesOf(b)) && id != cfg.self
    ensures SameClaim(ReceiveEach(cfg, n, a), ReceiveEach(cfg, n, b), id)
  {
    ReceiveEachIsMax(cfg, n, a, id);
    ReceiveEachIsMax(cfg, n, b, id);
    SameEntriesSameClaim(EntriesOf(a), EntriesOf(b), id);
    SameRankSameClaim(ReceiveEach(cfg, n, a), ReceiveEach(cfg, n, b), id);
  }

  /** Records are filed under their own ids, and those are not empty. */
  ghost predicate FiledById(n: Node) {
    forall id :: id in n.members ==> n.members[id].info.id == id && id != ""
  }

  lemma {:induction false} MergeAllFiles(cfg: Config, n: Node, entries: seq<WireEntry>, now: int)
    requires FiledById(n)
    ensures FiledById(MergeAll(cfg, n, entries, now))
    decreases |entries|
  {
    if entries != [] {
      var n' := if IsValidEntry(entries[0]) then Merge(cfg, n, Validated(entries[0]), now) else n;
      MergeAllFiles(cfg, n', entries[1..], now);
    }
  }

  /** A message that carries a node's whole view, in any order, possibly with repetitions. */
  ghost predicate Carries(entries: seq<WireEntry>, n: Node) {
    && (forall e :: e in entries ==> IsValidEntry(e) && Validated(e) in Digest(n.members))
    && (forall id :: id in n.members ==> ToWire(EntryOf(n.members[id])) in entries)
  }

  /** Receiving a node's digest makes the receiver's view of every third node the join of the two views. */
  lemma DigestIsJoined(cfg: Config, n: Node, from: Node, entries: seq<WireEntry>, now: int, id: Id)
    requires FiledById(from) && Carries(entries, from) && id != cfg.self
    ensures RankIn(Receive(cfg, n, entries, now), id) == Max(RankIn(n, id), RankIn(from, id))
  {
    MergeAllIsMax(cfg, n, entries, now, id);
    ClaimIsHighest(entries, id);
    if id in from.members {
      WireRoundTrip(EntryOf(from.members[id]));
    }
    CarriedAbout(entries, from, id);
  }

  lemma CarriedAbout(entries: seq<WireEntry>, from: Node, id: Id)
    requires FiledById(from) && Carries(entries, from)
    ensures forall e :: e in entries && e.id == id ==> id in from.members && Validated(e) == EntryOf(from.members[id])
  {
    forall e | e in entries && e.id == id
      ensures id in from.members && Validated(e) == EntryOf(from.members[id])
    {
      var k :| k in from.members && EntryOf(from.members[k]) == Validated(e);
    }
  }

  /** Anti-entropy: after an exchange in both directions two nodes agree about every third one. */
  lemma ExchangeAgrees(cfgA: Config, a: Node, cfgB: Config, b: Node, toB: seq<WireEntry>, toA: seq<WireEntry>,
                       now: int, id: Id)
    requires FiledById(a) && FiledById(b) && id != cfgA.self && id != cfgB.self
    requires Carries(toB, a) && Carries(toA, Receive(cfgB, b, toB, now))
    ensures SameClaim(Receive(cfgA, a, toA, now), Receive(cfgB, b, toB, now), id)
  {
    DigestIsJoined(cfgB, b, a, toB, now, id);
    MergeAllFiles(cfgB, b, toB, now);
    DigestIsJoined(cfgA, a, Receive(cfgB, b, toB, now), toA, now, id);
    SameRankSameClaim(Receive(cfgA, a, toA, now), Receive(cfgB, b, toB, now), id);
  }

  // ---- Views only grow ----

  /** `n'` knows at least as much as `n`, but for the ids in `forgotten`. */
  ghost predicate Grows(n: Node, n': Node, forgotten: set<Id>) {
    forall id :: id in n.members && id !in forgotten ==> RankIn(n, id) <= RankIn(n', id)
  }

  lemma {:induction false} MergeAllGrows(cfg: Config, n: Node, entries: seq<WireEntry>, now: int)
    ensures Grows(n, MergeAll(cfg, n, entries, now), {})
    decreases |entries|
  {
    if entries != [] {
      var n' := if IsValidEntry(entries[0]) then Merge(cfg, n, Validated(entries[0]), now) else n;
      MergeAllGrows(cfg, n', entries[1..], now);
      assert Grows(n, n', {});
      forall id | id in n.members ensures RankIn(n, id) <= RankIn(MergeAll(cfg, n, entries, now), id) {
        assert RankIn(n, id) <= RankIn(n', id);
      }
    }
  }

  /** Every operation moves every view up ... */
  lemma OperationsGrow(cfg: Config, n: Node, entries: seq<WireEntry>, info: NodeInfo, id: Id, now: int)
    ensures Grows(n, Receive(cfg, n, entries, now), {})
    ensures Grows(n, Start(cfg, n, now), {}) && Grows(n, Stop(cfg, n), {})
    ensures Grows(n, Register(cfg, n, info, now), {}) && Grows(n, Deregister(n, id), {})
  {
    MergeAllGrows(cfg, n, entries, now);
  }

  /** ... and only the sweep may forget, exactly the expired tombstones of other nodes. */
  lemma SweepForgetsOnlyTombstones(cfg: Config, n: Node, now: int)
    ensures var gone := set k | k in n.members && k != cfg.self && Forgotten(cfg, n.members[k], now);
            && Grows(n, Sweep(cfg, n, now), gone)
            && gone == n.members.Keys - Sweep(cfg, n, now).members.Keys
  {
  }

  // ---- Watchers never miss a change ----

  /** The last snapshot names exactly the other nodes currently believed alive. */
  ghost predicate PublishedOk(cfg: Config, n: Node) {
    forall id :: id != cfg.self ==> (id in n.published <==> id in n.members && n.members[id].alive)
  }

  ghost predicate SameAlive(cfg: Config, n: Node, n': Node) {
    forall id :: id != cfg.self ==>
      (id in n.members && n.members[id].alive <==> id in n'.members && n'.members[id].alive)
  }

  lemma {:induction false} NoChangeMeansSameAlive(cfg: Config, n: Node, entries: seq<WireEntry>, now: int)
    requires !AnyChange(cfg, n, entries, now)
    ensures SameAlive(cfg, n, MergeAll(cfg, n, entries, now))
    ensures MergeAll(cfg, n, entries, now).published == n.published
    decreases |entries|
  {
    if entries != [] {
      var n' := if IsValidEntry(entries[0]) then Merge(cfg, n, Validated(entries[0]), now) else n;
      NoChangeMeansSameAlive(cfg, n', entries[1..], now);
      assert SameAlive(cfg, n, n') && n'.published == n.published;
    }
  }

  lemma ReceivePublishes(cfg: Config, n: Node, entries: seq<WireEntry>, now: int)
    requires PublishedOk(cfg, n)
    ensures PublishedOk(cfg, Receive(cfg, n, entries, now))
  {
    if !AnyChange(cfg, n, entries, now) {
      NoChangeMeansSameAlive(cfg, n, entries, now);
    }
  }

  lemma SweepPublishes(cfg: Config, n: Node, now: int)
    requires PublishedOk(cfg, n)
    ensures PublishedOk(cfg, Sweep(cfg, n, now))
  {
  }

  lemma OperationsPublish(cfg: Config, n: Node, info: NodeInfo, id: Id, now: int)
    requires PublishedOk(cfg, n)
    ensures PublishedOk(cfg, Start(cfg, n, now)) && PublishedOk(cfg, Stop(cfg, n))
    ensures PublishedOk(cfg, Register(cfg, n, info, now)) && PublishedOk(cfg, Deregister(n, id))
    ensures PublishedOk(cfg, Tick(cfg, n, now))
  {
    if cfg.self in n.members {
      SweepPublishes(cfg, Bumped(cfg, n, n.members[cfg.self].alive, now), now);
    } else {
      SweepPublishes(cfg, n, now);
    }
  }
}
