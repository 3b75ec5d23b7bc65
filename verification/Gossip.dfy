/** The gossip member as the object it is. */
module Gossip {
  import opened Common
  import opened GossipSpec

  /** The members when only those in `done` have been swept. */
  ghost function SweptSome(cfg: Config, members: map<Id, MemberRecord>, done: set<Id>, now: int)
    : map<Id, MemberRecord>
  {
    map id | id in members && (id !in done || !Forgotten(cfg, members[id], now)) ::
      if id in done then SweptRecord(cfg, members[id], now) else members[id]
  }

  ghost function PrunedSome(cfg: Config, members: map<Id, MemberRecord>, done: set<Id>, now: int): set<Address> {
    set id | id in members && id in done && Forgotten(cfg, members[id], now) && members[id].address.Some? ::
      members[id].address.value
  }

  lemma PrunedOneMore(cfg: Config, members: map<Id, MemberRecord>, done: set<Id>, id: Id, now: int)
    requires id in members
    ensures PrunedSome(cfg, members, done + {id}, now)
            == PrunedSome(cfg, members, done, now)
               + if Forgotten(cfg, members[id], now) && members[id].address.Some?
                 then {members[id].address.value} else {}
  {
  }

  class GossipMembership {
    const cfg: Config
    var members: map<Id, MemberRecord>
    var seeds: set<Address>
    var running: bool
    var published: map<Id, NodeInfo>

    function View(): Node reads this {
      Node(members, seeds, running, published)
    }

    constructor (cfg: Config, info: NodeInfo, seeds: set<Address>, now: int)
      ensures this.cfg == cfg && View() == NewNode(cfg, info, seeds, now)
    {
      this.cfg := cfg;
      members := map[cfg.self := MemberRecord(info, Some(cfg.address), 0, true, now)];
      this.seeds, running, published := seeds, false, map[];
    }

    method Notify()
      modifies `published
      ensures View() == GossipSpec.Notify(old(View()))
    {
      published := AliveInfos(members);
    }

    method Merge(wire: WireEntry, now: int) returns (changed: bool)
      modifies `members, `seeds
      ensures IsValidEntry(wire) ==> View() == GossipSpec.Merge(cfg, old(View()), Validated(wire), now)
                                     && changed == MergeChanges(cfg, old(View()), Validated(wire))
      ensures !IsValidEntry(wire) ==> View() == old(View()) && !changed
    {
      if !IsValidEntry(wire) {
        return false;
      }
      var e := Validated(wire);
      if e.id == cfg.self {
        if cfg.self in members {
          var self := members[cfg.self];
          var mustRefute := e.incarnation > self.incarnation || (e.incarnation == self.incarnation && !e.alive);
          if mustRefute {
            members := members[cfg.self := self.(incarnation := e.incarnation + 1, alive := true, lastSeen := now)];
          }
        }
        return false;
      }
      if e.id !in members {
        members := members[e.id := MemberRecord(InfoOf(e), e.address, e.incarnation, e.alive, now)];
        if e.address.Some? && e.address.value != "" {
          seeds := seeds + {e.address.value};
        }
        return e.alive;
      }
      var known := members[e.id];
      if e.incarnation == known.incarnation && !e.alive && known.alive {
        members := members[e.id := known.(alive := false, lastSeen := now)];
        return true;
      }
      if e.incarnation > known.incarnation {
        members := members[e.id := MemberRecord(InfoOf(e), e.address, e.incarnation, e.alive, now)];
        return known.alive != e.alive;
      }
      assert members == members[e.id := known];
      return false;
    }

    method OnReceive(entries: seq<WireEntry>, now: int)
      modifies this
      ensures View() == Receive(cfg, old(View()), entries, now)
    {
      var changed := false;
      for i := 0 to |entries|
        invariant published == old(published) && running == old(running)
        invariant MergeAll(cfg, View(), entries[i..], now) == MergeAll(cfg, old(View()), entries, now)
        invariant changed || AnyChange(cfg, View(), entries[i..], now) <==> AnyChange(cfg, old(View()), entries, now)
      {
        assert entries[i..][0] == entries[i] && entries[i..][1..] == entries[i + 1..];
        var c := Merge(entries[i], now);
        changed := c || changed;
      }
      if changed {
        Notify();
      }
    }

    /** The body of the sweep for one record of another node; returns whether it timed out. */
    method SweepRecord(id: Id, now: int) returns (timedOut: bool)
      requires id in members && id != cfg.self
      modifies `members, `seeds
      ensures var rec := old(members)[id];
              && timedOut == TimesOut(cfg, rec, now)
              && members == (if Forgotten(cfg, rec, now) then old(members) - {id}
                             else old(members)[id := SweptRecord(cfg, rec, now)])
              && seeds == if Forgotten(cfg, rec, now) && rec.address.Some? then old(seeds) - {rec.address.value}
                          else old(seeds)
    {
      var rec := members[id];
      timedOut := false;
      if rec.alive {
        if now - rec.lastSeen > cfg.deadMs {
          members := members[id := rec.(alive := false, incarnation := rec.incarnation + 1)];
          return true;
        }
      } else if now - rec.lastSeen > cfg.tombstoneMs {
        members := members - {id};
        if rec.address.Some? {
          seeds := seeds - {rec.address.value};
        }
        return false;
      }
      assert members == members[id := rec];
    }

    method Sweep(now: int)
      modifies this
      ensures View() == GossipSpec.Sweep(cfg, old(View()), now)
    {
      var changed := false;
      var todo := members.Keys - {cfg.self};
      ghost var before := members;
      ghost var done: set<Id> := {};
      while todo != {}
        invariant published == old(published) && running == old(running)
        invariant done + todo == before.Keys - {cfg.self} && done * todo == {}
        invariant members == SweptSome(cfg, before, done, now)
        invariant changed <==> exists id :: id in done && TimesOut(cfg, before[id], now)
        invariant seeds == old(seeds) - PrunedSome(cfg, before, done, now)
      {
        var id :| id in todo;
        var timedOut := SweepRecord(id, now);
        changed := changed || timedOut;
        todo := todo - {id};
        PrunedOneMore(cfg, before, done, id, now);
        done := done + {id};
      }
      assert members == Swept(cfg, before, now);
      assert PrunedSome(cfg, before, done, now) == PrunedSeeds(cfg, before, now);
      if changed {
        Notify();
      }
    }

    method Start(now: int)
      modifies this
      ensures View() == GossipSpec.Start(cfg, old(View()), now)
    {
      if running {
        return;
      }
      running := true;
      if cfg.self in members {
        var self := members[cfg.self];
        members := members[cfg.self := self.(alive := true, incarnation := self.incarnation + 1, lastSeen := now)];
        Notify();
      }
    }

    /** The returned message is what `_gossip` sends to `targets`. */
    method Stop() returns (message: set<Entry>)
      modifies this
      ensures View() == GossipSpec.Stop(cfg, old(View()))
      ensures message == if old(running) && cfg.self in members then Digest(members) else {}
    {
      if !running {
        return {};
      }
      running := false;
      message := {};
      if cfg.self in members {
        var self := members[cfg.self];
        members := members[cfg.self := self.(alive := false, incarnation := self.incarnation + 1)];
        message := Digest(members);
      }
    }

    method Register(info: NodeInfo, now: int) returns (message: set<Entry>)
      modifies this
      ensures View() == GossipSpec.Register(cfg, old(View()), info, now)
      ensures message == if info.id == cfg.self then Digest(members) else {}
    {
      if info.id == cfg.self {
        if cfg.self in members {
          var self := members[cfg.self];
          members := members[cfg.self := MemberRecord(info, self.address, self.incarnation + 1, true, now)];
        }
        Notify();
        return Digest(members);
      }
      if info.address.Some? && info.address.value != "" {
        seeds := seeds + {info.address.value};
      }
      return {};
    }

    method Deregister(id: Id) returns (message: set<Entry>)
      modifies this
      ensures View() == GossipSpec.Deregister(old(View()), id)
      ensures message == if id in old(members) && old(members)[id].alive then Digest(members) else {}
    {
      if id !in members || !members[id].alive {
        return {};
      }
      var rec := members[id];
      members := members[id := rec.(alive := false, incarnation := rec.incarnation + 1)];
      Notify();
      return Digest(members);
    }

    method Tick(now: int) returns (message: set<Entry>)
      modifies this
      ensures View() == GossipSpec.Tick(cfg, old(View()), now) && message == Digest(members)
    {
      if cfg.self in members {
        var self := members[cfg.self];
        members := members[cfg.self := self.(incarnation := self.incarnation + 1, lastSeen := now)];
      }
      Sweep(now);
      return Digest(members);
    }

    /**
     At most `fanout` distinct known addresses other than this node's own seed entry, all of them if there are few.
     */
    method PickTargets() returns (out: seq<Address>)
      ensures NoDup(out) && (forall a :: a in out ==> a in GossipTargets(cfg, View()))
      ensures |out| == Min(cfg.fanout, |GossipTargets(cfg, View())|)
    {
      var pool := GossipTargets(cfg, View());
      out := [];
      ghost var all := pool;
      while |out| < cfg.fanout && pool != {}
        invariant NoDup(out) && pool <= all && |out| + |pool| == |all| && |out| <= cfg.fanout
        invariant forall a :: a in out ==> a in all && a !in pool
        decreases |pool|
      {
        var a :| a in pool;
        out := out + [a];
        pool := pool - {a};
      }
    }
  }
}
